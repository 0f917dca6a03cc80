/** Where commits come from: in every interleaving each commit carries out one request that began
    before it, field by field, and no request is carried out twice. */
module Provenance {
  import opened Timestamp
  import opened Model
  import opened SecureCrypto
  import opened PlainVault
  import opened Vault
  import opened Machine
  import opened Invariant
  import opened Preservation
  import opened Interleavings
  import opened RecordedVersions
  import opened Races
  import Audit

  // ----- What it means to carry out a request -----

  /** Equal in everything a caller gives. */
  ghost predicate SameAction(stored: Action, given: Action) {
    stored == Action(stored.id, given.project, given.environment, given.name, given.executable, given.arguments,
                     given.directory, given.secrets, given.outputPolicy, stored.createdAt, stored.updatedAt)
  }

  /** The commit does what the request asks for, with ids and times drawn, and its event names the
      operation, who asked for it and the object. */
  ghost predicate Fulfils(commit: Commit, request: Request, draws: Draws) {
    match request
    case CreateSecret(meta, value) =>
      var id := if meta.id == "" then draws.objectId else meta.id;
      && commit.effect == Created(SecretMetadata(id, meta.project, meta.environment, meta.name, meta.profile,
                                                 meta.strengthBits, 1, Active, draws.now, draws.now), value)
      && commit.event == AuditEvent(draws.eventId, draws.loggedAt, "broker", "secret.create", id, "success", "")
    case RotateSecret(name, profile, strength, value) =>
      && commit.effect.Rotated?
      && var id, version, createdAt :=
           commit.effect.meta.id, commit.effect.meta.version, commit.effect.meta.createdAt;
      && commit.effect == Rotated(SecretMetadata(id, name.project, name.environment, name.name, profile, strength,
                                                 version, Active, createdAt, draws.now), value)
      && commit.event == AuditEvent(draws.eventId, draws.loggedAt, "broker", "secret.rotate", id, "success", "")
    case RevokeSecret(name) =>
      && commit.effect.RevokedSecret?
      && var meta := commit.effect.meta;
      && meta.project == name.project && meta.environment == name.environment && meta.name == name.name
      && meta.state == Revoked && meta.updatedAt == draws.now
      && commit.event == AuditEvent(draws.eventId, draws.loggedAt, "broker", "secret.revoke", meta.id, "success", "")
    case PutAction(action) =>
      && commit.effect.ActionPut? && SameAction(commit.effect.action, action)
      && commit.event == AuditEvent(draws.eventId, draws.loggedAt, "user", "action.configure", commit.effect.action.id,
                                    "success", "")
    case GetAction(_) => false
    case RecordAudit(event) =>
      && commit.effect == Logged
      && commit.event == AuditEvent(if event.id == "" then draws.eventId else event.id,
                                    if event.timestamp == ZERO_TIME then draws.loggedAt else event.timestamp,
                                    event.actor, event.operation, event.objectID, event.outcome, event.detail)
  }

  /** A task under way for the request. */
  ghost predicate Carries(task: Task, request: Request) {
    match task
    case Creating(_, meta, value) => request == CreateSecret(meta, value)
    case Rotating(_, read, _, profile, strength, value) =>
      request == RotateSecret(FullName(read.project, read.environment, read.name), profile, strength, value)
    case Revoking(_, read, _) => request == RevokeSecret(FullName(read.project, read.environment, read.name))
    case ReplacingAction(_, action, _) => request.PutAction? && SameAction(action, request.action)
    case WritingAction(_, action, _) => request.PutAction? && SameAction(action, request.action)
    case ReadingAction(_, name, _, _) => request == GetAction(name)
    case Logging(_, event) => request == RecordAudit(event)
  }

  lemma ReadCarries(t: Tables, history: seq<Commit>, keys: KeySet, request: Request, draws: Draws)
    requires TablesOK(t, history, keys) && Read(t, keys, request, draws).Ok?
    ensures Carries(Read(t, keys, request, draws).value, request)
  {
    if request.RotateSecret? || request.RevokeSecret? {
      ReadSecretCarries(t, history, keys, request, draws);
    }
  }

  lemma ReadSecretCarries(t: Tables, history: seq<Commit>, keys: KeySet, request: Request, draws: Draws)
    requires TablesOK(t, history, keys) && Read(t, keys, request, draws).Ok?
    requires request.RotateSecret? || request.RevokeSecret?
    ensures Carries(Read(t, keys, request, draws).value, request)
  {
    ReadIsFound(t, keys, request, draws);
    assert NameOf(FindSecret(t, keys, request.name).value.0) == request.name by {
      FoundSnapshot(t, history, keys, request.name);
    }
    FoundCarries(t, keys, request, draws);
  }

  lemma FoundCarries(t: Tables, keys: KeySet, request: Request, draws: Draws)
    requires Read(t, keys, request, draws).Ok? && (request.RotateSecret? || request.RevokeSecret?)
    requires FindSecret(t, keys, request.name).Ok?
    requires NameOf(FindSecret(t, keys, request.name).value.0) == request.name
    ensures Carries(Read(t, keys, request, draws).value, request)
  {
  }

  lemma AdvanceCarries(s: System, thread: nat, draws: Draws, request: Request)
    requires thread in s.tasks && Carries(s.tasks[thread], request)
    requires thread in AdvanceStep(s, thread, draws).tasks
    ensures Carries(AdvanceStep(s, thread, draws).tasks[thread], request)
  {
  }

  lemma AdvanceFulfils(s: System, thread: nat, draws: Draws, request: Request)
    requires thread in s.tasks && Carries(s.tasks[thread], request) && Commits(s, thread, draws)
    ensures var s' := AdvanceStep(s, thread, draws);
            && |s'.history| == |s.history| + 1 && s'.history[..|s.history|] == s.history && thread !in s'.tasks
            && Fulfils(s'.history[|s.history|], request, draws)
  {
  }

  // ----- Tasks come from requests -----

  /** After `n` steps the thread is still busy with the request that began at step `j`. */
  ghost predicate BusySince(start: System, events: seq<Event>, thread: nat, j: nat, n: nat) {
    && j < n <= |events| && events[j].Begin? && events[j].thread == thread
    && forall m :: j < m <= n ==> BusyWith(start, events, thread, events[j].request, m)
  }

  ghost predicate BusyWith(start: System, events: seq<Event>, thread: nat, request: Request, m: nat)
    requires m <= |events|
  {
    var s := Run(start, events[..m]);
    thread in s.tasks && Carries(s.tasks[thread], request)
  }

  lemma BusyLonger(start: System, events: seq<Event>, thread: nat, j: nat, n: nat)
    requires BusySince(start, events, thread, j, n) && n < |events| && thread in Run(start, events[..n + 1]).tasks
    ensures BusySince(start, events, thread, j, n + 1)
  {
    RunStep(start, events, n);
    var s, event := Run(start, events[..n]), events[n];
    assert BusyWith(start, events, thread, events[j].request, n);
    if event.Advance? && event.thread in s.tasks {
      if event.thread == thread {
        AdvanceCarries(s, thread, event.draws, events[j].request);
      } else {
        OthersKept(s, event.thread, event.draws, thread);
      }
    } else {
      OtherStepsWrite(s, event);
    }
    assert BusyWith(start, events, thread, events[j].request, n + 1);
  }

  lemma OthersKept(s: System, thread: nat, draws: Draws, other: nat)
    requires thread != other && other in s.tasks
    ensures var s' := AdvanceStep(s, thread, draws); other in s'.tasks && s'.tasks[other] == s.tasks[other]
  {
  }

  lemma {:induction false} TaskBegan(vaultID: string, wrapper: Wrapper, events: seq<Event>, thread: nat, n: nat)
    returns (j: nat)
    requires n <= |events| && thread in Run(Fresh(vaultID, wrapper), events[..n]).tasks
    ensures BusySince(Fresh(vaultID, wrapper), events, thread, j, n)
    decreases n
  {
    assert n > 0;
    if thread in Run(Fresh(vaultID, wrapper), events[..n - 1]).tasks {
      j := TaskBegan(vaultID, wrapper, events, thread, n - 1);
      BusyLonger(Fresh(vaultID, wrapper), events, thread, j, n - 1);
    } else {
      j := n - 1;
      TaskBegins(vaultID, wrapper, events, thread, j);
    }
  }

  lemma TaskBegins(vaultID: string, wrapper: Wrapper, events: seq<Event>, thread: nat, j: nat)
    requires j < |events| && thread !in Run(Fresh(vaultID, wrapper), events[..j]).tasks
    requires thread in Run(Fresh(vaultID, wrapper), events[..j + 1]).tasks
    ensures BusySince(Fresh(vaultID, wrapper), events, thread, j, j + 1)
  {
    var start := Fresh(vaultID, wrapper);
    var before := Run(start, events[..j]);
    RunStep(start, events, j);
    BegunIsRead(before, events[j], thread);
    assert Carries(Step(before, events[j]).tasks[thread], events[j].request) by {
      RunKeeps(vaultID, wrapper, events[..j]);
      ReadCarries(before.tables, before.history, before.keys.value, events[j].request, events[j].draws);
    }
    assert BusyWith(start, events, thread, events[j].request, j + 1);
  }

  // ----- Commits come from requests -----

  /** Commit `i` was made by step `k`, which ended the request begun at step `j`. */
  ghost predicate MadeBy(start: System, events: seq<Event>, i: nat, j: nat, k: nat) {
    && j < k < |events| && events[k].Advance? && BusySince(start, events, events[k].thread, j, k)
    && events[k].thread !in Run(start, events[..k + 1]).tasks
    && |Run(start, events[..k]).history| == i && |Run(start, events[..k + 1]).history| == i + 1
    && Fulfils(Run(start, events[..k + 1]).history[i], events[j].request, events[k].draws)
  }

  lemma {:induction false} MadeWithin(vaultID: string, wrapper: Wrapper, events: seq<Event>, i: nat, n: nat)
    returns (j: nat, k: nat)
    requires n <= |events| && i < |Run(Fresh(vaultID, wrapper), events[..n]).history|
    ensures MadeBy(Fresh(vaultID, wrapper), events, i, j, k) && k < n
    decreases n
  {
    var start := Fresh(vaultID, wrapper);
    assert n > 0;
    if i < |Run(start, events[..n - 1]).history| {
      j, k := MadeWithin(vaultID, wrapper, events, i, n - 1);
    } else {
      k := n - 1;
      OnlyAdvancesCommit(start, events, k);
      j := TaskBegan(vaultID, wrapper, events, events[k].thread, k);
      AdvanceMakes(start, events, i, j, k);
    }
  }

  lemma OnlyAdvancesCommit(start: System, events: seq<Event>, k: nat)
    requires k < |events| && |Run(start, events[..k]).history| < |Run(start, events[..k + 1]).history|
    ensures events[k].Advance? && events[k].thread in Run(start, events[..k]).tasks
  {
    RunStep(start, events, k);
    if !events[k].Advance? || events[k].thread !in Run(start, events[..k]).tasks {
      OtherStepsWrite(Run(start, events[..k]), events[k]);
    }
  }

  lemma AdvanceMakes(start: System, events: seq<Event>, i: nat, j: nat, k: nat)
    requires j < k < |events| && events[k].Advance? && BusySince(start, events, events[k].thread, j, k)
    requires |Run(start, events[..k]).history| <= i < |Run(start, events[..k + 1]).history|
    ensures MadeBy(start, events, i, j, k)
  {
    var before, event := Run(start, events[..k]), events[k];
    RunStep(start, events, k);
    assert BusyWith(start, events, event.thread, events[j].request, k);
    AdvanceFulfils(before, event.thread, event.draws, events[j].request);
  }

  /** Every commit of every interleaving carries out a request that began before it. */
  lemma CommitsFulfilRequests(vaultID: string, wrapper: Wrapper, events: seq<Event>, i: nat)
    returns (j: nat, k: nat)
    requires i < |Run(Fresh(vaultID, wrapper), events).history|
    ensures MadeBy(Fresh(vaultID, wrapper), events, i, j, k)
    ensures Fulfils(Run(Fresh(vaultID, wrapper), events).history[i], events[j].request, events[k].draws)
  {
    var start := Fresh(vaultID, wrapper);
    assert events[..|events|] == events;
    j, k := MadeWithin(vaultID, wrapper, events, i, |events|);
    assert events == events[..k + 1] + events[k + 1..];
    RunContinues(start, events[..k + 1], events[k + 1..]);
    RunHistory(Run(start, events[..k + 1]), events[k + 1..]);
  }

  /** And no request is carried out twice. */
  lemma NoRequestTwice(start: System, events: seq<Event>, i: nat, j: nat, k: nat, i': nat, j': nat, k': nat)
    requires MadeBy(start, events, i, j, k) && MadeBy(start, events, i', j', k') && i != i'
    ensures j != j' && k != k'
  {
    if k < k' {
      LaterRequest(start, events, i, j, k, i', j', k');
    } else {
      LaterRequest(start, events, i', j', k', i, j, k);
    }
  }

  lemma LaterRequest(start: System, events: seq<Event>, i: nat, j: nat, k: nat, i': nat, j': nat, k': nat)
    requires MadeBy(start, events, i, j, k) && MadeBy(start, events, i', j', k') && k < k'
    ensures j != j'
  {
    assert !BusyWith(start, events, events[k].thread, events[j].request, k + 1);
  }

  // ----- A secret keeps its identity -----

  /** Some commit created the secret under this name, with this id at this time. */
  ghost predicate Born(history: seq<Commit>, meta: SecretMetadata) {
    exists i :: 0 <= i < |history| && Bears(history[i].effect, meta)
  }

  ghost predicate Bears(effect: Effect, meta: SecretMetadata) {
    && effect.Created? && effect.meta.project == meta.project && effect.meta.environment == meta.environment
    && effect.meta.name == meta.name && effect.meta.id == meta.id && effect.meta.createdAt == meta.createdAt
  }

  /** So for all metadata ever committed, and for what tasks under way have read. */
  ghost predicate AllBorn(s: System) {
    && (forall i :: 0 <= i < |s.history| && MetaOf(s.history[i].effect).Some? ==>
          Born(s.history, MetaOf(s.history[i].effect).value))
    && (forall thread :: thread in s.tasks && (s.tasks[thread].Rotating? || s.tasks[thread].Revoking?) ==>
          Born(s.history, s.tasks[thread].read))
  }

  lemma BornLater(history: seq<Commit>, commit: Commit, meta: SecretMetadata)
    requires Born(history, meta)
    ensures Born(history + [commit], meta)
  {
    var i :| 0 <= i < |history| && Bears(history[i].effect, meta);
    assert Bears((history + [commit])[i].effect, meta);
  }

  lemma CommitBorn(history: seq<Commit>, commit: Commit)
    requires forall i :: 0 <= i < |history| && MetaOf(history[i].effect).Some? ==>
               Born(history, MetaOf(history[i].effect).value)
    requires var meta := MetaOf(commit.effect); meta.Some? && !commit.effect.Created? ==> Born(history, meta.value)
    ensures var more := history + [commit];
            forall i :: 0 <= i < |more| && MetaOf(more[i].effect).Some? ==> Born(more, MetaOf(more[i].effect).value)
  {
    var more := history + [commit];
    forall i | 0 <= i < |more| && MetaOf(more[i].effect).Some? ensures Born(more, MetaOf(more[i].effect).value) {
      if i < |history| || !commit.effect.Created? {
        BornLater(history, commit, MetaOf(more[i].effect).value);
      } else {
        assert Bears(more[i].effect, MetaOf(more[i].effect).value);
      }
    }
  }

  lemma AdvanceBorn(s: System, thread: nat, draws: Draws)
    requires AllBorn(s) && thread in s.tasks
    ensures AllBorn(AdvanceStep(s, thread, draws))
  {
    var s', task := AdvanceStep(s, thread, draws), s.tasks[thread];
    AdvanceTasks(s, thread, draws);
    if Commits(s, thread, draws) {
      AdvanceHistory(s, thread, draws);
      var commit := s'.history[|s.history|];
      if task.Rotating? || task.Revoking? {
        WrittenBorn(s.history, task, draws);
      }
      CommitBorn(s.history, commit);
      forall th | th in s'.tasks && (s'.tasks[th].Rotating? || s'.tasks[th].Revoking?)
        ensures Born(s'.history, s'.tasks[th].read)
      {
        BornLater(s.history, commit, s'.tasks[th].read);
      }
    }
  }

  lemma WrittenBorn(history: seq<Commit>, task: Task, draws: Draws)
    requires (task.Rotating? || task.Revoking?) && Born(history, task.read)
    ensures Born(history, Written(task, draws))
  {
    var i :| 0 <= i < |history| && Bears(history[i].effect, task.read);
    assert Bears(history[i].effect, Written(task, draws));
  }

  lemma ReadBorn(s: System, dek: Key, request: Request, draws: Draws)
    requires SystemOK(s, dek) && MetasLast(s.tables, s.history) && AllBorn(s)
    requires request.RotateSecret? || request.RevokeSecret?
    requires Read(s.tables, KeysOf(dek), request, draws).Ok?
    ensures Born(s.history, Read(s.tables, KeysOf(dek), request, draws).value.read)
  {
    ReadIsFound(s.tables, KeysOf(dek), request, draws);
    FoundIsRow(s, dek, request.name);
    var read := FindSecret(s.tables, KeysOf(dek), request.name).value.0;
    assert MetaLast(s.tables, s.history, read.id);
    LastMetaWasWritten(s.history, RowName(s.tables.objects[read.id]), read);
  }

  lemma {:induction false} LastMetaWasWritten(history: seq<Commit>, name: FullName, meta: SecretMetadata)
    requires LastMeta(history, name) == Some(meta)
    ensures exists i :: 0 <= i < |history| && MetaOf(history[i].effect) == Some(meta)
    decreases |history|
  {
    var n := |history| - 1;
    if MetaOf(history[n].effect) != Some(meta) {
      LastMetaWasWritten(history[..n], name, meta);
      var i :| 0 <= i < n && MetaOf(history[..n][i].effect) == Some(meta);
      assert MetaOf(history[i].effect) == Some(meta);
    }
  }

  lemma StepBorn(s: System, dek: Key, event: Event)
    requires SystemOK(s, dek) && MetasLast(s.tables, s.history) && AllBorn(s)
    ensures AllBorn(Step(s, event))
  {
    if event.Advance? && event.thread in s.tasks {
      AdvanceBorn(s, event.thread, event.draws);
    } else {
      OtherStepsWrite(s, event);
      var s' := Step(s, event);
      if event.Begin? && event.thread !in s.tasks && event.thread in s'.tasks {
        BegunIsRead(s, event, event.thread);
        var task := s'.tasks[event.thread];
        if task.Rotating? || task.Revoking? {
          OnlyThoseRead(s.tables, s.keys.value, event.request, event.draws);
          ReadBorn(s, dek, event.request, event.draws);
        }
      }
    }
  }

  lemma {:induction false} RunBorn(vaultID: string, wrapper: Wrapper, events: seq<Event>)
    ensures AllBorn(Run(Fresh(vaultID, wrapper), events))
    decreases |events|
  {
    if events != [] {
      var n := |events| - 1;
      RunBorn(vaultID, wrapper, events[..n]);
      RunKeeps(vaultID, wrapper, events[..n]);
      StoredMetaIsLast(vaultID, wrapper, events[..n]);
      StepBorn(Run(Fresh(vaultID, wrapper), events[..n]), wrapper.box.plaintext, events[n]);
    }
  }

  lemma {:induction false} CreatedOnce(history: seq<Commit>, i: nat, j: nat)
    requires LegalHistory(history) && i < j < |history| && history[i].effect.Created? && history[j].effect.Created?
    ensures NameOf(history[i].effect.meta) != NameOf(history[j].effect.meta)
  {
    CreatedStays(history, i, j);
    assert Legal(Replay(history[..j]), history[j].effect);
  }

  lemma {:induction false} CreatedStays(history: seq<Commit>, i: nat, n: nat)
    requires i < n <= |history| && history[i].effect.Created?
    ensures NameOf(history[i].effect.meta) in Replay(history[..n])
    decreases n
  {
    ReplayLast(history[..n]);
    assert history[..n][..n - 1] == history[..n - 1];
    if i < n - 1 {
      CreatedStays(history, i, n - 1);
    }
  }

  /** Whatever interleaves, all metadata ever committed under one name has one id and one time of
      creation: those of the only create of that name. */
  lemma IdentityNeverChanges(vaultID: string, wrapper: Wrapper, events: seq<Event>, i: nat, j: nat)
    requires var history := Run(Fresh(vaultID, wrapper), events).history;
             && i < |history| && j < |history| && MetaOf(history[i].effect).Some? && MetaOf(history[j].effect).Some?
             && NameOf(MetaOf(history[i].effect).value) == NameOf(MetaOf(history[j].effect).value)
    ensures var history := Run(Fresh(vaultID, wrapper), events).history;
            var a, b := MetaOf(history[i].effect).value, MetaOf(history[j].effect).value;
            a.id == b.id && a.createdAt == b.createdAt
  {
    RunBorn(vaultID, wrapper, events);
    var history := Run(Fresh(vaultID, wrapper), events).history;
    assert LegalHistory(history) by { RunKeeps(vaultID, wrapper, events); }
    OneBirth(history, MetaOf(history[i].effect).value, MetaOf(history[j].effect).value);
  }

  lemma OneBirth(history: seq<Commit>, a: SecretMetadata, b: SecretMetadata)
    requires LegalHistory(history) && Born(history, a) && Born(history, b) && NameOf(a) == NameOf(b)
    ensures a.id == b.id && a.createdAt == b.createdAt
  {
    var x :| 0 <= x < |history| && Bears(history[x].effect, a);
    var y :| 0 <= y < |history| && Bears(history[y].effect, b);
    if x < y {
      CreatedOnce(history, x, y);
    } else if y < x {
      CreatedOnce(history, y, x);
    }
  }
}
