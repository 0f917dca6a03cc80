/** What holds at every moment of every interleaving of requests, locks and unlocks. */
module Interleavings {
  import opened Model
  import opened SecureCrypto
  import opened Framing
  import opened PlainVault
  import opened Vault
  import opened Machine
  import opened Invariant
  import opened Preservation
  import Audit

  /** The state after some interleaved steps on a freshly initialised vault. */
  ghost predicate Reachable(s: System, dek: Key) {
    exists vaultID: string, wrapper: Wrapper, events: seq<Event> ::
      wrapper.box.plaintext == dek && s == Run(Fresh(vaultID, wrapper), events)
  }

  lemma ReachableIsOK(s: System, dek: Key)
    requires Reachable(s, dek)
    ensures SystemOK(s, dek)
  {
    var vaultID: string, wrapper: Wrapper, events: seq<Event> :|
      wrapper.box.plaintext == dek && s == Run(Fresh(vaultID, wrapper), events);
    RunKeeps(vaultID, wrapper, events);
  }

  // ----- Version rows and metadata -----

  /** Rows 1..n exist and no others; none is pending; only the last can be active. */
  ghost predicate NumberedTo(t: Tables, id: string, n: nat) {
    && n >= 1
    && (forall number: nat :: VersionKey(id, number) in t.versions <==> 1 <= number <= n)
    && (forall number: nat :: VersionKey(id, number) in t.versions ==>
          t.versions[VersionKey(id, number)].state != PendingVersion &&
          (t.versions[VersionKey(id, number)].state == ActiveVersion ==> number == n))
  }

  ghost predicate RowActive(t: Tables, id: string, number: nat) {
    VersionKey(id, number) in t.versions && t.versions[VersionKey(id, number)].state == ActiveVersion
  }

  /** The rows of a secret are numbered 1..n, where n counts its create and its rotations. */
  lemma VersionRowsNumbered(s: System, dek: Key, id: string)
    requires Reachable(s, dek) && IsKind(s.tables, id, SecretObject)
    ensures var plain, name := Replay(s.history), RowName(s.tables.objects[id]);
            name in plain && NumberedTo(s.tables, id, plain[name].version)
  {
    ReachableIsOK(s, dek);
    var plain, keys := Replay(s.history), KeysOf(dek);
    assert SecretOK(s.tables, plain, keys, id);
    var entry := plain[RowName(s.tables.objects[id])];
    forall number: nat | VersionKey(id, number) in s.tables.versions
      ensures VersionOK(s.tables.versions[VersionKey(id, number)], id, number, entry, keys)
    {
    }
  }

  /** Metadata says active exactly when some row is active, and then names that row. */
  lemma MetadataAgrees(s: System, dek: Key, id: string)
    requires Reachable(s, dek) && IsKind(s.tables, id, SecretObject)
    ensures s.tables.objects[id].box.plaintext.SecretDocument?
    ensures Meta(s.tables.objects[id]).state == Active <==> exists number :: RowActive(s.tables, id, number)
    ensures forall number :: RowActive(s.tables, id, number) ==> Meta(s.tables.objects[id]).version == number
  {
    ReachableIsOK(s, dek);
    var plain, keys := Replay(s.history), KeysOf(dek);
    assert SecretOK(s.tables, plain, keys, id);
    var entry := plain[RowName(s.tables.objects[id])];
    assert VersionKey(id, entry.version) in s.tables.versions;
    assert VersionOK(s.tables.versions[VersionKey(id, entry.version)], id, entry.version, entry, keys);
    forall number | RowActive(s.tables, id, number) ensures number == entry.version && entry.state == Active {
      assert VersionOK(s.tables.versions[VersionKey(id, number)], id, number, entry, keys);
    }
    if entry.state == Active {
      assert RowActive(s.tables, id, entry.version);
    }
  }

  // ----- What resolving returns -----

  lemma ResolveOfSecret(t: Tables, plain: Plain, keys: KeySet, name: FullName, id: string)
    requires ObjectsOK(t, keys) && IsKind(t, id, SecretObject) && SecretOK(t, plain, keys, id) &&
             RowName(t.objects[id]) == name
    requires Lookup(t, SecretObject, TokenOf(keys.lookup, SecretObject, name)) == Some(id)
    ensures Resolve(t, keys, name) == if plain[name].state == Active then Ok(plain[name].value) else Err(NotFound)
  {
    var entry := plain[name];
    assert VersionKey(id, entry.version) in t.versions;
    assert VersionOK(t.versions[VersionKey(id, entry.version)], id, entry.version, entry, keys);
    forall number: nat | VersionKey(id, number) in t.versions &&
      t.versions[VersionKey(id, number)].state == ActiveVersion
      ensures number == entry.version && entry.state == Active
    {
      assert VersionOK(t.versions[VersionKey(id, number)], id, number, entry, keys);
    }
    if entry.state == Active {
      assert IsCurrent(t, id, entry.version);
    }
  }

  lemma StoredIsFound(t: Tables, plain: Plain, keys: KeySet, name: FullName)
    requires ObjectsOK(t, keys) && SecretsOK(t, plain, keys) && name in plain
    ensures Lookup(t, SecretObject, TokenOf(keys.lookup, SecretObject, name)).Some?
  {
    assert NameStored(t, name);
    var id :| IsKind(t, id, SecretObject) && RowName(t.objects[id]) == name;
    LookupIsScan(t, keys, SecretObject, name);
  }

  lemma ResolveInOrder(t: Tables, plain: Plain, keys: KeySet, name: FullName)
    requires ObjectsOK(t, keys) && SecretsOK(t, plain, keys)
    ensures Resolve(t, keys, name) ==
            if name in plain && plain[name].state == Active then Ok(plain[name].value) else Err(NotFound)
  {
    LookupIsScan(t, keys, SecretObject, name);
    var found := Lookup(t, SecretObject, TokenOf(keys.lookup, SecretObject, name));
    if found.Some? {
      assert found == Some(found.value) && IsKind(t, found.value, SecretObject);
      assert SecretOK(t, plain, keys, found.value);
      ResolveOfSecret(t, plain, keys, name, found.value);
    } else if name in plain {
      StoredIsFound(t, plain, keys, name);
      assert false;
    }
  }

  /** At every moment of every interleaving, resolving a name gives exactly what replaying the
      committed operations on a plain map gives: the value of the last committed create or
      rotate, or nothing if the last commit revoked it or the name was never created. */
  lemma ResolveIsReplay(s: System, dek: Key, name: FullName)
    requires Reachable(s, dek)
    ensures var plain := Replay(s.history);
            Resolve(s.tables, KeysOf(dek), name) ==
            if name in plain && plain[name].state == Active then Ok(plain[name].value) else Err(NotFound)
  {
    ReachableIsOK(s, dek);
    ResolveInOrder(s.tables, Replay(s.history), KeysOf(dek), name);
  }

  // ----- Resolving in two reads -----

  /** Rows are never deleted and never change kind or token. */
  ghost predicate RowsStay(t: Tables, t': Tables) {
    forall id :: id in t.objects ==>
      id in t'.objects && t'.objects[id].kind == t.objects[id].kind && t'.objects[id].token == t.objects[id].token
  }

  lemma StagedRowsStay(t: Tables, keys: KeySet, task: Task, draws: Draws)
    ensures task.Creating? ==>
              var staged := StageCreate(t, keys, NewSecret(task.meta, draws), task.value, draws);
              staged.Ok? ==> RowsStay(t, staged.value)
    ensures task.Rotating? ==>
              var staged := StageRotate(t, keys, task.read, task.revision, RotationOf(task, draws), task.value, draws);
              staged.Ok? ==> RowsStay(t, staged.value)
    ensures task.Revoking? ==> RowsStay(t, StageRevoke(t, keys, RevokedMetadata(task.read, draws.now), task.revision))
    ensures task.WritingAction? ==>
              var staged := StageAction(t, keys, task.action, task.revision); staged.Ok? ==> RowsStay(t, staged.value)
  {
  }

  lemma AdvanceRowsStay(s: System, thread: nat, draws: Draws)
    ensures RowsStay(s.tables, AdvanceStep(s, thread, draws).tables)
  {
    if thread in s.tasks {
      StagedRowsStay(s.tables, s.tasks[thread].keys, s.tasks[thread], draws);
    }
  }

  lemma StepRowsStay(s: System, event: Event)
    ensures RowsStay(s.tables, Step(s, event).tables)
  {
    if event.Advance? {
      AdvanceRowsStay(s, event.thread, event.draws);
    }
  }

  lemma {:induction false} RunRowsStay(s: System, events: seq<Event>)
    ensures RowsStay(s.tables, Run(s, events).tables)
    decreases |events|
  {
    if events != [] {
      RunRowsStay(s, events[..|events| - 1]);
      StepRowsStay(Run(s, events[..|events| - 1]), events[|events| - 1]);
    }
  }

  /** Resolving reads the row and later, by its id, the active version.  Whatever happens in
      between, the answer is that of the plain map at the moment of the second read. */
  lemma ResolveInTwoReads(s: System, dek: Key, name: FullName, id: string, between: seq<Event>)
    requires Reachable(s, dek) &&
             Lookup(s.tables, SecretObject, TokenOf(KeysOf(dek).lookup, SecretObject, name)) == Some(id)
    ensures var s' := Run(s, between);
            var plain := Replay(s'.history);
            ResolveRow(s'.tables, KeysOf(dek), id) ==
            if name in plain && plain[name].state == Active then Ok(plain[name].value) else Err(NotFound)
  {
    var s', token := Run(s, between), TokenOf(KeysOf(dek).lookup, SecretObject, name);
    RunRowsStay(s, between);
    assert Matches(s'.tables, SecretObject, token, id);
    ReachableContinues(s, dek, between);
    assert Lookup(s'.tables, SecretObject, token) == Some(id) by { ReachableIsOK(s', dek); }
    ResolveIsReplay(s', dek, name);
  }

  /** The committed operations are a legal run of the plain map, and the rotations of each name
      stored versions 2, 3, .., n in commit order. */
  lemma CommitsAreLegal(s: System, dek: Key, name: FullName)
    requires Reachable(s, dek)
    ensures LegalHistory(s.history)
    ensures CountsUp(RotationVersions(s.history, name), Replay(s.history), name)
  {
    ReachableIsOK(s, dek);
    RotationsCountUp(s.history, name);
  }

  // ----- Rotation as compare-and-swap -----

  /** Draws that hit no stored identifier. */
  ghost predicate FreshDraws(t: Tables, draws: Draws) {
    && draws.objectId !in t.objects
    && !VersionIdUsed(t.versions, draws.versionId)
    && !Audit.HasId(t.audit, draws.eventId)
  }

  ghost predicate Commits(s: System, thread: nat, draws: Draws) {
    AdvanceStep(s, thread, draws).history != s.history
  }

  /** The rotation a task will commit. */
  function RotationOf(task: Task, draws: Draws): SecretMetadata
    requires task.Rotating?
  {
    RotatedSecret(task.read, task.profile, task.strength, draws.now)
  }

  lemma RotatingAdvance(s: System, thread: nat, draws: Draws)
    requires thread in s.tasks && s.tasks[thread].Rotating?
    ensures var task := s.tasks[thread];
            var rotated := RotationOf(task, draws);
            AdvanceStep(s, thread, draws).history ==
            if CommitRotate(s.tables, task.keys, task.read, task.revision, rotated, task.value, draws).Ok?
            then s.history + [Commit(Rotated(rotated, task.value),
                                     AuditOf("broker", "secret.rotate", task.read.id, draws))]
            else s.history
  {
  }

  lemma RotateOutcome(t: Tables, keys: KeySet, read: SecretMetadata, revision: nat, rotated: SecretMetadata,
                      value: string, draws: Draws)
    requires FreshDraws(t, draws) && read.id in t.objects
    ensures CommitRotate(t, keys, read, revision, rotated, value, draws).Ok? <==>
            VersionKey(read.id, read.version + 1) !in t.versions && t.objects[read.id].revision == revision
  {
  }

  /** A rotation commits exactly when the version it read is the last one and the row's revision
      is the one it read. */
  lemma RotationCommitsExactly(s: System, dek: Key, thread: nat, draws: Draws)
    requires Reachable(s, dek) && thread in s.tasks && s.tasks[thread].Rotating? && FreshDraws(s.tables, draws)
    ensures var task := s.tasks[thread];
            && NameOf(task.read) in Replay(s.history) && task.read.id in s.tables.objects
            && (Commits(s, thread, draws) <==>
                task.read.version == Replay(s.history)[NameOf(task.read)].version &&
                task.revision == s.tables.objects[task.read.id].revision)
  {
    ReachableIsOK(s, dek);
    var plain, keys, task := Replay(s.history), KeysOf(dek), s.tasks[thread];
    assert TaskOK(task, s.tables, plain, keys);
    RotationIsNext(s.tables, plain, keys, task.read);
    RotatingAdvance(s, thread, draws);
    RotateOutcome(s.tables, keys, task.read, task.revision, RotationOf(task, draws), task.value, draws);
  }

  lemma StepHistory(s: System, event: Event)
    ensures s.history <= Step(s, event).history
  {
  }

  lemma {:induction false} RunHistory(s: System, events: seq<Event>)
    ensures s.history <= Run(s, events).history
    decreases |events|
  {
    if events != [] {
      var n := |events| - 1;
      RunHistory(s, events[..n]);
      StepHistory(Run(s, events[..n]), events[n]);
    }
  }

  lemma {:induction false} RunContinues(s: System, first: seq<Event>, more: seq<Event>)
    ensures Run(s, first + more) == Run(Run(s, first), more)
    decreases |more|
  {
    if more == [] {
      assert first + more == first;
    } else {
      var n := |more| - 1;
      RunContinues(s, first, more[..n]);
      assert (first + more)[..|first + more| - 1] == first + more[..n];
    }
  }

  lemma ReachableContinues(s: System, dek: Key, events: seq<Event>)
    requires Reachable(s, dek)
    ensures Reachable(Run(s, events), dek)
  {
    var vaultID: string, wrapper: Wrapper, before: seq<Event> :|
      wrapper.box.plaintext == dek && s == Run(Fresh(vaultID, wrapper), before);
    RunContinues(Fresh(vaultID, wrapper), before, events);
  }

  lemma ReachableStep(s: System, dek: Key, event: Event)
    requires Reachable(s, dek)
    ensures Reachable(Step(s, event), dek)
  {
    ReachableContinues(s, dek, [event]);
    assert [event][..0] == [];
    assert Run(s, [event]) == Step(Run(s, []), event);
  }

  lemma OldVersionRefused(t: Tables, plain: Plain, keys: KeySet, read: SecretMetadata, revision: nat,
                          rotated: SecretMetadata, value: string, draws: Draws)
    requires SecretsOK(t, plain, keys) && SnapshotOK(read, t, plain) && read.version < plain[NameOf(read)].version
    ensures CommitRotate(t, keys, read, revision, rotated, value, draws).Err?
  {
    RotationIsNext(t, plain, keys, read);
  }

  /** A rotation that read an older version than the last cannot commit. */
  lemma StaleRotationFails(s: System, dek: Key, thread: nat, draws: Draws)
    requires SystemOK(s, dek) && thread in s.tasks && s.tasks[thread].Rotating?
    requires NameOf(s.tasks[thread].read) in Replay(s.history)
    requires s.tasks[thread].read.version < Replay(s.history)[NameOf(s.tasks[thread].read)].version
    ensures !Commits(s, thread, draws)
  {
    var task := s.tasks[thread];
    assert TaskOK(task, s.tables, Replay(s.history), KeysOf(dek));
    OldVersionRefused(s.tables, Replay(s.history), KeysOf(dek), task.read, task.revision, RotationOf(task, draws),
                      task.value, draws);
    RotatingAdvance(s, thread, draws);
  }

  lemma RotationStored(s: System, dek: Key, thread: nat, draws: Draws)
    requires SystemOK(s, dek) && thread in s.tasks && s.tasks[thread].Rotating? && Commits(s, thread, draws)
    ensures var name, after := NameOf(s.tasks[thread].read), AdvanceStep(s, thread, draws);
            name in Replay(after.history) && Replay(after.history)[name].version == s.tasks[thread].read.version + 1
  {
    var task := s.tasks[thread];
    assert TaskOK(task, s.tables, Replay(s.history), KeysOf(dek));
    RotationIsNext(s.tables, Replay(s.history), KeysOf(dek), task.read);
    RotatingAdvance(s, thread, draws);
    ReplaySnoc(s.history, Commit(Rotated(RotationOf(task, draws), task.value),
                                 AuditOf("broker", "secret.rotate", task.read.id, draws)));
  }

  /** Of two rotations that read the same metadata, once one has committed the other never
      does, whatever happens in between. */
  lemma OneRotationWins(s: System, dek: Key, winner: nat, loser: nat, draws: Draws, between: seq<Event>, draws': Draws)
    requires Reachable(s, dek) && winner in s.tasks && loser in s.tasks && winner != loser
    requires s.tasks[winner].Rotating? && s.tasks[loser].Rotating? && s.tasks[winner].read == s.tasks[loser].read
    requires Commits(s, winner, draws)
    requires var s' := Run(AdvanceStep(s, winner, draws), between);
             loser in s'.tasks && s'.tasks[loser] == s.tasks[loser]
    ensures !Commits(Run(AdvanceStep(s, winner, draws), between), loser, draws')
  {
    var name, after := NameOf(s.tasks[winner].read), AdvanceStep(s, winner, draws);
    var s' := Run(after, between);
    ReachableStep(s, dek, Advance(winner, draws));
    ReachableContinues(after, dek, between);
    ReachableIsOK(s, dek);
    ReachableIsOK(s', dek);
    RotationStored(s, dek, winner, draws);
    RunHistory(after, between);
    VersionSameExactly(after.history, s'.history, name);
    StaleRotationFails(s', dek, loser, draws');
  }

  // ----- Stale revokes -----

  lemma RevokingAdvance(s: System, thread: nat, draws: Draws)
    requires thread in s.tasks && s.tasks[thread].Revoking?
    ensures var task, after := s.tasks[thread], AdvanceStep(s, thread, draws);
            var revoked := RevokedMetadata(task.read, draws.now);
            var outcome := CommitRevoke(s.tables, task.keys, revoked, task.revision, draws);
            if outcome.Ok? then
              after.tables == outcome.value &&
              after.history ==
                s.history + [Commit(RevokedSecret(revoked), AuditOf("broker", "secret.revoke", task.read.id, draws))]
            else after.history == s.history
  {
  }

  lemma RevokeOutcome(t: Tables, keys: KeySet, revoked: SecretMetadata, revision: nat, draws: Draws)
    requires CommitRevoke(t, keys, revoked, revision, draws).Ok?
    ensures CommitRevoke(t, keys, revoked, revision, draws).value.objects ==
            Resealed(t.objects, keys, SecretObject, revoked.id, SecretDocument(revoked), revision + 1)
  {
  }

  /** After a revoke commits, the recorded version is the one it had read, whatever the last
      version is by then. */
  lemma RevokeRecordsWhatItRead(s: System, dek: Key, thread: nat, draws: Draws)
    requires Reachable(s, dek) && thread in s.tasks && s.tasks[thread].Revoking? && Commits(s, thread, draws)
    ensures var read, after := s.tasks[thread].read, AdvanceStep(s, thread, draws);
            && read.id in after.tables.objects
            && after.tables.objects[read.id].box.plaintext == SecretDocument(RevokedMetadata(read, draws.now))
            && NameOf(read) in Replay(s.history)
            && Replay(after.history) ==
               Replay(s.history)[NameOf(read) := Replay(s.history)[NameOf(read)].(state := Revoked)]
  {
    ReachableIsOK(s, dek);
    var task := s.tasks[thread];
    var revoked := RevokedMetadata(task.read, draws.now);
    assert TaskOK(task, s.tables, Replay(s.history), KeysOf(dek));
    RevokingAdvance(s, thread, draws);
    RevokeOutcome(s.tables, task.keys, revoked, task.revision, draws);
    ReplaySnoc(s.history, Commit(RevokedSecret(revoked), AuditOf("broker", "secret.revoke", task.read.id, draws)));
  }

  /** Both steps of a request with nothing in between. */
  ghost function Alone(s: System, thread: nat, request: Request, draws: Draws): System {
    AdvanceStep(BeginStep(s, thread, request, draws), thread, draws)
  }

  lemma FindInOrder(t: Tables, plain: Plain, keys: KeySet, name: FullName, id: string)
    requires ObjectsOK(t, keys) && SecretsOK(t, plain, keys) && IsKind(t, id, SecretObject) &&
             RowName(t.objects[id]) == name
    ensures t.objects[id].box.plaintext.SecretDocument?
    ensures FindSecret(t, keys, name) == Ok((Meta(t.objects[id]), t.objects[id].revision))
  {
    LookupIsScan(t, keys, SecretObject, name);
    assert ObjectOK(id, t.objects[id], keys);
  }

  lemma BeginRotation(s: System, keys: KeySet, thread: nat, request: Request, draws: Draws, read: SecretMetadata,
                      revision: nat)
    requires s.keys == Some(keys) && thread !in s.tasks && request.RotateSecret? && SafeNames(request.name)
    requires FindSecret(s.tables, keys, request.name) == Ok((read, revision))
    ensures BeginStep(s, thread, request, draws) ==
            var task := Rotating(keys, read, revision, request.profile, request.strength, request.value);
            s.(tasks := s.tasks[thread := task])
  {
  }

  /** A rotation with nothing in between commits exactly when the recorded version is the last
      one: a secret left behind by a stale revoke can never be rotated again this way. */
  lemma LoneRotationCommitsExactly(s: System, dek: Key, thread: nat, id: string, request: Request, draws: Draws)
    requires Reachable(s, dek) && s.keys.Some? && thread !in s.tasks && FreshDraws(s.tables, draws)
    requires IsKind(s.tables, id, SecretObject) && request.RotateSecret? && SafeNames(request.name)
    requires RowName(s.tables.objects[id]) == request.name
    ensures && s.tables.objects[id].box.plaintext.SecretDocument?
            && request.name in Replay(s.history)
            && (Alone(s, thread, request, draws).history != s.history <==>
                Meta(s.tables.objects[id]).version == Replay(s.history)[request.name].version)
  {
    ReachableIsOK(s, dek);
    var plain, keys := Replay(s.history), KeysOf(dek);
    FindInOrder(s.tables, plain, keys, request.name, id);
    assert SecretOK(s.tables, plain, keys, id);
    var read, revision := Meta(s.tables.objects[id]), s.tables.objects[id].revision;
    BeginRotation(s, keys, thread, request, draws, read, revision);
    ReachableStep(s, dek, Begin(thread, request, draws));
    RotationCommitsExactly(BeginStep(s, thread, request, draws), dek, thread, draws);
    assert ObjectOK(id, s.tables.objects[id], keys);
  }

  // ----- Sessions -----

  lemma StepSameWrapper(s: System, event: Event)
    ensures Step(s, event).wrapper == s.wrapper && Step(s, event).vaultID == s.vaultID
  {
  }

  lemma {:induction false} RunSameWrapper(s: System, events: seq<Event>)
    ensures Run(s, events).wrapper == s.wrapper && Run(s, events).vaultID == s.vaultID
    decreases |events|
  {
    if events != [] {
      RunSameWrapper(s, events[..|events| - 1]);
      StepSameWrapper(Run(s, events[..|events| - 1]), events[|events| - 1]);
    }
  }

  /** Every session of every interleaving works with the same four keys.  A locked vault opens
      exactly under the password it was initialised with; an open one ignores the password. */
  lemma SessionsShareKeys(vaultID: string, password: string, salt: string, params: KDFParams, dek: Key,
                          events: seq<Event>, attempt: string)
    requires WrapDEK(vaultID, password, salt, params, dek).Ok?
    ensures var s := Run(Fresh(vaultID, WrapDEK(vaultID, password, salt, params, dek).value), events);
            if s.keys.Some? then s.keys.value == KeysOf(dek) && Unlocked(s, attempt) == s
            else Unlocked(s, attempt).keys == if attempt == password then Some(KeysOf(dek)) else None
  {
    var wrapper := WrapDEK(vaultID, password, salt, params, dek).value;
    RunKeeps(vaultID, wrapper, events);
    RunSameWrapper(Fresh(vaultID, wrapper), events);
    WrapperOpensExactly(vaultID, password, salt, params, dek, vaultID, attempt);
  }

  // ----- Boxes, names and answers -----

  /** Every stored metadata box opens under its row's kind, id and revision. */
  lemma ObjectBoxesOpen(s: System, dek: Key, id: string)
    requires Reachable(s, dek) && id in s.tables.objects
    ensures var row := s.tables.objects[id];
            Open(KeysOf(dek).metadata, row.box, ObjectAAD(KindText(row.kind), id, row.revision)).Some?
  {
    ReachableIsOK(s, dek);
    assert ObjectOK(id, s.tables.objects[id], KeysOf(dek));
  }

  /** Every stored value box opens under its secret and version number. */
  lemma ValueBoxesOpen(s: System, dek: Key, k: VersionKey)
    requires Reachable(s, dek) && k in s.tables.versions
    ensures Open(KeysOf(dek).dek, s.tables.versions[k].box, SecretAAD(k.secret, k.number)).Some?
  {
    ReachableIsOK(s, dek);
    var plain, keys := Replay(s.history), KeysOf(dek);
    assert SecretOK(s.tables, plain, keys, k.secret);
    assert k == VersionKey(k.secret, k.number);
    assert VersionOK(s.tables.versions[k], k.secret, k.number, plain[RowName(s.tables.objects[k.secret])], keys);
  }

  /** Token lookup finds an object exactly when scanning the decrypted names finds it, and no
      two objects of a kind share a name. */
  lemma LookupAgreesWithScan(s: System, dek: Key, kind: Kind, name: FullName, id: string, other: string)
    requires Reachable(s, dek)
    ensures Lookup(s.tables, kind, TokenOf(KeysOf(dek).lookup, kind, name)) == Some(id) <==>
            IsKind(s.tables, id, kind) && RowName(s.tables.objects[id]) == name
    ensures (IsKind(s.tables, id, kind) && IsKind(s.tables, other, kind) &&
             RowName(s.tables.objects[id]) == RowName(s.tables.objects[other])) ==> id == other
  {
    ReachableIsOK(s, dek);
    LookupIsScan(s.tables, KeysOf(dek), kind, name);
    if IsKind(s.tables, id, kind) && IsKind(s.tables, other, kind) &&
       RowName(s.tables.objects[id]) == RowName(s.tables.objects[other]) {
      NamesUnique(s.tables, KeysOf(dek), kind, id, other);
    }
  }

  /** An action read in two steps is always one that was put under the requested name. */
  lemma ActionsFoundWerePut(s: System, dek: Key, i: nat)
    requires Reachable(s, dek) && i < |s.answers| && s.answers[i].ActionFound?
    ensures ActionNameOf(s.answers[i].action) == s.answers[i].name && WasPut(s.history, s.answers[i].action)
  {
    ReachableIsOK(s, dek);
  }

  /** The second step of such a read gives the action last put under the name by then, or fails
      because the row no longer has the revision read in the first step. */
  lemma ActionFoundIsLatest(s: System, dek: Key, thread: nat, draws: Draws)
    requires Reachable(s, dek) && thread in s.tasks && s.tasks[thread].ReadingAction?
    ensures var task, s' := s.tasks[thread], AdvanceStep(s, thread, draws);
            && |s'.answers| == |s.answers| + 1
            && task.id in s.tables.objects
            && s'.answers[|s.answers|] ==
               if task.revision == s.tables.objects[task.id].revision && LastPut(s.history, task.name).Some?
               then ActionFound(task.name, LastPut(s.history, task.name).value)
               else Failed(AuthenticationFailed)
  {
    ReachableIsOK(s, dek);
    var t, task := s.tables, s.tasks[thread];
    assert TaskOK(task, t, Replay(s.history), KeysOf(dek));
    OpenActionExactly(t, s.history, KeysOf(dek), task.id, task.revision, task.name);
  }

  lemma OpenActionExactly(t: Tables, history: seq<Commit>, keys: KeySet, id: string, revision: nat, name: FullName)
    requires TablesOK(t, history, keys) && StoredAction(id, name, t)
    ensures LastPut(history, name).Some?
    ensures OpenAction(t, keys, id, revision) ==
            if revision == t.objects[id].revision then Ok(LastPut(history, name).value) else Err(AuthenticationFailed)
  {
    assert ObjectOK(id, t.objects[id], keys) && ActionLatest(t, history, id);
    var revised := t.objects[id].revision;
    if ObjectAAD("action", id, revision) == ObjectAAD("action", id, revised) {
      ObjectAADInjective("action", id, revision, "action", id, revised);
    }
  }

  /** There is one audit row per commit, in commit order. */
  lemma AuditOfRun(s: System, dek: Key)
    requires Reachable(s, dek)
    ensures s.tables.audit == Audit.Build(KeysOf(dek).audit, EventsOf(s.history))
    ensures |s.tables.audit| == |s.history|
    ensures forall i :: 0 <= i < |s.history| ==> s.tables.audit[i].event == Audit.Encode(s.history[i].event)
  {
    ReachableIsOK(s, dek);
    Audit.BuildIds(KeysOf(dek).audit, EventsOf(s.history));
    forall i | 0 <= i < |s.history| ensures s.tables.audit[i].event == Audit.Encode(s.history[i].event) {
      Audit.BuildRow(KeysOf(dek).audit, EventsOf(s.history), i);
    }
  }

  /** With distinct stamps the log is accepted exactly when the stamps increased in commit order. */
  lemma AuditAcceptedExactly(s: System, dek: Key)
    requires Reachable(s, dek) && Audit.DistinctStamps(EventsOf(s.history))
    ensures Audit.Chained(Audit.ByStamp(s.tables.audit), KeysOf(dek).audit) <==>
            Audit.StampsIncrease(EventsOf(s.history))
  {
    ReachableIsOK(s, dek);
    Audit.AcceptedExactly(KeysOf(dek).audit, EventsOf(s.history));
  }
}
