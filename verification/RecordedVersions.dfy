/** The version number recorded in a secret's metadata against its last version row: which
    interleavings keep them equal, and what becomes of a secret once they differ. */
module RecordedVersions {
  import opened Model
  import opened SecureCrypto
  import opened PlainVault
  import opened Vault
  import opened Machine
  import opened Invariant
  import opened Preservation
  import opened Interleavings
  import Audit

  /** The recorded version of a secret is its last one. */
  ghost predicate RecordsLast(t: Tables, plain: Plain, id: string)
    requires IsKind(t, id, SecretObject)
  {
    var row := t.objects[id];
    row.box.plaintext.SecretDocument? && RowName(row) in plain && Meta(row).version == plain[RowName(row)].version
  }

  ghost predicate Current(t: Tables, plain: Plain) {
    forall id :: IsKind(t, id, SecretObject) ==> RecordsLast(t, plain, id)
  }

  /** Only one secret changed, and its row now holds `meta`. */
  ghost predicate Wrote(t: Tables, plain: Plain, staged: Tables, meta: SecretMetadata, entry: Entry) {
    && OnlyChanged(t, plain, staged, plain[NameOf(meta) := entry], meta.id, NameOf(meta))
    && staged.objects[meta.id].box.plaintext == SecretDocument(meta)
  }

  lemma CurrentKept(t: Tables, plain: Plain, staged: Tables, keys: KeySet, meta: SecretMetadata, entry: Entry)
    requires Current(t, plain) && Wrote(t, plain, staged, meta, entry) && ObjectsOK(staged, keys)
    requires meta.version == entry.version
    ensures Current(staged, plain[NameOf(meta) := entry])
  {
    var name, plain' := NameOf(meta), plain[NameOf(meta) := entry];
    forall id | IsKind(staged, id, SecretObject) && id != meta.id ensures RecordsLast(staged, plain', id) {
      assert IsKind(t, id, SecretObject) && RecordsLast(t, plain, id);
      if RowName(staged.objects[id]) == name {
        NamesUnique(staged, keys, SecretObject, id, meta.id);
      }
    }
  }

  lemma CurrentSame(t: Tables, t': Tables, plain: Plain)
    requires Current(t, plain) && SameSecrets(t, t')
    ensures Current(t', plain)
  {
  }

  lemma CreateWrites(t: Tables, plain: Plain, keys: KeySet, created: SecretMetadata, value: string, draws: Draws)
    requires StageCreate(t, keys, created, value, draws).Ok? && NameOf(created) !in plain
    ensures Wrote(t, plain, StageCreate(t, keys, created, value, draws).value, created, Entry(value, 1, Active))
  {
    var staged := StageCreate(t, keys, created, value, draws).value;
    AddedOthers(t.versions, t.versions, created.id, 1, staged.versions[VersionKey(created.id, 1)]);
  }

  lemma RotateWrites(t: Tables, plain: Plain, keys: KeySet, read: SecretMetadata, revision: nat,
                     rotated: SecretMetadata, value: string, draws: Draws)
    requires SnapshotOK(read, t, plain) && rotated.id == read.id && NameOf(rotated) == NameOf(read)
    requires StageRotate(t, keys, read, revision, rotated, value, draws).Ok?
    ensures Wrote(t, plain, StageRotate(t, keys, read, revision, rotated, value, draws).value, rotated,
                  Entry(value, plain[NameOf(read)].version + 1, Active))
  {
    var staged := StageRotate(t, keys, read, revision, rotated, value, draws).value;
    ResealedOthers(t, keys, read.id, SecretDocument(rotated), revision + 1, staged);
    EndActiveOthers(t.versions, read.id, RetiredVersion);
    AddedOthers(t.versions, EndActive(t.versions, read.id, RetiredVersion), read.id, read.version + 1,
                staged.versions[VersionKey(read.id, read.version + 1)]);
  }

  lemma RevokeWrites(t: Tables, plain: Plain, keys: KeySet, revoked: SecretMetadata, revision: nat)
    requires SnapshotOK(revoked, t, plain)
    ensures Wrote(t, plain, StageRevoke(t, keys, revoked, revision), revoked, plain[NameOf(revoked)].(state := Revoked))
  {
    ResealedOthers(t, keys, revoked.id, SecretDocument(revoked), revision + 1, StageRevoke(t, keys, revoked, revision));
    EndActiveOthers(t.versions, revoked.id, RevokedVersion);
  }

  // ----- What an advance does to the secrets -----

  /** Nothing about secrets, keys or the vault's identity changed. */
  ghost predicate Calm(s: System, s': System) {
    && s'.keys == s.keys && s'.wrapper == s.wrapper && s'.vaultID == s.vaultID
    && SameSecrets(s.tables, s'.tables) && Replay(s'.history) == Replay(s.history)
  }

  lemma FinishCalm(s: System, thread: nat, staged: Outcome<Tables>, commit: Commit, answer: Answer, keys: KeySet)
    requires staged.Ok? ==> SameSecrets(s.tables, staged.value)
    requires commit.effect.ActionPut? || commit.effect.Logged?
    ensures Calm(s, Finish(s, thread, Audited(staged, keys, commit.event), commit, answer))
  {
    ReplaySnoc(s.history, commit);
  }

  lemma WritingCalm(s: System, dek: Key, thread: nat, draws: Draws)
    requires SystemOK(s, dek) && thread in s.tasks && s.tasks[thread].WritingAction?
    ensures Calm(s, AdvanceStep(s, thread, draws))
  {
    var t, keys := s.tables, KeysOf(dek);
    assert TaskOK(s.tasks[thread], t, Replay(s.history), keys);
    var WritingAction(_, action, revision) := s.tasks[thread];
    var staged, event := StageAction(t, keys, action, revision), AuditOf("user", "action.configure", action.id, draws);
    if staged.Ok? {
      ActionShape(t, keys, action, revision, Replay(s.history));
    }
    FinishCalm(s, thread, staged, Commit(ActionPut(action), event), ActionStored(action), keys);
  }

  lemma LoggingCalm(s: System, thread: nat, draws: Draws)
    requires thread in s.tasks && s.tasks[thread].Logging?
    ensures Calm(s, AdvanceStep(s, thread, draws))
  {
    var Logging(keys, event) := s.tasks[thread];
    FinishCalm(s, thread, Ok(s.tables), Commit(Logged, Filled(event, draws)), EventLogged, keys);
  }

  lemma ReadingCalm(s: System, thread: nat, draws: Draws)
    requires thread in s.tasks ==> s.tasks[thread].ReplacingAction? || s.tasks[thread].ReadingAction?
    ensures Calm(s, AdvanceStep(s, thread, draws))
  {
  }

  /** One secret was written and the plain map took the entry. */
  ghost predicate Touched(s: System, s': System, meta: SecretMetadata, entry: Entry) {
    && Replay(s'.history) == Replay(s.history)[NameOf(meta) := entry]
    && Wrote(s.tables, Replay(s.history), s'.tables, meta, entry)
  }

  /** A finished task whose staged change wrote one secret touches it if it commits. */
  lemma FinishTouches(s: System, thread: nat, staged: Outcome<Tables>, commit: Commit, answer: Answer, keys: KeySet,
                      meta: SecretMetadata, entry: Entry)
    requires staged.Ok? ==> Wrote(s.tables, Replay(s.history), staged.value, meta, entry)
    requires staged.Ok? ==> Apply(Replay(s.history), commit.effect) == Replay(s.history)[NameOf(meta) := entry]
    ensures var s' := Finish(s, thread, Audited(staged, keys, commit.event), commit, answer);
            if s'.history != s.history then Touched(s, s', meta, entry) else Calm(s, s')
  {
    ReplaySnoc(s.history, commit);
  }

  predicate WritesSecret(task: Task) {
    task.Creating? || task.Rotating? || task.Revoking?
  }

  /** The metadata a task about a secret will write. */
  function Written(task: Task, draws: Draws): SecretMetadata
    requires WritesSecret(task)
  {
    match task
    case Creating(_, meta, _) => NewSecret(meta, draws)
    case Rotating(_, _, _, _, _, _) => RotationOf(task, draws)
    case Revoking(_, read, _) => RevokedMetadata(read, draws.now)
  }

  /** The entry it leaves in the plain map. */
  function Left(task: Task, plain: Plain): Entry
    requires WritesSecret(task) && (task.Revoking? ==> NameOf(task.read) in plain)
  {
    match task
    case Creating(_, _, value) => Entry(value, 1, Active)
    case Rotating(_, read, _, _, _, value) => Entry(value, read.version + 1, Active)
    case Revoking(_, read, _) => plain[NameOf(read)].(state := Revoked)
  }

  /** A task about a secret touches that secret: a new one, or the one read, which a rotation
      only touches if it read the last version. */
  ghost predicate TouchedBy(s: System, s': System, task: Task, draws: Draws)
    requires WritesSecret(task)
  {
    var plain := Replay(s.history);
    && (task.Creating? ==> Written(task, draws).id !in s.tables.objects && NameOf(task.meta) !in plain)
    && (!task.Creating? ==> NameOf(task.read) in plain)
    && (task.Rotating? ==> task.read.version == plain[NameOf(task.read)].version)
    && Touched(s, s', Written(task, draws), Left(task, plain))
  }

  lemma CreatingEffect(s: System, keys: KeySet, thread: nat, draws: Draws)
    requires ObjectsOK(s.tables, keys) && SecretsOK(s.tables, Replay(s.history), keys)
    requires thread in s.tasks && s.tasks[thread].Creating? &&
             TaskOK(s.tasks[thread], s.tables, Replay(s.history), keys)
    ensures var s' := AdvanceStep(s, thread, draws);
            if Commits(s, thread, draws) then TouchedBy(s, s', s.tasks[thread], draws) else Calm(s, s')
  {
    var t, plain := s.tables, Replay(s.history);
    var Creating(_, meta, value) := s.tasks[thread];
    var created := NewSecret(meta, draws);
    var event := AuditOf("broker", "secret.create", created.id, draws);
    var staged := StageCreate(t, keys, created, value, draws);
    if staged.Ok? {
      NewNameIsNew(t, plain, keys, NameOf(created));
      CreateWrites(t, plain, keys, created, value, draws);
    }
    FinishTouches(s, thread, staged, Commit(Created(created, value), event), SecretStored(created), keys, created,
                  Entry(value, 1, Active));
  }

  /** What a rotation that can be staged does, with the entry in terms of what it read. */
  lemma RotationTouches(t: Tables, plain: Plain, keys: KeySet, task: Task, draws: Draws)
    requires SecretsOK(t, plain, keys) && task.Rotating? && SnapshotOK(task.read, t, plain)
    requires StageRotate(t, keys, task.read, task.revision, RotationOf(task, draws), task.value, draws).Ok?
    ensures NameOf(task.read) in plain && task.read.version == plain[NameOf(task.read)].version
    ensures Wrote(t, plain,
                  StageRotate(t, keys, task.read, task.revision, RotationOf(task, draws), task.value, draws).value,
                  RotationOf(task, draws), Left(task, plain))
  {
    RotationIsNext(t, plain, keys, task.read);
    RotateWrites(t, plain, keys, task.read, task.revision, RotationOf(task, draws), task.value, draws);
  }

  lemma RotatingFinishes(s: System, thread: nat, draws: Draws)
    requires thread in s.tasks && s.tasks[thread].Rotating?
    ensures var task := s.tasks[thread];
            var rotated, event := RotationOf(task, draws), AuditOf("broker", "secret.rotate", task.read.id, draws);
            AdvanceStep(s, thread, draws) ==
            Finish(s, thread,
                   Audited(StageRotate(s.tables, task.keys, task.read, task.revision, rotated, task.value, draws),
                           task.keys, event),
                   Commit(Rotated(rotated, task.value), event), SecretStored(rotated))
  {
  }

  lemma RotatingEffect(s: System, keys: KeySet, thread: nat, draws: Draws)
    requires SecretsOK(s.tables, Replay(s.history), keys)
    requires thread in s.tasks && s.tasks[thread].Rotating? &&
             TaskOK(s.tasks[thread], s.tables, Replay(s.history), keys)
    ensures var s' := AdvanceStep(s, thread, draws);
            if Commits(s, thread, draws) then TouchedBy(s, s', s.tasks[thread], draws) else Calm(s, s')
  {
    var task := s.tasks[thread];
    var rotated := RotationOf(task, draws);
    var staged := StageRotate(s.tables, keys, task.read, task.revision, rotated, task.value, draws);
    if staged.Ok? {
      RotationTouches(s.tables, Replay(s.history), keys, task, draws);
    }
    RotatingFinishes(s, thread, draws);
    FinishTouches(s, thread, staged,
                  Commit(Rotated(rotated, task.value), AuditOf("broker", "secret.rotate", task.read.id, draws)),
                  SecretStored(rotated), keys, rotated, Left(task, Replay(s.history)));
  }

  lemma RevokingFinishes(s: System, thread: nat, draws: Draws)
    requires thread in s.tasks && s.tasks[thread].Revoking?
    ensures var task := s.tasks[thread];
            var revoked, event := RevokedMetadata(task.read, draws.now),
              AuditOf("broker", "secret.revoke", task.read.id, draws);
            AdvanceStep(s, thread, draws) ==
            Finish(s, thread, Audited(Ok(StageRevoke(s.tables, task.keys, revoked, task.revision)), task.keys, event),
                   Commit(RevokedSecret(revoked), event), SecretStored(revoked))
  {
  }

  /** A revoke commits unless the identifier drawn for its audit row is taken. */
  lemma RevokingEffect(s: System, keys: KeySet, thread: nat, draws: Draws)
    requires thread in s.tasks && s.tasks[thread].Revoking? &&
             TaskOK(s.tasks[thread], s.tables, Replay(s.history), keys)
    ensures Commits(s, thread, draws) <==> !Audit.HasId(s.tables.audit, draws.eventId)
    ensures var s' := AdvanceStep(s, thread, draws);
            if Commits(s, thread, draws) then TouchedBy(s, s', s.tasks[thread], draws) else Calm(s, s')
  {
    var task := s.tasks[thread];
    var revoked := RevokedMetadata(task.read, draws.now);
    RevokeWrites(s.tables, Replay(s.history), keys, revoked, task.revision);
    RevokingFinishes(s, thread, draws);
    FinishTouches(s, thread, Ok(StageRevoke(s.tables, keys, revoked, task.revision)),
                  Commit(RevokedSecret(revoked), AuditOf("broker", "secret.revoke", task.read.id, draws)),
                  SecretStored(revoked), keys, revoked, Left(task, Replay(s.history)));
  }

  /** Advancing an operation touches its own secret if it commits one, and leaves all secrets
      alone otherwise. */
  lemma AdvanceEffect(s: System, dek: Key, thread: nat, draws: Draws)
    requires SystemOK(s, dek) && thread in s.tasks
    ensures var s', task := AdvanceStep(s, thread, draws), s.tasks[thread];
            if WritesSecret(task) && Commits(s, thread, draws) then TouchedBy(s, s', task, draws) else Calm(s, s')
  {
    assert TaskOK(s.tasks[thread], s.tables, Replay(s.history), KeysOf(dek));
    match s.tasks[thread]
    case Creating(_, _, _) => CreatingEffect(s, KeysOf(dek), thread, draws);
    case Rotating(_, _, _, _, _, _) => RotatingEffect(s, KeysOf(dek), thread, draws);
    case Revoking(_, _, _) => RevokingEffect(s, KeysOf(dek), thread, draws);
    case WritingAction(_, _, _) => WritingCalm(s, dek, thread, draws);
    case Logging(_, _) => LoggingCalm(s, thread, draws);
    case ReplacingAction(_, _, _) => ReadingCalm(s, thread, draws);
    case ReadingAction(_, _, _, _) => ReadingCalm(s, thread, draws);
  }

  // ----- One step -----

  /** A revoke that read the last version, or no revoke. */
  ghost predicate NotStale(task: Task, plain: Plain) {
    task.Revoking? && NameOf(task.read) in plain ==> task.read.version == plain[NameOf(task.read)].version
  }

  /** The step commits a revoke. */
  ghost predicate CommitsRevoke(s: System, event: Event) {
    event.Advance? && event.thread in s.tasks && s.tasks[event.thread].Revoking? &&
      Commits(s, event.thread, event.draws)
  }

  lemma CurrentAfter(s: System, s': System, dek: Key, task: Task, draws: Draws)
    requires Current(s.tables, Replay(s.history)) && SystemOK(s', dek)
    requires Calm(s, s') || (WritesSecret(task) && TouchedBy(s, s', task, draws) && NotStale(task, Replay(s.history)))
    ensures Current(s'.tables, Replay(s'.history))
  {
    if Calm(s, s') {
      CurrentSame(s.tables, s'.tables, Replay(s.history));
    } else {
      CurrentKept(s.tables, Replay(s.history), s'.tables, KeysOf(dek), Written(task, draws),
                  Left(task, Replay(s.history)));
    }
  }

  /** A step other than an advance writes nothing, and begins at most one task. */
  lemma OtherStepsWrite(s: System, event: Event)
    requires !event.Advance? || event.thread !in s.tasks
    ensures var s' := Step(s, event);
            && s'.tables == s.tables && s'.history == s.history
            && (s'.tasks == s.tasks ||
                (event.Begin? && event.thread in s'.tasks && event.thread !in s.tasks &&
                 s'.tasks == s.tasks[event.thread := s'.tasks[event.thread]]))
  {
  }

  lemma StepCurrent(s: System, dek: Key, event: Event)
    requires SystemOK(s, dek) && Current(s.tables, Replay(s.history))
    requires CommitsRevoke(s, event) ==> NotStale(s.tasks[event.thread], Replay(s.history))
    ensures Current(Step(s, event).tables, Replay(Step(s, event).history))
  {
    if event.Advance? && event.thread in s.tasks {
      AdvanceKeeps(s, dek, event.thread, event.draws);
      AdvanceEffect(s, dek, event.thread, event.draws);
      CurrentAfter(s, Step(s, event), dek, s.tasks[event.thread], event.draws);
    } else {
      OtherStepsWrite(s, event);
    }
  }

  /** After a revoke commits, the recorded version is the last one exactly if that was read. */
  lemma RevokeRecords(s: System, dek: Key, event: Event)
    requires SystemOK(s, dek) && CommitsRevoke(s, event)
    ensures var read, s' := s.tasks[event.thread].read, Step(s, event);
            && NameOf(read) in Replay(s.history) && read.version <= Replay(s.history)[NameOf(read)].version
            && IsKind(s'.tables, read.id, SecretObject)
            && (RecordsLast(s'.tables, Replay(s'.history), read.id) <==>
                NotStale(s.tasks[event.thread], Replay(s.history)))
  {
    var task := s.tasks[event.thread];
    assert TaskOK(task, s.tables, Replay(s.history), KeysOf(dek));
    RevokingEffect(s, KeysOf(dek), event.thread, event.draws);
  }

  // ----- Begin steps -----

  lemma RunStep(start: System, events: seq<Event>, i: nat)
    requires i < |events|
    ensures Run(start, events[..i + 1]) == Step(Run(start, events[..i]), events[i])
  {
    assert events[..i + 1][..i] == events[..i];
  }

  lemma RunPrefixHistory(start: System, events: seq<Event>, j: nat, i: nat)
    requires j <= i <= |events|
    ensures Run(start, events[..j]).history <= Run(start, events[..i]).history
  {
    assert events[..i] == events[..j] + events[j..i];
    RunContinues(start, events[..j], events[j..i]);
    RunHistory(Run(start, events[..j]), events[j..i]);
  }

  ghost predicate Running(start: System, events: seq<Event>, thread: nat, task: Task, k: nat)
    requires k <= |events|
  {
    var s := Run(start, events[..k]);
    thread in s.tasks && s.tasks[thread] == task
  }

  /** What the thread is running after `i` steps was begun by step `j`. */
  ghost predicate BegunAt(start: System, events: seq<Event>, thread: nat, j: nat, i: nat)
    requires j < i <= |events| && thread in Run(start, events[..i]).tasks
  {
    && thread !in Run(start, events[..j]).tasks
    && forall k :: j < k <= i ==> Running(start, events, thread, Run(start, events[..i]).tasks[thread], k)
  }

  lemma SecretTaskKept(s: System, event: Event, thread: nat)
    requires thread in s.tasks && thread in Step(s, event).tasks && WritesSecret(Step(s, event).tasks[thread])
    ensures Step(s, event).tasks[thread] == s.tasks[thread]
  {
    if event.Advance? && event.thread in s.tasks {
      AdvanceTasks(s, event.thread, event.draws);
    } else {
      OtherStepsWrite(s, event);
    }
  }

  lemma AdvanceTasks(s: System, thread: nat, draws: Draws)
    ensures var tasks := AdvanceStep(s, thread, draws).tasks;
            forall th :: th in tasks ==> (th in s.tasks && tasks[th] == s.tasks[th]) || tasks[th].WritingAction?
  {
  }

  lemma BegunNow(start: System, events: seq<Event>, thread: nat, i: nat)
    requires i < |events| && thread !in Run(start, events[..i]).tasks && thread in Run(start, events[..i + 1]).tasks
    ensures BegunAt(start, events, thread, i, i + 1)
  {
    var task := Run(start, events[..i + 1]).tasks[thread];
    forall k | i < k <= i + 1 ensures Running(start, events, thread, task, k) {
      assert k == i + 1;
    }
  }

  lemma BegunBefore(start: System, events: seq<Event>, thread: nat, j: nat, i: nat)
    requires j < i < |events| && thread in Run(start, events[..i]).tasks && BegunAt(start, events, thread, j, i)
    requires Running(start, events, thread, Run(start, events[..i]).tasks[thread], i + 1)
    ensures BegunAt(start, events, thread, j, i + 1)
  {
    var task := Run(start, events[..i]).tasks[thread];
    forall k | j < k <= i + 1 ensures Running(start, events, thread, task, k) {
      if k <= i {
        assert Running(start, events, thread, task, k);
      }
    }
  }

  /** Every operation on a secret under way was begun by some step. */
  lemma {:induction false} BeginOf(start: System, events: seq<Event>, thread: nat, i: nat) returns (j: nat)
    requires start.tasks == map[] && i <= |events|
    requires thread in Run(start, events[..i]).tasks && WritesSecret(Run(start, events[..i]).tasks[thread])
    ensures j < i && BegunAt(start, events, thread, j, i)
    decreases i
  {
    var before := Run(start, events[..i - 1]);
    if thread in before.tasks {
      assert Running(start, events, thread, before.tasks[thread], i) by {
        RunStep(start, events, i - 1);
        SecretTaskKept(before, events[i - 1], thread);
      }
      j := BeginOf(start, events, thread, i - 1);
      BegunBefore(start, events, thread, j, i - 1);
    } else {
      j := i - 1;
      BegunNow(start, events, thread, j);
    }
  }

  /** A task that appears in a step is what the request's read step gave. */
  lemma BegunIsRead(s: System, event: Event, thread: nat)
    requires thread !in s.tasks && thread in Step(s, event).tasks
    ensures event.Begin? && event.thread == thread && s.keys.Some?
    ensures Read(s.tables, s.keys.value, event.request, event.draws) == Ok(Step(s, event).tasks[thread])
  {
  }

  lemma OnlyThoseRead(t: Tables, keys: KeySet, request: Request, draws: Draws)
    requires Read(t, keys, request, draws).Ok?
    requires Read(t, keys, request, draws).value.Revoking? || Read(t, keys, request, draws).value.Rotating?
    ensures request.RevokeSecret? || request.RotateSecret?
  {
  }

  lemma FoundIsRow(s: System, dek: Key, name: FullName)
    requires SystemOK(s, dek) && FindSecret(s.tables, KeysOf(dek), name).Ok?
    ensures var found := FindSecret(s.tables, KeysOf(dek), name).value;
            && IsKind(s.tables, found.0.id, SecretObject)
            && s.tables.objects[found.0.id].box.plaintext == SecretDocument(found.0)
            && s.tables.objects[found.0.id].revision == found.1
  {
    var id := Lookup(s.tables, SecretObject, TokenOf(KeysOf(dek).lookup, SecretObject, name)).value;
    assert ObjectOK(id, s.tables.objects[id], KeysOf(dek));
  }

  /** The row a rotation or a revoke has read. */
  ghost predicate ReadsRow(t: Tables, task: Task)
    requires task.Rotating? || task.Revoking?
  {
    && IsKind(t, task.read.id, SecretObject)
    && t.objects[task.read.id].box.plaintext == SecretDocument(task.read)
    && t.objects[task.read.id].revision == task.revision
  }

  lemma BegunReadsRow(s: System, dek: Key, event: Event, thread: nat)
    requires SystemOK(s, dek) && thread !in s.tasks && thread in Step(s, event).tasks
    requires Step(s, event).tasks[thread].Rotating? || Step(s, event).tasks[thread].Revoking?
    ensures ReadsRow(s.tables, Step(s, event).tasks[thread])
  {
    BegunIsRead(s, event, thread);
    OnlyThoseRead(s.tables, KeysOf(dek), event.request, event.draws);
    ReadIsFound(s.tables, KeysOf(dek), event.request, event.draws);
    FoundIsRow(s, dek, event.request.name);
  }

  /** What a rotation or revoke holds is the row as it was before its begin step. */
  lemma HoldsRowRead(vaultID: string, wrapper: Wrapper, events: seq<Event>, thread: nat, j: nat, i: nat)
    requires var start := Fresh(vaultID, wrapper);
             && j < i <= |events| && thread in Run(start, events[..i]).tasks && BegunAt(start, events, thread, j, i)
             && (Run(start, events[..i]).tasks[thread].Rotating? || Run(start, events[..i]).tasks[thread].Revoking?)
    ensures var start := Fresh(vaultID, wrapper);
            var task, before := Run(start, events[..i]).tasks[thread], Run(start, events[..j]);
            && ReadsRow(before.tables, task) && NameOf(task.read) in Replay(before.history)
            && task.read.version <= Replay(before.history)[NameOf(task.read)].version
  {
    var start, dek := Fresh(vaultID, wrapper), wrapper.box.plaintext;
    var before, task := Run(start, events[..j]), Run(start, events[..i]).tasks[thread];
    RunStep(start, events, j);
    assert Running(start, events, thread, task, j + 1);
    RunKeeps(vaultID, wrapper, events[..j]);
    BegunReadsRow(before, dek, events[j], thread);
    assert SecretOK(before.tables, Replay(before.history), KeysOf(dek), task.read.id);
  }

  // ----- Exactly the interleavings that keep recorded versions current -----

  ghost predicate CurrentAt(start: System, events: seq<Event>, i: nat)
    requires i <= |events|
  {
    Current(Run(start, events[..i]).tables, Replay(Run(start, events[..i]).history))
  }

  /** At every moment of the run every recorded version is the last one. */
  ghost predicate AlwaysCurrent(start: System, events: seq<Event>) {
    forall i :: 0 <= i <= |events| ==> CurrentAt(start, events, i)
  }

  /** If step `i` commits a revoke, no rotation of its secret was committed since the step that
      began it.  Anything else may have been. */
  ghost predicate UndisturbedAt(start: System, events: seq<Event>, i: nat)
    requires i < |events|
  {
    var now := Run(start, events[..i]);
    CommitsRevoke(now, events[i]) ==>
      exists j: nat :: j < i && BegunAt(start, events, events[i].thread, j, i) &&
        NoRotation(now.history, |Run(start, events[..j]).history|, NameOf(now.tasks[events[i].thread].read))
  }

  ghost predicate Undisturbed(start: System, events: seq<Event>) {
    forall i :: 0 <= i < |events| ==> UndisturbedAt(start, events, i)
  }

  /** A revoke that read the last version still holds it exactly if its secret was not rotated. */
  lemma StaleExactly(vaultID: string, wrapper: Wrapper, events: seq<Event>, thread: nat, j: nat, i: nat)
    requires var start := Fresh(vaultID, wrapper);
             && j < i <= |events| && thread in Run(start, events[..i]).tasks && BegunAt(start, events, thread, j, i)
             && Run(start, events[..i]).tasks[thread].Revoking? && CurrentAt(start, events, j)
    ensures var start := Fresh(vaultID, wrapper);
            var before, now := Run(start, events[..j]), Run(start, events[..i]);
            NotStale(now.tasks[thread], Replay(now.history)) <==>
            NoRotation(now.history, |before.history|, NameOf(now.tasks[thread].read))
  {
    var start, dek := Fresh(vaultID, wrapper), wrapper.box.plaintext;
    var before, now := Run(start, events[..j]), Run(start, events[..i]);
    var read := now.tasks[thread].read;
    HoldsRowRead(vaultID, wrapper, events, thread, j, i);
    assert RecordsLast(before.tables, Replay(before.history), read.id);
    assert RowName(before.tables.objects[read.id]) == NameOf(read);
    RunPrefixHistory(start, events, j, i);
    assert LegalHistory(now.history) by { RunKeeps(vaultID, wrapper, events[..i]); }
    VersionSameExactly(before.history, now.history, NameOf(read));
  }

  lemma {:induction false} UndisturbedUpTo(vaultID: string, wrapper: Wrapper, events: seq<Event>, i: nat)
    requires Undisturbed(Fresh(vaultID, wrapper), events) && i <= |events|
    ensures forall k :: 0 <= k <= i ==> CurrentAt(Fresh(vaultID, wrapper), events, k)
    decreases i
  {
    var start, dek := Fresh(vaultID, wrapper), wrapper.box.plaintext;
    if i == 0 {
      assert CurrentAt(start, events, 0);
    } else {
      UndisturbedUpTo(vaultID, wrapper, events, i - 1);
      UndisturbedNext(vaultID, wrapper, events, i - 1);
    }
  }

  lemma UndisturbedNext(vaultID: string, wrapper: Wrapper, events: seq<Event>, i: nat)
    requires i < |events| && UndisturbedAt(Fresh(vaultID, wrapper), events, i)
    requires forall k :: 0 <= k <= i ==> CurrentAt(Fresh(vaultID, wrapper), events, k)
    ensures CurrentAt(Fresh(vaultID, wrapper), events, i + 1)
  {
    var start := Fresh(vaultID, wrapper);
    RevokeUndisturbed(vaultID, wrapper, events, i);
    assert CurrentAt(start, events, i);
    StepCurrent(Run(start, events[..i]), wrapper.box.plaintext, events[i]) by {
      RunKeeps(vaultID, wrapper, events[..i]);
    }
    RunStep(start, events, i);
  }

  lemma RevokeUndisturbed(vaultID: string, wrapper: Wrapper, events: seq<Event>, i: nat)
    requires i < |events| && UndisturbedAt(Fresh(vaultID, wrapper), events, i)
    requires forall k :: 0 <= k <= i ==> CurrentAt(Fresh(vaultID, wrapper), events, k)
    ensures var now := Run(Fresh(vaultID, wrapper), events[..i]);
            CommitsRevoke(now, events[i]) ==> NotStale(now.tasks[events[i].thread], Replay(now.history))
  {
    var start := Fresh(vaultID, wrapper);
    var now := Run(start, events[..i]);
    if CommitsRevoke(now, events[i]) {
      var thread := events[i].thread;
      var j: nat :| j < i && BegunAt(start, events, thread, j, i) &&
        NoRotation(now.history, |Run(start, events[..j]).history|, NameOf(now.tasks[thread].read));
      assert CurrentAt(start, events, j);
      StaleExactly(vaultID, wrapper, events, thread, j, i);
    }
  }

  lemma CurrentIsUndisturbed(vaultID: string, wrapper: Wrapper, events: seq<Event>, i: nat)
    requires i < |events| && AlwaysCurrent(Fresh(vaultID, wrapper), events)
    ensures UndisturbedAt(Fresh(vaultID, wrapper), events, i)
  {
    var start, dek := Fresh(vaultID, wrapper), wrapper.box.plaintext;
    var now, event := Run(start, events[..i]), events[i];
    if CommitsRevoke(now, event) {
      var j := BeginOf(start, events, event.thread, i);
      assert CurrentAt(start, events, j) && CurrentAt(start, events, i + 1);
      RunStep(start, events, i);
      RevokeRecords(now, dek, event) by { RunKeeps(vaultID, wrapper, events[..i]); }
      StaleExactly(vaultID, wrapper, events, event.thread, j, i);
    }
  }

  /** Recorded versions are the last ones at every moment of a run exactly if no revoke commits
      after a rotation of its secret that committed since the revoke began. */
  lemma AlwaysCurrentExactly(vaultID: string, wrapper: Wrapper, events: seq<Event>)
    ensures AlwaysCurrent(Fresh(vaultID, wrapper), events) <==> Undisturbed(Fresh(vaultID, wrapper), events)
  {
    if AlwaysCurrent(Fresh(vaultID, wrapper), events) {
      forall i | 0 <= i < |events| ensures UndisturbedAt(Fresh(vaultID, wrapper), events, i) {
        CurrentIsUndisturbed(vaultID, wrapper, events, i);
      }
    } else if Undisturbed(Fresh(vaultID, wrapper), events) {
      UndisturbedUpTo(vaultID, wrapper, events, |events|);
    }
  }

  /** In terms of one revoke: the version it leaves recorded is the last one exactly if no rotation
      of its secret was committed since it began. */
  lemma RevokeRecordsLastExactly(vaultID: string, wrapper: Wrapper, events: seq<Event>, j: nat, i: nat)
    requires var start := Fresh(vaultID, wrapper);
             && j < i < |events| && CommitsRevoke(Run(start, events[..i]), events[i])
             && BegunAt(start, events, events[i].thread, j, i) && CurrentAt(start, events, j)
    ensures var start := Fresh(vaultID, wrapper);
            var now, after := Run(start, events[..i]), Run(start, events[..i + 1]);
            var read := now.tasks[events[i].thread].read;
            && IsKind(after.tables, read.id, SecretObject)
            && (RecordsLast(after.tables, Replay(after.history), read.id) <==>
                NoRotation(now.history, |Run(start, events[..j]).history|, NameOf(read)))
  {
    var start := Fresh(vaultID, wrapper);
    RunStep(start, events, i);
    RevokeRecords(Run(start, events[..i]), wrapper.box.plaintext, events[i]) by {
      RunKeeps(vaultID, wrapper, events[..i]);
    }
    StaleExactly(vaultID, wrapper, events, events[i].thread, j, i);
  }

  /** So recorded versions are the last ones at the end of an undisturbed run. */
  lemma UndisturbedStaysCurrent(vaultID: string, wrapper: Wrapper, events: seq<Event>)
    requires Undisturbed(Fresh(vaultID, wrapper), events)
    ensures var s := Run(Fresh(vaultID, wrapper), events); Current(s.tables, Replay(s.history))
  {
    AlwaysCurrentExactly(vaultID, wrapper, events);
    assert CurrentAt(Fresh(vaultID, wrapper), events, |events|);
    assert events[..|events|] == events;
  }

  /** And a rotation run alone then always commits. */
  lemma UndisturbedRotationsCommit(vaultID: string, wrapper: Wrapper, events: seq<Event>, thread: nat,
                                   request: Request, draws: Draws)
    requires Undisturbed(Fresh(vaultID, wrapper), events)
    requires var s := Run(Fresh(vaultID, wrapper), events);
             && s.keys.Some? && thread !in s.tasks && FreshDraws(s.tables, draws)
             && request.RotateSecret? && SafeNames(request.name) && request.name in Replay(s.history)
    ensures var s := Run(Fresh(vaultID, wrapper), events); Alone(s, thread, request, draws).history != s.history
  {
    var s, dek := Run(Fresh(vaultID, wrapper), events), wrapper.box.plaintext;
    RunKeeps(vaultID, wrapper, events);
    UndisturbedStaysCurrent(vaultID, wrapper, events);
    assert NameStored(s.tables, request.name);
    var id :| IsKind(s.tables, id, SecretObject) && RowName(s.tables.objects[id]) == request.name;
    assert RecordsLast(s.tables, Replay(s.history), id);
    assert Reachable(s, dek);
    LoneRotationCommitsExactly(s, dek, thread, id, request, draws);
  }

  // ----- Secrets left behind -----

  /** A task that read an older version of the secret than `n`, if it rotates or revokes it. */
  ghost predicate ReadOlder(task: Task, id: string, n: nat) {
    (task.Rotating? || task.Revoking?) && task.read.id == id ==> task.read.version < n
  }

  /** The recorded version of a revoked secret is behind its last one. */
  ghost predicate LeftBehind(s: System, id: string, name: FullName, n: nat) {
    && IsKind(s.tables, id, SecretObject) && s.tables.objects[id].box.plaintext.SecretDocument?
    && RowName(s.tables.objects[id]) == name
    && Meta(s.tables.objects[id]).version < n
    && name in Replay(s.history) && Replay(s.history)[name].version == n && Replay(s.history)[name].state == Revoked
  }

  /** In addition, everything under way read an older version. */
  ghost predicate Stuck(s: System, id: string, name: FullName, n: nat) {
    LeftBehind(s, id, name, n) && forall thread :: thread in s.tasks ==> ReadOlder(s.tasks[thread], id, n)
  }

  ghost predicate SameEntry(s: System, s': System, id: string, name: FullName)
    requires id in s.tables.objects && name in Replay(s.history)
  {
    && id in s'.tables.objects && s'.tables.objects[id] == s.tables.objects[id]
    && name in Replay(s'.history) && Replay(s'.history)[name] == Replay(s.history)[name]
  }

  lemma UntouchedSame(s: System, s': System, dek: Key, meta: SecretMetadata, entry: Entry, id: string, name: FullName)
    requires ObjectsOK(s'.tables, KeysOf(dek)) && IsKind(s.tables, id, SecretObject) &&
             RowName(s.tables.objects[id]) == name
    requires name in Replay(s.history) && meta.id != id && Touched(s, s', meta, entry)
    ensures SameEntry(s, s', id, name)
  {
    if NameOf(meta) == name {
      NamesUnique(s'.tables, KeysOf(dek), SecretObject, meta.id, id);
    }
  }

  lemma StuckTasks(s: System, thread: nat, draws: Draws, id: string, name: FullName, n: nat)
    requires Stuck(s, id, name, n)
    ensures var tasks := AdvanceStep(s, thread, draws).tasks; forall th :: th in tasks ==> ReadOlder(tasks[th], id, n)
  {
    AdvanceTasks(s, thread, draws);
  }

  /** The row and the plain entry of a stuck secret: only a late revoke can rewrite the row. */
  lemma StuckRow(s: System, s': System, dek: Key, task: Task, draws: Draws, id: string, name: FullName, n: nat)
    requires ObjectsOK(s'.tables, KeysOf(dek)) && Stuck(s, id, name, n)
    requires TaskOK(task, s.tables, Replay(s.history), KeysOf(dek)) && ReadOlder(task, id, n)
    requires Calm(s, s') || (WritesSecret(task) && TouchedBy(s, s', task, draws))
    requires !(task.Revoking? && task.read.id == id)
    ensures SameEntry(s, s', id, name)
  {
    if !Calm(s, s') {
      UntouchedSame(s, s', dek, Written(task, draws), Left(task, Replay(s.history)), id, name);
    }
  }

  /** A revoke that read an older version leaves its secret behind. */
  lemma LateRevokeLeavesBehind(s: System, s': System, task: Task, draws: Draws, n: nat)
    requires task.Revoking? && task.read.version < n && NameOf(task.read) in Replay(s.history)
    requires Replay(s.history)[NameOf(task.read)].version == n && TouchedBy(s, s', task, draws)
    ensures LeftBehind(s', task.read.id, NameOf(task.read), n)
  {
  }

  lemma StuckAdvance(s: System, dek: Key, thread: nat, draws: Draws, id: string, name: FullName, n: nat)
    requires SystemOK(s, dek) && Stuck(s, id, name, n) && thread in s.tasks
    ensures Stuck(AdvanceStep(s, thread, draws), id, name, n)
  {
    var task, s' := s.tasks[thread], AdvanceStep(s, thread, draws);
    StuckTasks(s, thread, draws, id, name, n);
    AdvanceKeeps(s, dek, thread, draws);
    AdvanceEffect(s, dek, thread, draws);
    assert TaskOK(task, s.tables, Replay(s.history), KeysOf(dek)) && ReadOlder(task, id, n);
    if task.Revoking? && task.read.id == id && !Calm(s, s') {
      LateRevokeLeavesBehind(s, s', task, draws, n);
    } else if !Calm(s, s') {
      StuckRow(s, s', dek, task, draws, id, name, n);
    }
  }

  lemma BegunReadsOlder(s: System, dek: Key, request: Request, draws: Draws, id: string, name: FullName, n: nat)
    requires SystemOK(s, dek) && LeftBehind(s, id, name, n) && Read(s.tables, KeysOf(dek), request, draws).Ok?
    ensures ReadOlder(Read(s.tables, KeysOf(dek), request, draws).value, id, n)
  {
    var task := Read(s.tables, KeysOf(dek), request, draws).value;
    if task.Rotating? || task.Revoking? {
      OnlyThoseRead(s.tables, KeysOf(dek), request, draws);
      ReadIsFound(s.tables, KeysOf(dek), request, draws);
      FoundIsRow(s, dek, request.name);
    }
  }

  lemma StuckBegin(s: System, dek: Key, event: Event, id: string, name: FullName, n: nat)
    requires SystemOK(s, dek) && Stuck(s, id, name, n) && event.Begin?
    ensures Stuck(Step(s, event), id, name, n)
  {
    OtherStepsWrite(s, event);
    if event.thread in Step(s, event).tasks && event.thread !in s.tasks {
      BegunIsRead(s, event, event.thread);
      BegunReadsOlder(s, dek, event.request, event.draws, id, name, n);
    }
  }

  lemma StuckStep(s: System, dek: Key, event: Event, id: string, name: FullName, n: nat)
    requires SystemOK(s, dek) && Stuck(s, id, name, n)
    ensures Stuck(Step(s, event), id, name, n)
  {
    if event.Advance? && event.thread in s.tasks {
      StuckAdvance(s, dek, event.thread, event.draws, id, name, n);
    } else if event.Begin? {
      StuckBegin(s, dek, event, id, name, n);
    } else {
      OtherStepsWrite(s, event);
    }
  }

  /** A stuck secret stays stuck through every continuation: no request can rotate it, create it
      anew or make it resolve again. */
  lemma {:induction false} StuckForever(s: System, dek: Key, id: string, name: FullName, n: nat, events: seq<Event>)
    requires Reachable(s, dek) && Stuck(s, id, name, n)
    ensures Stuck(Run(s, events), id, name, n)
    ensures Resolve(Run(s, events).tables, KeysOf(dek), name) == Err(NotFound)
    decreases |events|
  {
    ReachableContinues(s, dek, events);
    if events != [] {
      var m, event := |events| - 1, events[|events| - 1];
      var before := Run(s, events[..m]);
      StuckForever(s, dek, id, name, n, events[..m]);
      ReachableContinues(s, dek, events[..m]);
      ReachableIsOK(before, dek);
      StuckStep(before, dek, event, id, name, n);
    }
    ResolveIsReplay(Run(s, events), dek, name);
  }

  /** Whenever nothing is under way, a secret is stuck exactly if its recorded version is not
      its last. */
  lemma StuckExactly(s: System, dek: Key, id: string)
    requires Reachable(s, dek) && s.tasks == map[] && IsKind(s.tables, id, SecretObject)
    ensures var name := RowName(s.tables.objects[id]);
            name in Replay(s.history) &&
            (Stuck(s, id, name, Replay(s.history)[name].version) <==> !RecordsLast(s.tables, Replay(s.history), id))
  {
    ReachableIsOK(s, dek);
    assert SecretOK(s.tables, Replay(s.history), KeysOf(dek), id);
  }

  /** The interleaving that leaves a secret stuck: a revoke reads, a rotation runs in between,
      and the revoke commits.  It works on every secret whose recorded version is its last. */
  lemma StaleRevokeSticks(s: System, dek: Key, id: string, rotate: Request, draws: Draws, draws': Draws)
    requires Reachable(s, dek) && s.keys.Some? && s.tasks == map[]
    requires IsKind(s.tables, id, SecretObject) && RecordsLast(s.tables, Replay(s.history), id)
    requires rotate.RotateSecret? && SafeNames(rotate.name) && rotate.name == RowName(s.tables.objects[id])
    requires FreshDraws(s.tables, draws)
    requires !Audit.HasId(Alone(BeginStep(s, 1, RevokeSecret(rotate.name), draws'), 0, rotate, draws).tables.audit,
                          draws'.eventId)
    ensures var s' :=
            AdvanceStep(Alone(BeginStep(s, 1, RevokeSecret(rotate.name), draws'), 0, rotate, draws), 1, draws');
            && Reachable(s', dek) && s'.tasks == map[]
            && Stuck(s', id, rotate.name, Replay(s.history)[rotate.name].version + 1)
  {
    var reading := BeginStep(s, 1, RevokeSecret(rotate.name), draws');
    StaleRunIsReachable(s, dek, rotate, draws, draws');
    ReachableIsOK(s, dek);
    BegunRevoke(s, dek, id, rotate.name, draws');
    BeginKeeps(s, dek, 1, RevokeSecret(rotate.name), draws');
    RotatesMeanwhile(reading, dek, id, 0, rotate, draws);
    var rotated := Alone(reading, 0, rotate, draws);
    assert TaskOK(rotated.tasks[1], rotated.tables, Replay(rotated.history), KeysOf(dek)) by {
      AloneKeeps(reading, dek, 0, rotate, draws);
    }
    RevokesLate(rotated, KeysOf(dek), rotated.tasks[1], draws', Replay(s.history)[rotate.name].version + 1);
  }

  lemma StaleRunIsReachable(s: System, dek: Key, rotate: Request, draws: Draws, draws': Draws)
    requires Reachable(s, dek) && rotate.RotateSecret?
    ensures var reading := BeginStep(s, 1, RevokeSecret(rotate.name), draws');
            Reachable(AdvanceStep(Alone(reading, 0, rotate, draws), 1, draws'), dek)
  {
    var reading := BeginStep(s, 1, RevokeSecret(rotate.name), draws');
    var begun := BeginStep(reading, 0, rotate, draws);
    ReachableStep(s, dek, Begin(1, RevokeSecret(rotate.name), draws'));
    ReachableStep(reading, dek, Begin(0, rotate, draws));
    ReachableStep(begun, dek, Advance(0, draws));
    ReachableStep(Alone(reading, 0, rotate, draws), dek, Advance(1, draws'));
  }

  /** From then on: whatever the continuation, the secret never resolves again. */
  lemma StaleRevokeForever(s: System, dek: Key, id: string, rotate: Request, draws: Draws, draws': Draws,
                           events: seq<Event>)
    requires Reachable(s, dek) && s.keys.Some? && s.tasks == map[]
    requires IsKind(s.tables, id, SecretObject) && RecordsLast(s.tables, Replay(s.history), id)
    requires rotate.RotateSecret? && SafeNames(rotate.name) && rotate.name == RowName(s.tables.objects[id])
    requires FreshDraws(s.tables, draws)
    requires !Audit.HasId(Alone(BeginStep(s, 1, RevokeSecret(rotate.name), draws'), 0, rotate, draws).tables.audit,
                          draws'.eventId)
    ensures var s' :=
            AdvanceStep(Alone(BeginStep(s, 1, RevokeSecret(rotate.name), draws'), 0, rotate, draws), 1, draws');
            Resolve(Run(s', events).tables, KeysOf(dek), rotate.name) == Err(NotFound)
  {
    var s' := AdvanceStep(Alone(BeginStep(s, 1, RevokeSecret(rotate.name), draws'), 0, rotate, draws), 1, draws');
    StaleRevokeSticks(s, dek, id, rotate, draws, draws');
    StuckForever(s', dek, id, rotate.name, Replay(s.history)[rotate.name].version + 1, events);
  }

  lemma AloneKeeps(s: System, dek: Key, thread: nat, request: Request, draws: Draws)
    requires SystemOK(s, dek)
    ensures SystemOK(Alone(s, thread, request, draws), dek)
  {
    BeginKeeps(s, dek, thread, request, draws);
    AdvanceKeeps(BeginStep(s, thread, request, draws), dek, thread, draws);
  }

  lemma BegunRevoke(s: System, dek: Key, id: string, name: FullName, draws: Draws)
    requires SystemOK(s, dek) && s.keys.Some? && s.tasks == map[]
    requires IsKind(s.tables, id, SecretObject) && RowName(s.tables.objects[id]) == name
    ensures var row := s.tables.objects[id];
            && row.box.plaintext.SecretDocument? && Meta(row).id == id && NameOf(Meta(row)) == name
            && BeginStep(s, 1, RevokeSecret(name), draws) ==
               s.(tasks := map[1 := Revoking(KeysOf(dek), Meta(row), row.revision)])
  {
    FindInOrder(s.tables, Replay(s.history), KeysOf(dek), name, id);
    assert ObjectOK(id, s.tables.objects[id], KeysOf(dek));
  }

  // ----- A rotation with nothing in between -----

  lemma AloneRotates(s: System, keys: KeySet, thread: nat, rotate: Request, draws: Draws, read: SecretMetadata,
                     revision: nat)
    requires s.keys == Some(keys) && thread !in s.tasks && rotate.RotateSecret? && SafeNames(rotate.name)
    requires FindSecret(s.tables, keys, rotate.name) == Ok((read, revision))
    requires var rotated := RotatedSecret(read, rotate.profile, rotate.strength, draws.now);
             CommitRotate(s.tables, keys, read, revision, rotated, rotate.value, draws).Ok?
    ensures var s', rotated := Alone(s, thread, rotate, draws),
            RotatedSecret(read, rotate.profile, rotate.strength, draws.now);
            && s'.tasks == s.tasks && s'.keys == s.keys
            && s'.tables == CommitRotate(s.tables, keys, read, revision, rotated, rotate.value, draws).value
            && s'.history ==
               s.history + [Commit(Rotated(rotated, rotate.value), AuditOf("broker", "secret.rotate", read.id, draws))]
  {
    var task := Rotating(keys, read, revision, rotate.profile, rotate.strength, rotate.value);
    BeginRotation(s, keys, thread, rotate, draws, read, revision);
    RotatingFinishes(BeginStep(s, thread, rotate, draws), thread, draws);
    assert s.tasks[thread := task] - {thread} == s.tasks;
  }

  lemma CommittedRotateRow(t: Tables, keys: KeySet, read: SecretMetadata, revision: nat, rotated: SecretMetadata,
                           value: string, draws: Draws)
    requires CommitRotate(t, keys, read, revision, rotated, value, draws).Ok?
    ensures var t' := CommitRotate(t, keys, read, revision, rotated, value, draws).value;
            && read.id in t.objects && t.objects[read.id].revision == revision
            && read.id in t'.objects && t'.objects[read.id].revision == revision + 1
            && t'.objects[read.id].kind == t.objects[read.id].kind
            && t'.objects[read.id].box.plaintext == SecretDocument(rotated)
  {
  }

  /** The stored metadata is found, and a rotation based on it can commit. */
  ghost predicate CanRotate(t: Tables, keys: KeySet, id: string, rotate: Request, draws: Draws)
    requires rotate.RotateSecret?
  {
    && IsKind(t, id, SecretObject) && t.objects[id].box.plaintext.SecretDocument?
    && var read, revision := Meta(t.objects[id]), t.objects[id].revision;
       var rotated := RotatedSecret(read, rotate.profile, rotate.strength, draws.now);
       && read.id == id && NameOf(read) == rotate.name
       && FindSecret(t, keys, rotate.name) == Ok((read, revision))
       && CommitRotate(t, keys, read, revision, rotated, rotate.value, draws).Ok?
  }

  lemma LastCanRotate(t: Tables, plain: Plain, keys: KeySet, id: string, rotate: Request, draws: Draws)
    requires ObjectsOK(t, keys) && SecretsOK(t, plain, keys) && FreshDraws(t, draws)
    requires IsKind(t, id, SecretObject) && RecordsLast(t, plain, id)
    requires rotate.RotateSecret? && rotate.name == RowName(t.objects[id])
    ensures CanRotate(t, keys, id, rotate, draws)
  {
    FindInOrder(t, plain, keys, rotate.name, id);
    assert ObjectOK(id, t.objects[id], keys) && SecretOK(t, plain, keys, id);
    var read := Meta(t.objects[id]);
    RotateOutcome(t, keys, read, t.objects[id].revision,
                  RotatedSecret(read, rotate.profile, rotate.strength, draws.now),
                  rotate.value, draws);
  }

  /** What holds after a rotation of `id` run alone. */
  ghost predicate RotatedAlone(s: System, s': System, id: string, name: FullName)
    requires IsKind(s.tables, id, SecretObject) && name in Replay(s.history)
  {
    && s'.tasks == s.tasks && s'.keys == s.keys && |s'.history| == |s.history| + 1
    && name in Replay(s'.history) && Replay(s'.history)[name].version == Replay(s.history)[name].version + 1
    && IsKind(s'.tables, id, SecretObject) && RowName(s'.tables.objects[id]) == name
    && RecordsLast(s'.tables, Replay(s'.history), id)
    && s'.tables.objects[id].revision == s.tables.objects[id].revision + 1
  }

  lemma CanRotateDoes(s: System, keys: KeySet, id: string, thread: nat, rotate: Request, draws: Draws)
    requires s.keys == Some(keys) && thread !in s.tasks && rotate.RotateSecret? && SafeNames(rotate.name)
    requires CanRotate(s.tables, keys, id, rotate, draws) && RecordsLast(s.tables, Replay(s.history), id)
    ensures RotatedAlone(s, Alone(s, thread, rotate, draws), id, rotate.name)
  {
    var read, revision := Meta(s.tables.objects[id]), s.tables.objects[id].revision;
    var rotated := RotatedSecret(read, rotate.profile, rotate.strength, draws.now);
    AloneRotates(s, keys, thread, rotate, draws, read, revision);
    CommittedRotateRow(s.tables, keys, read, revision, rotated, rotate.value, draws);
    ReplaySnoc(s.history, Commit(Rotated(rotated, rotate.value), AuditOf("broker", "secret.rotate", read.id, draws)));
  }

  /** Run alone it commits, adds a version, records it and moves the revision on. */
  lemma RotatesMeanwhile(s: System, dek: Key, id: string, thread: nat, rotate: Request, draws: Draws)
    requires SystemOK(s, dek) && s.keys.Some? && thread !in s.tasks && FreshDraws(s.tables, draws)
    requires IsKind(s.tables, id, SecretObject) && RecordsLast(s.tables, Replay(s.history), id)
    requires rotate.RotateSecret? && SafeNames(rotate.name) && rotate.name == RowName(s.tables.objects[id])
    ensures RotatedAlone(s, Alone(s, thread, rotate, draws), id, rotate.name)
  {
    LastCanRotate(s.tables, Replay(s.history), KeysOf(dek), id, rotate, draws);
    CanRotateDoes(s, KeysOf(dek), id, thread, rotate, draws);
  }

  lemma RevokesLate(s: System, keys: KeySet, task: Task, draws: Draws, n: nat)
    requires s.tasks == map[1 := task] && task.Revoking? && TaskOK(task, s.tables, Replay(s.history), keys)
    requires !Audit.HasId(s.tables.audit, draws.eventId) && task.read.version < n
    requires NameOf(task.read) in Replay(s.history) && Replay(s.history)[NameOf(task.read)].version == n
    ensures var s' := AdvanceStep(s, 1, draws); Stuck(s', task.read.id, NameOf(task.read), n) && s'.tasks == map[]
  {
    assert LeftBehind(AdvanceStep(s, 1, draws), task.read.id, NameOf(task.read), n) by {
      RevokingEffect(s, keys, 1, draws);
      LateRevokeLeavesBehind(s, AdvanceStep(s, 1, draws), task, draws, n);
    }
    assert AdvanceStep(s, 1, draws).tasks == map[] by {
      RevokingFinishes(s, 1, draws);
      assert s.tasks - {1} == map[];
    }
  }
}
