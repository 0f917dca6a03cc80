/** Requests one at a time, with any number of locks and unlocks: the encrypted, token-indexed
    store behaves as a plain map that can be locked. */
module Serial {
  import opened Model
  import opened SecureCrypto
  import opened PlainVault
  import opened Vault
  import opened Machine
  import opened Invariant
  import opened Preservation
  import opened Interleavings
  import opened RecordedVersions
  import Audit

  datatype Command =
    | Do(request: Request, draws: Draws)
    | Lock
    | Unlock(password: string)

  // ----- The plain form -----

  datatype PlainSystem = PlainSystem(locked: bool, secrets: Plain)

  /** What a request for a secret is answered: an error, or the entry it leaves. */
  datatype Reply = Refused(error: Error) | Stored(entry: Entry)

  predicate AboutSecrets(request: Request) {
    request.CreateSecret? || request.RotateSecret? || request.RevokeSecret?
  }

  function Subject(request: Request): FullName
    requires AboutSecrets(request)
  {
    match request
    case CreateSecret(meta, _) => NameOf(meta)
    case RotateSecret(name, _, _, _) => name
    case RevokeSecret(name) => name
  }

  function PlainReply(p: PlainSystem, request: Request): Reply
    requires AboutSecrets(request)
  {
    var name := Subject(request);
    if !Acceptable(request) then Refused(InvalidRequest)
    else if p.locked then Refused(Locked)
    else
      match request
      case CreateSecret(_, value) =>
        if name in p.secrets then Refused(AlreadyExists) else Stored(Entry(value, 1, Active))
      case RotateSecret(_, _, _, value) =>
        if name !in p.secrets then Refused(NotFound) else Stored(Entry(value, p.secrets[name].version + 1, Active))
      case RevokeSecret(_) =>
        if name !in p.secrets then Refused(NotFound) else Stored(p.secrets[name].(state := Revoked))
  }

  function PlainStep(p: PlainSystem, command: Command, password: string): PlainSystem {
    match command
    case Lock => p.(locked := true)
    case Unlock(attempt) => if attempt == password then p.(locked := false) else p
    case Do(request, _) =>
      if !AboutSecrets(request) then p
      else
        var reply := PlainReply(p, request);
        if reply.Refused? then p else p.(secrets := p.secrets[Subject(request) := reply.entry])
  }

  function PlainRun(commands: seq<Command>, password: string): PlainSystem {
    if commands == [] then PlainSystem(false, map[])
    else PlainStep(PlainRun(commands[..|commands| - 1], password), commands[|commands| - 1], password)
  }

  // ----- The store, one request at a time -----

  /** A request runs to its end; replacing an action takes one step more than the others. */
  ghost function Complete(s: System, request: Request, draws: Draws): System {
    AdvanceStep(AdvanceStep(BeginStep(s, 0, request, draws), 0, draws), 0, draws)
  }

  ghost function SerialStep(s: System, command: Command): System {
    match command
    case Do(request, draws) => Complete(s, request, draws)
    case Lock => Step(s, LockVault)
    case Unlock(password) => Step(s, UnlockVault(password))
  }

  ghost function SerialRun(start: System, commands: seq<Command>): System {
    if commands == [] then start
    else SerialStep(SerialRun(start, commands[..|commands| - 1]), commands[|commands| - 1])
  }

  function Abstract(s: System): PlainSystem {
    PlainSystem(s.keys.None?, Replay(s.history))
  }

  /** The random draws hit nothing stored, and the caller leaves new ids to be drawn. */
  ghost predicate Lucky(s: System, command: Command) {
    command.Do? ==>
      FreshDraws(s.tables, command.draws) && (command.request.CreateSecret? ==> command.request.meta.id == "")
  }

  ghost predicate AllLucky(start: System, commands: seq<Command>) {
    forall i :: 0 <= i < |commands| ==> Lucky(SerialRun(start, commands[..i]), commands[i])
  }

  ghost predicate SerialOK(s: System, dek: Key) {
    SystemOK(s, dek) && s.tasks == map[] && Current(s.tables, Replay(s.history))
  }

  // ----- One request, run to its end -----

  /** One commit happened, answered with the metadata it stored, and nothing else changed. */
  ghost predicate Committed(s: System, s': System, keys: KeySet, staged: Tables, commit: Commit, meta: SecretMetadata) {
    var outcome := WithAudit(staged, keys, commit.event);
    && outcome.Ok?
    && s' == s.(tables := outcome.value, history := s.history + [commit], answers := s.answers + [SecretStored(meta)])
  }

  /** Nothing happened but an error answer. */
  ghost predicate SameButAnswer(s: System, s': System, error: Error) {
    s' == Answering(s, Failed(error))
  }

  lemma CompleteIsOneAdvance(s: System, request: Request, draws: Draws, task: Task)
    requires s.tasks == map[] && BeginStep(s, 0, request, draws) == s.(tasks := map[0 := task])
    requires 0 !in AdvanceStep(s.(tasks := map[0 := task]), 0, draws).tasks
    ensures Complete(s, request, draws) == AdvanceStep(s.(tasks := map[0 := task]), 0, draws)
  {
  }

  lemma FinishAlone(s: System, keys: KeySet, task: Task, staged: Tables, commit: Commit, meta: SecretMetadata)
    requires s.tasks == map[] && WithAudit(staged, keys, commit.event).Ok?
    ensures var s' :=
            Finish(s.(tasks := map[0 := task]), 0, Audited(Ok(staged), keys, commit.event), commit, SecretStored(meta));
            Committed(s, s', keys, staged, commit, meta) && s'.tasks == map[]
  {
    assert map[0 := task] - {0} == map[];
  }

  lemma FailAlone(s: System, task: Task, error: Error, commit: Commit, answer: Answer)
    requires s.tasks == map[]
    ensures var s' := Finish(s.(tasks := map[0 := task]), 0, Err(error), commit, answer);
            SameButAnswer(s, s', error) && s'.tasks == map[]
  {
    assert map[0 := task] - {0} == map[];
  }

  function CreateCommit(created: SecretMetadata, value: string, draws: Draws): Commit {
    Commit(Created(created, value), AuditOf("broker", "secret.create", created.id, draws))
  }

  function RotateCommit(rotated: SecretMetadata, value: string, draws: Draws): Commit {
    Commit(Rotated(rotated, value), AuditOf("broker", "secret.rotate", rotated.id, draws))
  }

  function RevokeCommit(revoked: SecretMetadata, draws: Draws): Commit {
    Commit(RevokedSecret(revoked), AuditOf("broker", "secret.revoke", revoked.id, draws))
  }

  lemma CreateRuns(s: System, keys: KeySet, meta: SecretMetadata, value: string, draws: Draws)
    requires s.tasks == map[] && s.keys == Some(keys) && SafeNames(NameOf(meta)) &&
             !Audit.HasId(s.tables.audit, draws.eventId)
    ensures var created, s' := NewSecret(meta, draws), Complete(s, CreateSecret(meta, value), draws);
            var staged := StageCreate(s.tables, keys, created, value, draws);
            if staged.Err? then SameButAnswer(s, s', staged.error)
            else Committed(s, s', keys, staged.value, CreateCommit(created, value, draws), created)
  {
    var created, task := NewSecret(meta, draws), Creating(keys, meta, value);
    var staged, commit := StageCreate(s.tables, keys, created, value, draws), CreateCommit(created, value, draws);
    if staged.Err? {
      FailAlone(s, task, staged.error, commit, SecretStored(created));
    } else {
      FinishAlone(s, keys, task, staged.value, commit, created);
    }
    CompleteIsOneAdvance(s, CreateSecret(meta, value), draws, task);
  }

  lemma RotateRuns(s: System, keys: KeySet, request: Request, draws: Draws, read: SecretMetadata, revision: nat)
    requires s.tasks == map[] && s.keys == Some(keys) && request.RotateSecret? && SafeNames(request.name)
    requires FindSecret(s.tables, keys, request.name) == Ok((read, revision)) &&
             !Audit.HasId(s.tables.audit, draws.eventId)
    requires StageRotate(s.tables, keys, read, revision,
                         RotatedSecret(read, request.profile, request.strength, draws.now),
                         request.value, draws).Ok?
    ensures var rotated, s' := RotatedSecret(read, request.profile, request.strength, draws.now),
            Complete(s, request, draws);
            Committed(s, s', keys, StageRotate(s.tables, keys, read, revision, rotated, request.value, draws).value,
                      RotateCommit(rotated, request.value, draws), rotated)
  {
    var task := Rotating(keys, read, revision, request.profile, request.strength, request.value);
    var rotated := RotatedSecret(read, request.profile, request.strength, draws.now);
    var staged := StageRotate(s.tables, keys, read, revision, rotated, request.value, draws);
    FinishAlone(s, keys, task, staged.value, RotateCommit(rotated, request.value, draws), rotated);
    CompleteIsOneAdvance(s, request, draws, task);
  }

  lemma RevokeRuns(s: System, keys: KeySet, name: FullName, draws: Draws, read: SecretMetadata, revision: nat)
    requires s.tasks == map[] && s.keys == Some(keys)
    requires FindSecret(s.tables, keys, name) == Ok((read, revision)) && !Audit.HasId(s.tables.audit, draws.eventId)
    ensures var revoked, s' := RevokedMetadata(read, draws.now), Complete(s, RevokeSecret(name), draws);
            Committed(s, s', keys, StageRevoke(s.tables, keys, revoked, revision), RevokeCommit(revoked, draws),
                      revoked)
  {
    var task, revoked := Revoking(keys, read, revision), RevokedMetadata(read, draws.now);
    FinishAlone(s, keys, task, StageRevoke(s.tables, keys, revoked, revision), RevokeCommit(revoked, draws), revoked);
    CompleteIsOneAdvance(s, RevokeSecret(name), draws, task);
  }

  lemma RefusedRuns(s: System, request: Request, draws: Draws)
    requires s.tasks == map[]
    ensures !Acceptable(request) ==> SameButAnswer(s, Complete(s, request, draws), InvalidRequest)
    ensures Acceptable(request) && s.keys.None? ==> SameButAnswer(s, Complete(s, request, draws), Locked)
    ensures Acceptable(request) && s.keys.Some? && Read(s.tables, s.keys.value, request, draws).Err? ==>
              SameButAnswer(s, Complete(s, request, draws), Read(s.tables, s.keys.value, request, draws).error)
  {
  }

  // ----- Requests for secrets -----

  lemma CompleteKeeps(s: System, dek: Key, request: Request, draws: Draws)
    requires SystemOK(s, dek)
    ensures SystemOK(Complete(s, request, draws), dek)
  {
    var begun := BeginStep(s, 0, request, draws);
    BeginKeeps(s, dek, 0, request, draws);
    AdvanceKeeps(begun, dek, 0, draws);
    AdvanceKeeps(AdvanceStep(begun, 0, draws), dek, 0, draws);
  }

  /** The state after one request for `name`, as the plain map and its reply say. */
  ghost predicate Refines(s: System, s': System, name: FullName, reply: Reply) {
    && s'.tasks == map[] && s'.keys == s.keys && s'.wrapper == s.wrapper && s'.vaultID == s.vaultID
    && |s'.answers| == |s.answers| + 1 && s.answers <= s'.answers
    && Current(s'.tables, Replay(s'.history))
    && var answer := s'.answers[|s.answers|];
       match reply
       case Refused(error) => answer == Failed(error) && s'.history == s.history && s'.tables == s.tables
       case Stored(entry) =>
         answer.SecretStored? && answer.meta.version == entry.version && answer.meta.state == entry.state &&
         NameOf(answer.meta) == name && Replay(s'.history) == Replay(s.history)[name := entry]
  }

  lemma CommittedRefines(s: System, s': System, keys: KeySet, staged: Tables, commit: Commit, meta: SecretMetadata,
                         entry: Entry)
    requires s.tasks == map[] && Current(s.tables, Replay(s.history)) && Committed(s, s', keys, staged, commit, meta)
    requires ObjectsOK(staged, keys) && Wrote(s.tables, Replay(s.history), staged, meta, entry)
    requires meta.state == entry.state && meta.version == entry.version
    requires Apply(Replay(s.history), commit.effect) == Replay(s.history)[NameOf(meta) := entry]
    ensures Refines(s, s', NameOf(meta), Stored(entry))
  {
    ReplaySnoc(s.history, commit);
    CurrentKept(s.tables, Replay(s.history), staged, keys, meta, entry);
    CurrentSame(staged, s'.tables, Replay(s'.history));
  }

  lemma RefusedRefines(s: System, s': System, name: FullName, error: Error)
    requires s.tasks == map[] && Current(s.tables, Replay(s.history)) && SameButAnswer(s, s', error)
    ensures Refines(s, s', name, Refused(error))
  {
  }

  lemma CreateRefines(s: System, dek: Key, meta: SecretMetadata, value: string, draws: Draws)
    requires SerialOK(s, dek) && s.keys.Some? && SafeNames(NameOf(meta)) && meta.id == "" && FreshDraws(s.tables, draws)
    ensures Refines(s, Complete(s, CreateSecret(meta, value), draws), NameOf(meta),
                    if NameOf(meta) in Replay(s.history) then Refused(AlreadyExists)
                    else Stored(Entry(value, 1, Active)))
  {
    var t, plain, keys, name, created := s.tables, Replay(s.history), KeysOf(dek), NameOf(meta), NewSecret(meta, draws);
    var s', staged := Complete(s, CreateSecret(meta, value), draws), StageCreate(t, keys, created, value, draws);
    CreateRuns(s, keys, meta, value, draws);
    if name in plain {
      StoredIsFound(t, plain, keys, name);
      RefusedRefines(s, s', name, AlreadyExists);
    } else {
      CreateStages(t, plain, keys, created, value, draws);
      SafeIsZeroFree(name);
      CreateStaged(t, s.history, keys, created, value, draws, CreateCommit(created, value, draws).event);
      CreateWrites(t, plain, keys, created, value, draws);
      CommittedRefines(s, s', keys, staged.value, CreateCommit(created, value, draws), created,
                       Entry(value, 1, Active));
    }
  }

  lemma FoundIsStored(t: Tables, plain: Plain, keys: KeySet, name: FullName)
    requires ObjectsOK(t, keys) && SecretsOK(t, plain, keys)
    requires Lookup(t, SecretObject, TokenOf(keys.lookup, SecretObject, name)).Some?
    ensures name in plain
  {
    LookupIsScan(t, keys, SecretObject, name);
    var id := Lookup(t, SecretObject, TokenOf(keys.lookup, SecretObject, name)).value;
    assert Lookup(t, SecretObject, TokenOf(keys.lookup, SecretObject, name)) == Some(id);
    assert SecretOK(t, plain, keys, id);
  }

  lemma CreateStages(t: Tables, plain: Plain, keys: KeySet, created: SecretMetadata, value: string, draws: Draws)
    requires ObjectsOK(t, keys) && SecretsOK(t, plain, keys) && NameOf(created) !in plain
    requires FreshDraws(t, draws) && created.id == draws.objectId
    ensures StageCreate(t, keys, created, value, draws).Ok?
  {
    if Lookup(t, SecretObject, TokenOf(keys.lookup, SecretObject, NameOf(created))).Some? {
      FoundIsStored(t, plain, keys, NameOf(created));
    }
    NoVersionsYet(t, plain, keys, created.id);
  }

  lemma NothingFound(t: Tables, plain: Plain, keys: KeySet, name: FullName)
    requires ObjectsOK(t, keys) && SecretsOK(t, plain, keys) && name !in plain
    ensures FindSecret(t, keys, name) == Err(NotFound)
  {
    if Lookup(t, SecretObject, TokenOf(keys.lookup, SecretObject, name)).Some? {
      FoundIsStored(t, plain, keys, name);
    }
  }

  /** The secret behind a stored name, as a snapshot would read it. */
  lemma Found(s: System, dek: Key, name: FullName) returns (read: SecretMetadata, revision: nat)
    requires SerialOK(s, dek) && name in Replay(s.history)
    ensures FindSecret(s.tables, KeysOf(dek), name) == Ok((read, revision))
    ensures SnapshotOK(read, s.tables, Replay(s.history)) && NameOf(read) == name
    ensures read.version == Replay(s.history)[name].version && s.tables.objects[read.id].revision == revision
  {
    var t, plain, keys := s.tables, Replay(s.history), KeysOf(dek);
    assert NameStored(t, name);
    var id :| IsKind(t, id, SecretObject) && RowName(t.objects[id]) == name;
    assert SecretOK(t, plain, keys, id) && ObjectOK(id, t.objects[id], keys) && RecordsLast(t, plain, id);
    FindInOrder(t, plain, keys, name, id);
    read, revision := Meta(t.objects[id]), t.objects[id].revision;
  }

  /** What a rotation of the last version stages. */
  ghost predicate GoodRotation(t: Tables, plain: Plain, keys: KeySet, read: SecretMetadata, rotated: SecretMetadata,
                               value: string, draws: Draws)
    requires read.id in t.objects && NameOf(read) in plain
  {
    var staged := StageRotate(t, keys, read, t.objects[read.id].revision, rotated, value, draws);
    && staged.Ok?
    && ObjectsOK(staged.value, keys)
    && rotated.version == plain[NameOf(read)].version + 1
    && Wrote(t, plain, staged.value, rotated, Entry(value, rotated.version, Active))
  }

  lemma LastVersionStages(t: Tables, history: seq<Commit>, keys: KeySet, read: SecretMetadata,
                          rotated: SecretMetadata, value: string, draws: Draws)
    requires RowsOK(t, history, keys) && SnapshotOK(read, t, Replay(history)) && FreshDraws(t, draws)
    requires read.version == Replay(history)[NameOf(read)].version
    requires rotated.id == read.id && NameOf(rotated) == NameOf(read) && rotated.version == read.version + 1 &&
             rotated.state == Active
    ensures var staged := StageRotate(t, keys, read, t.objects[read.id].revision, rotated, value, draws);
            staged.Ok? && ObjectsOK(staged.value, keys)
  {
    var revision := t.objects[read.id].revision;
    assert StageRotate(t, keys, read, revision, rotated, value, draws).Ok? by {
      RotationIsNext(t, Replay(history), keys, read);
    }
    RotateStaged(t, history, keys, read, revision, rotated, value, draws, RotateCommit(rotated, value, draws).event);
  }

  lemma RotationIsGood(t: Tables, plain: Plain, keys: KeySet, read: SecretMetadata, rotated: SecretMetadata,
                       value: string, draws: Draws)
    requires SnapshotOK(read, t, plain) && read.version == plain[NameOf(read)].version
    requires rotated.id == read.id && NameOf(rotated) == NameOf(read) && rotated.version == read.version + 1
    requires var staged := StageRotate(t, keys, read, t.objects[read.id].revision, rotated, value, draws);
             staged.Ok? && ObjectsOK(staged.value, keys)
    ensures GoodRotation(t, plain, keys, read, rotated, value, draws)
  {
    RotateWrites(t, plain, keys, read, t.objects[read.id].revision, rotated, value, draws);
  }

  lemma GoodRotationRefines(s: System, s': System, keys: KeySet, read: SecretMetadata, rotated: SecretMetadata,
                            value: string, draws: Draws)
    requires s.tasks == map[] && Current(s.tables, Replay(s.history))
    requires read.id in s.tables.objects && NameOf(read) in Replay(s.history) && NameOf(rotated) == NameOf(read) &&
             rotated.state == Active
    requires GoodRotation(s.tables, Replay(s.history), keys, read, rotated, value, draws)
    requires Committed(s, s', keys,
                       StageRotate(s.tables, keys, read, s.tables.objects[read.id].revision, rotated, value,
                                   draws).value,
                       RotateCommit(rotated, value, draws), rotated)
    ensures Refines(s, s', NameOf(read), Stored(Entry(value, Replay(s.history)[NameOf(read)].version + 1, Active)))
  {
    CommittedRefines(s, s', keys,
                     StageRotate(s.tables, keys, read, s.tables.objects[read.id].revision, rotated, value, draws).value,
                     RotateCommit(rotated, value, draws), rotated,
                     Entry(value, Replay(s.history)[NameOf(read)].version + 1, Active));
  }

  lemma FoundRotationRefines(s: System, s': System, keys: KeySet, read: SecretMetadata, rotated: SecretMetadata,
                             value: string, draws: Draws, name: FullName, entry: Entry)
    requires s.tasks == map[] && Current(s.tables, Replay(s.history)) && RowsOK(s.tables, s.history, keys)
    requires SnapshotOK(read, s.tables, Replay(s.history)) && FreshDraws(s.tables, draws)
    requires NameOf(read) == name && read.version == Replay(s.history)[name].version
    requires entry == Entry(value, Replay(s.history)[name].version + 1, Active)
    requires rotated.id == read.id && NameOf(rotated) == name && rotated.version == read.version + 1 &&
             rotated.state == Active
    requires var staged := StageRotate(s.tables, keys, read, s.tables.objects[read.id].revision, rotated, value, draws);
             staged.Ok? && Committed(s, s', keys, staged.value, RotateCommit(rotated, value, draws), rotated)
    ensures Refines(s, s', name, Stored(entry))
  {
    LastVersionStages(s.tables, s.history, keys, read, rotated, value, draws);
    RotationIsGood(s.tables, Replay(s.history), keys, read, rotated, value, draws);
    GoodRotationRefines(s, s', keys, read, rotated, value, draws);
  }

  lemma RotationRunRefines(s: System, keys: KeySet, request: Request, draws: Draws, read: SecretMetadata,
                           revision: nat, entry: Entry)
    requires s.tasks == map[] && s.keys == Some(keys) && request.RotateSecret? && SafeNames(request.name)
    requires Current(s.tables, Replay(s.history)) && RowsOK(s.tables, s.history, keys) && FreshDraws(s.tables, draws)
    requires FindSecret(s.tables, keys, request.name) == Ok((read, revision))
    requires SnapshotOK(read, s.tables, Replay(s.history)) && NameOf(read) == request.name
    requires s.tables.objects[read.id].revision == revision
    requires read.version == Replay(s.history)[NameOf(read)].version
    requires entry == Entry(request.value, Replay(s.history)[request.name].version + 1, Active)
    ensures Refines(s, Complete(s, request, draws), request.name, Stored(entry))
  {
    var rotated := RotatedSecret(read, request.profile, request.strength, draws.now);
    LastVersionStages(s.tables, s.history, keys, read, rotated, request.value, draws);
    RotateRuns(s, keys, request, draws, read, revision);
    FoundRotationRefines(s, Complete(s, request, draws), keys, read, rotated, request.value, draws, request.name,
                         entry);
  }

  lemma RotateRefines(s: System, dek: Key, request: Request, draws: Draws)
    requires SerialOK(s, dek) && s.keys.Some? && request.RotateSecret? && SafeNames(request.name)
    requires FreshDraws(s.tables, draws) && request.name in Replay(s.history)
    ensures Refines(s, Complete(s, request, draws), request.name,
                    Stored(Entry(request.value, Replay(s.history)[request.name].version + 1, Active)))
  {
    var read, revision := Found(s, dek, request.name);
    RotationRunRefines(s, KeysOf(dek), request, draws, read, revision,
                       Entry(request.value, Replay(s.history)[request.name].version + 1, Active));
  }

  /** What a revoke of the last version stages. */
  ghost predicate GoodRevoke(t: Tables, plain: Plain, keys: KeySet, revoked: SecretMetadata, revision: nat)
    requires NameOf(revoked) in plain
  {
    var staged := StageRevoke(t, keys, revoked, revision);
    && ObjectsOK(staged, keys)
    && revoked.version == plain[NameOf(revoked)].version
    && Wrote(t, plain, staged, revoked, plain[NameOf(revoked)].(state := Revoked))
  }

  lemma RevokeIsGood(t: Tables, history: seq<Commit>, keys: KeySet, revoked: SecretMetadata, revision: nat,
                     draws: Draws)
    requires RowsOK(t, history, keys) && SnapshotOK(revoked, t, Replay(history)) && revoked.state == Revoked
    requires revoked.version == Replay(history)[NameOf(revoked)].version
    ensures GoodRevoke(t, Replay(history), keys, revoked, revision)
  {
    RevokeStaged(t, history, keys, revoked, revision, RevokeCommit(revoked, draws).event);
    RevokeWrites(t, Replay(history), keys, revoked, revision);
  }

  lemma GoodRevokeRefines(s: System, s': System, keys: KeySet, revoked: SecretMetadata, revision: nat, draws: Draws)
    requires s.tasks == map[] && Current(s.tables, Replay(s.history)) && NameOf(revoked) in Replay(s.history)
    requires GoodRevoke(s.tables, Replay(s.history), keys, revoked, revision) && revoked.state == Revoked
    requires Committed(s, s', keys, StageRevoke(s.tables, keys, revoked, revision), RevokeCommit(revoked, draws),
                       revoked)
    ensures Refines(s, s', NameOf(revoked), Stored(Replay(s.history)[NameOf(revoked)].(state := Revoked)))
  {
    CommittedRefines(s, s', keys, StageRevoke(s.tables, keys, revoked, revision), RevokeCommit(revoked, draws), revoked,
                     Replay(s.history)[NameOf(revoked)].(state := Revoked));
  }

  lemma RevokeRefines(s: System, dek: Key, name: FullName, draws: Draws)
    requires SerialOK(s, dek) && s.keys.Some? && FreshDraws(s.tables, draws) && name in Replay(s.history)
    ensures Refines(s, Complete(s, RevokeSecret(name), draws), name, Stored(Replay(s.history)[name].(state := Revoked)))
  {
    var read, revision := Found(s, dek, name);
    var revoked := RevokedMetadata(read, draws.now);
    RevokeIsGood(s.tables, s.history, KeysOf(dek), revoked, revision, draws);
    RevokeRuns(s, KeysOf(dek), name, draws, read, revision);
    GoodRevokeRefines(s, Complete(s, RevokeSecret(name), draws), KeysOf(dek), revoked, revision, draws);
  }

  lemma SecretRequestRefines(s: System, dek: Key, request: Request, draws: Draws)
    requires SerialOK(s, dek) && Lucky(s, Do(request, draws)) && AboutSecrets(request)
    ensures Refines(s, Complete(s, request, draws), Subject(request), PlainReply(Abstract(s), request))
  {
    var name, s' := Subject(request), Complete(s, request, draws);
    RefusedRuns(s, request, draws);
    if !Acceptable(request) {
      RefusedRefines(s, s', name, InvalidRequest);
    } else if s.keys.None? {
      RefusedRefines(s, s', name, Locked);
    } else if request.CreateSecret? {
      CreateRefines(s, dek, request.meta, request.value, draws);
    } else if name !in Replay(s.history) {
      NothingFound(s.tables, Replay(s.history), KeysOf(dek), name);
      RefusedRefines(s, s', name, NotFound);
    } else if request.RotateSecret? {
      RotateRefines(s, dek, request, draws);
    } else {
      RevokeRefines(s, dek, name, draws);
    }
  }

  // ----- Requests about actions and the log -----

  predicate AboutOthers(tasks: map<nat, Task>) {
    forall thread :: thread in tasks ==> !WritesSecret(tasks[thread])
  }

  lemma WithoutOthers(tasks: map<nat, Task>, thread: nat)
    requires AboutOthers(tasks)
    ensures AboutOthers(tasks - {thread})
  {
  }

  lemma AdvanceOthers(s: System, draws: Draws)
    requires AboutOthers(s.tasks)
    ensures AboutOthers(AdvanceStep(s, 0, draws).tasks)
  {
    WithoutOthers(s.tasks, 0);
  }

  lemma AdvanceCalm(s: System, dek: Key, draws: Draws)
    requires SystemOK(s, dek) && AboutOthers(s.tasks)
    ensures Calm(s, AdvanceStep(s, 0, draws)) && AboutOthers(AdvanceStep(s, 0, draws).tasks)
  {
    AdvanceOthers(s, draws);
    if 0 in s.tasks && s.tasks[0].WritingAction? {
      WritingCalm(s, dek, 0, draws);
    } else if 0 in s.tasks && s.tasks[0].Logging? {
      LoggingCalm(s, 0, draws);
    } else {
      ReadingCalm(s, 0, draws);
    }
  }

  lemma BeginCalm(s: System, request: Request, draws: Draws)
    requires s.tasks == map[] && !AboutSecrets(request)
    ensures Calm(s, BeginStep(s, 0, request, draws)) && AboutOthers(BeginStep(s, 0, request, draws).tasks)
    ensures BeginStep(s, 0, request, draws).tasks.Keys <= {0}
  {
  }

  /** After an advance a task has ended or is the second half of replacing an action. */
  lemma AdvanceEnds(s: System, draws: Draws)
    requires s.tasks.Keys <= {0}
    ensures var tasks := AdvanceStep(s, 0, draws).tasks;
            tasks == map[] || (tasks.Keys == {0} && tasks[0].WritingAction? && s.tasks[0].ReplacingAction?)
  {
    assert s.tasks - {0} == map[];
  }

  lemma OtherRequestKeeps(s: System, dek: Key, request: Request, draws: Draws)
    requires SerialOK(s, dek) && !AboutSecrets(request)
    ensures SerialOK(Complete(s, request, draws), dek) && Calm(s, Complete(s, request, draws))
  {
    var begun := BeginStep(s, 0, request, draws);
    var advanced := AdvanceStep(begun, 0, draws);
    BeginKeeps(s, dek, 0, request, draws);
    AdvanceKeeps(begun, dek, 0, draws);
    CompleteKeeps(s, dek, request, draws);
    BeginCalm(s, request, draws);
    AdvanceCalm(begun, dek, draws);
    AdvanceCalm(advanced, dek, draws);
    AdvanceEnds(begun, draws);
    AdvanceEnds(advanced, draws);
    CalmTwice(s, begun, advanced);
    CalmTwice(s, advanced, AdvanceStep(advanced, 0, draws));
    CurrentSame(s.tables, AdvanceStep(advanced, 0, draws).tables, Replay(s.history));
  }

  lemma CalmTwice(s: System, s': System, s'': System)
    requires Calm(s, s') && Calm(s', s'')
    ensures Calm(s, s'')
  {
  }

  // ----- Whole runs -----

  /** The vault's data key, sealed under the password it was initialised with. */
  ghost predicate SealedUnder(s: System, dek: Key, password: string) {
    exists salt: string, params: KDFParams :: WrapDEK(s.vaultID, password, salt, params, dek) == Ok(s.wrapper)
  }

  lemma OpensUnderPassword(s: System, dek: Key, password: string, attempt: string)
    requires SealedUnder(s, dek, password)
    ensures var unwrapped := UnwrapDEK(s.vaultID, s.wrapper, attempt);
            (unwrapped.Ok? <==> attempt == password) && (unwrapped.Ok? ==> unwrapped.value == dek)
  {
    var salt: string, params: KDFParams :| WrapDEK(s.vaultID, password, salt, params, dek) == Ok(s.wrapper);
    WrapperOpensExactly(s.vaultID, password, salt, params, dek, s.vaultID, attempt);
  }

  lemma UnlockShape(s: System, dek: Key, password: string, attempt: string)
    requires SealedUnder(s, dek, password)
    ensures Unlocked(s, attempt) ==
            if s.keys.Some? then s
            else if attempt == password then s.(keys := Some(KeysOf(dek)))
            else Answering(s, Failed(UnwrapDEK(s.vaultID, s.wrapper, attempt).error))
  {
    OpensUnderPassword(s, dek, password, attempt);
  }

  lemma UnlockAbstract(s: System, dek: Key, password: string, attempt: string)
    requires SealedUnder(s, dek, password)
    ensures var s' := Unlocked(s, attempt);
            SealedUnder(s', dek, password) && Abstract(s') == PlainStep(Abstract(s), Unlock(attempt), password)
            && s'.tables == s.tables && s'.tasks == s.tasks && s'.history == s.history
  {
    UnlockShape(s, dek, password, attempt);
  }

  lemma UnlockRefines(s: System, dek: Key, password: string, attempt: string)
    requires SerialOK(s, dek) && SealedUnder(s, dek, password)
    ensures var s' := SerialStep(s, Unlock(attempt));
            && SerialOK(s', dek) && SealedUnder(s', dek, password)
            && Abstract(s') == PlainStep(Abstract(s), Unlock(attempt), password)
  {
    UnlockAbstract(s, dek, password, attempt);
    UnlockKeeps(s, dek, attempt);
  }

  lemma DoRefines(s: System, dek: Key, request: Request, draws: Draws)
    requires SerialOK(s, dek) && Lucky(s, Do(request, draws))
    ensures var s' := Complete(s, request, draws);
            SerialOK(s', dek) && s'.wrapper == s.wrapper && s'.vaultID == s.vaultID &&
            Abstract(s') == PlainStep(Abstract(s), Do(request, draws), "")
  {
    CompleteKeeps(s, dek, request, draws);
    if AboutSecrets(request) {
      SecretRequestRefines(s, dek, request, draws);
    } else {
      OtherRequestKeeps(s, dek, request, draws);
    }
  }

  lemma StepRefines(s: System, dek: Key, password: string, command: Command)
    requires SerialOK(s, dek) && SealedUnder(s, dek, password) && Lucky(s, command)
    ensures var s' := SerialStep(s, command);
            && SerialOK(s', dek) && SealedUnder(s', dek, password)
            && Abstract(s') == PlainStep(Abstract(s), command, password)
  {
    match command
    case Do(request, draws) => DoRefines(s, dek, request, draws);
    case Lock => LockKeeps(s, dek);
    case Unlock(attempt) => UnlockRefines(s, dek, password, attempt);
  }

  lemma LuckyPrefix(start: System, commands: seq<Command>, n: nat)
    requires AllLucky(start, commands) && n <= |commands|
    ensures AllLucky(start, commands[..n])
  {
    forall i | 0 <= i < n ensures Lucky(SerialRun(start, commands[..n][..i]), commands[..n][i]) {
      assert commands[..n][..i] == commands[..i];
    }
  }

  lemma {:induction false} RunRefines(start: System, dek: Key, password: string, commands: seq<Command>)
    requires SerialOK(start, dek) && SealedUnder(start, dek, password) && AllLucky(start, commands)
    requires Abstract(start) == PlainSystem(false, map[])
    ensures var s := SerialRun(start, commands);
            SerialOK(s, dek) && SealedUnder(s, dek, password) && Abstract(s) == PlainRun(commands, password)
    decreases |commands|
  {
    if commands != [] {
      var n := |commands| - 1;
      LuckyPrefix(start, commands, n);
      RunRefines(start, dek, password, commands[..n]);
      StepRefines(SerialRun(start, commands[..n]), dek, password, commands[n]);
    }
  }

  /** A vault just initialised under a password. */
  ghost predicate Initialised(start: System, dek: Key, password: string) {
    exists wrapper: Wrapper :: start == Fresh(start.vaultID, wrapper) && wrapper.box.plaintext == dek &&
      SealedUnder(start, dek, password)
  }

  lemma InitialisedIsOK(start: System, dek: Key, password: string)
    requires Initialised(start, dek, password)
    ensures SerialOK(start, dek) && SealedUnder(start, dek, password) && Abstract(start) == PlainSystem(false, map[])
  {
    var wrapper: Wrapper :| start == Fresh(start.vaultID, wrapper) && wrapper.box.plaintext == dek &&
      SealedUnder(start, dek, password);
    FreshIsOK(start.vaultID, wrapper);
  }

  lemma InitialisedIsReachable(start: System, dek: Key, password: string)
    requires Initialised(start, dek, password)
    ensures Reachable(start, dek)
  {
    var wrapper: Wrapper :| start == Fresh(start.vaultID, wrapper) && wrapper.box.plaintext == dek &&
      SealedUnder(start, dek, password);
    assert Run(Fresh(start.vaultID, wrapper), []) == start;
  }

  lemma CompleteReachable(s: System, dek: Key, request: Request, draws: Draws)
    requires Reachable(s, dek)
    ensures Reachable(Complete(s, request, draws), dek)
  {
    var begun := BeginStep(s, 0, request, draws);
    ReachableStep(s, dek, Begin(0, request, draws));
    ReachableStep(begun, dek, Advance(0, draws));
    ReachableStep(AdvanceStep(begun, 0, draws), dek, Advance(0, draws));
  }

  /** Over any run of requests one at a time, locks and unlocks, the store is locked exactly when
      the plain vault is, and every name resolves to the plain vault's current value. */
  lemma SerialRefinesPlain(start: System, dek: Key, password: string, commands: seq<Command>, name: FullName)
    requires Initialised(start, dek, password) && AllLucky(start, commands)
    ensures var s, plain := SerialRun(start, commands), PlainRun(commands, password);
            && s.keys == (if plain.locked then None else Some(KeysOf(dek)))
            && Resolve(s.tables, KeysOf(dek), name) ==
               (if name in plain.secrets && plain.secrets[name].state == Active then Ok(plain.secrets[name].value)
                else Err(NotFound))
  {
    InitialisedIsOK(start, dek, password);
    RunRefines(start, dek, password, commands);
    var s := SerialRun(start, commands);
    ResolveInOrder(s.tables, Replay(s.history), KeysOf(dek), name);
  }

  /** Every request for a secret is answered as the plain vault answers it; a refused one leaves
      the tables as they were.  In particular no rotation is ever refused for its version. */
  lemma AnswersArePlain(start: System, dek: Key, password: string, commands: seq<Command>, i: nat)
    requires Initialised(start, dek, password) && AllLucky(start, commands)
    requires i < |commands| && commands[i].Do? && AboutSecrets(commands[i].request)
    ensures var request := commands[i].request;
            Refines(SerialRun(start, commands[..i]), SerialRun(start, commands[..i + 1]), Subject(request),
                    PlainReply(PlainRun(commands[..i], password), request))
  {
    InitialisedIsOK(start, dek, password);
    LuckyPrefix(start, commands, i);
    RunRefines(start, dek, password, commands[..i]);
    assert commands[..i + 1][..i] == commands[..i];
    SecretRequestRefines(SerialRun(start, commands[..i]), dek, commands[i].request, commands[i].draws);
  }

  /** Whatever is asked of a locked vault fails and leaves tables and history alone. */
  lemma LockedRefuses(start: System, dek: Key, password: string, commands: seq<Command>, request: Request, draws: Draws)
    requires Initialised(start, dek, password) && AllLucky(start, commands) && PlainRun(commands, password).locked
    ensures var s := SerialRun(start, commands);
            SameButAnswer(s, Complete(s, request, draws), if Acceptable(request) then Locked else InvalidRequest)
  {
    InitialisedIsOK(start, dek, password);
    RunRefines(start, dek, password, commands);
    RefusedRuns(SerialRun(start, commands), request, draws);
  }

  /** Listing never shows a wrong version in a serial run, revoked or not. */
  lemma RecordedVersionsAreLast(start: System, dek: Key, password: string, commands: seq<Command>, id: string)
    requires Initialised(start, dek, password) && AllLucky(start, commands)
    requires IsKind(SerialRun(start, commands).tables, id, SecretObject)
    ensures var s, plain := SerialRun(start, commands), PlainRun(commands, password).secrets;
            && s.tables.objects[id].box.plaintext.SecretDocument?
            && RowName(s.tables.objects[id]) in plain
            && Meta(s.tables.objects[id]).version == plain[RowName(s.tables.objects[id])].version
            && Meta(s.tables.objects[id]).state == plain[RowName(s.tables.objects[id])].state
  {
    InitialisedIsOK(start, dek, password);
    RunRefines(start, dek, password, commands);
    var s := SerialRun(start, commands);
    assert RecordsLast(s.tables, Replay(s.history), id);
    assert SecretOK(s.tables, Replay(s.history), KeysOf(dek), id);
  }
}
