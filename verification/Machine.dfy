/** Concurrent requests: every operation is a read step, which copies the keys and takes a
    snapshot, and a later atomic commit.  Anything may happen in between. */
module Machine {
  import opened Model
  import opened PlainVault
  import opened Vault

  datatype Request =
    | CreateSecret(meta: SecretMetadata, value: string)
    | RotateSecret(name: FullName, profile: string, strength: int, value: string)
    | RevokeSecret(name: FullName)
    | PutAction(action: Action)
    | GetAction(name: FullName)
    | RecordAudit(event: AuditEvent)

  /** An operation between its steps, with its own copy of the keys and what it has read. */
  datatype Task =
    | Creating(keys: KeySet, meta: SecretMetadata, value: string)
    | Rotating(keys: KeySet, read: SecretMetadata, revision: nat, profile: string, strength: int, value: string)
    | Revoking(keys: KeySet, read: SecretMetadata, revision: nat)
    | ReplacingAction(keys: KeySet, action: Action, revision: nat)
    | WritingAction(keys: KeySet, action: Action, revision: nat)
    | ReadingAction(keys: KeySet, name: FullName, id: string, revision: nat)
    | Logging(keys: KeySet, event: AuditEvent)

  datatype Answer =
    | Failed(error: Error)
    | SecretStored(meta: SecretMetadata)
    | ActionStored(action: Action)
    | ActionFound(name: FullName, action: Action)
    | EventLogged

  datatype System = System(
    vaultID: string, wrapper: Wrapper, keys: Option<KeySet>, tables: Tables,
    tasks: map<nat, Task>, history: seq<Commit>, answers: seq<Answer>)

  datatype Event =
    | Begin(thread: nat, request: Request, draws: Draws)
    | Advance(thread: nat, draws: Draws)
    | LockVault
    | UnlockVault(password: string)

  // ----- Request validation -----

  predicate Letter(c: char) {
    'A' <= c <= 'Z' || 'a' <= c <= 'z'
  }

  predicate NameChar(c: char) {
    Letter(c) || '0' <= c <= '9' || c == '_' || c == '.' || c == '-'
  }

  predicate SafeName(s: string) {
    1 <= |s| <= 128 && Letter(s[0]) && forall i :: 0 < i < |s| ==> NameChar(s[i])
  }

  predicate SafeNames(name: FullName) {
    SafeName(name.project) && SafeName(name.environment) && SafeName(name.name)
  }

  /** Revoking and running an action take any name. */
  predicate Acceptable(request: Request) {
    match request
    case CreateSecret(meta, _) => SafeNames(NameOf(meta))
    case RotateSecret(name, _, _, _) => SafeNames(name)
    case RevokeSecret(_) => true
    case PutAction(action) => SafeNames(ActionNameOf(action)) && action.executable != ""
    case GetAction(_) => true
    case RecordAudit(_) => true
  }

  // ----- Steps -----

  /** The read step: copies the keys and takes the snapshot the operation will act on. */
  ghost function Read(t: Tables, keys: KeySet, request: Request, draws: Draws): Outcome<Task> {
    match request
    case CreateSecret(meta, value) => Ok(Creating(keys, meta, value))
    case RotateSecret(name, profile, strength, value) =>
      var found := FindSecret(t, keys, name);
      if found.Err? then Err(found.error)
      else Ok(Rotating(keys, found.value.0, found.value.1, profile, strength, value))
    case RevokeSecret(name) =>
      var found := FindSecret(t, keys, name);
      if found.Err? then Err(found.error) else Ok(Revoking(keys, found.value.0, found.value.1))
    case PutAction(action) =>
      var id := Lookup(t, ActionObject, TokenOf(keys.lookup, ActionObject, ActionNameOf(action)));
      if id.None?
      then Ok(WritingAction(keys, action.(id := draws.objectId, createdAt := draws.now, updatedAt := draws.now), 0))
      else Ok(ReplacingAction(keys, action.(id := id.value), t.objects[id.value].revision))
    case GetAction(name) =>
      var id := Lookup(t, ActionObject, TokenOf(keys.lookup, ActionObject, name));
      if id.None? then Err(NotFound) else Ok(ReadingAction(keys, name, id.value, t.objects[id.value].revision))
    case RecordAudit(event) => Ok(Logging(keys, event))
  }

  ghost function BeginStep(s: System, thread: nat, request: Request, draws: Draws): System {
    if thread in s.tasks then s
    else if !Acceptable(request) then Answering(s, Failed(InvalidRequest))
    else if s.keys.None? then Answering(s, Failed(Locked))
    else
      var task := Read(s.tables, s.keys.value, request, draws);
      if task.Err? then Answering(s, Failed(task.error)) else s.(tasks := s.tasks[thread := task.value])
  }

  function Answering(s: System, answer: Answer): System {
    s.(answers := s.answers + [answer])
  }

  /** Ends a task: on success the new tables and the commit take effect together. */
  function Finish(s: System, thread: nat, outcome: Outcome<Tables>, commit: Commit, answer: Answer): System {
    var ended := s.(tasks := s.tasks - {thread});
    if outcome.Err? then Answering(ended, Failed(outcome.error))
    else Answering(ended.(tables := outcome.value, history := s.history + [commit]), answer)
  }

  ghost function AdvanceStep(s: System, thread: nat, draws: Draws): System {
    if thread !in s.tasks then s
    else
      match s.tasks[thread]
      case Creating(keys, meta, value) =>
        var created := NewSecret(meta, draws);
        Finish(s, thread, CommitCreate(s.tables, keys, created, value, draws),
               Commit(Created(created, value), AuditOf("broker", "secret.create", created.id, draws)),
               SecretStored(created))
      case Rotating(keys, read, revision, profile, strength, value) =>
        var rotated := RotatedSecret(read, profile, strength, draws.now);
        Finish(s, thread, CommitRotate(s.tables, keys, read, revision, rotated, value, draws),
               Commit(Rotated(rotated, value), AuditOf("broker", "secret.rotate", read.id, draws)),
               SecretStored(rotated))
      case Revoking(keys, read, revision) =>
        var revoked := RevokedMetadata(read, draws.now);
        Finish(s, thread, CommitRevoke(s.tables, keys, revoked, revision, draws),
               Commit(RevokedSecret(revoked), AuditOf("broker", "secret.revoke", read.id, draws)),
               SecretStored(revoked))
      case ReplacingAction(keys, action, revision) =>
        var current := OpenAction(s.tables, keys, action.id, revision);
        if current.Err?
        then Answering(s.(tasks := s.tasks - {thread}), Failed(current.error))
        else
          var dated := action.(createdAt := current.value.createdAt, updatedAt := draws.now);
          s.(tasks := s.tasks[thread := WritingAction(keys, dated, revision)])
      case WritingAction(keys, action, revision) =>
        Finish(s, thread, CommitAction(s.tables, keys, action, revision, draws),
               Commit(ActionPut(action), AuditOf("user", "action.configure", action.id, draws)),
               ActionStored(action))
      case ReadingAction(keys, name, id, revision) =>
        var action := OpenAction(s.tables, keys, id, revision);
        Answering(s.(tasks := s.tasks - {thread}),
                  if action.Err? then Failed(action.error) else ActionFound(name, action.value))
      case Logging(keys, event) =>
        var filled := Filled(event, draws);
        Finish(s, thread, WithAudit(s.tables, keys, filled), Commit(Logged, filled), EventLogged)
  }

  function Unlocked(s: System, password: string): System {
    if s.keys.Some? then s
    else
      var dek := UnwrapDEK(s.vaultID, s.wrapper, password);
      if dek.Err? then Answering(s, Failed(dek.error)) else s.(keys := Some(KeysOf(dek.value)))
  }

  ghost function Step(s: System, event: Event): System {
    match event
    case Begin(thread, request, draws) => BeginStep(s, thread, request, draws)
    case Advance(thread, draws) => AdvanceStep(s, thread, draws)
    case LockVault => s.(keys := None)
    case UnlockVault(password) => Unlocked(s, password)
  }

  /** A freshly initialised vault is unlocked and empty. */
  function Fresh(vaultID: string, wrapper: Wrapper): System {
    System(vaultID, wrapper, Some(KeysOf(wrapper.box.plaintext)), EMPTY, map[], [], [])
  }

  ghost function Run(start: System, events: seq<Event>): System {
    if events == [] then start else Step(Run(start, events[..|events| - 1]), events[|events| - 1])
  }
}
