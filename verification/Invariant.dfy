/** What every interleaving keeps.  The tables are related, at every moment, to the plain map
    obtained by replaying the committed operations in commit order. */
module Invariant {
  import opened Model
  import opened SecureCrypto
  import opened Framing
  import opened PlainVault
  import opened Vault
  import opened Machine
  import Audit

  // ----- Objects -----

  ghost predicate ZeroFreeName(name: FullName) {
    ZeroFree(name.project) && ZeroFree(name.environment) && ZeroFree(name.name)
  }

  /** The metadata box opens under its own row's kind, id and revision, and holds an object with
      that id whose name the row's token was made from. */
  ghost predicate ObjectOK(id: string, row: ObjectRow, keys: KeySet) {
    && row.revision >= 1
    && row.box.key == keys.metadata
    && row.box.associatedData == ObjectAAD(KindText(row.kind), id, row.revision)
    && row.box.plaintext.EventDocument? == false
    && row.box.plaintext.SecretDocument? == row.kind.SecretObject?
    && IdOf(row) == id
    && row.token == TokenOf(keys.lookup, row.kind, RowName(row))
    && ZeroFreeName(RowName(row))
  }

  function IdOf(row: ObjectRow): string {
    match row.box.plaintext
    case SecretDocument(secret) => secret.id
    case ActionDocument(action) => action.id
    case EventDocument(event) => event.id
  }

  function RowName(row: ObjectRow): FullName {
    match row.box.plaintext
    case SecretDocument(secret) => NameOf(secret)
    case ActionDocument(action) => ActionNameOf(action)
    case EventDocument(_) => FullName("", "", "")
  }

  ghost predicate IsKind(t: Tables, id: string, kind: Kind) {
    id in t.objects && t.objects[id].kind == kind
  }

  ghost predicate ObjectsOK(t: Tables, keys: KeySet) {
    && (forall id :: id in t.objects ==> ObjectOK(id, t.objects[id], keys))
    && UniqueTokens(t.objects)
  }

  // ----- Versions of one secret -----

  function Meta(row: ObjectRow): SecretMetadata
    requires row.box.plaintext.SecretDocument?
  {
    row.box.plaintext.secret
  }

  /** A committed version row: not pending, active exactly if it is the last one of a secret in
      use, and opening under its own secret and number. */
  ghost predicate VersionOK(row: VersionRow, id: string, number: nat, entry: Entry, keys: KeySet) {
    && row.state != PendingVersion
    && (row.state == ActiveVersion <==> number == entry.version && entry.state == Active)
    && row.box.key == keys.dek
    && row.box.associatedData == SecretAAD(id, number)
    && (number == entry.version ==> row.box.plaintext == entry.value)
  }

  /** Rows are numbered exactly 1..n, where n is the version the plain map records. */
  ghost predicate VersionsOK(versions: map<VersionKey, VersionRow>, id: string, entry: Entry, keys: KeySet) {
    && entry.version >= 1
    && (forall number: nat :: VersionKey(id, number) in versions <==> 1 <= number <= entry.version)
    && (forall number: nat :: VersionKey(id, number) in versions ==>
          VersionOK(versions[VersionKey(id, number)], id, number, entry, keys))
  }

  /** Metadata agrees with the rows about use and, while in use, about the version. */
  ghost predicate MetaOK(meta: SecretMetadata, entry: Entry) {
    && meta.state == entry.state
    && 1 <= meta.version <= entry.version
    && (meta.state == Active ==> meta.version == entry.version)
  }

  ghost predicate SecretOK(t: Tables, plain: Plain, keys: KeySet, id: string)
    requires IsKind(t, id, SecretObject)
  {
    var row := t.objects[id];
    && row.box.plaintext.SecretDocument?
    && RowName(row) in plain
    && MetaOK(Meta(row), plain[RowName(row)])
    && VersionsOK(t.versions, id, plain[RowName(row)], keys)
  }

  ghost predicate NameStored(t: Tables, name: FullName) {
    exists id :: IsKind(t, id, SecretObject) && RowName(t.objects[id]) == name
  }

  ghost predicate SecretsOK(t: Tables, plain: Plain, keys: KeySet) {
    && (forall id :: IsKind(t, id, SecretObject) ==> SecretOK(t, plain, keys, id))
    && (forall name :: name in plain ==> NameStored(t, name))
    && (forall k :: k in t.versions ==> IsKind(t, k.secret, SecretObject))
  }

  // ----- Actions and the audit table -----

  /** A stored action is the one last put under its name. */
  ghost predicate ActionLatest(t: Tables, history: seq<Commit>, id: string)
    requires IsKind(t, id, ActionObject)
  {
    t.objects[id].box.plaintext.ActionDocument? &&
    LastPut(history, RowName(t.objects[id])) == Some(t.objects[id].box.plaintext.action)
  }

  ghost predicate ActionKnown(t: Tables, name: FullName) {
    exists id :: StoredAction(id, name, t)
  }

  ghost predicate ActionsOK(t: Tables, history: seq<Commit>) {
    && (forall id :: IsKind(t, id, ActionObject) ==> ActionLatest(t, history, id))
    && (forall name :: LastPut(history, name).Some? ==> ActionKnown(t, name))
  }

  function EventsOf(history: seq<Commit>): (events: seq<AuditEvent>)
    ensures |events| == |history|
  {
    seq(|history|, i requires 0 <= i < |history| => history[i].event)
  }

  /** One audit row per commit, in commit order. */
  ghost predicate AuditOK(t: Tables, history: seq<Commit>, keys: KeySet) {
    && t.audit == Audit.Build(keys.audit, EventsOf(history))
    && Audit.DistinctIds(EventsOf(history))
  }

  // ----- Tasks -----

  /** A snapshot names a stored secret and never a later version than the last one. */
  ghost predicate SnapshotOK(read: SecretMetadata, t: Tables, plain: Plain) {
    && IsKind(t, read.id, SecretObject)
    && RowName(t.objects[read.id]) == NameOf(read)
    && NameOf(read) in plain
    && 1 <= read.version <= plain[NameOf(read)].version
  }

  ghost predicate StoredAction(id: string, name: FullName, t: Tables) {
    IsKind(t, id, ActionObject) && RowName(t.objects[id]) == name
  }

  ghost predicate TaskOK(task: Task, t: Tables, plain: Plain, keys: KeySet) {
    && task.keys == keys
    && match task
       case Creating(_, meta, _) => ZeroFreeName(NameOf(meta))
       case Rotating(_, read, _, _, _, _) => SnapshotOK(read, t, plain)
       case Revoking(_, read, _) => SnapshotOK(read, t, plain)
       case ReplacingAction(_, action, revision) => revision >= 1 && StoredAction(action.id, ActionNameOf(action), t)
       case WritingAction(_, action, revision) =>
         ZeroFreeName(ActionNameOf(action)) && (revision >= 1 ==> StoredAction(action.id, ActionNameOf(action), t))
       case ReadingAction(_, name, id, _) => StoredAction(id, name, t)
       case Logging(_, _) => true
  }

  ghost predicate TasksOK(tasks: map<nat, Task>, t: Tables, plain: Plain, keys: KeySet) {
    forall thread :: thread in tasks ==> TaskOK(tasks[thread], t, plain, keys)
  }

  ghost predicate AnswersOK(answers: seq<Answer>, history: seq<Commit>) {
    forall i :: 0 <= i < |answers| && answers[i].ActionFound? ==>
      ActionNameOf(answers[i].action) == answers[i].name && WasPut(history, answers[i].action)
  }

  // ----- The whole system -----

  ghost predicate TablesOK(t: Tables, history: seq<Commit>, keys: KeySet) {
    && ObjectsOK(t, keys)
    && SecretsOK(t, Replay(history), keys)
    && ActionsOK(t, history)
    && AuditOK(t, history, keys)
    && LegalHistory(history)
  }

  ghost predicate SystemOK(s: System, dek: Key) {
    && s.wrapper.box.plaintext == dek
    && (s.keys.Some? ==> s.keys.value == KeysOf(dek))
    && TablesOK(s.tables, s.history, KeysOf(dek))
    && TasksOK(s.tasks, s.tables, Replay(s.history), KeysOf(dek))
    && AnswersOK(s.answers, s.history)
  }

  // ----- Lookups -----

  lemma KindTextZeroFree(kind: Kind)
    ensures ZeroFree(KindText(kind))
  {
  }

  /** Equal tokens mean equal names, even when only one of them was ever validated. */
  lemma TokenNames(lookup: Key, kind: Kind, name: FullName, other: FullName)
    requires ZeroFreeName(name) && TokenOf(lookup, kind, name) == TokenOf(lookup, kind, other)
    ensures name == other
  {
    var parts := [KindText(kind), name.project, name.environment, name.name];
    var others := [KindText(kind), other.project, other.environment, other.name];
    KindTextZeroFree(kind);
    TokenInjective(lookup, parts, others);
    assert parts[1] == others[1] && parts[2] == others[2] && parts[3] == others[3];
  }

  /** A name is determined by its token exactly if no part of it holds a zero byte. */
  lemma TokenDeterminesExactly(lookup: Key, kind: Kind, name: FullName)
    ensures ZeroFreeName(name) <==>
            forall other :: TokenOf(lookup, kind, other) == TokenOf(lookup, kind, name) ==> other == name
  {
    if ZeroFreeName(name) {
      forall other | TokenOf(lookup, kind, other) == TokenOf(lookup, kind, name) ensures other == name {
        TokenNames(lookup, kind, name, other);
      }
    } else {
      var other := TokenTwin(lookup, kind, name);
    }
  }

  /** A different name with the same token. */
  lemma TokenTwin(lookup: Key, kind: Kind, name: FullName) returns (other: FullName)
    requires !ZeroFreeName(name)
    ensures other != name && TokenOf(lookup, kind, other) == TokenOf(lookup, kind, name)
  {
    var parts := [KindText(kind), name.project, name.environment, name.name];
    KindTextZeroFree(kind);
    assert parts[..1] == [KindText(kind)] && AllZeroFree(parts[..1]);
    assert !AllZeroFree(parts) by { assert !(ZeroFree(parts[1]) && ZeroFree(parts[2]) && ZeroFree(parts[3])); }
    FrameDeterminesExactly(parts, 1);
    var others :| FramesAlike(parts, others, 1) && others != parts;
    other := FullName(others[1], others[2], others[3]);
    assert others == [KindText(kind), other.project, other.environment, other.name];
  }

  /** Token lookup finds exactly the object that a scan of all decrypted names would find. */
  lemma LookupIsScan(t: Tables, keys: KeySet, kind: Kind, name: FullName)
    requires ObjectsOK(t, keys)
    ensures var found := Lookup(t, kind, TokenOf(keys.lookup, kind, name));
            forall id :: found == Some(id) <==> IsKind(t, id, kind) && RowName(t.objects[id]) == name
  {
    var token := TokenOf(keys.lookup, kind, name);
    var found := Lookup(t, kind, token);
    forall id ensures found == Some(id) <==> IsKind(t, id, kind) && RowName(t.objects[id]) == name {
      if found == Some(id) {
        TokenNames(keys.lookup, kind, RowName(t.objects[id]), name);
      }
      if IsKind(t, id, kind) && RowName(t.objects[id]) == name {
        assert Matches(t, kind, token, id);
      }
    }
  }

  /** Names are unique within a kind. */
  lemma NamesUnique(t: Tables, keys: KeySet, kind: Kind, id: string, id': string)
    requires ObjectsOK(t, keys) && IsKind(t, id, kind) && IsKind(t, id', kind)
    requires RowName(t.objects[id]) == RowName(t.objects[id'])
    ensures id == id'
  {
  }
}
