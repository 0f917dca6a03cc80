/** What each request is answered and what it leaves behind, field by field in the request's own
    terms, at any reachable moment. */
module Answers {
  import opened Timestamp
  import opened Model
  import opened SecureCrypto
  import opened PlainVault
  import opened Vault
  import opened Machine
  import opened Invariant
  import opened Preservation
  import opened Interleavings
  import opened RecordedVersions
  import opened Serial
  import Audit
  import Framing
  import Store
  import Broker
  import Generator

  // ----- What can be seen of the tables -----

  /** A secret is found under its own name with this metadata, at some revision. */
  ghost predicate Found(t: Tables, keys: KeySet, meta: SecretMetadata) {
    exists revision: nat ::
      FindSecret(t, keys, FullName(meta.project, meta.environment, meta.name)) == Ok((meta, revision))
  }

  /** Every listing of its scope shows a secret with this metadata. */
  ghost predicate Listed(t: Tables, keys: KeySet, meta: SecretMetadata) {
    forall listing :: Store.IsListing(t, keys, Scope(meta.project, meta.environment), listing) ==> meta in listing
  }

  /** Every other name is found and resolves as before. */
  ghost predicate OthersAlike(t: Tables, t': Tables, keys: KeySet, name: FullName) {
    forall other :: other != name ==>
      FindSecret(t', keys, other) == FindSecret(t, keys, other) && Resolve(t', keys, other) == Resolve(t, keys, other)
  }

  ghost predicate ActionsAlike(t: Tables, t': Tables, keys: KeySet) {
    forall name :: Store.ActionNamed(t', Some(keys), name) == Store.ActionNamed(t, Some(keys), name)
  }

  /** One more row, which reads as `event`; the rows before are as they were. */
  ghost predicate Logs(t: Tables, t': Tables, event: AuditEvent) {
    && |t'.audit| == |t.audit| + 1 && t'.audit[..|t.audit|] == t.audit
    && var row := t'.audit[|t.audit|];
       Audit.Decode(row.event) == Some(event) && row.id == event.id && row.createdAt == Format(event.timestamp)
  }

  // ----- Names -----

  /** `^[A-Za-z][A-Za-z0-9_.-]{0,127}$`, with both classes written out. */
  lemma NamesAccepted(s: string)
    ensures SafeName(s) <==>
            && 1 <= |s| <= 128
            && s[0] in "ABCDEFGHIJKLMNOPQRSTUVWXYZ" + "abcdefghijklmnopqrstuvwxyz"
            && forall i :: 0 <= i < |s| ==>
                 s[i] in "ABCDEFGHIJKLMNOPQRSTUVWXYZ" + "abcdefghijklmnopqrstuvwxyz" + "0123456789" + "_.-"
  {
    forall c ensures Letter(c) <==> c in Generator.UPPER + Generator.LOWER {
      Generator.UpperLetters(c);
      Generator.LowerLetters(c);
    }
    forall c ensures NameChar(c) <==> c in Generator.UPPER + Generator.LOWER + Generator.DIGITS + "_.-" {
      Generator.UpperLetters(c);
      Generator.LowerLetters(c);
      Generator.DigitLetters(c);
    }
  }

  /** A create, rotation or action put with a name that is not accepted is refused before the vault is
      asked; revoking, looking up and recording are never refused for a name. */
  lemma UnsafeNamesRefused(s: System, request: Request, draws: Draws)
    requires s.tasks == map[]
    ensures var named := match request
                         case CreateSecret(meta, _) => [meta.project, meta.environment, meta.name]
                         case RotateSecret(name, _, _, _) => [name.project, name.environment, name.name]
                         case PutAction(action) => [action.project, action.environment, action.name]
                         case RevokeSecret(_) => []
                         case GetAction(_) => []
                         case RecordAudit(_) => [];
            if (exists i :: 0 <= i < |named| && !SafeName(named[i])) ||
               (request.PutAction? && request.action.executable == "")
            then Complete(s, request, draws) == s.(answers := s.answers + [Failed(InvalidRequest)])
            else s.keys.None? ==> Complete(s, request, draws) == s.(answers := s.answers + [Failed(Locked)])
  {
    RefusedRuns(s, request, draws);
    if request.CreateSecret? {
      var meta := request.meta;
      ThreeNames(meta.project, meta.environment, meta.name);
    } else if request.RotateSecret? {
      ThreeNames(request.name.project, request.name.environment, request.name.name);
    } else if request.PutAction? {
      var action := request.action;
      ThreeNames(action.project, action.environment, action.name);
    }
  }

  lemma ThreeNames(project: string, environment: string, name: string)
    ensures SafeNames(FullName(project, environment, name)) <==>
            forall i :: 0 <= i < 3 ==> SafeName([project, environment, name][i])
  {
    var named := [project, environment, name];
    assert named[0] == project && named[1] == environment && named[2] == name;
  }

  // ----- What a commit on one secret shows -----

  lemma StoredIsShown(t: Tables, plain: Plain, keys: KeySet, id: string, meta: SecretMetadata)
    requires ObjectsOK(t, keys) && SecretsOK(t, plain, keys) && IsKind(t, id, SecretObject)
    requires t.objects[id].box.plaintext == SecretDocument(meta)
    ensures Found(t, keys, meta) && Listed(t, keys, meta)
  {
    var scope := Scope(meta.project, meta.environment);
    FindInOrder(t, plain, keys, FullName(meta.project, meta.environment, meta.name), id);
    assert ObjectOK(id, t.objects[id], keys) && Store.Lists(t, keys, scope, id, meta);
    forall listing | Store.IsListing(t, keys, scope, listing) ensures meta in listing {
      var ids: seq<string> :|
        && Store.ListedFrom(t, keys, scope, ids, listing)
        && forall id, meta :: Store.Lists(t, keys, scope, id, meta) ==> id in ids;
      var i :| 0 <= i < |ids| && ids[i] == id;
      assert Store.Lists(t, keys, scope, ids[i], listing[i]);
    }
  }

  /** Whatever a listing shows lies in the scope asked for and is found under its own name. */
  lemma ListingIsFound(s: System, dek: Key, scope: Scope, listing: seq<SecretMetadata>, i: nat)
    requires Reachable(s, dek) && Store.IsListing(s.tables, KeysOf(dek), scope, listing) && i < |listing|
    ensures listing[i].project == scope.project && listing[i].environment == scope.environment
    ensures Found(s.tables, KeysOf(dek), listing[i])
  {
    ReachableIsOK(s, dek);
    var t, keys := s.tables, KeysOf(dek);
    var ids: seq<string> :|
      && Store.ListedFrom(t, keys, scope, ids, listing)
      && forall id, meta :: Store.Lists(t, keys, scope, id, meta) ==> id in ids;
    assert Store.Lists(t, keys, scope, ids[i], listing[i]);
    var name := FullName(listing[i].project, listing[i].environment, listing[i].name);
    FindInOrder(t, Replay(s.history), keys, name, ids[i]);
  }

  lemma OtherIsFoundAlike(t: Tables, plain: Plain, keys: KeySet, t': Tables, plain': Plain, id: string,
                          name: FullName, other: FullName)
    requires ObjectsOK(t, keys) && ObjectsOK(t', keys)
    requires OnlyChanged(t, plain, t', plain', id, name) && other != name
    ensures FindSecret(t', keys, other) == FindSecret(t, keys, other)
  {
    LookupIsScan(t, keys, SecretObject, other);
    LookupIsScan(t', keys, SecretObject, other);
    var token := TokenOf(keys.lookup, SecretObject, other);
    var found, found' := Lookup(t, SecretObject, token), Lookup(t', SecretObject, token);
    forall i ensures found == Some(i) <==> found' == Some(i) {
      OtherRowAlike(t, plain, t', plain', id, name, other, i);
    }
    assert found == found';
    if found.Some? {
      assert found == Some(found.value) && found.value != id;
    }
  }

  lemma OtherRowAlike(t: Tables, plain: Plain, t': Tables, plain': Plain, id: string, name: FullName,
                      other: FullName, i: string)
    requires OnlyChanged(t, plain, t', plain', id, name) && other != name
    ensures IsKind(t, i, SecretObject) && RowName(t.objects[i]) == other <==>
            IsKind(t', i, SecretObject) && RowName(t'.objects[i]) == other
  {
  }

  lemma OthersStayAlike(t: Tables, plain: Plain, keys: KeySet, t': Tables, plain': Plain, id: string, name: FullName)
    requires ObjectsOK(t, keys) && SecretsOK(t, plain, keys) && ObjectsOK(t', keys) && SecretsOK(t', plain', keys)
    requires OnlyChanged(t, plain, t', plain', id, name)
    ensures OthersAlike(t, t', keys, name)
  {
    forall other | other != name
      ensures FindSecret(t', keys, other) == FindSecret(t, keys, other) &&
              Resolve(t', keys, other) == Resolve(t, keys, other)
    {
      OtherIsFoundAlike(t, plain, keys, t', plain', id, name, other);
      OtherResolvesAlike(t, plain, keys, t', plain', name, other);
    }
  }

  lemma OtherResolvesAlike(t: Tables, plain: Plain, keys: KeySet, t': Tables, plain': Plain, name: FullName,
                           other: FullName)
    requires ObjectsOK(t, keys) && SecretsOK(t, plain, keys) && ObjectsOK(t', keys) && SecretsOK(t', plain', keys)
    requires other != name && name in plain' && plain' == plain[name := plain'[name]]
    ensures Resolve(t', keys, other) == Resolve(t, keys, other)
  {
    OtherEntryAlike(plain, plain', name, plain'[name], other);
    ResolveInOrder(t, plain, keys, other);
    ResolveInOrder(t', plain', keys, other);
  }

  lemma OtherEntryAlike(plain: Plain, plain': Plain, name: FullName, entry: Entry, other: FullName)
    requires other != name && plain' == plain[name := entry]
    ensures (other in plain' <==> other in plain) && (other in plain ==> plain'[other] == plain[other])
  {
  }

  /** An action is looked up as the history has it. */
  lemma ActionInOrder(t: Tables, history: seq<Commit>, keys: KeySet, name: FullName)
    requires ObjectsOK(t, keys) && ActionsOK(t, history)
    ensures Store.ActionNamed(t, Some(keys), name) ==
            var last := LastPut(history, name); if last.Some? then Ok(last.value) else Err(NotFound)
  {
    var found := Lookup(t, ActionObject, TokenOf(keys.lookup, ActionObject, name));
    LookupIsScan(t, keys, ActionObject, name);
    if found.Some? {
      assert found == Some(found.value) && StoredAction(found.value, name, t);
      assert ObjectOK(found.value, t.objects[found.value], keys) && ActionLatest(t, history, found.value);
    } else if LastPut(history, name).Some? {
      Broker.KnownActionIsFound(t, keys, name);
    }
  }

  lemma ActionsStayAlike(t: Tables, history: seq<Commit>, keys: KeySet, t': Tables, commit: Commit)
    requires ObjectsOK(t, keys) && ActionsOK(t, history) && ObjectsOK(t', keys) && ActionsOK(t', history + [commit])
    requires !commit.effect.ActionPut?
    ensures ActionsAlike(t, t', keys)
  {
    forall name ensures Store.ActionNamed(t', Some(keys), name) == Store.ActionNamed(t, Some(keys), name) {
      ActionInOrder(t, history, keys, name);
      ActionInOrder(t', history + [commit], keys, name);
      LastPutSnoc(history, commit, name);
    }
  }

  /** Everything that shows after a commit which left `meta` and resolves to `value`. */
  ghost predicate Shows(t: Tables, t': Tables, keys: KeySet, meta: SecretMetadata, value: Outcome<string>) {
    var name := FullName(meta.project, meta.environment, meta.name);
    && Found(t', keys, meta) && Listed(t', keys, meta) && Resolve(t', keys, name) == value
    && OthersAlike(t, t', keys, name) && ActionsAlike(t, t', keys)
  }

  lemma LoggedRow(staged: Tables, keys: KeySet, event: AuditEvent)
    requires WithAudit(staged, keys, event).Ok?
    ensures var t' := WithAudit(staged, keys, event).value;
            Logs(staged, t', event) && t'.objects == staged.objects && t'.versions == staged.versions
  {
  }

  lemma RowsShow(t: Tables, history: seq<Commit>, keys: KeySet, t': Tables, commit: Commit, meta: SecretMetadata,
                 entry: Entry)
    requires RowsOK(t, history, keys) && RowsOK(t', history + [commit], keys) && !commit.effect.ActionPut?
    requires Wrote(t, Replay(history), t', meta, entry)
    requires Replay(history + [commit]) == Replay(history)[NameOf(meta) := entry]
    ensures Shows(t, t', keys, meta, if entry.state == Active then Ok(entry.value) else Err(NotFound))
  {
    var plain, plain', name := Replay(history), Replay(history + [commit]), NameOf(meta);
    StoredIsShown(t', plain', keys, meta.id, meta);
    ResolveInOrder(t', plain', keys, name);
    OthersStayAlike(t, plain, keys, t', plain', meta.id, name);
    ActionsStayAlike(t, history, keys, t', commit);
  }

  lemma CommitShows(t: Tables, history: seq<Commit>, plain: Plain, keys: KeySet, staged: Tables, commit: Commit,
                    meta: SecretMetadata, entry: Entry)
    requires RowsOK(t, history, keys) && Staged(t, history, keys, staged, commit) && !commit.effect.ActionPut?
    requires plain == Replay(history) && Wrote(t, plain, staged, meta, entry)
    requires Apply(plain, commit.effect) == plain[NameOf(meta) := entry]
    requires WithAudit(staged, keys, commit.event).Ok?
    ensures var t' := WithAudit(staged, keys, commit.event).value;
            && Shows(t, t', keys, meta, if entry.state == Active then Ok(entry.value) else Err(NotFound))
            && Logs(t, t', commit.event)
  {
    var t' := WithAudit(staged, keys, commit.event).value;
    ReplaySnoc(history, commit);
    LoggedRow(staged, keys, commit.event);
    SameRows(staged, t', Replay(history + [commit]), history + [commit], keys);
    WroteSame(t, plain, staged, t', meta, entry);
    RowsShow(t, history, keys, t', commit, meta, entry);
  }

  lemma WroteSame(t: Tables, plain: Plain, staged: Tables, t': Tables, meta: SecretMetadata, entry: Entry)
    requires Wrote(t, plain, staged, meta, entry) && t'.objects == staged.objects && t'.versions == staged.versions
    ensures Wrote(t, plain, t', meta, entry)
  {
  }

  // ----- Creating -----

  /** A created secret has the names, the profile and the strength of the request, version 1, and
      the time drawn; it is found, listed and resolved as such, and one event says so. */
  lemma CreateStoresRequest(s: System, dek: Key, meta: SecretMetadata, value: string, draws: Draws)
    requires Reachable(s, dek) && ZeroFreeName(FullName(meta.project, meta.environment, meta.name))
    requires Store.Creation(s.tables, Some(KeysOf(dek)), meta, value, draws).0.Ok?
    ensures var done := Store.Creation(s.tables, Some(KeysOf(dek)), meta, value, draws);
            var id := if meta.id == "" then draws.objectId else meta.id;
            && done.0.value == SecretMetadata(id, meta.project, meta.environment, meta.name, meta.profile,
                                              meta.strengthBits, 1, Active, draws.now, draws.now)
            && Shows(s.tables, done.1, KeysOf(dek), done.0.value, Ok(value))
            && Logs(s.tables, done.1, AuditEvent(draws.eventId, draws.loggedAt, "broker", "secret.create", id,
                                                 "success", ""))
  {
    ReachableIsOK(s, dek);
    var t, keys, created := s.tables, KeysOf(dek), NewSecret(meta, draws);
    var staged := StageCreate(t, keys, created, value, draws).value;
    var commit := Commit(Created(created, value), AuditOf("broker", "secret.create", created.id, draws));
    CreateStaged(t, s.history, keys, created, value, draws, commit.event);
    NewNameIsNew(t, Replay(s.history), keys, NameOf(created));
    CreateWrites(t, Replay(s.history), keys, created, value, draws);
    CommitShows(t, s.history, Replay(s.history), keys, staged, commit, created, Entry(value, 1, Active));
  }

  /** A row's revision is 1 after a create, and grows by one with every rotation and revoke. */
  lemma FirstRevision(t: Tables, keys: KeySet, meta: SecretMetadata, value: string, draws: Draws)
    requires Store.Creation(t, Some(keys), meta, value, draws).0.Ok?
    ensures var done := Store.Creation(t, Some(keys), meta, value, draws);
            RevisionOf(t, done.0.value.id) == None && RevisionOf(done.1, done.0.value.id) == Some(1)
  {
  }

  lemma NextRevision(s: System, dek: Key, name: FullName, profile: string, strength: int, value: string, draws: Draws)
    requires Reachable(s, dek)
    requires Store.Rotation(s.tables, Some(KeysOf(dek)), name, profile, strength, value, draws).0.Ok?
    ensures var done := Store.Rotation(s.tables, Some(KeysOf(dek)), name, profile, strength, value, draws);
            var id := done.0.value.id;
            RevisionOf(s.tables, id).Some? && RevisionOf(done.1, id) == Some(RevisionOf(s.tables, id).value + 1)
  {
    FoundIsSnapshot(s, dek, name);
  }

  lemma RevokedRevision(s: System, dek: Key, name: FullName, draws: Draws)
    requires Reachable(s, dek) && Store.Revocation(s.tables, Some(KeysOf(dek)), name, draws).0.Ok?
    ensures var done := Store.Revocation(s.tables, Some(KeysOf(dek)), name, draws);
            var id := done.0.value.id;
            RevisionOf(s.tables, id).Some? && RevisionOf(done.1, id) == Some(RevisionOf(s.tables, id).value + 1)
  {
    FoundIsSnapshot(s, dek, name);
  }

  function RevisionOf(t: Tables, id: string): Option<nat> {
    if id in t.objects then Some(t.objects[id].revision) else None
  }

  // ----- Rotating -----

  /** A rotated secret has the profile and strength of the request, the next version and the time
      drawn; everything else is as it was. */
  lemma RotateStoresRequest(s: System, dek: Key, name: FullName, profile: string, strength: int, value: string,
                            draws: Draws)
    requires Reachable(s, dek)
    requires Store.Rotation(s.tables, Some(KeysOf(dek)), name, profile, strength, value, draws).0.Ok?
    ensures var done := Store.Rotation(s.tables, Some(KeysOf(dek)), name, profile, strength, value, draws);
            && FindSecret(s.tables, KeysOf(dek), name).Ok?
            && var read := FindSecret(s.tables, KeysOf(dek), name).value.0;
            && done.0.value == SecretMetadata(read.id, name.project, name.environment, name.name, profile, strength,
                                              read.version + 1, Active, read.createdAt, draws.now)
            && Shows(s.tables, done.1, KeysOf(dek), done.0.value, Ok(value))
            && Logs(s.tables, done.1, AuditEvent(draws.eventId, draws.loggedAt, "broker", "secret.rotate", read.id,
                                                 "success", ""))
  {
    ReachableIsOK(s, dek);
    var t, keys := s.tables, KeysOf(dek);
    var (read, revision) := FindSecret(t, keys, name).value;
    FoundSnapshot(t, s.history, keys, name);
    RotationShows(t, s.history, Replay(s.history), keys, read, revision,
                  RotatedSecret(read, profile, strength, draws.now), value, draws, name,
                  Entry(value, Replay(s.history)[name].version + 1, Active));
  }

  lemma RotationShows(t: Tables, history: seq<Commit>, plain: Plain, keys: KeySet, read: SecretMetadata,
                      revision: nat, rotated: SecretMetadata, value: string, draws: Draws, name: FullName,
                      entry: Entry)
    requires RowsOK(t, history, keys) && plain == Replay(history) && SnapshotOK(read, t, plain)
    requires rotated.id == read.id && NameOf(rotated) == NameOf(read) == name
    requires name in plain && entry == Entry(value, plain[name].version + 1, Active)
    requires rotated.version == read.version + 1 && rotated.state == Active
    requires CommitRotate(t, keys, read, revision, rotated, value, draws).Ok?
    ensures var t' := CommitRotate(t, keys, read, revision, rotated, value, draws).value;
            Shows(t, t', keys, rotated, Ok(value)) && Logs(t, t', AuditOf("broker", "secret.rotate", read.id, draws))
  {
    var staged := StageRotate(t, keys, read, revision, rotated, value, draws).value;
    var commit := Commit(Rotated(rotated, value), AuditOf("broker", "secret.rotate", read.id, draws));
    RotateStaged(t, history, keys, read, revision, rotated, value, draws, commit.event);
    RotationWrites(t, plain, keys, read, revision, rotated, value, draws, name, entry);
    StagedRotationShows(t, history, plain, keys, staged, commit, rotated, value, name, entry);
  }

  lemma RotationWrites(t: Tables, plain: Plain, keys: KeySet, read: SecretMetadata, revision: nat,
                       rotated: SecretMetadata, value: string, draws: Draws, name: FullName, entry: Entry)
    requires SnapshotOK(read, t, plain) && rotated.id == read.id && NameOf(rotated) == NameOf(read) == name
    requires name in plain && entry == Entry(value, plain[name].version + 1, Active)
    requires StageRotate(t, keys, read, revision, rotated, value, draws).Ok?
    ensures Wrote(t, plain, StageRotate(t, keys, read, revision, rotated, value, draws).value, rotated, entry)
  {
    RotateWrites(t, plain, keys, read, revision, rotated, value, draws);
  }

  lemma StagedRotationShows(t: Tables, history: seq<Commit>, plain: Plain, keys: KeySet, staged: Tables,
                            commit: Commit, rotated: SecretMetadata, value: string, name: FullName, entry: Entry)
    requires RowsOK(t, history, keys) && plain == Replay(history) && Staged(t, history, keys, staged, commit)
    requires commit.effect == Rotated(rotated, value) && Wrote(t, plain, staged, rotated, entry)
    requires name in plain && NameOf(rotated) == name && entry == Entry(value, plain[name].version + 1, Active)
    requires WithAudit(staged, keys, commit.event).Ok?
    ensures var t' := WithAudit(staged, keys, commit.event).value;
            Shows(t, t', keys, rotated, Ok(value)) && Logs(t, t', commit.event)
  {
    RotationApplies(plain, commit, rotated, value, name, entry);
    CommitShows(t, history, plain, keys, staged, commit, rotated, entry);
  }

  lemma RotationApplies(plain: Plain, commit: Commit, rotated: SecretMetadata, value: string, name: FullName,
                        entry: Entry)
    requires name in plain && NameOf(rotated) == name && entry == Entry(value, plain[name].version + 1, Active)
    requires commit.effect == Rotated(rotated, value)
    ensures Apply(plain, commit.effect) == plain[NameOf(rotated) := entry]
  {
  }

  // ----- Revoking -----

  /** A revoked secret keeps everything but its state and the time of its update, and no longer
      resolves. */
  lemma RevokeKeepsTheRest(s: System, dek: Key, name: FullName, draws: Draws)
    requires Reachable(s, dek) && Store.Revocation(s.tables, Some(KeysOf(dek)), name, draws).0.Ok?
    ensures var done := Store.Revocation(s.tables, Some(KeysOf(dek)), name, draws);
            && FindSecret(s.tables, KeysOf(dek), name).Ok?
            && var read := FindSecret(s.tables, KeysOf(dek), name).value.0;
            && done.0.value == SecretMetadata(read.id, name.project, name.environment, name.name, read.profile,
                                              read.strengthBits, read.version, Revoked, read.createdAt, draws.now)
            && Shows(s.tables, done.1, KeysOf(dek), done.0.value, Err(NotFound))
            && Logs(s.tables, done.1, AuditEvent(draws.eventId, draws.loggedAt, "broker", "secret.revoke", read.id,
                                                 "success", ""))
  {
    ReachableIsOK(s, dek);
    var t, keys := s.tables, KeysOf(dek);
    var (read, revision) := FindSecret(t, keys, name).value;
    FoundSnapshot(t, s.history, keys, name);
    RevocationShows(t, s.history, keys, RevokedMetadata(read, draws.now), revision, draws);
  }

  lemma RevocationShows(t: Tables, history: seq<Commit>, keys: KeySet, revoked: SecretMetadata, revision: nat,
                        draws: Draws)
    requires RowsOK(t, history, keys) && SnapshotOK(revoked, t, Replay(history)) && revoked.state == Revoked
    requires CommitRevoke(t, keys, revoked, revision, draws).Ok?
    ensures var t' := CommitRevoke(t, keys, revoked, revision, draws).value;
            Shows(t, t', keys, revoked, Err(NotFound)) &&
            Logs(t, t', AuditOf("broker", "secret.revoke", revoked.id, draws))
  {
    var commit := Commit(RevokedSecret(revoked), AuditOf("broker", "secret.revoke", revoked.id, draws));
    RevokeStaged(t, history, keys, revoked, revision, commit.event);
    RevokeWrites(t, Replay(history), keys, revoked, revision);
    CommitShows(t, history, Replay(history), keys, StageRevoke(t, keys, revoked, revision), commit, revoked,
                Replay(history)[NameOf(revoked)].(state := Revoked));
  }

  // ----- Actions -----

  lemma PutShape(t: Tables, history: seq<Commit>, keys: KeySet, action: Action, draws: Draws)
    requires TablesOK(t, history, keys) && Store.Replacement(t, keys, action, draws).Ok?
    ensures var (put, revision) := Store.Replacement(t, keys, action, draws).value;
            var before := Store.ActionNamed(t, Some(keys),
                                            FullName(action.project, action.environment, action.name));
            && (before.Err? ==> before.error == NotFound && revision == 0)
            && put == Action(if before.Ok? then before.value.id else draws.objectId, action.project,
                             action.environment, action.name, action.executable, action.arguments, action.directory,
                             action.secrets, action.outputPolicy,
                             if before.Ok? then before.value.createdAt else draws.now, draws.now)
            && (revision >= 1 ==> StoredAction(put.id, FullName(action.project, action.environment, action.name), t))
  {
    var name := ActionNameOf(action);
    FoundAction(t, keys, name);
    ActionInOrder(t, history, keys, name);
    var id := Lookup(t, ActionObject, TokenOf(keys.lookup, ActionObject, name));
    if id.Some? {
      assert ObjectOK(id.value, t.objects[id.value], keys);
    }
  }

  /** An action just put is found under its own name with every field of the request; a new one has
      the id and time drawn, a replaced one keeps its id and time of creation. */
  lemma PutIsFound(s: System, dek: Key, action: Action, draws: Draws)
    requires Reachable(s, dek) && ZeroFreeName(FullName(action.project, action.environment, action.name))
    requires Store.Configuration(s.tables, Some(KeysOf(dek)), action, draws).0.Ok?
    ensures var keys, name := Some(KeysOf(dek)), FullName(action.project, action.environment, action.name);
            var done, before :=
              Store.Configuration(s.tables, keys, action, draws), Store.ActionNamed(s.tables, keys, name);
            && (before.Err? ==> before.error == NotFound)
            && done.0.value == Action(if before.Ok? then before.value.id else draws.objectId, action.project,
                                      action.environment, action.name, action.executable, action.arguments,
                                      action.directory, action.secrets, action.outputPolicy,
                                      if before.Ok? then before.value.createdAt else draws.now, draws.now)
            && ShowsAction(s.tables, done.1, KeysOf(dek), done.0.value)
            && Store.ActionNamed(done.1, keys, name) == done.0
            && Logs(s.tables, done.1, AuditEvent(draws.eventId, draws.loggedAt, "user", "action.configure",
                                                 done.0.value.id, "success", ""))
  {
    ReachableIsOK(s, dek);
    var t, keys := s.tables, KeysOf(dek);
    PutShape(t, s.history, keys, action, draws);
    var (put, revision) := Store.Replacement(t, keys, action, draws).value;
    PutShows(t, s.history, keys, put, revision, draws);
  }

  /** Everything that shows after a commit which left the action. */
  ghost predicate ShowsAction(t: Tables, t': Tables, keys: KeySet, put: Action) {
    var name := FullName(put.project, put.environment, put.name);
    && Store.ActionNamed(t', Some(keys), name) == Ok(put)
    && (forall other :: other != name ==>
          Store.ActionNamed(t', Some(keys), other) == Store.ActionNamed(t, Some(keys), other))
    && (forall secret :: Resolve(t', keys, secret) == Resolve(t, keys, secret))
  }

  lemma PutShows(t: Tables, history: seq<Commit>, keys: KeySet, put: Action, revision: nat, draws: Draws)
    requires RowsOK(t, history, keys) && ZeroFreeName(ActionNameOf(put))
    requires revision >= 1 ==> StoredAction(put.id, ActionNameOf(put), t)
    requires CommitAction(t, keys, put, revision, draws).Ok?
    ensures var t' := CommitAction(t, keys, put, revision, draws).value;
            ShowsAction(t, t', keys, put) && Logs(t, t', AuditOf("user", "action.configure", put.id, draws))
  {
    var staged, event := StageAction(t, keys, put, revision).value, AuditOf("user", "action.configure", put.id, draws);
    ActionStaged(t, history, keys, put, revision, event);
    StagedPutShows(t, history, keys, staged, Commit(ActionPut(put), event), put);
  }

  lemma StagedPutShows(t: Tables, history: seq<Commit>, keys: KeySet, staged: Tables, commit: Commit, put: Action)
    requires RowsOK(t, history, keys) && Staged(t, history, keys, staged, commit) && commit.effect == ActionPut(put)
    requires WithAudit(staged, keys, commit.event).Ok?
    ensures var t' := WithAudit(staged, keys, commit.event).value;
            ShowsAction(t, t', keys, put) && Logs(t, t', commit.event)
  {
    var t' := WithAudit(staged, keys, commit.event).value;
    LoggedRow(staged, keys, commit.event);
    PutLeavesRows(history, keys, staged, t', commit, put);
    RowsShowAction(t, history, keys, t', commit, put);
  }

  lemma PutLeavesRows(history: seq<Commit>, keys: KeySet, staged: Tables, t': Tables, commit: Commit, put: Action)
    requires ObjectsOK(staged, keys) && SecretsOK(staged, Apply(Replay(history), commit.effect), keys)
    requires ActionsOK(staged, history + [commit]) && commit.effect == ActionPut(put)
    requires t'.objects == staged.objects && t'.versions == staged.versions
    ensures RowsOK(t', history + [commit], keys) && Replay(history + [commit]) == Replay(history)
  {
    ReplaySnoc(history, commit);
    SameRows(staged, t', Replay(history + [commit]), history + [commit], keys);
  }

  lemma RowsShowAction(t: Tables, history: seq<Commit>, keys: KeySet, t': Tables, commit: Commit, put: Action)
    requires RowsOK(t, history, keys) && RowsOK(t', history + [commit], keys) && commit.effect == ActionPut(put)
    requires Replay(history + [commit]) == Replay(history)
    ensures ShowsAction(t, t', keys, put)
  {
    PutReads(t, history, keys, t', commit, put);
    SameSecretsResolve(t, t', Replay(history), keys);
  }

  lemma PutReads(t: Tables, history: seq<Commit>, keys: KeySet, t': Tables, commit: Commit, put: Action)
    requires ObjectsOK(t, keys) && ActionsOK(t, history) && ObjectsOK(t', keys) && ActionsOK(t', history + [commit])
    requires commit.effect == ActionPut(put)
    ensures forall name :: Store.ActionNamed(t', Some(keys), name) ==
                           if name == ActionNameOf(put) then Ok(put) else Store.ActionNamed(t, Some(keys), name)
  {
    forall name
      ensures Store.ActionNamed(t', Some(keys), name) ==
              if name == ActionNameOf(put) then Ok(put) else Store.ActionNamed(t, Some(keys), name)
    {
      ActionInOrder(t, history, keys, name);
      ActionInOrder(t', history + [commit], keys, name);
      LastPutSnoc(history, commit, name);
    }
  }

  lemma SameSecretsResolve(t: Tables, t': Tables, plain: Plain, keys: KeySet)
    requires ObjectsOK(t, keys) && SecretsOK(t, plain, keys) && ObjectsOK(t', keys) && SecretsOK(t', plain, keys)
    ensures forall secret :: Resolve(t', keys, secret) == Resolve(t, keys, secret)
  {
    forall secret ensures Resolve(t', keys, secret) == Resolve(t, keys, secret) {
      ResolveInOrder(t, plain, keys, secret);
      ResolveInOrder(t', plain, keys, secret);
    }
  }

  // ----- The log -----

  /** An event is logged as given: only an id or a time that was not given is drawn. */
  lemma RecordedAsGiven(t: Tables, keys: KeySet, event: AuditEvent, draws: Draws)
    requires Store.Recording(t, Some(keys), event, draws).0.Ok?
    ensures var t' := Store.Recording(t, Some(keys), event, draws).1;
            && t'.objects == t.objects && t'.versions == t.versions
            && Logs(t, t', AuditEvent(if event.id == "" then draws.eventId else event.id,
                                      if event.timestamp == ZERO_TIME then draws.loggedAt else event.timestamp,
                                      event.actor, event.operation, event.objectID, event.outcome, event.detail))
  {
    LoggedRow(t, keys, Filled(event, draws));
  }

  /** A listing that is accepted afterwards shows the event logged if its limit allows all rows, and
      shows it first, whatever the limit, if no stamp is later. */
  lemma LoggedIsListed(t: Tables, t': Tables, key: Key, event: AuditEvent, limit: int, listing: Audit.Listing)
    requires Logs(t, t', event) && Audit.Chained(Audit.ByStamp(t'.audit), key) && listing.Events?
    requires Audit.IsNewest(listing.events, Audit.Decoded(Audit.ByStamp(t'.audit)), Audit.Limit(limit))
    ensures Audit.Limit(limit) == if 1 <= limit <= 1000 then limit else 100
    ensures |t'.audit| <= Audit.Limit(limit) ==> event in listing.events
    ensures (forall i :: 0 <= i < |t.audit| ==> !Before(Format(event.timestamp), t.audit[i].createdAt)) ==>
              listing.events != [] && listing.events[0] == event
  {
    var sorted, row := Audit.ByStamp(t'.audit), t'.audit[|t.audit|];
    var i := RowIsRead(t'.audit, key, |t.audit|);
    if |t'.audit| <= Audit.Limit(limit) {
      assert listing.events[|sorted| - 1 - i] == event;
    }
    if forall i :: 0 <= i < |t.audit| ==> !Before(row.createdAt, t.audit[i].createdAt) {
      assert t'.audit == t.audit + [row];
      LatestIsLast(t.audit, row);
      LastIsRead(t'.audit, key);
    }
  }

  lemma RowIsRead(rows: seq<Audit.Row>, key: Key, k: nat) returns (i: nat)
    requires Audit.Chained(Audit.ByStamp(rows), key) && k < |rows|
    ensures |Audit.Decoded(Audit.ByStamp(rows))| == |Audit.ByStamp(rows)| == |rows| && i < |rows|
    ensures Audit.Decode(rows[k].event) == Some(Audit.Decoded(Audit.ByStamp(rows))[i])
  {
    var sorted := Audit.ByStamp(rows);
    Audit.ByStampSorts(rows);
    Audit.ChainedIsReadable(sorted, key);
    Audit.DecodedReads(sorted);
    assert rows[k] in multiset(rows);
    assert rows[k] in sorted;
    i :| 0 <= i < |sorted| && sorted[i] == rows[k];
  }

  lemma LastIsRead(rows: seq<Audit.Row>, key: Key)
    requires Audit.Chained(Audit.ByStamp(rows), key) && rows != []
    requires |Audit.ByStamp(rows)| == |rows| && Audit.ByStamp(rows)[|rows| - 1] == rows[|rows| - 1]
    ensures |Audit.Decoded(Audit.ByStamp(rows))| == |rows|
    ensures Audit.Decode(rows[|rows| - 1].event) == Some(Audit.Decoded(Audit.ByStamp(rows))[|rows| - 1])
  {
    Audit.ChainedIsReadable(Audit.ByStamp(rows), key);
    Audit.DecodedReads(Audit.ByStamp(rows));
  }

  lemma LatestIsLast(rows: seq<Audit.Row>, row: Audit.Row)
    requires forall i :: 0 <= i < |rows| ==> !Before(row.createdAt, rows[i].createdAt)
    ensures Audit.ByStamp(rows + [row]) == Audit.ByStamp(rows) + [row] && |Audit.ByStamp(rows)| == |rows|
  {
    var sorted := Audit.ByStamp(rows);
    Audit.ByStampSorts(rows);
    assert (rows + [row])[..|rows|] == rows;
    forall i | 0 <= i < |sorted| ensures !Before(row.createdAt, sorted[i].createdAt) {
      assert sorted[i] in multiset(sorted);
      assert sorted[i] in rows;
    }
    Audit.InsertLast(row, sorted);
  }

  // ----- Which requests succeed -----

  /** A request on an open vault fails exactly in the cases of its lemma, and then changes nothing. */
  ghost predicate Refuses<T>(done: (Outcome<T>, Tables), t: Tables, error: Error) {
    done == (Err(error), t)
  }

  lemma CreateAnswersExactly(s: System, dek: Key, meta: SecretMetadata, value: string, draws: Draws)
    requires Reachable(s, dek)
    ensures var done := Store.Creation(s.tables, Some(KeysOf(dek)), meta, value, draws);
            var name := FullName(meta.project, meta.environment, meta.name);
            if (if meta.id == "" then draws.objectId else meta.id) in s.tables.objects || name in Replay(s.history)
            then Refuses(done, s.tables, AlreadyExists)
            else if VersionIdUsed(s.tables.versions, draws.versionId) || Audit.HasId(s.tables.audit, draws.eventId)
            then Refuses(done, s.tables, ConstraintFailed)
            else done.0.Ok?
  {
    ReachableIsOK(s, dek);
    Broker.FoundExactly(s, dek, FullName(meta.project, meta.environment, meta.name));
    if NewSecret(meta, draws).id !in s.tables.objects {
      NoVersionsYet(s.tables, Replay(s.history), KeysOf(dek), NewSecret(meta, draws).id);
    }
  }

  lemma RotateAnswersExactly(s: System, dek: Key, name: FullName, profile: string, strength: int, value: string,
                             draws: Draws)
    requires Reachable(s, dek)
    ensures var done := Store.Rotation(s.tables, Some(KeysOf(dek)), name, profile, strength, value, draws);
            var plain, found := Replay(s.history), FindSecret(s.tables, KeysOf(dek), name);
            if name !in plain then Refuses(done, s.tables, NotFound)
            else
              && found.Ok?
              && if found.value.0.version != plain[name].version || Audit.HasId(s.tables.audit, draws.eventId) ||
                    VersionIdUsed(s.tables.versions, draws.versionId)
                 then Refuses(done, s.tables, ConstraintFailed) else done.0.Ok?
  {
    FoundIsSnapshot(s, dek, name);
    if name in Replay(s.history) {
      var (read, revision) := FindSecret(s.tables, KeysOf(dek), name).value;
      LastVersionRead(s, dek, read);
      RotateOutcomes(s.tables, KeysOf(dek), read, revision, RotatedSecret(read, profile, strength, draws.now), value,
                     draws);
    }
  }

  lemma LastVersionRead(s: System, dek: Key, read: SecretMetadata)
    requires Reachable(s, dek) && SnapshotOK(read, s.tables, Replay(s.history))
    ensures VersionKey(read.id, read.version + 1) !in s.tables.versions <==>
            read.version == Replay(s.history)[NameOf(read)].version
  {
    ReachableIsOK(s, dek);
    RotationIsNext(s.tables, Replay(s.history), KeysOf(dek), read);
  }

  lemma RotateOutcomes(t: Tables, keys: KeySet, read: SecretMetadata, revision: nat, rotated: SecretMetadata,
                       value: string, draws: Draws)
    requires read.id in t.objects && t.objects[read.id].revision == revision
    ensures var outcome := CommitRotate(t, keys, read, revision, rotated, value, draws);
            if VersionKey(read.id, read.version + 1) in t.versions || Audit.HasId(t.audit, draws.eventId) ||
               VersionIdUsed(t.versions, draws.versionId)
            then outcome == Err(ConstraintFailed) else outcome.Ok?
  {
  }

  /** A stored name is always found, with its row's revision. */
  lemma FoundIsSnapshot(s: System, dek: Key, name: FullName)
    requires Reachable(s, dek)
    ensures var found := FindSecret(s.tables, KeysOf(dek), name);
            if name !in Replay(s.history) then found == Err(NotFound)
            else
              && found.Ok? && SnapshotOK(found.value.0, s.tables, Replay(s.history)) && NameOf(found.value.0) == name
              && s.tables.objects[found.value.0.id].revision == found.value.1
  {
    ReachableIsOK(s, dek);
    Broker.FoundExactly(s, dek, name);
    var t, keys := s.tables, KeysOf(dek);
    LookupIsScan(t, keys, SecretObject, name);
    var found := Lookup(t, SecretObject, TokenOf(keys.lookup, SecretObject, name));
    if found.Some? {
      assert found == Some(found.value);
      FindInOrder(t, Replay(s.history), keys, name, found.value);
      assert ObjectOK(found.value, t.objects[found.value], keys);
      FoundSnapshot(t, s.history, keys, name);
    }
  }

  lemma RevokeAnswersExactly(s: System, dek: Key, name: FullName, draws: Draws)
    requires Reachable(s, dek)
    ensures var done := Store.Revocation(s.tables, Some(KeysOf(dek)), name, draws);
            if name !in Replay(s.history) then Refuses(done, s.tables, NotFound)
            else if Audit.HasId(s.tables.audit, draws.eventId) then Refuses(done, s.tables, ConstraintFailed)
            else done.0.Ok?
  {
    FoundIsSnapshot(s, dek, name);
  }

  lemma PutAnswersExactly(s: System, dek: Key, action: Action, draws: Draws)
    requires Reachable(s, dek)
    ensures var keys, name := Some(KeysOf(dek)), FullName(action.project, action.environment, action.name);
            var done := Store.Configuration(s.tables, keys, action, draws);
            if "" in [action.project, action.environment, action.name, action.executable]
            then Refuses(done, s.tables, InvalidRequest)
            else if Audit.HasId(s.tables.audit, draws.eventId) ||
                    (Store.ActionNamed(s.tables, keys, name).Err? && draws.objectId in s.tables.objects)
            then Refuses(done, s.tables, ConstraintFailed)
            else done.0.Ok?
  {
    PutReplaces(s, dek, action, draws);
    var (put, revision) := Store.Replacement(s.tables, KeysOf(dek), action, draws).value;
    PutOutcomes(s.tables, KeysOf(dek), put, revision, draws);
  }

  /** The row to replace can always be read; there is none exactly if no action has the name. */
  lemma PutReplaces(s: System, dek: Key, action: Action, draws: Draws)
    requires Reachable(s, dek)
    ensures var t, keys := s.tables, KeysOf(dek);
            var name := FullName(action.project, action.environment, action.name);
            && Store.Replacement(t, keys, action, draws).Ok?
            && var (put, revision) := Store.Replacement(t, keys, action, draws).value;
            && (revision == 0 <==> Store.ActionNamed(t, Some(keys), name).Err?)
            && (revision == 0 ==>
                  put.id == draws.objectId &&
                  !TokenUsed(t, ActionObject, TokenOf(keys.lookup, ActionObject, ActionNameOf(put))))
  {
    ReachableIsOK(s, dek);
    var t, keys, name := s.tables, KeysOf(dek), ActionNameOf(action);
    ActionInOrder(t, s.history, keys, name);
    FoundAction(t, keys, name);
    var id := Lookup(t, ActionObject, TokenOf(keys.lookup, ActionObject, name));
    if id.Some? {
      OpenActionExactly(t, s.history, keys, id.value, t.objects[id.value].revision, name);
    }
  }

  lemma PutOutcomes(t: Tables, keys: KeySet, put: Action, revision: nat, draws: Draws)
    requires revision == 0 ==> !TokenUsed(t, ActionObject, TokenOf(keys.lookup, ActionObject, ActionNameOf(put)))
    ensures var outcome := CommitAction(t, keys, put, revision, draws);
            if Audit.HasId(t.audit, draws.eventId) || (revision == 0 && put.id in t.objects)
            then outcome == Err(ConstraintFailed) else outcome.Ok?
  {
  }

  lemma RecordAnswersExactly(t: Tables, keys: KeySet, event: AuditEvent, draws: Draws)
    ensures var done := Store.Recording(t, Some(keys), event, draws);
            if Audit.HasId(t.audit, if event.id == "" then draws.eventId else event.id)
            then Refuses(done, t, ConstraintFailed) else done.0.Ok?
  {
  }

  /** In an interleaving, a rotation that does not commit says why: a version was stored since it
      read, or the row changed. */
  lemma LosingRotationAnswer(s: System, dek: Key, thread: nat, draws: Draws)
    requires Reachable(s, dek) && thread in s.tasks && s.tasks[thread].Rotating? && FreshDraws(s.tables, draws)
    requires !Commits(s, thread, draws)
    ensures var read, s' := s.tasks[thread].read, AdvanceStep(s, thread, draws);
            && NameOf(read) in Replay(s.history) && s'.tables == s.tables
            && s'.answers ==
               s.answers + [Failed(if read.version != Replay(s.history)[NameOf(read)].version then ConstraintFailed
                                   else ChangedConcurrently)]
  {
    RotationCommitsExactly(s, dek, thread, draws);
    var task := s.tasks[thread];
    assert SnapshotOK(task.read, s.tables, Replay(s.history)) && task.keys == KeysOf(dek) by {
      ReachableIsOK(s, dek);
      assert TaskOK(task, s.tables, Replay(s.history), KeysOf(dek));
    }
    LastVersionRead(s, dek, task.read);
    RotatingAnswers(s, thread, draws);
    RotateErrors(s.tables, task.keys, task.read, task.revision, RotationOf(task, draws), task.value, draws);
  }

  lemma RotateErrors(t: Tables, keys: KeySet, read: SecretMetadata, revision: nat, rotated: SecretMetadata,
                     value: string, draws: Draws)
    requires FreshDraws(t, draws) && read.id in t.objects
    ensures var outcome := CommitRotate(t, keys, read, revision, rotated, value, draws);
            if VersionKey(read.id, read.version + 1) in t.versions then outcome == Err(ConstraintFailed)
            else if t.objects[read.id].revision != revision then outcome == Err(ChangedConcurrently)
            else outcome.Ok?
  {
  }

  lemma RotatingAnswers(s: System, thread: nat, draws: Draws)
    requires thread in s.tasks && s.tasks[thread].Rotating?
    ensures var task, s' := s.tasks[thread], AdvanceStep(s, thread, draws);
            var outcome := CommitRotate(s.tables, task.keys, task.read, task.revision, RotationOf(task, draws),
                                        task.value, draws);
            outcome.Err? ==> s'.tables == s.tables && s'.answers == s.answers + [Failed(outcome.error)]
  {
  }

  // ----- Which version rows change -----

  /** Rows of the secret that were in use are ended in the way named; nothing else of a row changes. */
  ghost predicate Ends(t: Tables, t': Tables, id: string, ended: VersionState) {
    forall k :: k in t.versions ==>
      k in t'.versions &&
      t'.versions[k] == (if k.secret == id && t.versions[k].state == ActiveVersion
                         then VersionRow(t.versions[k].versionId, ended, t.versions[k].box) else t.versions[k])
  }

  /** Creating adds the first row, which holds the value given. */
  lemma CreateAddsFirstRow(t: Tables, keys: KeySet, meta: SecretMetadata, value: string, draws: Draws)
    requires Store.Creation(t, Some(keys), meta, value, draws).0.Ok?
    ensures var done := Store.Creation(t, Some(keys), meta, value, draws);
            var key := VersionKey(done.0.value.id, 1);
            && key !in t.versions && done.1.versions - {key} == t.versions
            && AddsRow(done.1, key, value, draws, keys.dek)
  {
  }

  /** Rotating retires the row in use and adds the next one, which holds the value given. */
  lemma RotateAddsNextRow(t: Tables, keys: KeySet, name: FullName, profile: string, strength: int, value: string,
                          draws: Draws)
    requires Store.Rotation(t, Some(keys), name, profile, strength, value, draws).0.Ok?
    ensures var done := Store.Rotation(t, Some(keys), name, profile, strength, value, draws);
            var key := VersionKey(done.0.value.id, done.0.value.version);
            && key !in t.versions && done.1.versions.Keys == t.versions.Keys + {key}
            && Ends(t, done.1, done.0.value.id, RetiredVersion) && AddsRow(done.1, key, value, draws, keys.dek)
  {
  }

  /** Revoking marks the row in use as revoked. */
  lemma RevokeMarksRow(t: Tables, keys: KeySet, name: FullName, draws: Draws)
    requires Store.Revocation(t, Some(keys), name, draws).0.Ok?
    ensures var done := Store.Revocation(t, Some(keys), name, draws);
            done.1.versions.Keys == t.versions.Keys && Ends(t, done.1, done.0.value.id, RevokedVersion)
  {
  }

  ghost predicate AddsRow(t: Tables, key: VersionKey, value: string, draws: Draws, dek: Key) {
    && key in t.versions && t.versions[key].versionId == draws.versionId && t.versions[key].state == ActiveVersion
    && Open(dek, t.versions[key].box, Framing.SecretAAD(key.secret, key.number)) == Some(value)
  }

  // ----- From a request to a run's environment -----

  /** Some commit created a secret of this name. */
  ghost predicate WasCreated(history: seq<Commit>, name: FullName) {
    exists i :: 0 <= i < |history| && CreatesNamed(history[i].effect, name)
  }

  ghost predicate CreatesNamed(effect: Effect, name: FullName) {
    effect.Created? && effect.meta.project == name.project && effect.meta.environment == name.environment &&
    effect.meta.name == name.name
  }

  lemma {:induction false} PlainWasCreated(history: seq<Commit>, name: FullName)
    ensures name in Replay(history) <==> WasCreated(history, name)
    decreases |history|
  {
    if history != [] {
      var n := |history| - 1;
      PlainWasCreated(history[..n], name);
      assert forall i :: 0 <= i < n ==> history[..n][i] == history[i];
      assert WasCreated(history, name) <==> WasCreated(history[..n], name) || CreatesNamed(history[n].effect, name);
    }
  }

  /** A name that was never created in exactly the scope of the run makes the run fail. */
  lemma NeverCreatedNotFound(s: System, dek: Key, scope: Scope, mappings: map<string, string>, env: string,
                             answer: Outcome<map<string, string>>)
    requires Reachable(s, dek) && Store.ResolvesAll(s.tables, KeysOf(dek), scope, mappings, answer)
    requires env in mappings && !WasCreated(s.history, FullName(scope.project, scope.environment, mappings[env]))
    ensures answer == Err(NotFound)
  {
    PlainWasCreated(s.history, FullName(scope.project, scope.environment, mappings[env]));
    Broker.MappingsResolveAsPlain(s, dek, scope, mappings, answer);
    assert !Broker.Usable(Replay(s.history), FullName(scope.project, scope.environment, mappings[env]));
  }

  /** Right after a create, a run of that scope that maps the name gets exactly the value given. */
  lemma CreatedIsHandedOver(s: System, dek: Key, meta: SecretMetadata, value: string, draws: Draws, env: string,
                            answer: Outcome<map<string, string>>)
    requires Reachable(s, dek) && ZeroFreeName(FullName(meta.project, meta.environment, meta.name))
    requires Store.Creation(s.tables, Some(KeysOf(dek)), meta, value, draws).0.Ok?
    ensures var after := Store.Creation(s.tables, Some(KeysOf(dek)), meta, value, draws).1;
            Store.ResolvesAll(after, KeysOf(dek), Scope(meta.project, meta.environment), map[env := meta.name], answer)
            <==> answer == Ok(map[env := value])
  {
    CreateStoresRequest(s, dek, meta, value, draws);
    OneMapping(Store.Creation(s.tables, Some(KeysOf(dek)), meta, value, draws).1, KeysOf(dek),
               Scope(meta.project, meta.environment), env, meta.name, Ok(value), answer);
  }

  lemma OneMapping(t: Tables, keys: KeySet, scope: Scope, env: string, name: string, resolved: Outcome<string>,
                   answer: Outcome<map<string, string>>)
    requires Resolve(t, keys, FullName(scope.project, scope.environment, name)) == resolved
    ensures Store.ResolvesAll(t, keys, scope, map[env := name], answer) <==>
            answer == if resolved.Ok? then Ok(map[env := resolved.value]) else Err(resolved.error)
  {
    var mappings := map[env := name];
    assert Store.ResolvesTo(t, keys, scope, mappings[env], resolved);
    if answer.Ok? && answer.value.Keys == mappings.Keys {
      assert answer.value == map[env := answer.value[env]];
    }
  }

  /** Right after a rotation, it gets the new value. */
  lemma RotatedIsHandedOver(s: System, dek: Key, name: FullName, profile: string, strength: int, value: string,
                            draws: Draws, env: string, answer: Outcome<map<string, string>>)
    requires Reachable(s, dek)
    requires Store.Rotation(s.tables, Some(KeysOf(dek)), name, profile, strength, value, draws).0.Ok?
    ensures var after := Store.Rotation(s.tables, Some(KeysOf(dek)), name, profile, strength, value, draws).1;
            Store.ResolvesAll(after, KeysOf(dek), Scope(name.project, name.environment), map[env := name.name], answer)
            <==> answer == Ok(map[env := value])
  {
    RotateStoresRequest(s, dek, name, profile, strength, value, draws);
    OneMapping(Store.Rotation(s.tables, Some(KeysOf(dek)), name, profile, strength, value, draws).1, KeysOf(dek),
               Scope(name.project, name.environment), env, name.name, Ok(value), answer);
  }

  /** Right after a revoke, it gets nothing. */
  lemma RevokedIsWithheld(s: System, dek: Key, name: FullName, draws: Draws, env: string,
                          answer: Outcome<map<string, string>>)
    requires Reachable(s, dek) && Store.Revocation(s.tables, Some(KeysOf(dek)), name, draws).0.Ok?
    ensures var after := Store.Revocation(s.tables, Some(KeysOf(dek)), name, draws).1;
            Store.ResolvesAll(after, KeysOf(dek), Scope(name.project, name.environment), map[env := name.name], answer)
            <==> answer == Err(NotFound)
  {
    RevokeKeepsTheRest(s, dek, name, draws);
    OneMapping(Store.Revocation(s.tables, Some(KeysOf(dek)), name, draws).1, KeysOf(dek),
               Scope(name.project, name.environment), env, name.name, Err(NotFound), answer);
  }
}
