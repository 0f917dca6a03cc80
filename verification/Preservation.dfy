/** Every step of every operation keeps the invariant. */
module Preservation {
  import opened Timestamp
  import opened Model
  import opened SecureCrypto
  import opened PlainVault
  import opened Vault
  import opened Machine
  import opened Invariant
  import Audit

  // ----- What later states keep of earlier ones -----

  /** Objects keep their kind and name, and version counts never go back. */
  ghost predicate Extends(t: Tables, plain: Plain, t': Tables, plain': Plain) {
    && (forall id :: id in t.objects ==>
          id in t'.objects && t'.objects[id].kind == t.objects[id].kind &&
            RowName(t'.objects[id]) == RowName(t.objects[id]))
    && (forall name :: name in plain ==> name in plain' && plain[name].version <= plain'[name].version)
  }

  lemma TasksExtend(tasks: map<nat, Task>, t: Tables, plain: Plain, t': Tables, plain': Plain, keys: KeySet)
    requires TasksOK(tasks, t, plain, keys) && Extends(t, plain, t', plain')
    ensures TasksOK(tasks, t', plain', keys)
  {
  }

  lemma WasPutExtends(history: seq<Commit>, commit: Commit, action: Action)
    requires WasPut(history, action)
    ensures WasPut(history + [commit], action)
  {
    var i :| 0 <= i < |history| && history[i].effect == ActionPut(action);
    assert (history + [commit])[i].effect == ActionPut(action);
  }

  lemma AnswersExtend(answers: seq<Answer>, history: seq<Commit>, commit: Commit)
    requires AnswersOK(answers, history)
    ensures AnswersOK(answers, history + [commit])
  {
    forall i | 0 <= i < |answers| && answers[i].ActionFound?
      ensures ActionNameOf(answers[i].action) == answers[i].name && WasPut(history + [commit], answers[i].action)
    {
      WasPutExtends(history, commit, answers[i].action);
    }
  }

  // ----- The audit row of a commit -----

  lemma AuditKept(t: Tables, history: seq<Commit>, keys: KeySet, staged: Tables, commit: Commit)
    requires AuditOK(t, history, keys) && staged.audit == t.audit
    requires WithAudit(staged, keys, commit.event).Ok?
    ensures AuditOK(WithAudit(staged, keys, commit.event).value, history + [commit], keys)
  {
    var events, more := EventsOf(history), EventsOf(history + [commit]);
    assert more == events + [commit.event] && more[..|more| - 1] == events;
    Audit.BuildIds(keys.audit, events);
    forall i | 0 <= i < |events| ensures events[i].id != commit.event.id {
      assert t.audit[i].id == events[i].id;
    }
  }

  // ----- Object rows -----

  lemma ResealedOK(id: string, row: ObjectRow, keys: KeySet, document: Document, revision: nat, row': ObjectRow)
    requires ObjectOK(id, row, keys) && revision >= 1
    requires row' == row.(box := SealObject(keys, row.kind, id, document, revision), revision := revision)
    requires !document.EventDocument? && document.SecretDocument? == row.kind.SecretObject?
    requires IdOf(row') == id && RowName(row') == RowName(row)
    ensures ObjectOK(id, row', keys)
  {
  }

  /** Resealing an object under the next revision, with the same id and name. */
  lemma ResealKeeps(t: Tables, keys: KeySet, kind: Kind, id: string, document: Document, revision: nat, t': Tables)
    requires ObjectsOK(t, keys) && IsKind(t, id, kind)
    requires t'.objects == Resealed(t.objects, keys, kind, id, document, revision + 1)
    requires !document.EventDocument? && document.SecretDocument? == kind.SecretObject?
    requires IdOf(t'.objects[id]) == id && RowName(t'.objects[id]) == RowName(t.objects[id])
    ensures ObjectsOK(t', keys)
  {
    ResealedOK(id, t.objects[id], keys, document, revision + 1, t'.objects[id]);
    forall i | i in t'.objects ensures ObjectOK(i, t'.objects[i], keys) {
      if i != id {
        assert t'.objects[i] == t.objects[i];
      }
    }
    ResealedUnique(t.objects, keys, kind, id, document, revision + 1);
  }

  lemma InsertKeeps(t: Tables, keys: KeySet, id: string, row: ObjectRow, t': Tables)
    requires ObjectsOK(t, keys) && id !in t.objects && !TokenUsed(t, row.kind, row.token)
    requires ObjectOK(id, row, keys) && t'.objects == t.objects[id := row]
    ensures ObjectsOK(t', keys)
  {
    InsertedUnique(t, id, row);
  }

  // ----- Version rows -----

  /** Rows of other secrets are untouched. */
  ghost predicate OthersSame(versions: map<VersionKey, VersionRow>, versions': map<VersionKey, VersionRow>,
                             id: string) {
    forall k: VersionKey :: k.secret != id ==>
      (k in versions <==> k in versions') && (k in versions ==> versions[k] == versions'[k])
  }

  lemma OtherVersionsKept(versions: map<VersionKey, VersionRow>, versions': map<VersionKey, VersionRow>, id: string,
                          other: string, entry: Entry, keys: KeySet)
    requires OthersSame(versions, versions', id) && other != id && VersionsOK(versions, other, entry, keys)
    ensures VersionsOK(versions', other, entry, keys)
  {
  }

  lemma FirstVersion(versions: map<VersionKey, VersionRow>, id: string, versionId: string, value: string, keys: KeySet)
    requires forall k :: k in versions ==> k.secret != id
    ensures var row := VersionRow(versionId, ActiveVersion, SealValue(keys, id, value, 1));
            VersionsOK(versions[VersionKey(id, 1) := row], id, Entry(value, 1, Active), keys)
  {
  }

  /** Retiring whatever is active and adding row n + 1 as the active one. */
  lemma NextVersion(versions: map<VersionKey, VersionRow>, id: string, entry: Entry, versionId: string, value: string,
                    keys: KeySet)
    requires VersionsOK(versions, id, entry, keys)
    ensures var number := entry.version + 1;
            var row := VersionRow(versionId, ActiveVersion, SealValue(keys, id, value, number));
            VersionsOK(EndActive(versions, id, RetiredVersion)[VersionKey(id, number) := row], id,
                       Entry(value, number, Active), keys)
  {
  }

  lemma EndedVersions(versions: map<VersionKey, VersionRow>, id: string, entry: Entry, keys: KeySet)
    requires VersionsOK(versions, id, entry, keys)
    ensures VersionsOK(EndActive(versions, id, RevokedVersion), id, entry.(state := Revoked), keys)
  {
  }

  // ----- Secrets after a change to one of them -----

  ghost predicate OthersStay(t: Tables, t': Tables, id: string) {
    forall other :: other != id ==>
      (other in t'.objects <==> other in t.objects) && (other in t.objects ==> t'.objects[other] == t.objects[other])
  }

  lemma OtherSecretKept(t: Tables, plain: Plain, keys: KeySet, t': Tables, plain': Plain, id: string, name: FullName,
                        other: string)
    requires IsKind(t, other, SecretObject) && SecretOK(t, plain, keys, other) && other != id
    requires OthersStay(t, t', id) && OthersSame(t.versions, t'.versions, id)
    requires RowName(t.objects[other]) != name && name in plain' && plain' == plain[name := plain'[name]]
    ensures IsKind(t', other, SecretObject) && SecretOK(t', plain', keys, other)
  {
    OtherVersionsKept(t.versions, t'.versions, id, other, plain[RowName(t.objects[other])], keys);
  }

  /** Only secret `id` changed, and its name's entry in the plain map. */
  ghost predicate OnlyChanged(t: Tables, plain: Plain, t': Tables, plain': Plain, id: string, name: FullName) {
    && IsKind(t', id, SecretObject) && RowName(t'.objects[id]) == name
    && OthersStay(t, t', id) && OthersSame(t.versions, t'.versions, id)
    && (id in t.objects ==> t.objects[id].kind == SecretObject && RowName(t.objects[id]) == name)
    && name in plain' && plain' == plain[name := plain'[name]]
    && (name in plain ==> plain[name].version <= plain'[name].version)
  }

  lemma NamesStillStored(t: Tables, plain: Plain, t': Tables, plain': Plain, id: string, name: FullName, n: FullName)
    requires OnlyChanged(t, plain, t', plain', id, name) && n in plain' && (n in plain ==> NameStored(t, n))
    ensures NameStored(t', n)
  {
  }

  lemma OneSecretChanged(t: Tables, plain: Plain, keys: KeySet, t': Tables, plain': Plain, id: string, name: FullName)
    requires SecretsOK(t, plain, keys) && ObjectsOK(t', keys)
    requires OnlyChanged(t, plain, t', plain', id, name) && SecretOK(t', plain', keys, id)
    ensures SecretsOK(t', plain', keys)
  {
    forall other | IsKind(t', other, SecretObject) && other != id ensures SecretOK(t', plain', keys, other) {
      assert IsKind(t, other, SecretObject) && t'.objects[other] == t.objects[other];
      if RowName(t'.objects[other]) == name {
        NamesUnique(t', keys, SecretObject, other, id);
      }
      OtherSecretKept(t, plain, keys, t', plain', id, name, other);
    }
    forall n | n in plain' ensures NameStored(t', n) {
      NamesStillStored(t, plain, t', plain', id, name, n);
    }
    forall k | k in t'.versions ensures IsKind(t', k.secret, SecretObject) {
      if k.secret != id {
        assert IsKind(t, k.secret, SecretObject);
      }
    }
  }

  lemma OnlyChangedExtends(t: Tables, plain: Plain, t': Tables, plain': Plain, id: string, name: FullName)
    requires OnlyChanged(t, plain, t', plain', id, name)
    ensures Extends(t, plain, t', plain')
  {
  }

  lemma ResealedOthers(t: Tables, keys: KeySet, id: string, document: Document, revision: nat, t': Tables)
    requires t'.objects == Resealed(t.objects, keys, SecretObject, id, document, revision)
    ensures OthersStay(t, t', id)
  {
  }

  lemma EndActiveOthers(versions: map<VersionKey, VersionRow>, id: string, ended: VersionState)
    ensures OthersSame(versions, EndActive(versions, id, ended), id)
  {
  }

  lemma AddedOthers(versions: map<VersionKey, VersionRow>, changed: map<VersionKey, VersionRow>, id: string,
                    number: nat, row: VersionRow)
    requires OthersSame(versions, changed, id)
    ensures OthersSame(versions, changed[VersionKey(id, number) := row], id)
  {
  }

  lemma ActionsKept(t: Tables, history: seq<Commit>, t': Tables, commit: Commit, changed: string)
    requires ActionsOK(t, history) && IsKind(t', changed, SecretObject) && OthersStay(t, t', changed)
    requires !commit.effect.ActionPut? && (changed in t.objects ==> t.objects[changed].kind == SecretObject)
    ensures ActionsOK(t', history + [commit])
  {
    var more := history + [commit];
    forall id | IsKind(t', id, ActionObject) ensures ActionLatest(t', more, id) {
      assert id != changed && IsKind(t, id, ActionObject) && ActionLatest(t, history, id);
      LastPutSnoc(history, commit, RowName(t'.objects[id]));
    }
    forall name | LastPut(more, name).Some? ensures ActionKnown(t', name) {
      LastPutSnoc(history, commit, name);
      var id :| StoredAction(id, name, t);
      assert StoredAction(id, name, t');
    }
  }

  // ----- The four commits -----

  /** What a staged change must satisfy for its commit to keep everything. */
  ghost predicate Staged(t: Tables, history: seq<Commit>, keys: KeySet, staged: Tables, commit: Commit) {
    var plain := Apply(Replay(history), commit.effect);
    && staged.audit == t.audit
    && Legal(Replay(history), commit.effect)
    && ObjectsOK(staged, keys)
    && SecretsOK(staged, plain, keys)
    && ActionsOK(staged, history + [commit])
    && Extends(t, Replay(history), staged, plain)
  }

  /** A staged change in good order stays so once its audit row is added. */
  lemma CommitKeeps(t: Tables, history: seq<Commit>, keys: KeySet, staged: Tables, commit: Commit)
    requires AuditOK(t, history, keys) && LegalHistory(history)
    requires Staged(t, history, keys, staged, commit) && WithAudit(staged, keys, commit.event).Ok?
    ensures var t', more := WithAudit(staged, keys, commit.event).value, history + [commit];
            TablesOK(t', more, keys) && Extends(t, Replay(history), t', Replay(more))
  {
    AuditKept(t, history, keys, staged, commit);
    ReplaySnoc(history, commit);
    LegalSnoc(history, commit);
    var t' := WithAudit(staged, keys, commit.event).value;
    SameRows(staged, t', Replay(history + [commit]), history + [commit], keys);
  }

  /** Secrets depend only on the secret rows and the version rows. */
  ghost predicate SameSecrets(t: Tables, t': Tables) {
    && t'.versions == t.versions
    && forall id :: (IsKind(t', id, SecretObject) <==> IsKind(t, id, SecretObject)) &&
                    (IsKind(t, id, SecretObject) ==> t'.objects[id] == t.objects[id])
  }

  lemma SecretsSame(t: Tables, t': Tables, plain: Plain, keys: KeySet)
    requires SecretsOK(t, plain, keys) && SameSecrets(t, t')
    ensures SecretsOK(t', plain, keys)
  {
  }

  lemma SameRows(t: Tables, t': Tables, plain: Plain, history: seq<Commit>, keys: KeySet)
    requires t'.objects == t.objects && t'.versions == t.versions
    requires ObjectsOK(t, keys) && SecretsOK(t, plain, keys) && ActionsOK(t, history)
    ensures ObjectsOK(t', keys) && SecretsOK(t', plain, keys) && ActionsOK(t', history)
  {
    assert forall id, kind :: IsKind(t', id, kind) <==> IsKind(t, id, kind);
    forall name | LastPut(history, name).Some? ensures ActionKnown(t', name) {
      var id :| StoredAction(id, name, t);
      assert StoredAction(id, name, t');
    }
    SecretsSame(t, t', plain, keys);
  }

  ghost predicate RowsOK(t: Tables, history: seq<Commit>, keys: KeySet) {
    ObjectsOK(t, keys) && SecretsOK(t, Replay(history), keys) && ActionsOK(t, history)
  }

  lemma NewNameIsNew(t: Tables, plain: Plain, keys: KeySet, name: FullName)
    requires ObjectsOK(t, keys) && SecretsOK(t, plain, keys)
    requires !TokenUsed(t, SecretObject, TokenOf(keys.lookup, SecretObject, name))
    ensures name !in plain
  {
    if name in plain {
      assert NameStored(t, name);
      LookupIsScan(t, keys, SecretObject, name);
    }
  }

  lemma SecretStaged(t: Tables, history: seq<Commit>, keys: KeySet, staged: Tables, commit: Commit, id: string,
                     name: FullName)
    requires RowsOK(t, history, keys) && staged.audit == t.audit && ObjectsOK(staged, keys) && !commit.effect.ActionPut?
    requires var plain := Apply(Replay(history), commit.effect);
             Legal(Replay(history), commit.effect) && OnlyChanged(t, Replay(history), staged, plain, id, name) &&
             SecretOK(staged, plain, keys, id)
    ensures Staged(t, history, keys, staged, commit)
  {
    var plain := Apply(Replay(history), commit.effect);
    OneSecretChanged(t, Replay(history), keys, staged, plain, id, name);
    ActionsKept(t, history, staged, commit, id);
    OnlyChangedExtends(t, Replay(history), staged, plain, id, name);
  }

  lemma NoVersionsYet(t: Tables, plain: Plain, keys: KeySet, id: string)
    requires SecretsOK(t, plain, keys) && id !in t.objects
    ensures forall k :: k in t.versions ==> k.secret != id
  {
  }

  lemma CreateStaged(t: Tables, history: seq<Commit>, keys: KeySet, meta: SecretMetadata, value: string, draws: Draws,
                     event: AuditEvent)
    requires RowsOK(t, history, keys) && ZeroFreeName(NameOf(meta)) && meta.version == 1 && meta.state == Active
    requires StageCreate(t, keys, meta, value, draws).Ok?
    ensures Staged(t, history, keys, StageCreate(t, keys, meta, value, draws).value,
                   Commit(Created(meta, value), event))
  {
    var staged, commit := StageCreate(t, keys, meta, value, draws).value, Commit(Created(meta, value), event);
    var plain, name, id := Replay(history), NameOf(meta), meta.id;
    NewNameIsNew(t, plain, keys, name);
    assert ObjectOK(id, staged.objects[id], keys);
    InsertKeeps(t, keys, id, staged.objects[id], staged);
    NoVersionsYet(t, plain, keys, id);
    FirstVersion(t.versions, id, draws.versionId, value, keys);
    AddedOthers(t.versions, t.versions, id, 1, staged.versions[VersionKey(id, 1)]);
    SecretStaged(t, history, keys, staged, commit, id, name);
  }

  /** The UNIQUE pair forces a committed rotation to store exactly version n + 1. */
  lemma RotationIsNext(t: Tables, plain: Plain, keys: KeySet, read: SecretMetadata)
    requires SecretsOK(t, plain, keys) && SnapshotOK(read, t, plain)
    ensures VersionKey(read.id, read.version + 1) !in t.versions <==> read.version == plain[NameOf(read)].version
  {
    assert SecretOK(t, plain, keys, read.id);
  }

  lemma RotatedVersions(t: Tables, plain: Plain, keys: KeySet, read: SecretMetadata, revision: nat,
                        rotated: SecretMetadata, value: string, draws: Draws)
    requires SecretsOK(t, plain, keys) && SnapshotOK(read, t, plain)
    requires rotated.version == read.version + 1
    requires StageRotate(t, keys, read, revision, rotated, value, draws).Ok?
    ensures var staged := StageRotate(t, keys, read, revision, rotated, value, draws).value;
            read.version == plain[NameOf(read)].version && OthersSame(t.versions, staged.versions, read.id) &&
            VersionsOK(staged.versions, read.id, Entry(value, rotated.version, Active), keys)
  {
    var id, ended := read.id, EndActive(t.versions, read.id, RetiredVersion);
    RotationIsNext(t, plain, keys, read);
    assert SecretOK(t, plain, keys, id);
    NextVersion(t.versions, id, plain[NameOf(read)], draws.versionId, value, keys);
    EndActiveOthers(t.versions, id, RetiredVersion);
    AddedOthers(t.versions, ended, id, rotated.version,
                VersionRow(draws.versionId, ActiveVersion, SealValue(keys, id, value, rotated.version)));
  }

  lemma RotateStaged(t: Tables, history: seq<Commit>, keys: KeySet, read: SecretMetadata, revision: nat,
                     rotated: SecretMetadata, value: string, draws: Draws, event: AuditEvent)
    requires RowsOK(t, history, keys) && SnapshotOK(read, t, Replay(history))
    requires rotated.id == read.id && NameOf(rotated) == NameOf(read)
    requires rotated.version == read.version + 1 && rotated.state == Active
    requires StageRotate(t, keys, read, revision, rotated, value, draws).Ok?
    ensures Staged(t, history, keys, StageRotate(t, keys, read, revision, rotated, value, draws).value,
                   Commit(Rotated(rotated, value), event))
  {
    var staged := StageRotate(t, keys, read, revision, rotated, value, draws).value;
    var commit := Commit(Rotated(rotated, value), event);
    var plain, name, id := Replay(history), NameOf(read), read.id;
    ResealKeeps(t, keys, SecretObject, id, SecretDocument(rotated), revision, staged);
    RotatedVersions(t, plain, keys, read, revision, rotated, value, draws);
    ResealedOthers(t, keys, id, SecretDocument(rotated), revision + 1, staged);
    SecretStaged(t, history, keys, staged, commit, id, name);
  }

  lemma RevokeStaged(t: Tables, history: seq<Commit>, keys: KeySet, revoked: SecretMetadata, revision: nat,
                     event: AuditEvent)
    requires RowsOK(t, history, keys) && SnapshotOK(revoked, t, Replay(history)) && revoked.state == Revoked
    ensures Staged(t, history, keys, StageRevoke(t, keys, revoked, revision), Commit(RevokedSecret(revoked), event))
  {
    var staged, commit := StageRevoke(t, keys, revoked, revision), Commit(RevokedSecret(revoked), event);
    var plain, name, id := Replay(history), NameOf(revoked), revoked.id;
    ResealKeeps(t, keys, SecretObject, id, SecretDocument(revoked), revision, staged);
    assert SecretOK(t, plain, keys, id);
    EndedVersions(t.versions, id, plain[name], keys);
    ResealedOthers(t, keys, id, SecretDocument(revoked), revision + 1, staged);
    EndActiveOthers(t.versions, id, RevokedVersion);
    SecretStaged(t, history, keys, staged, commit, id, name);
  }

  lemma ActionObjects(t: Tables, keys: KeySet, action: Action, revision: nat)
    requires ObjectsOK(t, keys) && ZeroFreeName(ActionNameOf(action))
    requires revision >= 1 ==> StoredAction(action.id, ActionNameOf(action), t)
    requires StageAction(t, keys, action, revision).Ok?
    ensures ObjectsOK(StageAction(t, keys, action, revision).value, keys)
  {
    var staged, id := StageAction(t, keys, action, revision).value, action.id;
    if revision == 0 {
      assert ObjectOK(id, staged.objects[id], keys);
      InsertKeeps(t, keys, id, staged.objects[id], staged);
    } else {
      ResealKeeps(t, keys, ActionObject, id, ActionDocument(action), revision, staged);
    }
  }

  lemma ActionsLatestKept(t: Tables, history: seq<Commit>, t': Tables, commit: Commit, action: Action, keys: KeySet,
                          i: string)
    requires ActionsOK(t, history) && commit.effect == ActionPut(action) && OthersStay(t, t', action.id) &&
             ObjectsOK(t', keys)
    requires IsKind(t', action.id, ActionObject) && t'.objects[action.id].box.plaintext == ActionDocument(action)
    requires IsKind(t', i, ActionObject)
    ensures ActionLatest(t', history + [commit], i)
  {
    LastPutSnoc(history, commit, RowName(t'.objects[i]));
    if i != action.id {
      assert IsKind(t, i, ActionObject) && ActionLatest(t, history, i);
      if RowName(t'.objects[i]) == ActionNameOf(action) {
        NamesUnique(t', keys, ActionObject, i, action.id);
      }
    }
  }

  lemma ActionRows(t: Tables, history: seq<Commit>, t': Tables, commit: Commit, action: Action, keys: KeySet)
    requires ActionsOK(t, history) && commit.effect == ActionPut(action) && OthersStay(t, t', action.id) &&
             ObjectsOK(t', keys)
    requires IsKind(t', action.id, ActionObject) && t'.objects[action.id].box.plaintext == ActionDocument(action)
    requires action.id in t.objects ==> RowName(t.objects[action.id]) == ActionNameOf(action)
    ensures ActionsOK(t', history + [commit])
  {
    var more, name := history + [commit], ActionNameOf(action);
    forall i | IsKind(t', i, ActionObject) ensures ActionLatest(t', more, i) {
      ActionsLatestKept(t, history, t', commit, action, keys, i);
    }
    forall n | LastPut(more, n).Some? ensures ActionKnown(t', n) {
      LastPutSnoc(history, commit, n);
      if n == name {
        assert StoredAction(action.id, n, t');
      } else {
        var id :| StoredAction(id, n, t);
        assert StoredAction(id, n, t');
      }
    }
  }

  lemma ActionShape(t: Tables, keys: KeySet, action: Action, revision: nat, plain: Plain)
    requires revision >= 1 ==> StoredAction(action.id, ActionNameOf(action), t)
    requires StageAction(t, keys, action, revision).Ok?
    ensures var staged := StageAction(t, keys, action, revision).value;
            OthersStay(t, staged, action.id) && IsKind(staged, action.id, ActionObject) &&
            SameSecrets(t, staged) && Extends(t, plain, staged, plain)
  {
  }

  lemma ActionStaged(t: Tables, history: seq<Commit>, keys: KeySet, action: Action, revision: nat, event: AuditEvent)
    requires RowsOK(t, history, keys) && ZeroFreeName(ActionNameOf(action))
    requires revision >= 1 ==> StoredAction(action.id, ActionNameOf(action), t)
    requires StageAction(t, keys, action, revision).Ok?
    ensures Staged(t, history, keys, StageAction(t, keys, action, revision).value, Commit(ActionPut(action), event))
  {
    var staged, commit := StageAction(t, keys, action, revision).value, Commit(ActionPut(action), event);
    ActionObjects(t, keys, action, revision);
    ActionShape(t, keys, action, revision, Replay(history));
    SecretsSame(t, staged, Replay(history), keys);
    ActionRows(t, history, staged, commit, action, keys);
  }

  // ----- Steps -----

  lemma SafeIsZeroFree(name: FullName)
    requires SafeNames(name)
    ensures ZeroFreeName(name)
  {
  }

  lemma FoundSnapshot(t: Tables, history: seq<Commit>, keys: KeySet, name: FullName)
    requires TablesOK(t, history, keys) && FindSecret(t, keys, name).Ok?
    ensures SnapshotOK(FindSecret(t, keys, name).value.0, t, Replay(history))
    ensures NameOf(FindSecret(t, keys, name).value.0) == name
  {
    LookupIsScan(t, keys, SecretObject, name);
  }

  lemma FoundAction(t: Tables, keys: KeySet, name: FullName)
    requires ObjectsOK(t, keys)
    ensures var id := Lookup(t, ActionObject, TokenOf(keys.lookup, ActionObject, name));
            id.Some? ==> StoredAction(id.value, name, t) && t.objects[id.value].revision >= 1
  {
    LookupIsScan(t, keys, ActionObject, name);
    var id := Lookup(t, ActionObject, TokenOf(keys.lookup, ActionObject, name));
    if id.Some? {
      assert id == Some(id.value) && ObjectOK(id.value, t.objects[id.value], keys);
    }
  }

  lemma ReadSecretKeeps(t: Tables, history: seq<Commit>, keys: KeySet, request: Request, draws: Draws)
    requires TablesOK(t, history, keys) && Read(t, keys, request, draws).Ok? &&
             (request.RotateSecret? || request.RevokeSecret?)
    ensures TaskOK(Read(t, keys, request, draws).value, t, Replay(history), keys)
  {
    ReadIsFound(t, keys, request, draws);
    FoundSnapshot(t, history, keys, request.name);
  }

  /** Rotating and revoking act on the metadata found. */
  lemma ReadIsFound(t: Tables, keys: KeySet, request: Request, draws: Draws)
    requires Read(t, keys, request, draws).Ok? && (request.RotateSecret? || request.RevokeSecret?)
    ensures FindSecret(t, keys, request.name).Ok?
    ensures var task, found := Read(t, keys, request, draws).value, FindSecret(t, keys, request.name).value;
            (task.Rotating? || task.Revoking?) && task.keys == keys && task.read == found.0 && task.revision == found.1
  {
  }

  lemma ReadActionKeeps(t: Tables, plain: Plain, keys: KeySet, request: Request, draws: Draws)
    requires ObjectsOK(t, keys) && Acceptable(request) && Read(t, keys, request, draws).Ok?
    requires request.PutAction? || request.GetAction? || request.RecordAudit?
    ensures TaskOK(Read(t, keys, request, draws).value, t, plain, keys)
  {
    match request
    case PutAction(action) =>
      SafeIsZeroFree(ActionNameOf(action));
      FoundAction(t, keys, ActionNameOf(action));
    case GetAction(name) => FoundAction(t, keys, name);
    case RecordAudit(_) =>
  }

  lemma ReadKeeps(t: Tables, history: seq<Commit>, keys: KeySet, request: Request, draws: Draws)
    requires TablesOK(t, history, keys) && Acceptable(request) && Read(t, keys, request, draws).Ok?
    ensures TaskOK(Read(t, keys, request, draws).value, t, Replay(history), keys)
  {
    if request.CreateSecret? {
      SafeIsZeroFree(NameOf(request.meta));
    } else if request.RotateSecret? || request.RevokeSecret? {
      ReadSecretKeeps(t, history, keys, request, draws);
    } else {
      ReadActionKeeps(t, Replay(history), keys, request, draws);
    }
  }

  lemma WithoutKeeps(tasks: map<nat, Task>, thread: nat, t: Tables, plain: Plain, keys: KeySet)
    requires TasksOK(tasks, t, plain, keys)
    ensures TasksOK(tasks - {thread}, t, plain, keys)
  {
  }

  /** A task that commits, given that its staged change is in good order. */
  lemma FinishKeeps(s: System, dek: Key, thread: nat, staged: Outcome<Tables>, commit: Commit, answer: Answer)
    requires SystemOK(s, dek) && !answer.ActionFound?
    requires staged.Ok? ==> Staged(s.tables, s.history, KeysOf(dek), staged.value, commit)
    ensures SystemOK(Finish(s, thread, Audited(staged, KeysOf(dek), commit.event), commit, answer), dek)
  {
    var outcome := Audited(staged, KeysOf(dek), commit.event);
    if outcome.Ok? {
      CommittedKeeps(s, dek, thread, staged.value, commit, answer);
    } else {
      AnsweredKeeps(s, dek, thread, Failed(outcome.error));
    }
  }

  lemma CommittedKeeps(s: System, dek: Key, thread: nat, staged: Tables, commit: Commit, answer: Answer)
    requires SystemOK(s, dek) && !answer.ActionFound? && Staged(s.tables, s.history, KeysOf(dek), staged, commit)
    requires WithAudit(staged, KeysOf(dek), commit.event).Ok?
    ensures var t' := WithAudit(staged, KeysOf(dek), commit.event).value;
            SystemOK(Answering(s.(tasks := s.tasks - {thread}, tables := t', history := s.history + [commit]),
                               answer), dek)
  {
    var keys, more, left := KeysOf(dek), s.history + [commit], s.tasks - {thread};
    var t' := WithAudit(staged, keys, commit.event).value;
    assert TablesOK(t', more, keys) && Extends(s.tables, Replay(s.history), t', Replay(more)) by {
      CommitKeeps(s.tables, s.history, keys, staged, commit);
    }
    assert TasksOK(left, t', Replay(more), keys) by {
      WithoutKeeps(s.tasks, thread, s.tables, Replay(s.history), keys);
      TasksExtend(left, s.tables, Replay(s.history), t', Replay(more), keys);
    }
    assert AnswersOK(s.answers + [answer], more) by {
      AnswersExtend(s.answers, s.history, commit);
    }
  }

  lemma OpenedAction(t: Tables, history: seq<Commit>, keys: KeySet, id: string, revision: nat, name: FullName)
    requires TablesOK(t, history, keys) && StoredAction(id, name, t) && OpenAction(t, keys, id, revision).Ok?
    ensures var action := OpenAction(t, keys, id, revision).value;
            ActionNameOf(action) == name && WasPut(history, action) && ZeroFreeName(name)
  {
    assert ObjectOK(id, t.objects[id], keys) && ActionLatest(t, history, id);
    LastPutWasPut(history, name);
  }

  lemma CreatingKeeps(s: System, dek: Key, thread: nat, draws: Draws)
    requires SystemOK(s, dek) && thread in s.tasks && s.tasks[thread].Creating?
    ensures SystemOK(AdvanceStep(s, thread, draws), dek)
  {
    var t, history, keys := s.tables, s.history, KeysOf(dek);
    assert TaskOK(s.tasks[thread], t, Replay(history), keys);
    var Creating(_, meta, value) := s.tasks[thread];
    var created := NewSecret(meta, draws);
    var event := AuditOf("broker", "secret.create", created.id, draws);
    var staged := StageCreate(t, keys, created, value, draws);
    if staged.Ok? {
      CreateStaged(t, history, keys, created, value, draws, event);
    }
    FinishKeeps(s, dek, thread, staged, Commit(Created(created, value), event), SecretStored(created));
  }

  lemma RotatingKeeps(s: System, dek: Key, thread: nat, draws: Draws)
    requires SystemOK(s, dek) && thread in s.tasks && s.tasks[thread].Rotating?
    ensures SystemOK(AdvanceStep(s, thread, draws), dek)
  {
    var t, history, keys := s.tables, s.history, KeysOf(dek);
    assert TaskOK(s.tasks[thread], t, Replay(history), keys);
    var Rotating(_, read, revision, profile, strength, value) := s.tasks[thread];
    var rotated := RotatedSecret(read, profile, strength, draws.now);
    var event := AuditOf("broker", "secret.rotate", read.id, draws);
    var staged := StageRotate(t, keys, read, revision, rotated, value, draws);
    if staged.Ok? {
      RotateStaged(t, history, keys, read, revision, rotated, value, draws, event);
    }
    FinishKeeps(s, dek, thread, staged, Commit(Rotated(rotated, value), event), SecretStored(rotated));
  }

  lemma RevokingKeeps(s: System, dek: Key, thread: nat, draws: Draws)
    requires SystemOK(s, dek) && thread in s.tasks && s.tasks[thread].Revoking?
    ensures SystemOK(AdvanceStep(s, thread, draws), dek)
  {
    var t, history, keys := s.tables, s.history, KeysOf(dek);
    assert TaskOK(s.tasks[thread], t, Replay(history), keys);
    var Revoking(_, read, revision) := s.tasks[thread];
    var revoked := RevokedMetadata(read, draws.now);
    var event := AuditOf("broker", "secret.revoke", read.id, draws);
    RevokeStaged(t, history, keys, revoked, revision, event);
    FinishKeeps(s, dek, thread, Ok(StageRevoke(t, keys, revoked, revision)), Commit(RevokedSecret(revoked), event),
                SecretStored(revoked));
  }

  lemma WritingActionKeeps(s: System, dek: Key, thread: nat, draws: Draws)
    requires SystemOK(s, dek) && thread in s.tasks && s.tasks[thread].WritingAction?
    ensures SystemOK(AdvanceStep(s, thread, draws), dek)
  {
    var t, history, keys := s.tables, s.history, KeysOf(dek);
    assert TaskOK(s.tasks[thread], t, Replay(history), keys);
    var WritingAction(_, action, revision) := s.tasks[thread];
    var event := AuditOf("user", "action.configure", action.id, draws);
    var staged := StageAction(t, keys, action, revision);
    if staged.Ok? {
      ActionStaged(t, history, keys, action, revision, event);
    }
    FinishKeeps(s, dek, thread, staged, Commit(ActionPut(action), event), ActionStored(action));
  }

  lemma TaskAdded(tasks: map<nat, Task>, thread: nat, task: Task, t: Tables, plain: Plain, keys: KeySet)
    requires TasksOK(tasks, t, plain, keys) && TaskOK(task, t, plain, keys)
    ensures TasksOK(tasks[thread := task], t, plain, keys)
  {
  }

  /** An error answer with nothing else changed. */
  lemma RefusedKeeps(s: System, dek: Key, error: Error)
    requires SystemOK(s, dek)
    ensures SystemOK(Answering(s, Failed(error)), dek)
  {
  }

  lemma BegunKeeps(s: System, dek: Key, thread: nat, task: Task)
    requires SystemOK(s, dek) && TaskOK(task, s.tables, Replay(s.history), KeysOf(dek))
    ensures SystemOK(s.(tasks := s.tasks[thread := task]), dek)
  {
    TaskAdded(s.tasks, thread, task, s.tables, Replay(s.history), KeysOf(dek));
  }

  lemma BeginKeeps(s: System, dek: Key, thread: nat, request: Request, draws: Draws)
    requires SystemOK(s, dek)
    ensures SystemOK(BeginStep(s, thread, request, draws), dek)
  {
    if thread in s.tasks {
    } else if !Acceptable(request) {
      RefusedKeeps(s, dek, InvalidRequest);
    } else if s.keys.None? {
      RefusedKeeps(s, dek, Locked);
    } else {
      var task := Read(s.tables, KeysOf(dek), request, draws);
      if task.Err? {
        RefusedKeeps(s, dek, task.error);
      } else {
        ReadKeeps(s.tables, s.history, KeysOf(dek), request, draws);
        BegunKeeps(s, dek, thread, task.value);
      }
    }
  }

  /** Ending a task with an answer and no commit. */
  lemma AnsweredKeeps(s: System, dek: Key, thread: nat, answer: Answer)
    requires SystemOK(s, dek)
    requires answer.ActionFound? ==> ActionNameOf(answer.action) == answer.name && WasPut(s.history, answer.action)
    ensures SystemOK(Answering(s.(tasks := s.tasks - {thread}), answer), dek)
  {
    WithoutKeeps(s.tasks, thread, s.tables, Replay(s.history), KeysOf(dek));
  }

  lemma DatedActionOK(t: Tables, history: seq<Commit>, keys: KeySet, action: Action, revision: nat,
                      createdAt: Instant, now: Instant)
    requires TablesOK(t, history, keys) && revision >= 1 && StoredAction(action.id, ActionNameOf(action), t)
    requires ZeroFreeName(ActionNameOf(action))
    ensures TaskOK(WritingAction(keys, action.(createdAt := createdAt, updatedAt := now), revision), t,
                   Replay(history), keys)
  {
  }

  lemma ReplacingActionKeeps(s: System, dek: Key, thread: nat, draws: Draws)
    requires SystemOK(s, dek) && thread in s.tasks && s.tasks[thread].ReplacingAction?
    ensures SystemOK(AdvanceStep(s, thread, draws), dek)
  {
    var t, history, keys := s.tables, s.history, KeysOf(dek);
    assert TaskOK(s.tasks[thread], t, Replay(history), keys);
    var ReplacingAction(_, action, revision) := s.tasks[thread];
    var current := OpenAction(t, keys, action.id, revision);
    if current.Err? {
      AnsweredKeeps(s, dek, thread, Failed(current.error));
    } else {
      OpenedAction(t, history, keys, action.id, revision, ActionNameOf(action));
      DatedActionOK(t, history, keys, action, revision, current.value.createdAt, draws.now);
      var dated := action.(createdAt := current.value.createdAt, updatedAt := draws.now);
      TaskAdded(s.tasks, thread, WritingAction(keys, dated, revision), t, Replay(history), keys);
    }
  }

  lemma ReadingActionKeeps(s: System, dek: Key, thread: nat, draws: Draws)
    requires SystemOK(s, dek) && thread in s.tasks && s.tasks[thread].ReadingAction?
    ensures SystemOK(AdvanceStep(s, thread, draws), dek)
  {
    var t, history, keys := s.tables, s.history, KeysOf(dek);
    assert TaskOK(s.tasks[thread], t, Replay(history), keys);
    var ReadingAction(_, name, id, revision) := s.tasks[thread];
    var action := OpenAction(t, keys, id, revision);
    if action.Err? {
      AnsweredKeeps(s, dek, thread, Failed(action.error));
    } else {
      OpenedAction(t, history, keys, id, revision, name);
      AnsweredKeeps(s, dek, thread, ActionFound(name, action.value));
    }
  }

  lemma LogStaged(t: Tables, history: seq<Commit>, keys: KeySet, event: AuditEvent)
    requires RowsOK(t, history, keys)
    ensures Staged(t, history, keys, t, Commit(Logged, event))
  {
    var commit := Commit(Logged, event);
    forall id | IsKind(t, id, ActionObject) ensures ActionLatest(t, history + [commit], id) {
      assert ActionLatest(t, history, id);
      LastPutSnoc(history, commit, RowName(t.objects[id]));
    }
    forall name | LastPut(history + [commit], name).Some? ensures ActionKnown(t, name) {
      LastPutSnoc(history, commit, name);
    }
  }

  lemma LoggingKeeps(s: System, dek: Key, thread: nat, draws: Draws)
    requires SystemOK(s, dek) && thread in s.tasks && s.tasks[thread].Logging?
    ensures SystemOK(AdvanceStep(s, thread, draws), dek)
  {
    var keys := KeysOf(dek);
    assert TaskOK(s.tasks[thread], s.tables, Replay(s.history), keys);
    var filled := Filled(s.tasks[thread].event, draws);
    LogStaged(s.tables, s.history, keys, filled);
    FinishKeeps(s, dek, thread, Ok(s.tables), Commit(Logged, filled), EventLogged);
  }

  lemma AdvanceKeeps(s: System, dek: Key, thread: nat, draws: Draws)
    requires SystemOK(s, dek)
    ensures SystemOK(AdvanceStep(s, thread, draws), dek)
  {
    if thread in s.tasks {
      match s.tasks[thread]
      case Creating(_, _, _) => CreatingKeeps(s, dek, thread, draws);
      case Rotating(_, _, _, _, _, _) => RotatingKeeps(s, dek, thread, draws);
      case Revoking(_, _, _) => RevokingKeeps(s, dek, thread, draws);
      case WritingAction(_, _, _) => WritingActionKeeps(s, dek, thread, draws);
      case ReplacingAction(_, _, _) => ReplacingActionKeeps(s, dek, thread, draws);
      case ReadingAction(_, _, _, _) => ReadingActionKeeps(s, dek, thread, draws);
      case Logging(_, _) => LoggingKeeps(s, dek, thread, draws);
    }
  }

  lemma LockKeeps(s: System, dek: Key)
    requires SystemOK(s, dek)
    ensures SystemOK(s.(keys := None), dek)
  {
  }

  lemma UnlockKeeps(s: System, dek: Key, password: string)
    requires SystemOK(s, dek)
    ensures SystemOK(Unlocked(s, password), dek)
  {
    var unwrapped := UnwrapDEK(s.vaultID, s.wrapper, password);
    if unwrapped.Err? {
      RefusedKeeps(s, dek, unwrapped.error);
    } else {
      UnlockedKeeps(s, dek);
    }
  }

  lemma UnlockedKeeps(s: System, dek: Key)
    requires SystemOK(s, dek)
    ensures SystemOK(s.(keys := Some(KeysOf(dek))), dek)
  {
  }

  lemma StepKeeps(s: System, dek: Key, event: Event)
    requires SystemOK(s, dek)
    ensures SystemOK(Step(s, event), dek)
  {
    if event.Begin? {
      BeginKeeps(s, dek, event.thread, event.request, event.draws);
    } else if event.Advance? {
      AdvanceKeeps(s, dek, event.thread, event.draws);
    } else if event.LockVault? {
      LockKeeps(s, dek);
    } else {
      UnlockKeeps(s, dek, event.password);
    }
  }

  lemma FreshIsOK(vaultID: string, wrapper: Wrapper)
    ensures SystemOK(Fresh(vaultID, wrapper), wrapper.box.plaintext)
  {
    assert EventsOf([]) == [];
  }

  /** Every state of every interleaving keeps the invariant, through any number of locks and
      unlocks. */
  lemma {:induction false} RunKeeps(vaultID: string, wrapper: Wrapper, events: seq<Event>)
    ensures SystemOK(Run(Fresh(vaultID, wrapper), events), wrapper.box.plaintext)
    decreases |events|
  {
    if events == [] {
      FreshIsOK(vaultID, wrapper);
    } else {
      RunKeeps(vaultID, wrapper, events[..|events| - 1]);
      StepKeeps(Run(Fresh(vaultID, wrapper), events[..|events| - 1]), wrapper.box.plaintext, events[|events| - 1]);
    }
  }
}
