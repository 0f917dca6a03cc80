/** The store as an object: fields updated in place, statement by statement, with roll-back.
    Every operation is proved to do what its specification says to the tables as they were. */
module Store {
  import opened Timestamp
  import opened Model
  import opened SecureCrypto
  import opened Framing
  import opened PlainVault
  import opened Vault
  import Audit

  // ----- Specifications -----

  /** A transaction's answer and the tables after it. */
  ghost function Ended<T>(t: Tables, outcome: Outcome<Tables>, value: T): (Outcome<T>, Tables) {
    if outcome.Err? then (Err(outcome.error), t) else (Ok(value), outcome.value)
  }

  ghost function Creation(t: Tables, keys: Option<KeySet>, meta: SecretMetadata, value: string, draws: Draws)
    : (Outcome<SecretMetadata>, Tables)
  {
    if keys.None? then (Err(Locked), t)
    else
      var created := NewSecret(meta, draws);
      Ended(t, CommitCreate(t, keys.value, created, value, draws), created)
  }

  ghost function Rotation(t: Tables, keys: Option<KeySet>, name: FullName, profile: string, strength: int,
                          value: string, draws: Draws)
    : (Outcome<SecretMetadata>, Tables)
  {
    if keys.None? then (Err(Locked), t)
    else
      var found := FindSecret(t, keys.value, name);
      if found.Err? then (Err(found.error), t)
      else
        var rotated := RotatedSecret(found.value.0, profile, strength, draws.now);
        Ended(t, CommitRotate(t, keys.value, found.value.0, found.value.1, rotated, value, draws), rotated)
  }

  ghost function Revocation(t: Tables, keys: Option<KeySet>, name: FullName, draws: Draws)
    : (Outcome<SecretMetadata>, Tables)
  {
    if keys.None? then (Err(Locked), t)
    else
      var found := FindSecret(t, keys.value, name);
      if found.Err? then (Err(found.error), t)
      else
        var revoked := RevokedMetadata(found.value.0, draws.now);
        Ended(t, CommitRevoke(t, keys.value, revoked, found.value.1, draws), revoked)
  }

  /** The action as it will be stored, and the revision it replaces (0 for none). */
  ghost function Replacement(t: Tables, keys: KeySet, action: Action, draws: Draws): Outcome<(Action, nat)> {
    var id := Lookup(t, ActionObject, TokenOf(keys.lookup, ActionObject, ActionNameOf(action)));
    if id.None? then Ok((action.(id := draws.objectId, createdAt := draws.now, updatedAt := draws.now), 0))
    else
      var revision := t.objects[id.value].revision;
      var current := OpenAction(t, keys, id.value, revision);
      if current.Err? then Err(current.error)
      else Ok((action.(id := id.value, createdAt := current.value.createdAt, updatedAt := draws.now), revision))
  }

  ghost function Configuration(t: Tables, keys: Option<KeySet>, action: Action, draws: Draws)
    : (Outcome<Action>, Tables)
  {
    if keys.None? then (Err(Locked), t)
    else if action.project == "" || action.environment == "" || action.name == "" || action.executable == ""
    then (Err(InvalidRequest), t)
    else
      var put := Replacement(t, keys.value, action, draws);
      if put.Err? then (Err(put.error), t)
      else Ended(t, CommitAction(t, keys.value, put.value.0, put.value.1, draws), put.value.0)
  }

  ghost function ActionNamed(t: Tables, keys: Option<KeySet>, name: FullName): Outcome<Action> {
    if keys.None? then Err(Locked)
    else
      var id := Lookup(t, ActionObject, TokenOf(keys.value.lookup, ActionObject, name));
      if id.None? then Err(NotFound) else OpenAction(t, keys.value, id.value, t.objects[id.value].revision)
  }

  ghost function Recording(t: Tables, keys: Option<KeySet>, event: AuditEvent, draws: Draws): (Outcome<()>, Tables) {
    if keys.None? then (Err(Locked), t) else Ended(t, WithAudit(t, keys.value, Filled(event, draws)), ())
  }

  ghost predicate ResolvesTo(t: Tables, keys: KeySet, scope: Scope, name: string, value: Outcome<string>) {
    Resolve(t, keys, FullName(scope.project, scope.environment, name)) == value
  }

  /** Every mapped name resolves, or the whole request fails with an error of one that does not. */
  ghost predicate ResolvesAll(t: Tables, keys: KeySet, scope: Scope, mappings: map<string, string>,
                              answer: Outcome<map<string, string>>) {
    match answer
    case Ok(values) =>
      values.Keys == mappings.Keys &&
      forall env :: env in mappings ==> ResolvesTo(t, keys, scope, mappings[env], Ok(values[env]))
    case Err(error) => exists env :: env in mappings && ResolvesTo(t, keys, scope, mappings[env], Err(error))
  }

  ghost predicate ResolvedSoFar(t: Tables, keys: KeySet, scope: Scope, mappings: map<string, string>,
                                result: map<string, string>) {
    forall env :: env in result ==> env in mappings && ResolvesTo(t, keys, scope, mappings[env], Ok(result[env]))
  }

  lemma ResolvedOneMore(t: Tables, keys: KeySet, scope: Scope, mappings: map<string, string>,
                        result: map<string, string>, env: string, value: string)
    requires ResolvedSoFar(t, keys, scope, mappings, result) && env in mappings
    requires ResolvesTo(t, keys, scope, mappings[env], Ok(value))
    ensures ResolvedSoFar(t, keys, scope, mappings, result[env := value])
  {
  }

  /** The two ways out of the loop. */
  lemma ResolvedToTheEnd(t: Tables, keys: KeySet, scope: Scope, mappings: map<string, string>,
                         result: map<string, string>)
    requires ResolvedSoFar(t, keys, scope, mappings, result) && result.Keys == mappings.Keys
    ensures ResolvesAll(t, keys, scope, mappings, Ok(result))
  {
  }

  lemma OneUnresolved(t: Tables, keys: KeySet, scope: Scope, mappings: map<string, string>, env: string, error: Error)
    requires env in mappings && ResolvesTo(t, keys, scope, mappings[env], Err(error))
    ensures ResolvesAll(t, keys, scope, mappings, Err(error))
  {
  }

  // ----- Listings -----

  function OpenMetadata(t: Tables, keys: KeySet, id: string): Option<Document>
    requires id in t.objects
  {
    Open(keys.metadata, t.objects[id].box, ObjectAAD("secret", id, t.objects[id].revision))
  }

  /** Row `id` is a secret whose metadata opens to `meta`, in the scope asked for. */
  ghost predicate Lists(t: Tables, keys: KeySet, scope: Scope, id: string, meta: SecretMetadata) {
    && id in t.objects && t.objects[id].kind == SecretObject
    && OpenMetadata(t, keys, id) == Some(SecretDocument(meta))
    && meta.project == scope.project && meta.environment == scope.environment
  }

  ghost predicate Opens(t: Tables, keys: KeySet, id: string) {
    id in t.objects && t.objects[id].kind == SecretObject ==>
      OpenMetadata(t, keys, id).Some? && OpenMetadata(t, keys, id).value.SecretDocument?
  }

  /** The row ids behind a listing, in its order. */
  ghost predicate ListedFrom(t: Tables, keys: KeySet, scope: Scope, ids: seq<string>, listing: seq<SecretMetadata>) {
    && |ids| == |listing|
    && (forall i :: 0 <= i < |ids| ==> Lists(t, keys, scope, ids[i], listing[i]))
    && (forall i, j :: 0 <= i < j < |ids| ==> ids[i] != ids[j])
  }

  ghost predicate SortedByName(listing: seq<SecretMetadata>) {
    forall i, j :: 0 <= i < j < |listing| ==> !Before(listing[j].name, listing[i].name)
  }

  /** The listing has exactly one entry for each row of the scope, in name order. */
  ghost predicate IsListing(t: Tables, keys: KeySet, scope: Scope, listing: seq<SecretMetadata>) {
    && SortedByName(listing)
    && exists ids: seq<string> ::
         ListedFrom(t, keys, scope, ids, listing) && forall id, meta :: Lists(t, keys, scope, id, meta) ==> id in ids
  }

  function InsertAt<T>(s: seq<T>, at: nat, x: T): seq<T>
    requires at <= |s|
  {
    s[..at] + [x] + s[at..]
  }

  lemma InsertKeepsOrder(sorted: seq<SecretMetadata>, at: nat, meta: SecretMetadata)
    requires SortedByName(sorted) && at <= |sorted|
    requires forall j :: 0 <= j < at ==> !Before(meta.name, sorted[j].name)
    requires at < |sorted| ==> Before(meta.name, sorted[at].name)
    ensures SortedByName(InsertAt(sorted, at, meta))
  {
    forall j | at <= j < |sorted| ensures !Before(sorted[j].name, meta.name) {
      if Before(sorted[j].name, meta.name) {
        BeforeTransitive(sorted[j].name, meta.name, sorted[at].name);
        BeforeTotal(sorted[at].name, sorted[at].name);
      }
    }
  }

  lemma InsertKeepsListed(t: Tables, keys: KeySet, scope: Scope, order: seq<string>, sorted: seq<SecretMetadata>,
                          at: nat, id: string, meta: SecretMetadata)
    requires ListedFrom(t, keys, scope, order, sorted) && at <= |sorted|
    requires Lists(t, keys, scope, id, meta) && id !in order
    ensures ListedFrom(t, keys, scope, InsertAt(order, at, id), InsertAt(sorted, at, meta))
    ensures forall i :: i in InsertAt(order, at, id) <==> i in order || i == id
  {
    assert order == order[..at] + order[at..];
  }

  // ----- Constraints -----

  ghost predicate UniqueVersionIds(versions: map<VersionKey, VersionRow>) {
    forall k, k' :: k in versions && k' in versions && versions[k].versionId == versions[k'].versionId ==> k == k'
  }

  /** UPDATE secret_versions SET state='active' WHERE version_id = ?. */
  function Activated(versions: map<VersionKey, VersionRow>, versionId: string): map<VersionKey, VersionRow> {
    map k | k in versions ::
      if versions[k].versionId == versionId then versions[k].(state := ActiveVersion) else versions[k]
  }

  /** Inserting a row as pending, retiring the active one and activating the new row by its
      identifier comes to retiring the active one and adding the new row as active. */
  lemma PendingThenActive(versions: map<VersionKey, VersionRow>, secret: string, key: VersionKey, row: VersionRow)
    requires key !in versions && !VersionIdUsed(versions, row.versionId) && row.state == PendingVersion
    ensures Activated(EndActive(versions[key := row], secret, RetiredVersion), row.versionId) ==
            EndActive(versions, secret, RetiredVersion)[key := row.(state := ActiveVersion)]
  {
  }

  lemma EndActiveUnique(versions: map<VersionKey, VersionRow>, secret: string, ended: VersionState)
    requires UniqueVersionIds(versions)
    ensures UniqueVersionIds(EndActive(versions, secret, ended))
  {
    var after := EndActive(versions, secret, ended);
    assert forall k :: k in after ==> k in versions && after[k].versionId == versions[k].versionId;
  }

  lemma AddedUnique(versions: map<VersionKey, VersionRow>, key: VersionKey, row: VersionRow)
    requires UniqueVersionIds(versions) && !VersionIdUsed(versions, row.versionId)
    ensures UniqueVersionIds(versions[key := row])
  {
    forall k | k in versions ensures versions[k].versionId != row.versionId {
    }
  }

  class Store {
    const vaultID: string
    const wrapper: Wrapper
    var keys: Option<KeySet>
    var objects: map<string, ObjectRow>
    var versions: map<VersionKey, VersionRow>
    var audit: seq<Audit.Row>

    ghost function State(): Tables
      reads this
    {
      Tables(objects, versions, audit)
    }

    /** The schema's UNIQUE constraints that the maps do not carry by themselves. */
    ghost predicate Valid()
      reads this
    {
      UniqueTokens(objects) && UniqueVersionIds(versions)
    }

    /** An empty store over a wrapper, unlocked with a data key. */
    constructor (vaultID: string, wrapper: Wrapper, dek: Key)
      ensures Valid() && State() == EMPTY && keys == Some(KeysOf(dek))
      ensures this.vaultID == vaultID && this.wrapper == wrapper
    {
      this.vaultID := vaultID;
      this.wrapper := wrapper;
      keys := Some(KeysOf(dek));
      objects, versions, audit := map[], map[], [];
    }

    // ----- Sessions -----

    method Unlock(password: string) returns (answer: Outcome<()>)
      modifies this`keys
      ensures old(keys).Some? ==> answer == Ok(()) && keys == old(keys)
      ensures old(keys).None? ==>
                match UnwrapDEK(vaultID, wrapper, password)
                case Ok(dek) => answer == Ok(()) && keys == Some(KeysOf(dek))
                case Err(error) => answer == Err(error) && keys == None
    {
      if keys.Some? {
        return Ok(());
      }
      var dek := UnwrapDEK(vaultID, wrapper, password);
      if dek.Err? {
        return Err(dek.error);
      }
      InstallKeys(dek.value);
      return Ok(());
    }

    method InstallKeys(dek: Key)
      modifies this`keys
      ensures keys == Some(KeysOf(dek))
    {
      var metadata := ExpandKey(dek, "metadata");
      var lookup := ExpandKey(dek, "lookup");
      var log := ExpandKey(dek, "audit");
      keys := Some(KeySet(dek, metadata, lookup, log));
    }

    /** Checks the password even when the vault is open. */
    method VerifyPassword(password: string) returns (answer: Outcome<()>)
      ensures var unwrapped := UnwrapDEK(vaultID, wrapper, password);
              answer == if unwrapped.Ok? then Ok(()) else Err(unwrapped.error)
    {
      var dek := UnwrapDEK(vaultID, wrapper, password);
      if dek.Err? {
        return Err(dek.error);
      }
      return Ok(());
    }

    method Lock()
      modifies this`keys
      ensures keys == None
    {
      keys := None;
    }

    // ----- Queries -----

    /** SELECT object_id .. WHERE object_type = ? AND lookup_token = ?. */
    method FindToken(kind: Kind, token: Token) returns (found: Option<string>)
      requires Valid()
      ensures found == Lookup(State(), kind, token)
    {
      var rest := objects.Keys;
      while rest != {}
        invariant rest <= objects.Keys
        invariant forall id :: id in objects && id !in rest ==> !Matches(State(), kind, token, id)
        decreases |rest|
      {
        var id :| id in rest;
        if objects[id].kind == kind && objects[id].token == token {
          assert Matches(State(), kind, token, id);
          return Some(id);
        }
        rest := rest - {id};
      }
      assert !TokenUsed(State(), kind, token);
      return None;
    }

    method VersionIdTaken(versionId: string) returns (taken: bool)
      ensures taken <==> VersionIdUsed(versions, versionId)
    {
      var rest := versions.Keys;
      while rest != {}
        invariant rest <= versions.Keys
        invariant forall k :: k in versions && k !in rest ==> versions[k].versionId != versionId
        decreases |rest|
      {
        var k :| k in rest;
        if versions[k].versionId == versionId {
          return true;
        }
        rest := rest - {k};
      }
      return false;
    }

    /** SELECT version_number .. WHERE secret_id = ? AND state = 'active' ORDER BY version_number DESC LIMIT 1. */
    method CurrentVersion(id: string) returns (number: Option<nat>)
      ensures number.Some? ==> IsCurrent(State(), id, number.value)
      ensures number.None? ==> forall n :: !IsCurrent(State(), id, n)
    {
      number := None;
      var rest := versions.Keys;
      while rest != {}
        invariant rest <= versions.Keys
        invariant number.Some? ==>
                    VersionKey(id, number.value) in versions &&
                      versions[VersionKey(id, number.value)].state == ActiveVersion
        invariant forall m: nat ::
                    VersionKey(id, m) in versions && VersionKey(id, m) !in rest &&
                      versions[VersionKey(id, m)].state == ActiveVersion
                    ==> number.Some? && m <= number.value
        decreases |rest|
      {
        var k :| k in rest;
        if k.secret == id && versions[k].state == ActiveVersion && (number.None? || number.value < k.number) {
          assert k == VersionKey(id, k.number);
          number := Some(k.number);
        }
        rest := rest - {k};
      }
    }

    method FindSecretMetadata(keys: KeySet, name: FullName) returns (found: Outcome<(SecretMetadata, nat)>)
      requires Valid()
      ensures found == FindSecret(State(), keys, name)
    {
      var token := ComputeLookupToken(keys.lookup, ["secret", name.project, name.environment, name.name]);
      var id := FindToken(SecretObject, token);
      if id.None? {
        return Err(NotFound);
      }
      var row := objects[id.value];
      var document := Open(keys.metadata, row.box, ObjectAAD("secret", id.value, row.revision));
      if document.None? || !document.value.SecretDocument? {
        return Err(AuthenticationFailed);
      }
      return Ok((document.value.secret, row.revision));
    }

    method GetActionByID(keys: KeySet, id: string, revision: nat) returns (action: Outcome<Action>)
      ensures action == OpenAction(State(), keys, id, revision)
    {
      if id !in objects {
        return Err(NotFound);
      }
      var document := Open(keys.metadata, objects[id].box, ObjectAAD("action", id, revision));
      if document.None? || !document.value.ActionDocument? {
        return Err(AuthenticationFailed);
      }
      return Ok(document.value.action);
    }

    // ----- Statements -----

    method InsertObject(id: string, row: ObjectRow) returns (ok: bool)
      requires Valid()
      modifies this`objects
      ensures Valid()
      ensures ok <==> id !in old(objects) && !TokenUsed(old(State()), row.kind, row.token)
      ensures objects == if ok then old(objects)[id := row] else old(objects)
    {
      var clash := FindToken(row.kind, row.token);
      if id in objects || clash.Some? {
        return false;
      }
      assert forall i :: i in objects ==> !Matches(State(), row.kind, row.token, i);
      objects := objects[id := row];
      return true;
    }

    method InsertVersion(key: VersionKey, row: VersionRow) returns (ok: bool)
      requires Valid()
      modifies this`versions
      ensures Valid()
      ensures ok <==> key !in old(versions) && !VersionIdUsed(old(versions), row.versionId) && key.secret in objects
      ensures versions == if ok then old(versions)[key := row] else old(versions)
    {
      var taken := VersionIdTaken(row.versionId);
      if key in versions || taken || key.secret !in objects {
        return false;
      }
      AddedUnique(versions, key, row);
      versions := versions[key := row];
      return true;
    }

    /** UPDATE encrypted_objects .. WHERE object_id = ? AND revision = ?; says whether a row was affected. */
    method SwapMetadata(keys: KeySet, id: string, document: Document, revision: nat) returns (swapped: bool)
      requires Valid()
      modifies this`objects
      ensures Valid()
      ensures swapped <==> id in old(objects) && old(objects)[id].revision == revision
      ensures objects ==
              if swapped then Resealed(old(objects), keys, SecretObject, id, document, revision + 1) else old(objects)
    {
      swapped := id in objects && objects[id].revision == revision;
      if swapped {
        ResealedUnique(objects, keys, SecretObject, id, document, revision + 1);
        objects := Resealed(objects, keys, SecretObject, id, document, revision + 1);
      }
    }

    /** INSERT the new version as pending, retire the active one, activate the new one. */
    method AddVersion(key: VersionKey, row: VersionRow) returns (ok: bool)
      requires Valid() && row.state == PendingVersion
      modifies this`versions
      ensures Valid()
      ensures ok <==> key !in old(versions) && !VersionIdUsed(old(versions), row.versionId) && key.secret in objects
      ensures versions ==
              if ok then EndActive(old(versions), key.secret, RetiredVersion)[key := row.(state := ActiveVersion)]
                          else old(versions)
    {
      ghost var before := versions;
      ok := InsertVersion(key, row);
      if ok {
        versions := EndActive(versions, key.secret, RetiredVersion);
        versions := Activated(versions, row.versionId);
        PendingThenActive(before, key.secret, key, row);
        EndActiveUnique(before, key.secret, RetiredVersion);
        AddedUnique(EndActive(before, key.secret, RetiredVersion), key, row.(state := ActiveVersion));
      }
    }

    /** Fills in what the event lacks, links it to the row with the greatest stamp, and inserts it. */
    method AppendAudit(key: Key, event: AuditEvent, draws: Draws) returns (ok: bool)
      modifies this`audit
      ensures var appended := Audit.Append(old(audit), key, Filled(event, draws));
              (ok <==> appended.Some?) && audit == if ok then appended.value else old(audit)
      ensures ok ==>
                |audit| == |old(audit)| + 1 &&
                Audit.Decode(audit[|old(audit)|].event) ==
                Some(AuditEvent(if event.id == "" then draws.eventId else event.id,
                                if event.timestamp == ZERO_TIME then draws.loggedAt else event.timestamp,
                                event.actor, event.operation, event.objectID, event.outcome, event.detail))
    {
      var filled := event;
      if filled.id == "" {
        filled := filled.(id := draws.eventId);
      }
      if filled.timestamp == ZERO_TIME {
        filled := filled.(timestamp := draws.loggedAt);
      }
      var encoded := Audit.Encode(filled);
      var previous := Audit.LatestSignature(audit);
      var signature := Mac(key, previous + encoded);
      for i := 0 to |audit|
        invariant forall k :: 0 <= k < i ==> audit[k].id != filled.id
      {
        if audit[i].id == filled.id {
          return false;
        }
      }
      audit := audit + [Audit.Row(filled.id, encoded, previous, signature, Format(filled.timestamp))];
      return true;
    }

    method Rollback(t: Tables)
      modifies this`objects, this`versions, this`audit
      ensures State() == t
    {
      objects, versions, audit := t.objects, t.versions, t.audit;
    }

    // ----- Operations -----

    method CreateSecret(meta: SecretMetadata, value: string, draws: Draws) returns (answer: Outcome<SecretMetadata>)
      requires Valid()
      modifies this`objects, this`versions, this`audit
      ensures Valid() && (answer, State()) == Creation(old(State()), keys, meta, value, draws)
      ensures answer.Ok? ==>
                answer.value ==
                SecretMetadata(if meta.id == "" then draws.objectId else meta.id, meta.project, meta.environment,
                               meta.name, meta.profile, meta.strengthBits, 1, Active, draws.now, draws.now)
    {
      if keys.None? {
        return Err(Locked);
      }
      var keys, before := this.keys.value, Tables(objects, versions, audit);
      var created := meta.(id := if meta.id == "" then draws.objectId else meta.id, version := 1, state := Active,
                           createdAt := draws.now, updatedAt := draws.now);
      var token := ComputeLookupToken(keys.lookup, ["secret", meta.project, meta.environment, meta.name]);
      var row := ObjectRow(SecretObject, token,
                           SealObject(keys, SecretObject, created.id, SecretDocument(created), 1), 1);
      var ok := InsertObject(created.id, row);
      if !ok {
        return Err(AlreadyExists);
      }
      ok := InsertVersion(VersionKey(created.id, 1),
                          VersionRow(draws.versionId, ActiveVersion, SealValue(keys, created.id, value, 1)));
      if !ok {
        Rollback(before);
        return Err(ConstraintFailed);
      }
      ok := AppendAudit(keys.audit, AuditEvent("", ZERO_TIME, "broker", "secret.create", created.id, "success", ""),
                        draws);
      if !ok {
        Rollback(before);
        return Err(ConstraintFailed);
      }
      return Ok(created);
    }

    method RotateSecret(name: FullName, profile: string, strength: int, value: string, draws: Draws)
      returns (answer: Outcome<SecretMetadata>)
      requires Valid()
      modifies this`objects, this`versions, this`audit
      ensures Valid() && (answer, State()) == Rotation(old(State()), keys, name, profile, strength, value, draws)
      ensures answer.Ok? ==>
                && FindSecret(old(State()), keys.value, name).Ok?
                && var read := FindSecret(old(State()), keys.value, name).value.0;
                   answer.value == SecretMetadata(read.id, read.project, read.environment, read.name, profile, strength,
                                                  read.version + 1, Active, read.createdAt, draws.now)
    {
      if keys.None? {
        return Err(Locked);
      }
      var keys, before := this.keys.value, Tables(objects, versions, audit);
      var found := FindSecretMetadata(keys, name);
      if found.Err? {
        return Err(found.error);
      }
      var (read, revision) := found.value;
      var rotated := read.(profile := profile, strengthBits := strength, version := read.version + 1, state := Active,
                           updatedAt := draws.now);
      var row := VersionRow(draws.versionId, PendingVersion, SealValue(keys, read.id, value, rotated.version));
      var ok := AddVersion(VersionKey(read.id, rotated.version), row);
      if !ok {
        return Err(ConstraintFailed);
      }
      ok := SwapMetadata(keys, read.id, SecretDocument(rotated), revision);
      if !ok {
        Rollback(before);
        return Err(ChangedConcurrently);
      }
      ok := AppendAudit(keys.audit, AuditEvent("", ZERO_TIME, "broker", "secret.rotate", read.id, "success", ""),
                        draws);
      if !ok {
        Rollback(before);
        return Err(ConstraintFailed);
      }
      return Ok(rotated);
    }

    method RevokeSecret(name: FullName, draws: Draws) returns (answer: Outcome<SecretMetadata>)
      requires Valid()
      modifies this`objects, this`versions, this`audit
      ensures Valid() && (answer, State()) == Revocation(old(State()), keys, name, draws)
      ensures answer.Ok? ==>
                && FindSecret(old(State()), keys.value, name).Ok?
                && var read := FindSecret(old(State()), keys.value, name).value.0;
                   answer.value == SecretMetadata(read.id, read.project, read.environment, read.name, read.profile,
                                                  read.strengthBits, read.version, Revoked, read.createdAt, draws.now)
    {
      if keys.None? {
        return Err(Locked);
      }
      var keys, before := this.keys.value, Tables(objects, versions, audit);
      var found := FindSecretMetadata(keys, name);
      if found.Err? {
        return Err(found.error);
      }
      var (read, revision) := found.value;
      var revoked := read.(state := Revoked, updatedAt := draws.now);
      EndActiveUnique(versions, read.id, RevokedVersion);
      ResealedUnique(objects, keys, SecretObject, read.id, SecretDocument(revoked), revision + 1);
      versions := EndActive(versions, read.id, RevokedVersion);
      objects := Resealed(objects, keys, SecretObject, read.id, SecretDocument(revoked), revision + 1);
      var ok := AppendAudit(keys.audit, AuditEvent("", ZERO_TIME, "broker", "secret.revoke", read.id, "success", ""),
                            draws);
      if !ok {
        Rollback(before);
        return Err(ConstraintFailed);
      }
      return Ok(revoked);
    }

    method PutAction(action: Action, draws: Draws) returns (answer: Outcome<Action>)
      requires Valid()
      modifies this`objects, this`audit
      ensures Valid() && (answer, State()) == Configuration(old(State()), keys, action, draws)
      ensures answer.Ok? ==>
                answer.value == Action(answer.value.id, action.project, action.environment, action.name,
                                       action.executable, action.arguments, action.directory, action.secrets,
                                       action.outputPolicy, answer.value.createdAt, draws.now)
    {
      if keys.None? {
        return Err(Locked);
      }
      if action.project == "" || action.environment == "" || action.name == "" || action.executable == "" {
        return Err(InvalidRequest);
      }
      var keys, before := this.keys.value, Tables(objects, versions, audit);
      var token := ComputeLookupToken(keys.lookup, ["action", action.project, action.environment, action.name]);
      var existing := FindToken(ActionObject, token);
      var revision := 0;
      var put := action.(updatedAt := draws.now);
      if existing.None? {
        put := put.(id := draws.objectId, createdAt := draws.now);
      } else {
        revision := objects[existing.value].revision;
        var current := GetActionByID(keys, existing.value, revision);
        if current.Err? {
          return Err(current.error);
        }
        put := put.(id := existing.value, createdAt := current.value.createdAt);
      }
      assert Replacement(before, keys, action, draws) == Ok((put, revision));
      if revision == 0 {
        var ok := InsertObject(put.id,
                               ObjectRow(ActionObject, token,
                                         SealObject(keys, ActionObject, put.id, ActionDocument(put), 1), 1));
        if !ok {
          return Err(ConstraintFailed);
        }
      } else {
        ResealedUnique(objects, keys, ActionObject, put.id, ActionDocument(put), revision + 1);
        objects := Resealed(objects, keys, ActionObject, put.id, ActionDocument(put), revision + 1);
      }
      var ok := AppendAudit(keys.audit, AuditEvent("", ZERO_TIME, "user", "action.configure", put.id, "success", ""),
                            draws);
      if !ok {
        objects, audit := before.objects, before.audit;
        return Err(ConstraintFailed);
      }
      return Ok(put);
    }

    method GetAction(name: FullName) returns (answer: Outcome<Action>)
      requires Valid()
      ensures answer == ActionNamed(State(), keys, name)
    {
      if keys.None? {
        return Err(Locked);
      }
      var token := ComputeLookupToken(keys.value.lookup, ["action", name.project, name.environment, name.name]);
      var id := FindToken(ActionObject, token);
      if id.None? {
        return Err(NotFound);
      }
      answer := GetActionByID(keys.value, id.value, objects[id.value].revision);
    }

    method RecordAudit(event: AuditEvent, draws: Draws) returns (answer: Outcome<()>)
      modifies this`audit
      ensures (answer, State()) == Recording(old(State()), keys, event, draws)
      ensures answer.Ok? ==>
                |audit| == |old(audit)| + 1 &&
                Audit.Decode(audit[|old(audit)|].event) ==
                Some(AuditEvent(if event.id == "" then draws.eventId else event.id,
                                if event.timestamp == ZERO_TIME then draws.loggedAt else event.timestamp,
                                event.actor, event.operation, event.objectID, event.outcome, event.detail))
    {
      if keys.None? {
        return Err(Locked);
      }
      var ok := AppendAudit(keys.value.audit, event, draws);
      return if ok then Ok(()) else Err(ConstraintFailed);
    }

    method ResolveSecrets(scope: Scope, mappings: map<string, string>) returns (answer: Outcome<map<string, string>>)
      requires Valid()
      ensures keys.None? ==> answer == Err(Locked)
      ensures keys.Some? ==> ResolvesAll(State(), keys.value, scope, mappings, answer)
    {
      if keys.None? {
        return Err(Locked);
      }
      ghost var t := State();
      var result: map<string, string> := map[];
      var rest := mappings.Keys;
      while rest != {}
        invariant rest <= mappings.Keys && result.Keys == mappings.Keys - rest
        invariant ResolvedSoFar(t, keys.value, scope, mappings, result)
        decreases |rest|
      {
        var env :| env in rest;
        var value := ResolveOne(keys.value, scope, mappings[env]);
        if value.Err? {
          OneUnresolved(t, keys.value, scope, mappings, env, value.error);
          return Err(value.error);
        }
        ResolvedOneMore(t, keys.value, scope, mappings, result, env, value.value);
        result := result[env := value.value];
        rest := rest - {env};
      }
      ResolvedToTheEnd(t, keys.value, scope, mappings, result);
      return Ok(result);
    }

    method ResolveOne(keys: KeySet, scope: Scope, name: string) returns (value: Outcome<string>)
      requires Valid()
      ensures ResolvesTo(State(), keys, scope, name, value)
    {
      var token := ComputeLookupToken(keys.lookup, ["secret", scope.project, scope.environment, name]);
      var id := FindToken(SecretObject, token);
      if id.None? {
        return Err(NotFound);
      }
      var number := CurrentVersion(id.value);
      if number.None? {
        return Err(NotFound);
      }
      assert IsCurrent(State(), id.value, number.value);
      var key := VersionKey(id.value, number.value);
      var plaintext := Open(keys.dek, versions[key].box, SecretAAD(id.value, number.value));
      return if plaintext.None? then Err(AuthenticationFailed) else Ok(plaintext.value);
    }

    method ListSecrets(scope: Scope) returns (answer: Outcome<seq<SecretMetadata>>)
      ensures keys.None? ==> answer == Err(Locked)
      ensures keys.Some? ==> (answer.Ok? <==> forall id :: Opens(State(), keys.value, id))
      ensures keys.Some? && answer.Err? ==> answer.error == AuthenticationFailed
      ensures keys.Some? && answer.Ok? ==> IsListing(State(), keys.value, scope, answer.value)
      ensures answer.Ok? ==>
                forall i, j :: 0 <= i < j < |answer.value| ==> !Before(answer.value[j].name, answer.value[i].name)
    {
      if keys.None? {
        return Err(Locked);
      }
      var result: seq<SecretMetadata> := [];
      ghost var ids: seq<string> := [];
      var rest := objects.Keys;
      while rest != {}
        invariant rest <= objects.Keys
        invariant forall id :: id in objects && id !in rest ==> Opens(State(), keys.value, id)
        invariant ListedFrom(State(), keys.value, scope, ids, result)
        invariant forall i :: 0 <= i < |ids| ==> ids[i] !in rest
        invariant forall id, meta :: Lists(State(), keys.value, scope, id, meta) && id !in rest ==> id in ids
        decreases |rest|
      {
        var id :| id in rest;
        if objects[id].kind == SecretObject {
          var document := Open(keys.value.metadata, objects[id].box, ObjectAAD("secret", id, objects[id].revision));
          if document.None? || !document.value.SecretDocument? {
            assert !Opens(State(), keys.value, id);
            return Err(AuthenticationFailed);
          }
          var meta := document.value.secret;
          if meta.project == scope.project && meta.environment == scope.environment {
            result, ids := result + [meta], ids + [id];
          }
        }
        rest := rest - {id};
      }
      result, ids := SortByName(State(), keys.value, scope, ids, result);
      return Ok(result);
    }

    /** Insertion into name order, which keeps each entry beside its row id. */
    method SortByName(ghost t: Tables, ghost keys: KeySet, ghost scope: Scope, ghost ids: seq<string>,
                      listing: seq<SecretMetadata>)
      returns (sorted: seq<SecretMetadata>, ghost order: seq<string>)
      requires ListedFrom(t, keys, scope, ids, listing)
      ensures SortedByName(sorted) && ListedFrom(t, keys, scope, order, sorted)
      ensures forall id :: id in ids <==> id in order
    {
      sorted, order := [], [];
      for i := 0 to |listing|
        invariant |sorted| == i && SortedByName(sorted) && ListedFrom(t, keys, scope, order, sorted)
        invariant forall id :: id in ids[..i] <==> id in order
      {
        var at := 0;
        while at < i && !Before(listing[i].name, sorted[at].name)
          invariant at <= i && forall j :: 0 <= j < at ==> !Before(listing[i].name, sorted[j].name)
        {
          at := at + 1;
        }
        InsertKeepsOrder(sorted, at, listing[i]);
        InsertKeepsListed(t, keys, scope, order, sorted, at, ids[i], listing[i]);
        sorted, order := InsertAt(sorted, at, listing[i]), InsertAt(order, at, ids[i]);
      }
    }

    method ListAudit(limit: int) returns (answer: Outcome<Audit.Listing>)
      ensures keys.None? ==> answer == Err(Locked)
      ensures keys.Some? ==>
                && answer.Ok?
                && (answer.value.Events? <==> Audit.Chained(Audit.ByStamp(audit), keys.value.audit))
                && (answer.value.Rejected? ==>
                    exists i :: Audit.FirstFault(Audit.ByStamp(audit), keys.value.audit, i, answer.value.error))
                && (answer.value.Events? ==>
                      Audit.IsNewest(answer.value.events, Audit.Decoded(Audit.ByStamp(audit)), Audit.Limit(limit)))
    {
      if keys.None? {
        return Err(Locked);
      }
      var listing := Audit.ListAudit(audit, keys.value.audit, limit);
      return Ok(listing);
    }
  }

  /** Seals a new data key under the password and opens an empty store with it, or fails without
      one.  The identifier, the salt and the key are drawn at random. */
  method Initialize(vaultID: string, password: string, params: KDFParams, salt: string, dek: Key)
    returns (answer: Outcome<Store>)
    ensures var wrapped := WrapDEK(vaultID, password, salt, params, dek);
            && (answer.Ok? <==>
                && 1 <= |password| <= 4096 && |salt| >= 16
                && params.memoryKiB >= 19 * 1024 && params.iterations >= 2 && params.parallelism >= 1)
            && (answer.Err? ==> answer == Err(InvalidRequest))
            && (answer.Ok? ==>
                  && wrapped.Ok? && fresh(answer.value) && answer.value.Valid()
                  && answer.value.State() == EMPTY && answer.value.keys == Some(KeysOf(dek))
                  && answer.value.vaultID == vaultID && answer.value.wrapper == wrapped.value)
  {
    if !ValidateKDFParams(params) {
      return Err(InvalidRequest);
    }
    var kek := DeriveKEK(password, salt, params);
    if kek.None? {
      return Err(InvalidRequest);
    }
    var box := Seal(ExpandKey(kek.value, "password-wrapper"), dek, WrapperAAD(vaultID));
    var store := new Store(vaultID, Wrapper(params, salt, box), dek);
    return Ok(store);
  }
}
