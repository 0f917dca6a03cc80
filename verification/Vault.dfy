/** The vault's keys and tables, and what each statement and transaction does to them. */
module Vault {
  import opened Timestamp
  import opened Model
  import opened SecureCrypto
  import opened Framing
  import opened PlainVault
  import Audit

  datatype Error =
    | Locked
    | AlreadyExists
    | NotFound
    | InvalidPassword
    | InvalidRequest
    | AuthenticationFailed
    | ConstraintFailed
    | ChangedConcurrently
    | RandomSourceFailed

  datatype Outcome<+T> = Ok(value: T) | Err(error: Error)

  // ----- Keys -----

  datatype KeySet = KeySet(dek: Key, metadata: Key, lookup: Key, audit: Key)

  function KeysOf(dek: Key): KeySet {
    KeySet(dek, ExpandKey(dek, "metadata"), ExpandKey(dek, "lookup"), ExpandKey(dek, "audit"))
  }

  datatype Wrapper = Wrapper(params: KDFParams, salt: string, box: Box<Key>)

  /** Seals the data key under the master password. */
  function WrapDEK(vaultID: string, password: string, salt: string, params: KDFParams, dek: Key): Outcome<Wrapper> {
    var kek := DeriveKEK(password, salt, params);
    if kek.None? then Err(InvalidRequest)
    else Ok(Wrapper(params, salt, Seal(ExpandKey(kek.value, "password-wrapper"), dek, WrapperAAD(vaultID))))
  }

  function UnwrapDEK(vaultID: string, wrapper: Wrapper, password: string): Outcome<Key> {
    var kek := DeriveKEK(password, wrapper.salt, wrapper.params);
    if kek.None? then Err(InvalidRequest)
    else
      var dek := Open(ExpandKey(kek.value, "password-wrapper"), wrapper.box, WrapperAAD(vaultID));
      if dek.None? then Err(InvalidPassword) else Ok(dek.value)
  }

  /** A wrapper opens exactly under the password it was made with and in its own vault, and gives
      back the key; a password that none could have is an invalid request, any other a wrong one. */
  lemma WrapperOpensExactly(vaultID: string, password: string, salt: string, params: KDFParams, dek: Key,
                            otherID: string, attempt: string)
    requires WrapDEK(vaultID, password, salt, params, dek).Ok?
    ensures UnwrapDEK(otherID, WrapDEK(vaultID, password, salt, params, dek).value, attempt) ==
            if attempt == "" || |attempt| > 4096 then Err(InvalidRequest)
            else if attempt == password && otherID == vaultID then Ok(dek)
            else Err(InvalidPassword)
  {
    if otherID != vaultID {
      WrapperAADInjective(vaultID, otherID);
    }
  }

  /** The parameters the broker uses by default are accepted, with any password and salt that are. */
  lemma DefaultsAreAccepted(vaultID: string, password: string, salt: string, dek: Key)
    requires 1 <= |password| <= 4096 && |salt| == 16
    ensures WrapDEK(vaultID, password, salt, KDFParams(64 * 1024, 3, 1), dek).Ok?
  {
  }

  /** The four keys of a vault differ from each other, and from every key of another vault that
      has another data key. */
  lemma KeysAreSeparate(dek: Key, other: Key)
    ensures var keys := KeysOf(dek);
            keys.dek == dek && keys.metadata != keys.lookup && keys.lookup != keys.audit && keys.audit != keys.metadata
    ensures dek != other ==>
              var keys, others := KeysOf(dek), KeysOf(other);
              {keys.metadata, keys.lookup, keys.audit} !! {others.metadata, others.lookup, others.audit}
  {
    var purposes := ["vcsm:v2:metadata", "vcsm:v2:lookup", "vcsm:v2:audit"];
    assert purposes[0][8] == 'm' && purposes[1][8] == 'l' && purposes[2][8] == 'a';
    assert ExpandKey(dek, "metadata") == ExpandedKey(dek, purposes[0]);
    assert ExpandKey(dek, "lookup") == ExpandedKey(dek, purposes[1]);
    assert ExpandKey(dek, "audit") == ExpandedKey(dek, purposes[2]);
  }

  // ----- Tables -----

  datatype Kind = SecretObject | ActionObject

  function KindText(kind: Kind): string {
    if kind.SecretObject? then "secret" else "action"
  }

  type Token = seq<Octet>

  function TokenOf(lookup: Key, kind: Kind, name: FullName): Token {
    LookupToken(lookup, [KindText(kind), name.project, name.environment, name.name])
  }

  /** The bytes a token authenticates: the kind and the three names, each behind a zero byte. */
  lemma TokenLayout(lookup: Key, name: FullName)
    ensures TokenOf(lookup, SecretObject, name) ==
            Mac(lookup, Text("\0secret" + ("\0" + name.project) + ("\0" + name.environment) + ("\0" + name.name)))
    ensures TokenOf(lookup, ActionObject, name) ==
            Mac(lookup, Text("\0action" + ("\0" + name.project) + ("\0" + name.environment) + ("\0" + name.name)))
  {
    FrameFour("secret", name.project, name.environment, name.name);
    FrameFour("action", name.project, name.environment, name.name);
    assert "\0" + "secret" == "\0secret" && "\0" + "action" == "\0action";
  }

  lemma FrameFour(kind: string, project: string, environment: string, name: string)
    ensures Frame([kind, project, environment, name]) ==
            ("\0" + kind) + ("\0" + project) + ("\0" + environment) + ("\0" + name)
  {
    var parts := [kind, project, environment, name];
    assert parts[..3][..2] == parts[..2] && parts[..2][..1] == parts[..1] && parts[..1][..0] == [];
    assert Frame(parts[..1]) == "\0" + kind;
    assert Frame(parts[..2]) == Frame(parts[..1]) + ("\0" + project);
    assert Frame(parts[..3]) == Frame(parts[..2]) + ("\0" + environment);
  }

  /** A secret and an action never share a token, whatever their names. */
  lemma TokensOfKindsDiffer(lookup: Key, name: FullName, other: FullName)
    ensures TokenOf(lookup, SecretObject, name) != TokenOf(lookup, ActionObject, other)
  {
    TokenLayout(lookup, name);
    TokenLayout(lookup, other);
    var s := "\0secret" + ("\0" + name.project) + ("\0" + name.environment) + ("\0" + name.name);
    var t := "\0action" + ("\0" + other.project) + ("\0" + other.environment) + ("\0" + other.name);
    assert s[1] == 's' && t[1] == 'a';
    if TokenOf(lookup, SecretObject, name) == TokenOf(lookup, ActionObject, other) {
      MacInjective(lookup, Text(s), lookup, Text(t));
      TextInjective(s, t);
    }
  }

  datatype ObjectRow = ObjectRow(kind: Kind, token: Token, box: Box<Document>, revision: nat)

  datatype VersionState = PendingVersion | ActiveVersion | RetiredVersion | RevokedVersion

  datatype VersionKey = VersionKey(secret: string, number: nat)

  datatype VersionRow = VersionRow(versionId: string, state: VersionState, box: Box<string>)

  /** The map keys carry the primary key of objects and the UNIQUE pair of versions. */
  datatype Tables = Tables(
    objects: map<string, ObjectRow>, versions: map<VersionKey, VersionRow>, audit: seq<Audit.Row>)

  const EMPTY: Tables := Tables(map[], map[], [])

  ghost predicate Matches(t: Tables, kind: Kind, token: Token, id: string) {
    id in t.objects && t.objects[id].kind == kind && t.objects[id].token == token
  }

  ghost predicate TokenUsed(t: Tables, kind: Kind, token: Token) {
    exists id :: Matches(t, kind, token, id)
  }

  /** UNIQUE(object_type, lookup_token). */
  ghost predicate UniqueTokens(objects: map<string, ObjectRow>) {
    forall id, id' ::
      id in objects && id' in objects &&
      objects[id].kind == objects[id'].kind && objects[id].token == objects[id'].token
      ==> id == id'
  }

  ghost predicate VersionIdUsed(versions: map<VersionKey, VersionRow>, versionId: string) {
    exists k :: k in versions && versions[k].versionId == versionId
  }

  /** The row with a given type and token, if any. */
  ghost function Lookup(t: Tables, kind: Kind, token: Token): (found: Option<string>)
    ensures found.Some? <==> TokenUsed(t, kind, token)
    ensures found.Some? ==> Matches(t, kind, token, found.value)
  {
    if TokenUsed(t, kind, token) then
      var id :| Matches(t, kind, token, id);
      Some(id)
    else None
  }

  function SealObject(keys: KeySet, kind: Kind, id: string, document: Document, revision: nat): Box<Document> {
    Seal(keys.metadata, document, ObjectAAD(KindText(kind), id, revision))
  }

  function SealValue(keys: KeySet, id: string, value: string, version: nat): Box<string> {
    Seal(keys.dek, value, SecretAAD(id, version))
  }

  /** UPDATE secret_versions SET state WHERE secret_id = ? AND state = 'active'. */
  function EndActive(versions: map<VersionKey, VersionRow>, secret: string, ended: VersionState)
    : map<VersionKey, VersionRow>
  {
    map k | k in versions ::
      if k.secret == secret && versions[k].state == ActiveVersion then versions[k].(state := ended) else versions[k]
  }

  /** UPDATE encrypted_objects SET metadata, revision WHERE object_id = ?. */
  function Resealed(objects: map<string, ObjectRow>, keys: KeySet, kind: Kind, id: string, document: Document,
                    revision: nat)
    : map<string, ObjectRow>
  {
    if id !in objects then objects
    else objects[id := objects[id].(box := SealObject(keys, kind, id, document, revision), revision := revision)]
  }

  lemma ResealedUnique(objects: map<string, ObjectRow>, keys: KeySet, kind: Kind, id: string, document: Document,
                       revision: nat)
    requires UniqueTokens(objects)
    ensures UniqueTokens(Resealed(objects, keys, kind, id, document, revision))
  {
    var after := Resealed(objects, keys, kind, id, document, revision);
    assert forall i :: i in after ==>
      i in objects && after[i].kind == objects[i].kind && after[i].token == objects[i].token;
  }

  lemma InsertedUnique(t: Tables, id: string, row: ObjectRow)
    requires UniqueTokens(t.objects) && !TokenUsed(t, row.kind, row.token)
    ensures UniqueTokens(t.objects[id := row])
  {
    forall i | i in t.objects && t.objects[i].kind == row.kind ensures t.objects[i].token != row.token {
      assert t.objects[i].token == row.token ==> Matches(t, row.kind, row.token, i);
    }
  }

  // ----- Reads -----

  ghost function FindSecret(t: Tables, keys: KeySet, name: FullName): Outcome<(SecretMetadata, nat)> {
    var id := Lookup(t, SecretObject, TokenOf(keys.lookup, SecretObject, name));
    if id.None? then Err(NotFound)
    else
      var row := t.objects[id.value];
      var document := Open(keys.metadata, row.box, ObjectAAD("secret", id.value, row.revision));
      if document.None? || !document.value.SecretDocument? then Err(AuthenticationFailed)
      else Ok((document.value.secret, row.revision))
  }

  ghost predicate IsCurrent(t: Tables, id: string, number: nat) {
    && VersionKey(id, number) in t.versions
    && t.versions[VersionKey(id, number)].state == ActiveVersion
    && forall m: nat ::
         VersionKey(id, m) in t.versions && t.versions[VersionKey(id, m)].state == ActiveVersion ==> m <= number
  }

  /** The value of a secret's active version, given its row. */
  ghost function ResolveRow(t: Tables, keys: KeySet, id: string): Outcome<string> {
    if !(exists number :: IsCurrent(t, id, number)) then Err(NotFound)
    else
      var number :| IsCurrent(t, id, number);
      var value := Open(keys.dek, t.versions[VersionKey(id, number)].box, SecretAAD(id, number));
      if value.None? then Err(AuthenticationFailed) else Ok(value.value)
  }

  /** The row with the name's token, and its value. */
  ghost function Resolve(t: Tables, keys: KeySet, name: FullName): Outcome<string> {
    var id := Lookup(t, SecretObject, TokenOf(keys.lookup, SecretObject, name));
    if id.None? then Err(NotFound) else ResolveRow(t, keys, id.value)
  }

  // ----- Commits -----

  /** Identifiers and times drawn while an operation runs; the audit row reads the clock again. */
  datatype Draws = Draws(objectId: string, versionId: string, eventId: string, now: Instant, loggedAt: Instant)

  function AuditOf(actor: string, operation: string, object_: string, draws: Draws): AuditEvent {
    AuditEvent(draws.eventId, draws.loggedAt, actor, operation, object_, "success", "")
  }

  /** An event still without an id or a time gets them when it is appended. */
  function Filled(event: AuditEvent, draws: Draws): AuditEvent {
    var named := if event.id == "" then event.(id := draws.eventId) else event;
    if event.timestamp == ZERO_TIME then named.(timestamp := draws.loggedAt) else named
  }

  ghost function WithAudit(t: Tables, keys: KeySet, event: AuditEvent): Outcome<Tables> {
    var audit := Audit.Append(t.audit, keys.audit, event);
    if audit.None? then Err(ConstraintFailed) else Ok(t.(audit := audit.value))
  }

  /** A transaction commits its changes together with its audit row, or nothing. */
  ghost function Audited(staged: Outcome<Tables>, keys: KeySet, event: AuditEvent): Outcome<Tables> {
    if staged.Err? then staged else WithAudit(staged.value, keys, event)
  }

  /** A new secret's metadata, as stored. */
  function NewSecret(meta: SecretMetadata, draws: Draws): SecretMetadata {
    meta.(id := if meta.id == "" then draws.objectId else meta.id, version := 1, state := Active,
          createdAt := draws.now, updatedAt := draws.now)
  }

  ghost function StageCreate(t: Tables, keys: KeySet, meta: SecretMetadata, value: string,
                             draws: Draws): Outcome<Tables> {
    var token := TokenOf(keys.lookup, SecretObject, NameOf(meta));
    var first := VersionKey(meta.id, 1);
    if meta.id in t.objects || TokenUsed(t, SecretObject, token) then Err(AlreadyExists)
    else if first in t.versions || VersionIdUsed(t.versions, draws.versionId) then Err(ConstraintFailed)
    else
      Ok(Tables(
           t.objects[meta.id := ObjectRow(SecretObject, token,
                                          SealObject(keys, SecretObject, meta.id, SecretDocument(meta), 1), 1)],
           t.versions[first := VersionRow(draws.versionId, ActiveVersion, SealValue(keys, meta.id, value, 1))],
           t.audit))
  }

  ghost function CommitCreate(t: Tables, keys: KeySet, meta: SecretMetadata, value: string,
                              draws: Draws): Outcome<Tables> {
    Audited(StageCreate(t, keys, meta, value, draws), keys, AuditOf("broker", "secret.create", meta.id, draws))
  }

  /** The metadata a rotation writes over the metadata it read. */
  function RotatedSecret(meta: SecretMetadata, profile: string, strength: int, now: Instant): SecretMetadata {
    meta.(profile := profile, strengthBits := strength, version := meta.version + 1, state := Active, updatedAt := now)
  }

  /** Adds the next version as the only active one, if the metadata read is still current. */
  ghost function StageRotate(t: Tables, keys: KeySet, read: SecretMetadata, revision: nat, rotated: SecretMetadata,
                             value: string, draws: Draws): Outcome<Tables>
  {
    var id, next := read.id, VersionKey(read.id, read.version + 1);
    if next in t.versions || VersionIdUsed(t.versions, draws.versionId) || id !in t.objects then Err(ConstraintFailed)
    else if t.objects[id].revision != revision then Err(ChangedConcurrently)
    else
      Ok(Tables(
           Resealed(t.objects, keys, SecretObject, id, SecretDocument(rotated), revision + 1),
           EndActive(t.versions, id, RetiredVersion)[
             next := VersionRow(draws.versionId, ActiveVersion, SealValue(keys, id, value, read.version + 1))],
           t.audit))
  }

  ghost function CommitRotate(t: Tables, keys: KeySet, read: SecretMetadata, revision: nat, rotated: SecretMetadata,
                              value: string, draws: Draws): Outcome<Tables>
  {
    Audited(StageRotate(t, keys, read, revision, rotated, value, draws), keys,
            AuditOf("broker", "secret.rotate", read.id, draws))
  }

  function RevokedMetadata(meta: SecretMetadata, now: Instant): SecretMetadata {
    meta.(state := Revoked, updatedAt := now)
  }

  /** Ends whatever is active and writes the metadata, without comparing revisions. */
  function StageRevoke(t: Tables, keys: KeySet, revoked: SecretMetadata, revision: nat): Tables {
    Tables(Resealed(t.objects, keys, SecretObject, revoked.id, SecretDocument(revoked), revision + 1),
           EndActive(t.versions, revoked.id, RevokedVersion), t.audit)
  }

  ghost function CommitRevoke(t: Tables, keys: KeySet, revoked: SecretMetadata, revision: nat,
                              draws: Draws): Outcome<Tables> {
    Audited(Ok(StageRevoke(t, keys, revoked, revision)), keys, AuditOf("broker", "secret.revoke", revoked.id, draws))
  }

  /** Inserts a new action (revision 0) or overwrites the one found, without comparing revisions. */
  ghost function StageAction(t: Tables, keys: KeySet, action: Action, revision: nat): Outcome<Tables> {
    var token := TokenOf(keys.lookup, ActionObject, ActionNameOf(action));
    if revision > 0
    then Ok(t.(objects := Resealed(t.objects, keys, ActionObject, action.id, ActionDocument(action), revision + 1)))
    else if action.id in t.objects || TokenUsed(t, ActionObject, token) then Err(ConstraintFailed)
    else
      var row := ObjectRow(ActionObject, token, SealObject(keys, ActionObject, action.id, ActionDocument(action), 1),
                           1);
      Ok(t.(objects := t.objects[action.id := row]))
  }

  ghost function CommitAction(t: Tables, keys: KeySet, action: Action, revision: nat, draws: Draws): Outcome<Tables> {
    Audited(StageAction(t, keys, action, revision), keys, AuditOf("user", "action.configure", action.id, draws))
  }

  ghost function OpenAction(t: Tables, keys: KeySet, id: string, revision: nat): Outcome<Action> {
    if id !in t.objects then Err(NotFound)
    else
      var document := Open(keys.metadata, t.objects[id].box, ObjectAAD("action", id, revision));
      if document.None? || !document.value.ActionDocument? then Err(AuthenticationFailed)
      else Ok(document.value.action)
  }
}
