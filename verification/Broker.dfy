/** The broker in front of one store: what a handled request does is what the steps of the
    concurrent model do when nothing comes in between; and what a listing shows. */
module Broker {
  import opened Timestamp
  import opened Model
  import opened SecureCrypto
  import opened PlainVault
  import opened Vault
  import opened Machine
  import opened Invariant
  import opened Interleavings
  import opened Serial
  import Store
  import Generator

  /** A vault with nothing under way and nothing answered yet. */
  function Idle(vaultID: string, wrapper: Wrapper, keys: Option<KeySet>, t: Tables): System {
    System(vaultID, wrapper, keys, t, map[], [], [])
  }

  /** After an idle vault handled one request. */
  ghost predicate Handled(s: System, s': System, t: Tables, answer: Answer) {
    s'.keys == s.keys && s'.tables == t && s'.tasks == map[] && s'.answers == [answer]
  }

  function SecretAnswer(answer: Outcome<SecretMetadata>): Answer {
    if answer.Err? then Failed(answer.error) else SecretStored(answer.value)
  }

  function ActionAnswer(answer: Outcome<Action>): Answer {
    if answer.Err? then Failed(answer.error) else ActionStored(answer.value)
  }

  lemma FinishIdle(s: System, task: Task, outcome: Outcome<Tables>, commit: Commit, answer: Answer)
    requires s == Idle(s.vaultID, s.wrapper, s.keys, s.tables)
    ensures var s' := Finish(s.(tasks := map[0 := task]), 0, outcome, commit, answer);
            Handled(s, s', if outcome.Ok? then outcome.value else s.tables,
                    if outcome.Ok? then answer else Failed(outcome.error))
  {
    assert map[0 := task] - {0} == map[];
  }

  lemma CreationIsComplete(s: System, meta: SecretMetadata, value: string, draws: Draws)
    requires s == Idle(s.vaultID, s.wrapper, s.keys, s.tables) && SafeNames(NameOf(meta))
    ensures var done := Store.Creation(s.tables, s.keys, meta, value, draws);
            Handled(s, Complete(s, CreateSecret(meta, value), draws), done.1, SecretAnswer(done.0))
  {
    if s.keys.Some? {
      var task, created := Creating(s.keys.value, meta, value), NewSecret(meta, draws);
      FinishIdle(s, task, CommitCreate(s.tables, s.keys.value, created, value, draws),
                 CreateCommit(created, value, draws),
                 SecretStored(created));
      CompleteIsOneAdvance(s, CreateSecret(meta, value), draws, task);
    }
  }

  lemma RotationIsComplete(s: System, request: Request, draws: Draws)
    requires s == Idle(s.vaultID, s.wrapper, s.keys, s.tables) && request.RotateSecret? && SafeNames(request.name)
    ensures var done :=
            Store.Rotation(s.tables, s.keys, request.name, request.profile, request.strength, request.value, draws);
            Handled(s, Complete(s, request, draws), done.1, SecretAnswer(done.0))
  {
    if s.keys.Some? && FindSecret(s.tables, s.keys.value, request.name).Ok? {
      var (read, revision) := FindSecret(s.tables, s.keys.value, request.name).value;
      var task := Rotating(s.keys.value, read, revision, request.profile, request.strength, request.value);
      var rotated := RotatedSecret(read, request.profile, request.strength, draws.now);
      FinishIdle(s, task, CommitRotate(s.tables, s.keys.value, read, revision, rotated, request.value, draws),
                 RotateCommit(rotated, request.value, draws), SecretStored(rotated));
      CompleteIsOneAdvance(s, request, draws, task);
    }
  }

  lemma RevocationIsComplete(s: System, name: FullName, draws: Draws)
    requires s == Idle(s.vaultID, s.wrapper, s.keys, s.tables)
    ensures var done := Store.Revocation(s.tables, s.keys, name, draws);
            Handled(s, Complete(s, RevokeSecret(name), draws), done.1, SecretAnswer(done.0))
  {
    if s.keys.Some? && FindSecret(s.tables, s.keys.value, name).Ok? {
      var (read, revision) := FindSecret(s.tables, s.keys.value, name).value;
      var task, revoked := Revoking(s.keys.value, read, revision), RevokedMetadata(read, draws.now);
      FinishIdle(s, task, CommitRevoke(s.tables, s.keys.value, revoked, revision, draws), RevokeCommit(revoked, draws),
                 SecretStored(revoked));
      CompleteIsOneAdvance(s, RevokeSecret(name), draws, task);
    }
  }

  lemma WritingCompletes(s: System, keys: KeySet, action: Action, revision: nat, draws: Draws)
    requires s == Idle(s.vaultID, s.wrapper, s.keys, s.tables)
    ensures var done := Store.Ended(s.tables, CommitAction(s.tables, keys, action, revision, draws), action);
            Handled(s, AdvanceStep(s.(tasks := map[0 := WritingAction(keys, action, revision)]), 0, draws), done.1,
                    ActionAnswer(done.0))
  {
    FinishIdle(s, WritingAction(keys, action, revision), CommitAction(s.tables, keys, action, revision, draws),
               Commit(ActionPut(action), AuditOf("user", "action.configure", action.id, draws)), ActionStored(action));
  }

  /** Replacing an action takes its second read before it writes. */
  lemma ReplacingAdvances(s: System, keys: KeySet, action: Action, revision: nat, draws: Draws)
    requires s == Idle(s.vaultID, s.wrapper, s.keys, s.tables)
    ensures var s', current := AdvanceStep(s.(tasks := map[0 := ReplacingAction(keys, action, revision)]), 0, draws),
                               OpenAction(s.tables, keys, action.id, revision);
            if current.Err? then Handled(s, s', s.tables, Failed(current.error))
            else
              var dated := action.(createdAt := current.value.createdAt, updatedAt := draws.now);
              s' == s.(tasks := map[0 := WritingAction(keys, dated, revision)])
  {
    assert map[0 := ReplacingAction(keys, action, revision)] - {0} == map[];
  }

  lemma ConfigurationIsComplete(s: System, action: Action, draws: Draws)
    requires s == Idle(s.vaultID, s.wrapper, s.keys, s.tables) && Acceptable(PutAction(action))
    ensures var done := Store.Configuration(s.tables, s.keys, action, draws);
            Handled(s, Complete(s, PutAction(action), draws), done.1, ActionAnswer(done.0))
  {
    if s.keys.Some? {
      var keys := s.keys.value;
      var id := Lookup(s.tables, ActionObject, TokenOf(keys.lookup, ActionObject, ActionNameOf(action)));
      if id.None? {
        var put := action.(id := draws.objectId, createdAt := draws.now, updatedAt := draws.now);
        WritingCompletes(s, keys, put, 0, draws);
      } else {
        var revision := s.tables.objects[id.value].revision;
        ReplacingAdvances(s, keys, action.(id := id.value), revision, draws);
        var put := Store.Replacement(s.tables, keys, action, draws);
        if put.Ok? {
          WritingCompletes(s, keys, put.value.0, revision, draws);
        }
      }
    }
  }

  lemma ReadingIsComplete(s: System, name: FullName, draws: Draws)
    requires s == Idle(s.vaultID, s.wrapper, s.keys, s.tables)
    ensures var found := Store.ActionNamed(s.tables, s.keys, name);
            Handled(s, Complete(s, GetAction(name), draws), s.tables,
                    if found.Err? then Failed(found.error) else ActionFound(name, found.value))
  {
    if s.keys.Some? {
      var id := Lookup(s.tables, ActionObject, TokenOf(s.keys.value.lookup, ActionObject, name));
      if id.Some? {
        var task := ReadingAction(s.keys.value, name, id.value, s.tables.objects[id.value].revision);
        assert map[0 := task] - {0} == map[];
        CompleteIsOneAdvance(s, GetAction(name), draws, task);
      }
    }
  }

  lemma RecordingIsComplete(s: System, event: AuditEvent, draws: Draws)
    requires s == Idle(s.vaultID, s.wrapper, s.keys, s.tables)
    ensures var done := Store.Recording(s.tables, s.keys, event, draws);
            Handled(s, Complete(s, RecordAudit(event), draws), done.1,
                    if done.0.Err? then Failed(done.0.error) else EventLogged)
  {
    if s.keys.Some? {
      var task, filled := Logging(s.keys.value, event), Filled(event, draws);
      FinishIdle(s, task, WithAudit(s.tables, s.keys.value, filled), Commit(Logged, filled), EventLogged);
      CompleteIsOneAdvance(s, RecordAudit(event), draws, task);
    }
  }

  class Broker {
    const store: Store.Store

    constructor (store: Store.Store)
      ensures this.store == store
    {
      this.store := store;
    }

    ghost function Now(): System
      reads store
    {
      Idle(store.vaultID, store.wrapper, store.keys, store.State())
    }

    /** One request, handled with nothing in between, leaves the tables and gives the answer
        that the read step and the commit step of the model give. */
    method Handle(request: Request, draws: Draws) returns (answer: Answer)
      requires store.Valid()
      modifies store
      ensures store.Valid() && store.keys == old(store.keys)
      ensures Handled(old(Now()), Complete(old(Now()), request, draws), store.State(), answer)
    {
      RefusedRuns(Now(), request, draws);
      match request
      case CreateSecret(meta, value) =>
        if !(SafeName(meta.project) && SafeName(meta.environment) && SafeName(meta.name)) {
          return Failed(InvalidRequest);
        }
        CreationIsComplete(Now(), meta, value, draws);
        var created := store.CreateSecret(meta, value, draws);
        answer := SecretAnswer(created);
      case RotateSecret(name, profile, strength, value) =>
        if !(SafeName(name.project) && SafeName(name.environment) && SafeName(name.name)) {
          return Failed(InvalidRequest);
        }
        RotationIsComplete(Now(), request, draws);
        var rotated := store.RotateSecret(name, profile, strength, value, draws);
        answer := SecretAnswer(rotated);
      case RevokeSecret(name) =>
        RevocationIsComplete(Now(), name, draws);
        var revoked := store.RevokeSecret(name, draws);
        answer := SecretAnswer(revoked);
      case PutAction(action) =>
        if !(SafeName(action.project) && SafeName(action.environment) && SafeName(action.name)) ||
           action.executable == "" {
          return Failed(InvalidRequest);
        }
        ConfigurationIsComplete(Now(), action, draws);
        var put := store.PutAction(action, draws);
        answer := ActionAnswer(put);
      case GetAction(name) =>
        ReadingIsComplete(Now(), name, draws);
        var found := store.GetAction(name);
        answer := if found.Err? then Failed(found.error) else ActionFound(name, found.value);
      case RecordAudit(event) =>
        RecordingIsComplete(Now(), event, draws);
        var recorded := store.RecordAudit(event, draws);
        answer := if recorded.Err? then Failed(recorded.error) else EventLogged;
    }
  }

  // ----- Generating -----

  /** The request that stores a generated value, with the name and strength of its profile. */
  ghost predicate Asks(request: Request, rotate: bool, scope: Scope, name: string, value: string,
                       profile: Generator.Profile) {
    request ==
    if rotate
    then RotateSecret(FullName(scope.project, scope.environment, name), profile.name, profile.strengthBits, value)
    else CreateSecret(SecretMetadata("", scope.project, scope.environment, name, profile.name, profile.strengthBits, 0,
                                     Active, ZERO_TIME, ZERO_TIME), value)
  }

  /** What is asked of the vault: nothing for a bad name, an unknown profile or a random source that
      ran out; otherwise to store a value drawn from the random bytes. */
  ghost predicate Generates(rotate: bool, scope: Scope, name: string, profile: string,
                            batches: seq<seq<Generator.Byte>>, request: Option<Request>, error: Error) {
    if !SafeNames(FullName(scope.project, scope.environment, name)) || Generator.Get(profile).Err?
    then request.None? && error == InvalidRequest
    else
      var listed := Generator.Get(profile).value;
      Generator.Usable(listed) &&
      if |Generator.Letters(Generator.Flatten(batches), listed.alphabet)| < listed.length
      then request.None? && error == RandomSourceFailed
      else
        exists value, used, drawn ::
          request.Some? && Asks(request.value, rotate, scope, name, value, drawn) &&
          Generator.Sampled(listed, batches, Generator.Ok((value, drawn)), used)
  }

  /** Creates or rotates a secret with a generated value. */
  method HandleGenerated(broker: Broker, rotate: bool, scope: Scope, name: string, profile: string,
                         batches: seq<seq<Generator.Byte>>, draws: Draws)
    returns (answer: Answer, ghost request: Option<Request>)
    requires broker.store.Valid()
    modifies broker.store
    ensures broker.store.Valid() && broker.store.keys == old(broker.store.keys)
    ensures Generates(rotate, scope, name, profile, batches, request, if answer.Failed? then answer.error else NotFound)
    ensures request.None? ==> answer.Failed? && broker.store.State() == old(broker.store.State())
    ensures request.Some? ==>
              var now := old(broker.Now());
              Handled(now, Complete(now, request.value, draws), broker.store.State(), answer)
  {
    request := None;
    if !(SafeName(scope.project) && SafeName(scope.environment) && SafeName(name)) {
      return Failed(InvalidRequest), None;
    }
    var listed := Generator.Get(profile);
    if listed.Err? {
      return Failed(InvalidRequest), None;
    }
    var result, used := Generator.Generate(profile, batches);
    Generator.ProfilesAreListed(profile);
    if result.Err? {
      return Failed(RandomSourceFailed), None;
    }
    var (value, drawn) := result.value;
    var asked :=
      if rotate
      then RotateSecret(FullName(scope.project, scope.environment, name), drawn.name, drawn.strengthBits, value)
      else CreateSecret(SecretMetadata("", scope.project, scope.environment, name, drawn.name, drawn.strengthBits, 0,
                                       Active, ZERO_TIME, ZERO_TIME), value);
    request := Some(asked);
    assert Asks(asked, rotate, scope, name, value, drawn);
    answer := broker.Handle(asked, draws);
  }

  // ----- Listings -----

  /** The secrets of a scope, in the plain map. */
  ghost predicate InPlain(plain: Plain, scope: Scope, name: FullName) {
    name in plain && name.project == scope.project && name.environment == scope.environment
  }

  ghost predicate ShownOnce(listing: seq<SecretMetadata>) {
    forall i, j :: 0 <= i < j < |listing| ==> NameOf(listing[i]) != NameOf(listing[j])
  }

  ghost predicate Shows(listing: seq<SecretMetadata>, name: FullName) {
    exists i :: 0 <= i < |listing| && NameOf(listing[i]) == name
  }

  /** An entry is active exactly if its name resolves, and then its version is the one resolved. */
  ghost predicate Agrees(t: Tables, plain: Plain, keys: KeySet, scope: Scope, meta: SecretMetadata) {
    && InPlain(plain, scope, NameOf(meta))
    && (meta.state == Active <==> Resolve(t, keys, NameOf(meta)).Ok?)
    && (meta.state == Active ==> meta.version == plain[NameOf(meta)].version)
  }

  /** In every interleaving a listing shows each name of the scope exactly once, and agrees with
      resolving about use and about the version in use. */
  lemma ListingAgrees(s: System, dek: Key, scope: Scope, listing: seq<SecretMetadata>)
    requires Reachable(s, dek) && Store.IsListing(s.tables, KeysOf(dek), scope, listing)
    ensures forall i :: 0 <= i < |listing| ==> Agrees(s.tables, Replay(s.history), KeysOf(dek), scope, listing[i])
    ensures ShownOnce(listing)
    ensures forall name :: Shows(listing, name) <==> InPlain(Replay(s.history), scope, name)
  {
    var t, plain, keys := s.tables, Replay(s.history), KeysOf(dek);
    assert ObjectsOK(t, keys) && SecretsOK(t, plain, keys) by { ReachableIsOK(s, dek); }
    var ids: seq<string> :|
      && Store.ListedFrom(t, keys, scope, ids, listing)
      && forall id, meta :: Store.Lists(t, keys, scope, id, meta) ==> id in ids;
    forall i | 0 <= i < |listing| ensures Agrees(t, plain, keys, scope, listing[i]) {
      EntryAgrees(t, plain, keys, scope, ids[i], listing[i]);
    }
    ListingShowsOnce(t, plain, keys, scope, ids, listing);
    forall name | InPlain(plain, scope, name) ensures Shows(listing, name) {
      var id, meta := PlainIsListed(t, plain, keys, scope, name);
      RowIsShown(t, keys, scope, ids, listing, id, meta);
    }
  }

  lemma ListingShowsOnce(t: Tables, plain: Plain, keys: KeySet, scope: Scope, ids: seq<string>,
                         listing: seq<SecretMetadata>)
    requires ObjectsOK(t, keys) && SecretsOK(t, plain, keys) && Store.ListedFrom(t, keys, scope, ids, listing)
    ensures ShownOnce(listing)
  {
    forall i, j | 0 <= i < j < |listing| ensures NameOf(listing[i]) != NameOf(listing[j]) {
      EntryAgrees(t, plain, keys, scope, ids[i], listing[i]);
      EntryAgrees(t, plain, keys, scope, ids[j], listing[j]);
      if NameOf(listing[i]) == NameOf(listing[j]) {
        NamesUnique(t, keys, SecretObject, ids[i], ids[j]);
      }
    }
  }

  lemma RowIsShown(t: Tables, keys: KeySet, scope: Scope, ids: seq<string>, listing: seq<SecretMetadata>, id: string,
                   meta: SecretMetadata)
    requires Store.ListedFrom(t, keys, scope, ids, listing) && Store.Lists(t, keys, scope, id, meta) && id in ids
    ensures Shows(listing, NameOf(meta))
  {
    var i :| 0 <= i < |ids| && ids[i] == id;
    assert Store.Lists(t, keys, scope, ids[i], listing[i]);
  }

  lemma EntryAgrees(t: Tables, plain: Plain, keys: KeySet, scope: Scope, id: string, meta: SecretMetadata)
    requires ObjectsOK(t, keys) && SecretsOK(t, plain, keys) && Store.Lists(t, keys, scope, id, meta)
    ensures IsKind(t, id, SecretObject) && RowName(t.objects[id]) == NameOf(meta)
    ensures InPlain(plain, scope, NameOf(meta)) && MetaOK(meta, plain[NameOf(meta)])
    ensures meta.state == Active <==> Resolve(t, keys, NameOf(meta)).Ok?
  {
    assert IsKind(t, id, SecretObject) && SecretOK(t, plain, keys, id);
    ResolveInOrder(t, plain, keys, NameOf(meta));
  }

  lemma PlainIsListed(t: Tables, plain: Plain, keys: KeySet, scope: Scope, name: FullName)
    returns (id: string, meta: SecretMetadata)
    requires ObjectsOK(t, keys) && SecretsOK(t, plain, keys) && InPlain(plain, scope, name)
    ensures Store.Lists(t, keys, scope, id, meta) && NameOf(meta) == name
  {
    assert NameStored(t, name);
    id :| IsKind(t, id, SecretObject) && RowName(t.objects[id]) == name;
    assert ObjectOK(id, t.objects[id], keys);
    meta := t.objects[id].box.plaintext.secret;
  }

  /** No listing of a reachable vault fails. */
  lemma ListingOpens(s: System, dek: Key, id: string)
    requires Reachable(s, dek)
    ensures Store.Opens(s.tables, KeysOf(dek), id)
  {
    ReachableIsOK(s, dek);
    if IsKind(s.tables, id, SecretObject) {
      assert ObjectOK(id, s.tables.objects[id], KeysOf(dek));
    }
  }

  // ----- Actions for a run -----

  /** With nothing in between, looking an action up gives the one last put under its name. */
  lemma ActionNamedIsLatest(s: System, dek: Key, name: FullName)
    requires Reachable(s, dek)
    ensures Store.ActionNamed(s.tables, Some(KeysOf(dek)), name) ==
            var last := LastPut(s.history, name); if last.Some? then Ok(last.value) else Err(NotFound)
  {
    ReachableIsOK(s, dek);
    var t, keys := s.tables, KeysOf(dek);
    var found := Lookup(t, ActionObject, TokenOf(keys.lookup, ActionObject, name));
    if found.Some? {
      LookupIsScan(t, keys, ActionObject, name);
      assert found == Some(found.value) && StoredAction(found.value, name, t);
      OpenActionExactly(t, s.history, keys, found.value, t.objects[found.value].revision, name);
    } else if LastPut(s.history, name).Some? {
      KnownActionIsFound(t, keys, name);
    }
  }

  lemma KnownActionIsFound(t: Tables, keys: KeySet, name: FullName)
    requires ObjectsOK(t, keys) && ActionKnown(t, name)
    ensures Lookup(t, ActionObject, TokenOf(keys.lookup, ActionObject, name)).Some?
  {
    var id :| StoredAction(id, name, t);
    LookupIsScan(t, keys, ActionObject, name);
  }

  // ----- Resolving for a run -----

  ghost predicate Usable(plain: Plain, name: FullName) {
    name in plain && plain[name].state == Active
  }

  /** At every moment of every interleaving the environment of a run is complete and current, or
      the run fails because some mapped name was never created or is revoked. */
  lemma MappingsResolveAsPlain(s: System, dek: Key, scope: Scope, mappings: map<string, string>,
                               answer: Outcome<map<string, string>>)
    requires Reachable(s, dek) && Store.ResolvesAll(s.tables, KeysOf(dek), scope, mappings, answer)
    ensures var plain := Replay(s.history);
            if forall env :: env in mappings ==>
                 Usable(plain, FullName(scope.project, scope.environment, mappings[env]))
            then
              answer.Ok? && answer.value.Keys == mappings.Keys &&
              forall env :: env in mappings ==>
                answer.value[env] == plain[FullName(scope.project, scope.environment, mappings[env])].value
            else answer == Err(NotFound)
  {
    forall env | env in mappings
      ensures var plain, name := Replay(s.history), FullName(scope.project, scope.environment, mappings[env]);
              Resolve(s.tables, KeysOf(dek), name) ==
              if Usable(plain, name) then Ok(plain[name].value) else Err(NotFound)
    {
      ResolveIsReplay(s, dek, FullName(scope.project, scope.environment, mappings[env]));
    }
  }

  // ----- Resolving name by name while others commit -----

  /** When the reads of one variable's secret happen, in steps of the run. */
  datatype Moments = Moments(row: nat, version: nat)

  /** Every variable has its moments, in order and within the run. */
  ghost predicate InRun(events: seq<Event>, mappings: map<string, string>, at: map<string, Moments>) {
    mappings.Keys <= at.Keys && forall env :: env in at ==> at[env].row <= at[env].version <= |events|
  }

  /** What the two reads for one name give. */
  ghost function ReadOver(start: System, events: seq<Event>, keys: KeySet, name: FullName, at: Moments): Outcome<string>
    requires at.row <= at.version <= |events|
  {
    var id := Lookup(Run(start, events[..at.row]).tables, SecretObject, TokenOf(keys.lookup, SecretObject, name));
    if id.None? then Err(NotFound) else ResolveRow(Run(start, events[..at.version]).tables, keys, id.value)
  }

  /** Resolving the mappings while the run goes on: all of them, or the error of one. */
  ghost predicate ResolvesOver(start: System, events: seq<Event>, keys: KeySet, scope: Scope,
                               mappings: map<string, string>, at: map<string, Moments>,
                               answer: Outcome<map<string, string>>)
    requires InRun(events, mappings, at)
  {
    match answer
    case Ok(values) =>
      values.Keys == mappings.Keys &&
      forall env :: env in mappings ==>
        ReadOver(start, events, keys, FullName(scope.project, scope.environment, mappings[env]), at[env]) ==
        Ok(values[env])
    case Err(error) =>
      exists env :: env in mappings &&
        ReadOver(start, events, keys, FullName(scope.project, scope.environment, mappings[env]), at[env]) ==
        Err(error)
  }

  ghost function PlainAt(start: System, events: seq<Event>, i: nat): Plain
    requires i <= |events|
  {
    Replay(Run(start, events[..i]).history)
  }

  /** The two reads for a name find it not yet created, or what the plain map holds at the second. */
  lemma ReadOverIsPlain(vaultID: string, wrapper: Wrapper, events: seq<Event>, name: FullName, at: Moments)
    requires at.row <= at.version <= |events|
    ensures var start := Fresh(vaultID, wrapper);
            var first, second := PlainAt(start, events, at.row), PlainAt(start, events, at.version);
            ReadOver(start, events, KeysOf(wrapper.box.plaintext), name, at) ==
            if name in first && Usable(second, name) then Ok(second[name].value) else Err(NotFound)
  {
    var start, dek := Fresh(vaultID, wrapper), wrapper.box.plaintext;
    var s, between := Run(start, events[..at.row]), events[at.row..at.version];
    assert Reachable(s, dek);
    assert events[..at.version] == events[..at.row] + between;
    RunContinues(start, events[..at.row], between);
    var found := Lookup(s.tables, SecretObject, TokenOf(KeysOf(dek).lookup, SecretObject, name));
    FoundExactly(s, dek, name);
    if found.Some? {
      ResolveInTwoReads(s, dek, name, found.value, between);
    }
  }

  lemma FoundExactly(s: System, dek: Key, name: FullName)
    requires Reachable(s, dek)
    ensures Lookup(s.tables, SecretObject, TokenOf(KeysOf(dek).lookup, SecretObject, name)).Some? <==>
            name in Replay(s.history)
  {
    ReachableIsOK(s, dek);
    if name in Replay(s.history) {
      StoredIsFound(s.tables, Replay(s.history), KeysOf(dek), name);
    } else {
      NothingFound(s.tables, Replay(s.history), KeysOf(dek), name);
    }
  }

  /** However other requests interleave with the reads, each value is the current one when its
      version was read, and the run fails as a whole exactly if some name was not yet created when
      its row was read or not in use when its version was. */
  lemma MappingsResolveOverTime(vaultID: string, wrapper: Wrapper, events: seq<Event>, scope: Scope,
                                mappings: map<string, string>, at: map<string, Moments>,
                                answer: Outcome<map<string, string>>)
    requires InRun(events, mappings, at)
    requires ResolvesOver(Fresh(vaultID, wrapper), events, KeysOf(wrapper.box.plaintext), scope, mappings, at, answer)
    ensures var start := Fresh(vaultID, wrapper);
            if forall env :: env in mappings ==>
              FullName(scope.project, scope.environment, mappings[env]) in PlainAt(start, events, at[env].row) &&
              Usable(PlainAt(start, events, at[env].version), FullName(scope.project, scope.environment, mappings[env]))
            then
              answer.Ok? && answer.value.Keys == mappings.Keys &&
              forall env :: env in mappings ==>
                var name := FullName(scope.project, scope.environment, mappings[env]);
                answer.value[env] == PlainAt(start, events, at[env].version)[name].value
            else answer == Err(NotFound)
  {
    forall env | env in mappings
      ensures var start, name := Fresh(vaultID, wrapper), FullName(scope.project, scope.environment, mappings[env]);
              var first, second := PlainAt(start, events, at[env].row), PlainAt(start, events, at[env].version);
              ReadOver(start, events, KeysOf(wrapper.box.plaintext), name, at[env]) ==
              if name in first && Usable(second, name) then Ok(second[name].value) else Err(NotFound)
    {
      ReadOverIsPlain(vaultID, wrapper, events, FullName(scope.project, scope.environment, mappings[env]), at[env]);
    }
  }
}
