/** In a vault that only ever stores generated secrets, whatever a run is handed was generated, so
    its output can be redacted. */
module GeneratedRuns {
  import opened Redaction
  import opened RedactionLive
  import opened RedactionWriter
  import opened RedactionTheorems
  import opened GeneratedSecrets
  import opened Model
  import opened SecureCrypto
  import opened PlainVault
  import opened Vault
  import Machine
  import opened RecordedVersions
  import Preservation
  import Interleavings
  import Races
  import Store
  import Broker
  import Generator
  import Answers

  ghost predicate Generated(value: string) {
    exists profile :: Drawn(value, profile)
  }

  /** The request stores no value that was not generated. */
  ghost predicate CarriesGenerated(request: Machine.Request) {
    match request
    case CreateSecret(_, value) => Generated(value)
    case RotateSecret(_, _, _, value) => Generated(value)
    case _ => true
  }

  ghost predicate AllGenerated(events: seq<Machine.Event>) {
    forall i :: 0 <= i < |events| && events[i].Begin? ==> CarriesGenerated(events[i].request)
  }

  ghost predicate HoldsGenerated(task: Machine.Task) {
    match task
    case Creating(_, _, value) => Generated(value)
    case Rotating(_, _, _, _, _, value) => Generated(value)
    case _ => true
  }

  ghost predicate StoresGenerated(effect: Effect) {
    match effect
    case Created(_, value) => Generated(value)
    case Rotated(_, value) => Generated(value)
    case _ => true
  }

  ghost predicate OnlyGenerated(s: Machine.System) {
    && (forall thread :: thread in s.tasks ==> HoldsGenerated(s.tasks[thread]))
    && (forall i :: 0 <= i < |s.history| ==> StoresGenerated(s.history[i].effect))
  }

  lemma ReadHolds(t: Tables, keys: KeySet, request: Machine.Request, draws: Draws)
    requires CarriesGenerated(request) && Machine.Read(t, keys, request, draws).Ok?
    ensures HoldsGenerated(Machine.Read(t, keys, request, draws).value)
  {
  }

  lemma AdvanceOnlyGenerated(s: Machine.System, thread: nat, draws: Draws)
    requires OnlyGenerated(s) && thread in s.tasks
    ensures OnlyGenerated(Machine.AdvanceStep(s, thread, draws))
  {
    AdvanceTasks(s, thread, draws);
    if Interleavings.Commits(s, thread, draws) {
      Races.AdvanceHistory(s, thread, draws);
      assert HoldsGenerated(s.tasks[thread]);
    }
  }

  lemma StepOnlyGenerated(s: Machine.System, event: Machine.Event)
    requires OnlyGenerated(s) && (event.Begin? ==> CarriesGenerated(event.request))
    ensures OnlyGenerated(Machine.Step(s, event))
  {
    if event.Advance? && event.thread in s.tasks {
      AdvanceOnlyGenerated(s, event.thread, event.draws);
    } else {
      OtherStepsWrite(s, event);
      if event.Begin? && event.thread !in s.tasks && event.thread in Machine.Step(s, event).tasks {
        BegunIsRead(s, event, event.thread);
        ReadHolds(s.tables, s.keys.value, event.request, event.draws);
      }
    }
  }

  lemma {:induction false} RunOnlyGenerated(vaultID: string, wrapper: Wrapper, events: seq<Machine.Event>)
    requires AllGenerated(events)
    ensures OnlyGenerated(Machine.Run(Machine.Fresh(vaultID, wrapper), events))
    decreases |events|
  {
    if events != [] {
      var n := |events| - 1;
      RunOnlyGenerated(vaultID, wrapper, events[..n]);
      StepOnlyGenerated(Machine.Run(Machine.Fresh(vaultID, wrapper), events[..n]), events[n]);
    }
  }

  lemma {:induction false} ReplayGenerated(history: seq<Commit>, name: FullName)
    requires forall i :: 0 <= i < |history| ==> StoresGenerated(history[i].effect)
    requires name in Replay(history)
    ensures Generated(Replay(history)[name].value)
    decreases |history|
  {
    var n := |history| - 1;
    var before, effect := Replay(history[..n]), history[n].effect;
    assert StoresGenerated(effect);
    if name in before {
      ReplayGenerated(history[..n], name);
    }
  }

  /** In every run whose create and rotate requests carry generated values, every name that resolves
      resolves to a generated value. */
  lemma ResolvedWasGenerated(vaultID: string, wrapper: Wrapper, events: seq<Machine.Event>, name: FullName)
    requires AllGenerated(events)
    ensures var value := Resolve(Machine.Run(Machine.Fresh(vaultID, wrapper), events).tables,
                                 KeysOf(wrapper.box.plaintext), name);
            value.Ok? ==> Generated(value.value)
  {
    var s, dek := Machine.Run(Machine.Fresh(vaultID, wrapper), events), wrapper.box.plaintext;
    assert Interleavings.Reachable(s, dek);
    Interleavings.ResolveIsReplay(s, dek, name);
    RunOnlyGenerated(vaultID, wrapper, events);
    if name in Replay(s.history) {
      ReplayGenerated(s.history, name);
    }
  }

  lemma PlainWasGenerated(vaultID: string, wrapper: Wrapper, events: seq<Machine.Event>, i: nat, name: FullName)
    requires AllGenerated(events) && i <= |events|
    requires name in Broker.PlainAt(Machine.Fresh(vaultID, wrapper), events, i)
    ensures Generated(Broker.PlainAt(Machine.Fresh(vaultID, wrapper), events, i)[name].value)
  {
    RunOnlyGenerated(vaultID, wrapper, events[..i]);
    ReplayGenerated(Machine.Run(Machine.Fresh(vaultID, wrapper), events[..i]).history, name);
  }

  /** The secrets of a run, read while other requests go on. */
  ghost predicate HandedOver(vaultID: string, wrapper: Wrapper, events: seq<Machine.Event>, scope: Scope,
                             mappings: map<string, string>, at: map<string, Broker.Moments>, secrets: seq<string>)
    requires Broker.InRun(events, mappings, at)
  {
    exists values: map<string, string> ::
      && Broker.ResolvesOver(Machine.Fresh(vaultID, wrapper), events, KeysOf(wrapper.box.plaintext), scope,
                             mappings, at, Ok(values))
      && forall v :: v in secrets <==> v in values.Values
  }

  lemma HandedOverWereGenerated(vaultID: string, wrapper: Wrapper, events: seq<Machine.Event>, scope: Scope,
                                mappings: map<string, string>, at: map<string, Broker.Moments>, secrets: seq<string>)
    requires AllGenerated(events) && Broker.InRun(events, mappings, at)
    requires HandedOver(vaultID, wrapper, events, scope, mappings, at, secrets)
    ensures Mixed(secrets)
  {
    var start := Machine.Fresh(vaultID, wrapper);
    var values: map<string, string> :|
      && Broker.ResolvesOver(start, events, KeysOf(wrapper.box.plaintext), scope, mappings, at, Ok(values))
      && forall v :: v in secrets <==> v in values.Values;
    Broker.MappingsResolveOverTime(vaultID, wrapper, events, scope, mappings, at, Ok(values));
    forall v | v in secrets ensures Generated(v) {
      var env :| env in values && values[env] == v;
      PlainWasGenerated(vaultID, wrapper, events, at[env].version,
                        FullName(scope.project, scope.environment, mappings[env]));
    }
  }

  /** The output of a run, however the vault was used meanwhile: redacted in one piece it hides every
      secret handed over, and streamed in pieces too if every overlap of a live secret is shielded. */
  lemma RunHidesItsSecrets(vaultID: string, wrapper: Wrapper, events: seq<Machine.Event>, scope: Scope,
                           mappings: map<string, string>, at: map<string, Broker.Moments>, secrets: seq<string>,
                           chunks: seq<string>, v: string)
    requires AllGenerated(events) && Broker.InRun(events, mappings, at)
    requires HandedOver(vaultID, wrapper, events, scope, mappings, at, secrets) && v in secrets
    ensures !Occurs(v, RedactKept(Concat(chunks), Kept(secrets)))
    ensures AllShielded(Live([], Kept(secrets)), Kept(secrets)) ==> !Occurs(v, Streamed(chunks, Kept(secrets)))
  {
    HandedOverWereGenerated(vaultID, wrapper, events, scope, mappings, at, secrets);
    GeneratedSecretsAreHidden(secrets, Concat(chunks), v);
    if AllShielded(Live([], Kept(secrets)), Kept(secrets)) {
      MixedStreamIsRedact(secrets, chunks, v);
    }
  }

  // ----- From random bytes to the vault and back -----

  /** What the broker asks the vault to store was generated. */
  lemma AskedWasGenerated(rotate: bool, scope: Scope, name: string, profile: string,
                          batches: seq<seq<Generator.Byte>>, request: Machine.Request, error: Error)
    requires Broker.Generates(rotate, scope, name, profile, batches, Some(request), error)
    ensures CarriesGenerated(request)
  {
    var listed := Generator.Get(profile).value;
    var value, used, drawn :|
      Broker.Asks(request, rotate, scope, name, value, drawn) &&
      Generator.Sampled(listed, batches, Generator.Ok((value, drawn)), used);
    assert Drawn(value, profile);
  }

  /** A generated secret is stored under the names and the profile asked for, with its real
      strength, and a run of its scope is handed exactly the letters drawn. */
  lemma GeneratedIsStored(s: Machine.System, dek: Key, scope: Scope, name: string, profile: string, used: nat,
                          batches: seq<seq<Generator.Byte>>, value: string, drawn: Generator.Profile,
                          request: Machine.Request, draws: Draws, env: string)
    requires Interleavings.Reachable(s, dek) && Broker.Asks(request, false, scope, name, value, drawn)
    requires Machine.SafeNames(FullName(scope.project, scope.environment, name)) && Generator.Get(profile).Ok?
    requires Generator.Usable(Generator.Get(profile).value)
    requires Generator.Sampled(Generator.Get(profile).value, batches, Generator.Ok((value, drawn)), used)
    requires Store.Creation(s.tables, Some(KeysOf(dek)), request.meta, request.value, draws).0.Ok?
    ensures var done := Store.Creation(s.tables, Some(KeysOf(dek)), request.meta, request.value, draws);
            var stored := done.0.value;
            && stored == SecretMetadata(draws.objectId, scope.project, scope.environment, name,
                                        if profile == "" then "default" else profile, stored.strengthBits, 1, Active,
                                        draws.now, draws.now)
            && Generator.Reports(profile, value, drawn)
            && Generator.Measures(stored.strengthBits, |drawn.alphabet|, |value|)
            && Store.ResolvesAll(done.1, KeysOf(dek), scope, map[env := name], Ok(map[env := value]))
  {
    Generator.SampledIsReported(profile, Generator.Get(profile).value, batches, Generator.Ok((value, drawn)), used);
    Preservation.SafeIsZeroFree(FullName(scope.project, scope.environment, name));
    Answers.CreateStoresRequest(s, dek, request.meta, request.value, draws);
    Answers.CreatedIsHandedOver(s, dek, request.meta, request.value, draws, env, Ok(map[env := value]));
  }
}
