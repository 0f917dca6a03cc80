/** The simple form of the vault: a map from full names to the current value, its version
    number and whether it is in use.  Nothing is encrypted and there is no concurrency. */
module PlainVault {
  import opened Model

  datatype FullName = FullName(project: string, environment: string, name: string)

  datatype Entry = Entry(value: string, version: nat, state: SecretState)

  type Plain = map<FullName, Entry>

  function NameOf(meta: SecretMetadata): FullName {
    FullName(meta.project, meta.environment, meta.name)
  }

  function ActionNameOf(action: Action): FullName {
    FullName(action.project, action.environment, action.name)
  }

  /** What one committed operation does, with the metadata or action it stored. */
  datatype Effect =
    | Created(meta: SecretMetadata, value: string)
    | Rotated(meta: SecretMetadata, value: string)
    | RevokedSecret(meta: SecretMetadata)
    | ActionPut(action: Action)
    | Logged

  /** Creating needs an absent name, rotating and revoking a present one; a rotation stores
      the next version number. */
  ghost predicate Legal(plain: Plain, effect: Effect) {
    match effect
    case Created(meta, _) => NameOf(meta) !in plain
    case Rotated(meta, _) => NameOf(meta) in plain && meta.version == plain[NameOf(meta)].version + 1
    case RevokedSecret(meta) => NameOf(meta) in plain
    case ActionPut(_) => true
    case Logged => true
  }

  function Apply(plain: Plain, effect: Effect): Plain {
    match effect
    case Created(meta, value) => plain[NameOf(meta) := Entry(value, 1, Active)]
    case Rotated(meta, value) =>
      if NameOf(meta) in plain
      then plain[NameOf(meta) := Entry(value, plain[NameOf(meta)].version + 1, Active)]
      else plain
    case RevokedSecret(meta) =>
      if NameOf(meta) in plain then plain[NameOf(meta) := plain[NameOf(meta)].(state := Revoked)] else plain
    case ActionPut(_) => plain
    case Logged => plain
  }

  datatype Commit = Commit(effect: Effect, event: AuditEvent)

  function Replay(history: seq<Commit>): Plain {
    if history == [] then map[] else Apply(Replay(history[..|history| - 1]), history[|history| - 1].effect)
  }

  ghost predicate LegalHistory(history: seq<Commit>) {
    forall i :: 0 <= i < |history| ==> Legal(Replay(history[..i]), history[i].effect)
  }

  lemma ReplaySnoc(history: seq<Commit>, commit: Commit)
    ensures Replay(history + [commit]) == Apply(Replay(history), commit.effect)
  {
    assert (history + [commit])[..|history|] == history;
  }

  lemma LegalSnoc(history: seq<Commit>, commit: Commit)
    requires LegalHistory(history) && Legal(Replay(history), commit.effect)
    ensures LegalHistory(history + [commit])
  {
    var more := history + [commit];
    forall i | 0 <= i < |more| ensures Legal(Replay(more[..i]), more[i].effect) {
      assert more[..i] == history[..i];
      assert history[..|history|] == history;
    }
  }

  // ----- Actions -----

  /** The action last put under a name. */
  function LastPut(history: seq<Commit>, name: FullName): Option<Action> {
    if history == [] then None
    else
      var last := history[|history| - 1].effect;
      if last.ActionPut? && ActionNameOf(last.action) == name then Some(last.action)
      else LastPut(history[..|history| - 1], name)
  }

  lemma LastPutSnoc(history: seq<Commit>, commit: Commit, name: FullName)
    ensures LastPut(history + [commit], name) ==
            if commit.effect.ActionPut? && ActionNameOf(commit.effect.action) == name then Some(commit.effect.action)
            else LastPut(history, name)
  {
    assert (history + [commit])[..|history|] == history;
  }

  ghost predicate WasPut(history: seq<Commit>, action: Action) {
    exists i :: 0 <= i < |history| && history[i].effect == ActionPut(action)
  }

  lemma {:induction false} LastPutWasPut(history: seq<Commit>, name: FullName)
    requires LastPut(history, name).Some?
    ensures WasPut(history, LastPut(history, name).value) && ActionNameOf(LastPut(history, name).value) == name
    decreases |history|
  {
    var n := |history| - 1;
    if !(history[n].effect.ActionPut? && ActionNameOf(history[n].effect.action) == name) {
      LastPutWasPut(history[..n], name);
      var i :| 0 <= i < n && history[..n][i].effect == ActionPut(LastPut(history, name).value);
      assert history[i].effect == history[..n][i].effect;
    }
  }

  // ----- Rotations between two moments -----

  ghost predicate IsRotation(effect: Effect, name: FullName) {
    effect.Rotated? && NameOf(effect.meta) == name
  }

  /** No rotation of the name was committed after the first `from` commits. */
  ghost predicate NoRotation(history: seq<Commit>, from: nat, name: FullName) {
    forall k :: from <= k < |history| ==> !IsRotation(history[k].effect, name)
  }

  lemma EffectOnVersion(plain: Plain, effect: Effect, name: FullName)
    requires Legal(plain, effect) && name in plain
    ensures name in Apply(plain, effect)
    ensures Apply(plain, effect)[name].version == plain[name].version + if IsRotation(effect, name) then 1 else 0
  {
  }

  lemma ReplayLast(history: seq<Commit>)
    requires history != []
    ensures Replay(history) == Apply(Replay(history[..|history| - 1]), history[|history| - 1].effect)
  {
  }

  lemma NoRotationLast(history: seq<Commit>, from: nat, name: FullName)
    requires from < |history|
    ensures var n := |history| - 1;
            NoRotation(history, from, name) <==>
            NoRotation(history[..n], from, name) && !IsRotation(history[n].effect, name)
  {
    var n := |history| - 1;
    assert forall k :: 0 <= k < n ==> history[..n][k] == history[k];
  }

  /** The version of a stored name never falls, and stays the same exactly if it is not rotated. */
  lemma {:induction false} VersionSameExactly(history: seq<Commit>, later: seq<Commit>, name: FullName)
    requires history <= later && LegalHistory(later) && name in Replay(history)
    ensures name in Replay(later) && Replay(history)[name].version <= Replay(later)[name].version
    ensures Replay(later)[name].version == Replay(history)[name].version <==> NoRotation(later, |history|, name)
    decreases |later|
  {
    if |later| > |history| {
      var n := |later| - 1;
      var plain, effect := Replay(later[..n]), later[n].effect;
      VersionSameExactly(history, later[..n], name) by { LegalPrefix(later, n); }
      assert Legal(plain, effect);
      EffectOnVersion(plain, effect, name);
      assert Replay(later) == Apply(plain, effect) by { ReplayLast(later); }
      NoRotationLast(later, |history|, name);
    } else {
      assert later == history;
    }
  }

  // ----- The metadata last written -----

  function MetaOf(effect: Effect): Option<SecretMetadata> {
    match effect
    case Created(meta, _) => Some(meta)
    case Rotated(meta, _) => Some(meta)
    case RevokedSecret(meta) => Some(meta)
    case ActionPut(_) => None
    case Logged => None
  }

  /** The effect writes the secret with this name. */
  predicate Writes(effect: Effect, name: FullName) {
    MetaOf(effect).Some? && NameOf(MetaOf(effect).value) == name
  }

  /** The metadata last written under a name. */
  function LastMeta(history: seq<Commit>, name: FullName): Option<SecretMetadata> {
    if history == [] then None
    else
      var last := history[|history| - 1].effect;
      if Writes(last, name) then MetaOf(last) else LastMeta(history[..|history| - 1], name)
  }

  lemma LastMetaSnoc(history: seq<Commit>, commit: Commit, name: FullName)
    ensures LastMeta(history + [commit], name) ==
            if Writes(commit.effect, name) then MetaOf(commit.effect) else LastMeta(history, name)
  {
    assert (history + [commit])[..|history|] == history;
  }

  /** It was written before `from`, or by a commit since. */
  lemma {:induction false} LastMetaWritten(history: seq<Commit>, from: nat, name: FullName)
    requires from <= |history|
    ensures LastMeta(history, name) == LastMeta(history[..from], name) ||
            exists k :: from <= k < |history| && Writes(history[k].effect, name) &&
              MetaOf(history[k].effect) == LastMeta(history, name)
    ensures (forall k :: from <= k < |history| ==> !Writes(history[k].effect, name)) ==>
              LastMeta(history, name) == LastMeta(history[..from], name)
    ensures (exists k :: from <= k < |history| && Writes(history[k].effect, name)) ==>
              exists k :: from <= k < |history| && Writes(history[k].effect, name) &&
                MetaOf(history[k].effect) == LastMeta(history, name)
    decreases |history|
  {
    if from == |history| {
      assert history[..from] == history;
    } else {
      var n := |history| - 1;
      if !Writes(history[n].effect, name) {
        LastMetaWritten(history[..n], from, name);
        assert history[..n][..from] == history[..from];
        assert forall k :: 0 <= k < n ==> history[..n][k] == history[k];
      }
    }
  }

  // ----- Rotation counts -----

  /** The version numbers the committed rotations of one name stored, in commit order. */
  function RotationVersions(history: seq<Commit>, name: FullName): seq<nat> {
    if history == [] then []
    else
      var last := history[|history| - 1].effect;
      RotationVersions(history[..|history| - 1], name) +
      if last.Rotated? && NameOf(last.meta) == name then [last.meta.version] else []
  }

  /** 2, 3, .., version. */
  function UpTo(version: nat): seq<nat> {
    seq(if version == 0 then 0 else version - 1, i => i + 2)
  }

  ghost predicate CountsUp(versions: seq<nat>, plain: Plain, name: FullName) {
    if name in plain then plain[name].version >= 1 && versions == UpTo(plain[name].version) else versions == []
  }

  lemma CountsUpStep(versions: seq<nat>, plain: Plain, name: FullName, effect: Effect)
    requires CountsUp(versions, plain, name) && Legal(plain, effect)
    ensures CountsUp(versions + if effect.Rotated? && NameOf(effect.meta) == name then [effect.meta.version] else [],
                     Apply(plain, effect), name)
  {
  }

  lemma LegalPrefix(history: seq<Commit>, n: nat)
    requires LegalHistory(history) && n <= |history|
    ensures LegalHistory(history[..n])
  {
    forall i | 0 <= i < n ensures Legal(Replay(history[..n][..i]), history[..n][i].effect) {
      assert history[..n][..i] == history[..i];
    }
  }

  /** Committed rotations of a name store exactly 2, 3, .., n: n - 1 of them, all different. */
  lemma {:induction false} RotationsCountUp(history: seq<Commit>, name: FullName)
    requires LegalHistory(history)
    ensures CountsUp(RotationVersions(history, name), Replay(history), name)
    decreases |history|
  {
    if history != [] {
      var n := |history| - 1;
      LegalPrefix(history, n);
      RotationsCountUp(history[..n], name);
      assert Legal(Replay(history[..n]), history[n].effect);
      CountsUpStep(RotationVersions(history[..n], name), Replay(history[..n]), name, history[n].effect);
    }
  }
}
