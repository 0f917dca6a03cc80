/** Secrets as the generator draws them, through the redactors: what holds without looking at
    the values. */
module GeneratedSecrets {
  import opened Redaction
  import opened RedactionWriter
  import opened RedactionLive
  import opened RedactionTheorems
  import Generator
  import GeneratorUniform

  /** The generator can return `value` for the profile. */
  ghost predicate Drawn(value: string, profile: string) {
    Generator.Get(profile).Ok? &&
    exists used: nat, batches: seq<seq<Generator.Byte>> ::
      Generator.DrawnFrom(value, Generator.Get(profile).value.length, used, batches,
                          Generator.Get(profile).value.alphabet)
  }

  ghost predicate AllDrawn(values: seq<string>, profile: string) {
    forall v :: v in values ==> Drawn(v, profile)
  }

  lemma BracketFreeJoin(a: string, b: string)
    requires BracketFree(a) && BracketFree(b)
    ensures BracketFree(a + b)
  {
  }

  lemma UpperHasNoBrackets()
    ensures BracketFree(Generator.UPPER)
  {
  }

  lemma LowerHasNoBrackets()
    ensures BracketFree(Generator.LOWER)
  {
  }

  lemma UrlSafeHasNoBrackets()
    ensures BracketFree(Generator.ALPHANUMERIC) && BracketFree(Generator.URL_SAFE)
  {
    UpperHasNoBrackets();
    LowerHasNoBrackets();
    BracketFreeJoin(Generator.UPPER, Generator.LOWER);
    BracketFreeJoin(Generator.UPPER + Generator.LOWER, Generator.DIGITS);
    BracketFreeJoin(Generator.ALPHANUMERIC, "-_");
  }

  lemma UnambiguousCapitals()
    ensures BracketFree("ABCDEFGH" + "JKLMN" + "PQRSTUVWXYZ")
  {
  }

  lemma UnambiguousOthers()
    ensures BracketFree("abcdefghijk" + "mnopqrstuvwxyz" + "23456789" + "-_.")
  {
  }

  lemma UnambiguousHasNoBrackets()
    ensures BracketFree(Generator.UNAMBIGUOUS)
  {
    var a, b := "ABCDEFGH" + "JKLMN" + "PQRSTUVWXYZ", "abcdefghijk" + "mnopqrstuvwxyz" + "23456789" + "-_.";
    UnambiguousCapitals();
    UnambiguousOthers();
    BracketFreeJoin(a, b);
    assert Generator.UNAMBIGUOUS == a + b;
  }

  lemma ProfilesHaveNoBrackets(profile: string)
    requires Generator.Get(profile).Ok?
    ensures BracketFree(Generator.Get(profile).value.alphabet)
    ensures Generator.Get(profile).value.length >= 40
  {
    UrlSafeHasNoBrackets();
    UnambiguousHasNoBrackets();
  }

  lemma LongIsRedactable(value: string)
    requires |value| > |MARKER_WORD|
    ensures Redactable(value)
  {
  }

  lemma DrawnShape(value: string, profile: string)
    requires Drawn(value, profile)
    ensures |value| == Generator.Get(profile).value.length >= 40 && BracketFree(value) && Redactable(value)
  {
    var p := Generator.Get(profile).value;
    var used: nat, batches: seq<seq<Generator.Byte>> :| Generator.DrawnFrom(value, p.length, used, batches, p.alphabet);
    ProfilesHaveNoBrackets(profile);
    Generator.LettersAreListed(Generator.Flatten(batches), p.alphabet);
    LongIsRedactable(value);
  }

  /** The one-shot redactor hides every generated secret in every text. */
  lemma GeneratedSecretsAreHidden(values: seq<string>, text: string, v: string)
    requires v in values && forall w :: w in values ==> exists profile :: Drawn(w, profile)
    ensures !Occurs(v, RedactKept(text, Kept(values)))
  {
    var profile :| Drawn(v, profile);
    DrawnShape(v, profile);
    RedactLeaksNone(text, Kept(values), v);
  }

  lemma SameLengthAntichain(kept: seq<string>, n: nat)
    requires forall v :: v in kept ==> |v| == n
    ensures Antichain(kept)
  {
    forall u, v | u in kept && v in kept && Occurs(u, v) ensures u == v {
      var at: nat :| OccursAt(u, v, at);
      assert v[0..|v|] == v;
    }
  }

  /** For secrets of one profile, streaming is faithful on all inputs and all cuttings exactly
      when no end of a secret starts a secret; no other condition is left. */
  lemma GeneratedStreamExact(values: seq<string>, profile: string)
    requires AllDrawn(values, profile)
    ensures Faithful(Kept(values)) <==> NoOverlap(values)
  {
    forall v | v in values ensures |v| == Generator.Get(profile).value.length && Drawn(v, profile) {
      DrawnShape(v, profile);
    }
    SameLengthAntichain(Kept(values), if values == [] then 0 else |values[0]|);
    MixedStreamExact(values);
  }

  // ----- Several profiles -----

  /** Each value was drawn for some profile, as the secrets of one run are. */
  ghost predicate Mixed(values: seq<string>) {
    forall v :: v in values ==> exists profile :: Drawn(v, profile)
  }

  lemma MixedShape(values: seq<string>)
    requires Mixed(values)
    ensures AllBracketFree(Kept(values)) && AllHideable(Kept(values))
    ensures forall v :: v in Kept(values) <==> v in values
  {
    forall v | v in values ensures |v| >= MIN_LENGTH && BracketFree(v) && Redactable(v) {
      var profile :| Drawn(v, profile);
      DrawnShape(v, profile);
    }
  }

  /** For any mix of profiles streaming is faithful, and hides every secret, if no end of a live
      secret starts a secret, or wherever one does it is shielded. */
  lemma MixedStreamIsRedact(values: seq<string>, chunks: seq<string>, v: string)
    requires Mixed(values) && AllShielded(Live([], Kept(values)), Kept(values))
    ensures Streamed(chunks, Kept(values)) == RedactKept(Concat(chunks), Kept(values))
    ensures v in values ==> !Occurs(v, Streamed(chunks, Kept(values)))
  {
    MixedShape(values);
    StreamIsRedact(chunks, Kept(values));
    if v in values {
      StreamHides(chunks, Kept(values), v);
    }
  }

  /** And only if, unless one secret lies inside another. */
  lemma MixedStreamExact(values: seq<string>)
    requires Mixed(values) && Antichain(Kept(values))
    ensures Faithful(Kept(values)) <==> NoOverlap(values)
  {
    MixedShape(values);
    StreamExact(Kept(values));
  }

  /** Or, with the live secrets in place of all of them, unless one secret starts another. */
  lemma MixedStreamExactLive(values: seq<string>)
    requires Mixed(values) && PrefixFree(Kept(values))
    ensures Faithful(Kept(values)) <==> NoLiveOverlap(Kept(values))
  {
    MixedShape(values);
    StreamExactLive(Kept(values));
  }

  // ----- A secret that leaks -----

  /** Enough bytes zero to draw a secret of `n` equal letters. */
  function ZeroBytes(n: nat): seq<Generator.Byte> {
    seq(n, _ => 0)
  }

  function Repeated(c: char, n: nat): (s: string)
    ensures |s| == n && forall i :: 0 <= i < n ==> s[i] == c
  {
    seq(n, _ => c)
  }

  lemma {:induction false} ZeroBytesRepeat(n: nat, alphabet: string)
    requires 1 <= |alphabet| <= 256
    ensures Generator.Letters(ZeroBytes(n), alphabet) == Repeated(alphabet[0], n)
    decreases n
  {
    if n > 0 {
      ZeroBytesRepeat(n - 1, alphabet);
      GeneratorUniform.LettersSnoc(ZeroBytes(n - 1), 0, alphabet);
      assert ZeroBytes(n) == ZeroBytes(n - 1) + [0];
      assert Repeated(alphabet[0], n) == Repeated(alphabet[0], n - 1) + [alphabet[0]];
    }
  }

  lemma RepeatedOverlaps(c: char, n: nat)
    requires n >= 2
    ensures Overlaps(Repeated(c, n), Repeated(c, n))
  {
    var v := Repeated(c, n);
    assert v[n - 1..] == [c] == v[..1];
    assert Partial(v, v, 1);
  }

  lemma RepeatedIsDrawn(profile: string)
    requires Generator.Get(profile).Ok?
    ensures var p := Generator.Get(profile).value; Drawn(Repeated(p.alphabet[0], p.length), profile)
  {
    var p := Generator.Get(profile).value;
    var batch := ZeroBytes(p.length);
    var batches := [batch];
    ZeroBytesRepeat(p.length, p.alphabet);
    assert batches[..0] == [] && batches[..1] == batches;
    assert Generator.Flatten(batches) == [] + batch == batch;
    var value := Repeated(p.alphabet[0], p.length);
    assert value == Generator.Letters(batch, p.alphabet)[..p.length];
    assert Generator.DrawnFrom(value, p.length, 1, batches, p.alphabet);
  }

  /** For every profile there is a secret the generator can draw that a command, printing it in
      one piece, sends through the streaming redactor in the clear. */
  lemma DrawnSecretLeaks(profile: string) returns (v: string)
    requires Generator.Get(profile).Ok?
    ensures Drawn(v, profile) && Overlaps(v, v)
    ensures Kept([v]) == [v] && Streamed([v], [v]) == v && RedactKept(v, [v]) == MARKER
  {
    var p := Generator.Get(profile).value;
    v := Repeated(p.alphabet[0], p.length);
    RepeatedIsDrawn(profile);
    DrawnShape(v, profile);
    RepeatedOverlaps(p.alphabet[0], p.length);
    StreamExactSingle(v);
    assert Kept([v]) == [v] + Kept([v][1..]);
  }
}
