/** Secret generation by rejection sampling: what the batch loops compute from the random
    stream, and how many byte sequences lead to each secret. */
module Generator {

  type Byte = b: int | 0 <= b < 256

  datatype Profile = Profile(name: string, alphabet: string, length: nat, strengthBits: int)

  const UPPER: string := "ABCDEFGHIJKLMNOPQRSTUVWXYZ"
  const LOWER: string := "abcdefghijklmnopqrstuvwxyz"
  const DIGITS: string := "0123456789"

  const ALPHANUMERIC: string := UPPER + LOWER + DIGITS
  const URL_SAFE: string := UPPER + LOWER + DIGITS + "-_"
  /** Without the look-alikes I, O, l, 0 and 1. */
  const UNAMBIGUOUS: string :=
    "ABCDEFGH" + "JKLMN" + "PQRSTUVWXYZ" + "abcdefghijk" + "mnopqrstuvwxyz" + "23456789" + "-_."

  datatype GenerateError = UnknownProfile(name: string) | RandomSourceFailed

  datatype Result<+T> = Ok(value: T) | Err(error: GenerateError)

  function Get(name: string): Result<Profile> {
    var key := if name == "" then "default" else name;
    if key == "default" then Ok(Profile("default", URL_SAFE, 43, 258))
    else if key == "alnum" then Ok(Profile("alnum", ALPHANUMERIC, 44, 262))
    else if key == "password" then Ok(Profile("password", UNAMBIGUOUS, 40, 238))
    else if key == "database" then Ok(Profile("database", ALPHANUMERIC, 44, 262))
    else Err(UnknownProfile(key))
  }

  /** What `Generate` needs of a profile, and every listed profile has. */
  predicate Usable(profile: Profile) {
    1 <= |profile.alphabet| <= 256 && profile.length >= 1
  }

  // ----- What the profiles list -----

  predicate LetterOrDigit(c: char) {
    'A' <= c <= 'Z' || 'a' <= c <= 'z' || '0' <= c <= '9'
  }

  /** Of the stated size, with all letters and digits but those left out, and the others named. */
  ghost predicate Offers(alphabet: string, size: nat, without: string, others: string) {
    |alphabet| == size && forall c :: c in alphabet <==> (LetterOrDigit(c) && c !in without) || c in others
  }

  /** The four profiles: their lengths, and which characters they draw from. */
  ghost predicate Lists(profile: Profile) {
    && (profile.name == "default" ==> profile.length == 43 && Offers(profile.alphabet, 64, "", "-_"))
    && (profile.name == "alnum" ==> profile.length == 44 && Offers(profile.alphabet, 62, "", ""))
    && (profile.name == "password" ==> profile.length == 40 && Offers(profile.alphabet, 60, "IOl01", "-_."))
    && (profile.name == "database" ==> profile.length == 44 && Offers(profile.alphabet, 62, "", ""))
  }

  lemma UpperLetters(c: char)
    ensures c in UPPER <==> 'A' <= c <= 'Z'
  {
    if 'A' <= c <= 'Z' {
      assert UPPER[c as int - 'A' as int] == c;
    }
  }

  lemma LowerLetters(c: char)
    ensures c in LOWER <==> 'a' <= c <= 'z'
  {
    if 'a' <= c <= 'z' {
      assert LOWER[c as int - 'a' as int] == c;
    }
  }

  lemma DigitLetters(c: char)
    ensures c in DIGITS <==> '0' <= c <= '9'
  {
    if '0' <= c <= '9' {
      assert DIGITS[c as int - '0' as int] == c;
    }
  }

  lemma AlphanumericOffers()
    ensures Offers(ALPHANUMERIC, 62, "", "") && Offers(URL_SAFE, 64, "", "-_")
  {
    assert |UPPER| == 26 && |LOWER| == 26 && |DIGITS| == 10 && |ALPHANUMERIC| == 62;
    assert URL_SAFE == ALPHANUMERIC + "-_";
    forall c ensures c in ALPHANUMERIC <==> LetterOrDigit(c) {
      UpperLetters(c);
      LowerLetters(c);
      DigitLetters(c);
      assert c in UPPER + LOWER + DIGITS <==> c in UPPER || c in LOWER || c in DIGITS;
    }
  }

  lemma UnambiguousCapital(c: char)
    ensures c in "ABCDEFGH" + "JKLMN" + "PQRSTUVWXYZ" <==> 'A' <= c <= 'Z' && c != 'I' && c != 'O'
  {
  }

  lemma UnambiguousSmall(c: char)
    ensures c in "abcdefghijk" + "mnopqrstuvwxyz" <==> 'a' <= c <= 'z' && c != 'l'
  {
  }

  lemma UnambiguousDigit(c: char)
    ensures c in "23456789" <==> '0' <= c <= '9' && c != '0' && c != '1'
  {
  }

  lemma UnambiguousOffers()
    ensures Offers(UNAMBIGUOUS, 60, "IOl01", "-_.")
  {
    var capitals, small := "ABCDEFGH" + "JKLMN" + "PQRSTUVWXYZ", "abcdefghijk" + "mnopqrstuvwxyz";
    assert UNAMBIGUOUS == capitals + small + "23456789" + "-_.";
    assert |capitals| == 24 && |small| == 25;
    forall c ensures c in UNAMBIGUOUS <==> (LetterOrDigit(c) && c !in "IOl01") || c in "-_." {
      UnambiguousCapital(c);
      UnambiguousSmall(c);
      UnambiguousDigit(c);
      assert c in capitals + small + "23456789" + "-_." <==>
        c in capitals || c in small || c in "23456789" || c in "-_.";
    }
  }

  /** Exactly the four profiles are known, and the empty name stands for the first. */
  lemma ProfilesAreListed(name: string)
    ensures Get(name).Ok? <==> name in {"", "default", "alnum", "password", "database"}
    ensures Get(name).Err? ==> Get(name).error == UnknownProfile(name)
    ensures Get(name).Ok? ==> Usable(Get(name).value) && Lists(Get(name).value)
    ensures Get(name).Ok? ==> Get(name).value.name == if name == "" then "default" else name
  {
    AlphanumericOffers();
    UnambiguousOffers();
  }

  // ----- Sampling as a function of the whole random stream -----

  function Limit(n: nat): (limit: nat)
    requires 1 <= n <= 256
    ensures limit % n == 0 && limit <= 256 < limit + n
  {
    LimitFacts(n);
    256 - 256 % n
  }

  lemma LimitFacts(n: nat)
    requires 1 <= n <= 256
    ensures 256 - 256 % n == (256 / n) * n && ((256 / n) * n) % n == 0
  {
    RemainderOf((256 / n) * n, 256 / n, 0, n);
  }

  /** Quotient and remainder are determined by q * n + r. */
  lemma RemainderOf(x: nat, q: nat, r: nat, n: nat)
    requires r < n && x == q * n + r
    ensures x / n == q && x % n == r
  {
    var q', r' := x / n, x % n;
    assert x == q' * n + r';
    assert (q - q') * n == r' - r;
    if q - q' >= 1 {
      TimesAtLeast(q - q', n);
    } else if q - q' <= -1 {
      TimesAtLeast(q' - q, n);
    }
  }

  lemma TimesAtLeast(k: nat, n: nat)
    requires k >= 1
    ensures k * n >= n
  {
  }

  lemma TimesMonotone(a: nat, b: nat, x: nat, y: nat)
    requires a <= b && x <= y
    ensures a * x <= b * y
  {
    assert b * y == a * x + (b - a) * x + b * (y - x);
  }

  /** The letters the acceptable bytes of a stream stand for, in order. */
  function Letters(stream: seq<Byte>, alphabet: string): string
    requires 1 <= |alphabet| <= 256
  {
    if stream == [] then ""
    else
      var b := stream[|stream| - 1];
      Letters(stream[..|stream| - 1], alphabet) +
      if b >= Limit(|alphabet|) then "" else [alphabet[b % |alphabet|]]
  }

  lemma {:induction false} LettersAreListed(stream: seq<Byte>, alphabet: string)
    requires 1 <= |alphabet| <= 256
    ensures forall i :: 0 <= i < |Letters(stream, alphabet)| ==>
            Letters(stream, alphabet)[i] in alphabet
    decreases |stream|
  {
    if stream != [] {
      LettersAreListed(stream[..|stream| - 1], alphabet);
    }
  }

  function Flatten(batches: seq<seq<Byte>>): seq<Byte> {
    if batches == [] then [] else Flatten(batches[..|batches| - 1]) + batches[|batches| - 1]
  }

  lemma {:induction false} LettersConcat(a: seq<Byte>, b: seq<Byte>, alphabet: string)
    requires 1 <= |alphabet| <= 256
    ensures Letters(a + b, alphabet) == Letters(a, alphabet) + Letters(b, alphabet)
    decreases |b|
  {
    if b == [] {
      assert a + b == a;
    } else {
      var init := b[..|b| - 1];
      assert (a + b)[..|a + b| - 1] == a + init;
      LettersConcat(a, init, alphabet);
    }
  }

  lemma LettersOfBatch(batches: seq<seq<Byte>>, k: nat, alphabet: string)
    requires k < |batches| && 1 <= |alphabet| <= 256
    ensures Letters(Flatten(batches[..k + 1]), alphabet)
         == Letters(Flatten(batches[..k]), alphabet) + Letters(batches[k], alphabet)
  {
    assert batches[..k + 1][..k] == batches[..k];
    LettersConcat(Flatten(batches[..k]), batches[k], alphabet);
  }

  lemma {:induction false} LettersPrefix(batches: seq<seq<Byte>>, k: nat, alphabet: string)
    requires k <= |batches| && 1 <= |alphabet| <= 256
    ensures Letters(Flatten(batches[..k]), alphabet) <= Letters(Flatten(batches), alphabet)
    decreases |batches| - k
  {
    if k < |batches| {
      LettersOfBatch(batches, k, alphabet);
      LettersPrefix(batches, k + 1, alphabet);
    } else {
      assert batches[..k] == batches;
    }
  }

  /** The number of letters the first `k` batches yield. */
  function Yield(batches: seq<seq<Byte>>, k: nat, alphabet: string): nat
    requires k <= |batches| && 1 <= |alphabet| <= 256
  {
    |Letters(Flatten(batches[..k]), alphabet)|
  }

  // ----- The batch loops -----

  /** `value` is the first `length` letters of the random stream, found in exactly the first
      `used` batches: one batch fewer would not have been enough. */
  ghost predicate DrawnFrom(value: string, length: nat, used: nat, batches: seq<seq<Byte>>, alphabet: string)
    requires 1 <= |alphabet| <= 256
  {
    var letters := Letters(Flatten(batches), alphabet);
    && |letters| >= length
    && value == letters[..length]
    && 0 < used <= |batches|
    && Yield(batches, used - 1, alphabet) < length <= Yield(batches, used, alphabet)
  }

  /** The strength in whole bits of a choice among `n` letters, `length` times over: the greatest
      power of two that is no more than the number of secrets has this exponent. */
  ghost predicate Measures(strength: int, n: nat, length: nat) {
    forall k: nat :: Power(2, k) <= Power(n, length) <==> k <= strength
  }

  /** A secret of the profile's length with the profile and its real strength, or a source that
      ran out before it had enough acceptable bytes. */
  ghost predicate Sampled(profile: Profile, batches: seq<seq<Byte>>, result: Result<(string, Profile)>, used: nat)
    requires Usable(profile)
  {
    match result
    case Err(error) =>
      error == RandomSourceFailed && |Letters(Flatten(batches), profile.alphabet)| < profile.length
    case Ok(drawn) =>
      && DrawnFrom(drawn.0, profile.length, used, batches, profile.alphabet)
      && drawn.1.name == profile.name && drawn.1.alphabet == profile.alphabet && drawn.1.length == profile.length
      && Measures(drawn.1.strengthBits, |profile.alphabet|, profile.length)
  }

  /** Draws a secret for a named profile.  The random source is the list of batches it will
      deliver; it fails when they run out. */
  method Generate(name: string, batches: seq<seq<Byte>>)
    returns (result: Result<(string, Profile)>, used: nat)
    ensures Get(name).Err? ==> result == Err(Get(name).error)
    ensures Get(name).Ok? ==>
              Sampled(Get(name).value, batches, result, used)
    ensures result.Ok? ==> Reports(name, result.value.0, result.value.1)
    ensures result.Ok? ==>
              forall k: nat ::
                Power(2, k) <= Power(|result.value.1.alphabet|, |result.value.0|) <==> k <= result.value.1.strengthBits
  {
    used := 0;
    var got := Get(name);
    if got.Err? {
      return Err(got.error), 0;
    }
    result, used := Sample(got.value, batches);
    ProfilesAreListed(name);
    if result.Ok? {
      SampledIsReported(name, got.value, batches, result, used);
    }
  }

  lemma SampledIsReported(name: string, profile: Profile, batches: seq<seq<Byte>>, result: Result<(string, Profile)>,
                          used: nat)
    requires Get(name) == Ok(profile) && Usable(profile) && Sampled(profile, batches, result, used) && result.Ok?
    ensures Reports(name, result.value.0, result.value.1)
    ensures Measures(result.value.1.strengthBits, |result.value.1.alphabet|, |result.value.0|)
  {
    ProfilesAreListed(name);
    var secret, letters := result.value.0, Letters(Flatten(batches), profile.alphabet);
    assert |secret| == profile.length && secret == letters[..profile.length];
    LettersAreListed(Flatten(batches), profile.alphabet);
  }

  /** What is reported with a secret: the profile asked for, with the alphabet and length that the
      secret was drawn with. */
  ghost predicate Reports(name: string, secret: string, profile: Profile) {
    && profile.name == (if name == "" then "default" else name)
    && Lists(profile) && |secret| == profile.length
    && forall i :: 0 <= i < |secret| ==> secret[i] in profile.alphabet
  }

  method Sample(profile: Profile, batches: seq<seq<Byte>>)
    returns (result: Result<(string, Profile)>, used: nat)
    requires Usable(profile)
    ensures Sampled(profile, batches, result, used)
  {
    var alphabet := profile.alphabet;
    var value := new char[profile.length];
    var limit := 256 - (256 % |alphabet|);
    assert limit == Limit(|alphabet|);
    var written := 0;
    ghost var letters := "";
    used := 0;
    while written < value.Length
      invariant used <= |batches| && written <= value.Length && written <= |letters|
      invariant letters == Letters(Flatten(batches[..used]), alphabet)
      invariant written < value.Length ==> written == |letters|
      invariant value[..written] == letters[..written]
      invariant written == value.Length ==> used > 0 && Yield(batches, used - 1, alphabet) < profile.length
      decreases |batches| - used
    {
      if used == |batches| {
        assert batches[..used] == batches;
        return Err(RandomSourceFailed), used;
      }
      var random := batches[used];
      LettersOfBatch(batches, used, alphabet);
      assert value[..written] == letters;
      written := Fill(value, written, random, alphabet, limit, letters);
      letters := letters + Letters(random, alphabet);
      used := used + 1;
    }
    LettersPrefix(batches, used, alphabet);
    StrengthIsGreatest(|alphabet|, profile.length);
    result := Ok((value[..], profile.(strengthBits := StrengthBits(|alphabet|, profile.length))));
  }

  /** The inner loop: the letters of one batch, up to the end of the secret. */
  method Fill(value: array<char>, start: nat, random: seq<Byte>, alphabet: string, limit: nat, ghost before: string)
    returns (written: nat)
    requires 1 <= |alphabet| <= 256 && limit == Limit(|alphabet|)
    requires start == |before| < value.Length && value[..start] == before
    modifies value
    ensures start <= written <= value.Length
    ensures var letters := before + Letters(random, alphabet);
            && written <= |letters|
            && value[..written] == letters[..written]
            && (written < value.Length ==> written == |letters|)
  {
    written := start;
    for i := 0 to |random|
      invariant start <= written < value.Length
      invariant value[..written] == before + Letters(random[..i], alphabet)
    {
      assert random[..i + 1][..i] == random[..i];
      var candidate := random[i];
      if candidate >= limit {
        continue;
      }
      value[written] := alphabet[candidate % |alphabet|];
      written := written + 1;
      assert value[..written] == before + Letters(random[..i + 1], alphabet);
      if written == value.Length {
        assert random == random[..i + 1] + random[i + 1..];
        LettersConcat(random[..i + 1], random[i + 1..], alphabet);
        break;
      }
    }
    assert random[..|random|] == random;
  }

  /** Some byte of the batch is acceptable. */
  ghost predicate Helps(batch: seq<Byte>, n: nat)
    requires 1 <= n <= 256
  {
    exists i :: 0 <= i < |batch| && batch[i] < Limit(n)
  }

  lemma {:induction false} HelpfulBatchYields(batch: seq<Byte>, alphabet: string)
    requires 1 <= |alphabet| <= 256 && Helps(batch, |alphabet|)
    ensures Letters(batch, alphabet) != ""
    decreases |batch|
  {
    var init := batch[..|batch| - 1];
    if batch[|batch| - 1] >= Limit(|alphabet|) {
      var i :| 0 <= i < |batch| && batch[i] < Limit(|alphabet|);
      assert init[i] == batch[i];
      HelpfulBatchYields(init, alphabet);
    }
  }

  /** If each of the first `k` batches holds an acceptable byte, they yield `k` letters: a
      secret of length L is done within L helpful batches. */
  lemma {:induction false} HelpfulBatchesFinish(batches: seq<seq<Byte>>, k: nat, alphabet: string)
    requires 1 <= |alphabet| <= 256 && k <= |batches|
    requires forall i :: 0 <= i < k ==> Helps(batches[i], |alphabet|)
    ensures Yield(batches, k, alphabet) >= k
    decreases k
  {
    if k > 0 {
      HelpfulBatchesFinish(batches, k - 1, alphabet);
      LettersOfBatch(batches, k - 1, alphabet);
      HelpfulBatchYields(batches[k - 1], alphabet);
    }
  }

  lemma YieldGrows(batches: seq<seq<Byte>>, j: nat, k: nat, alphabet: string)
    requires 1 <= |alphabet| <= 256 && j <= k <= |batches|
    ensures Yield(batches, j, alphabet) <= Yield(batches, k, alphabet)
  {
    assert batches[..k][..j] == batches[..j];
    LettersPrefix(batches[..k], j, alphabet);
  }

  /** When every batch helps, a secret of length L never takes more than L batches, and L
      batches are always enough. */
  lemma FinishesWithinLength(value: string, length: nat, used: nat, batches: seq<seq<Byte>>, alphabet: string)
    requires 1 <= |alphabet| <= 256
    requires forall i :: 0 <= i < |batches| ==> Helps(batches[i], |alphabet|)
    ensures DrawnFrom(value, length, used, batches, alphabet) ==> used <= length
    ensures |batches| >= length ==> |Letters(Flatten(batches), alphabet)| >= length
  {
    if |batches| >= length {
      HelpfulBatchesFinish(batches, length, alphabet);
      LettersPrefix(batches, length, alphabet);
      if length < used <= |batches| {
        YieldGrows(batches, length, used - 1, alphabet);
      }
    }
  }

  // ----- Strength -----

  function Power(base: nat, exponent: nat): nat {
    if exponent == 0 then 1 else base * Power(base, exponent - 1)
  }

  lemma {:induction false} PowerPositive(base: nat, exponent: nat)
    requires base >= 1
    ensures Power(base, exponent) >= 1
  {
    if exponent > 0 {
      PowerPositive(base, exponent - 1);
    }
  }

  /** The whole number of bits in a choice among `count` possibilities. */
  function Bits(count: nat): (k: nat)
    requires count >= 1
    ensures Power(2, k) <= count < Power(2, k + 1)
  {
    if count == 1 then 0 else 1 + Bits(count / 2)
  }

  lemma {:induction false} PowerMonotone(base: nat, k: nat, m: nat)
    requires base >= 1 && k <= m
    ensures Power(base, k) <= Power(base, m)
    decreases m
  {
    if k < m {
      PowerMonotone(base, k, m - 1);
      PowerPositive(base, m - 1);
      TimesAtLeast(base, Power(base, m - 1));
    }
  }

  function StrengthBits(n: nat, length: nat): nat
    requires n >= 1
  {
    PowerPositive(n, length);
    Bits(Power(n, length))
  }

  /** The strength computed is the greatest k with 2^k no more than the number of secrets. */
  lemma {:induction false} StrengthIsGreatest(n: nat, length: nat)
    requires n >= 1
    ensures Measures(StrengthBits(n, length), n, length)
  {
    PowerPositive(n, length);
    var s := StrengthBits(n, length);
    forall k: nat ensures Power(2, k) <= Power(n, length) <==> k <= s {
      if k <= s {
        PowerMonotone(2, k, s);
      } else {
        PowerMonotone(2, s + 1, k);
      }
    }
  }

  /** Only one number measures. */
  lemma MeasureIsOne(strength: int, strength': int, n: nat, length: nat)
    requires n >= 1 && Measures(strength, n, length) && Measures(strength', n, length)
    ensures strength == strength' >= 0
  {
    PowerPositive(n, length);
    assert Power(2, 0) <= Power(n, length);
    var k: nat, k': nat := strength, strength';
    assert Power(2, k) <= Power(n, length) && Power(2, k') <= Power(n, length);
  }

  lemma {:induction false} PowerBaseMonotone(a: nat, b: nat, exponent: nat)
    requires a <= b
    ensures Power(a, exponent) <= Power(b, exponent)
  {
    if exponent > 0 {
      PowerBaseMonotone(a, b, exponent - 1);
      TimesMonotone(a, b, Power(a, exponent - 1), Power(b, exponent - 1));
    }
  }

  lemma {:induction false} PowerOfPower(base: nat, m: nat, exponent: nat)
    ensures Power(Power(base, m), exponent) == Power(base, m * exponent)
    decreases exponent
  {
    if exponent == 0 {
      assert m * 0 == 0;
    } else {
      PowerOfPower(base, m, exponent - 1);
      PowerSum(base, m, m * (exponent - 1));
      assert m + m * (exponent - 1) == m * exponent;
    }
  }

  lemma {:induction false} PowerSum(base: nat, a: nat, b: nat)
    ensures Power(base, a) * Power(base, b) == Power(base, a + b)
    decreases a
  {
    if a > 0 {
      PowerSum(base, a - 1, b);
      assert base * (Power(base, a - 1) * Power(base, b)) == (base * Power(base, a - 1)) * Power(base, b);
    }
  }

  /** Every profile gives at least the promised 200 bits. */
  lemma ProfilesAreStrong(name: string, strength: int)
    requires Get(name).Ok? && Measures(strength, |Get(name).value.alphabet|, Get(name).value.length)
    ensures strength >= 200
  {
    var profile := Get(name).value;
    var n := |profile.alphabet|;
    assert Power(2, 5) == 32;
    PowerOfPower(2, 5, 40);
    PowerBaseMonotone(32, n, 40);
    PowerMonotone(n, 40, profile.length);
    assert Power(2, 200) <= Power(n, profile.length);
  }
}
