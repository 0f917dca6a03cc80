/** Rejection sampling is exactly uniform: every secret arises from the same number of
    sequences of accepted bytes. */
module GeneratorUniform {
  import opened Generator
  import opened Counting

  ghost predicate Distinct(alphabet: string) {
    forall i, j :: 0 <= i < j < |alphabet| ==> alphabet[i] != alphabet[j]
  }

  // ----- Bytes that stand for one letter -----

  ghost function WithRemainder(n: nat, r: nat, bound: nat): set<Byte>
    requires n >= 1
  {
    set b: Byte | 0 <= b < bound && b % n == r
  }

  /** Among the first q * n bytes each remainder occurs q times. */
  lemma {:induction false} RemainderCount(n: nat, r: nat, q: nat)
    requires r < n && q * n <= 256
    ensures |WithRemainder(n, r, q * n)| == q
    decreases q
  {
    if q == 0 {
      assert WithRemainder(n, r, 0) == {};
    } else {
      var p := q - 1;
      assert q * n == p * n + n;
      RemainderCount(n, r, p);
      var last := p * n + r;
      RemainderOf(last, p, r, n);
      forall b: Byte | p * n <= b < q * n && b % n == r ensures b == last {
        RemainderOf(b, p, b - p * n, n);
      }
      assert WithRemainder(n, r, q * n) == WithRemainder(n, r, p * n) + {last};
      assert last !in WithRemainder(n, r, p * n);
    }
  }

  /** The accepted bytes that stand for the letter `c`. */
  ghost function BytesFor(alphabet: string, c: char): set<Byte>
    requires 1 <= |alphabet| <= 256
  {
    set b: Byte | 0 <= b < Limit(|alphabet|) && alphabet[b % |alphabet|] == c
  }

  lemma BytesForCount(alphabet: string, c: char)
    requires 1 <= |alphabet| <= 256 && Distinct(alphabet)
    ensures |BytesFor(alphabet, c)| == if c in alphabet then 256 / |alphabet| else 0
  {
    var n := |alphabet|;
    LimitFacts(n);
    if c in alphabet {
      var r: nat :| r < n && alphabet[r] == c;
      RemainderCount(n, r, 256 / n);
      assert BytesFor(alphabet, c) == WithRemainder(n, r, (256 / n) * n);
    } else {
      assert BytesFor(alphabet, c) == {};
    }
  }

  // ----- Sequences that stand for one secret -----

  ghost predicate Accepted(stream: seq<Byte>, n: nat)
    requires 1 <= n <= 256
  {
    forall i :: 0 <= i < |stream| ==> stream[i] < Limit(n)
  }

  ghost function Extend(prefixes: set<seq<Byte>>, bytes: set<Byte>): set<seq<Byte>> {
    set s, b | s in prefixes && b in bytes :: s + [b]
  }

  lemma ExtendIn(prefixes: set<seq<Byte>>, bytes: set<Byte>, x: seq<Byte>)
    ensures x in Extend(prefixes, bytes) <==> x != [] && x[..|x| - 1] in prefixes && x[|x| - 1] in bytes
  {
    if x != [] {
      assert x == x[..|x| - 1] + [x[|x| - 1]];
    }
    if x in Extend(prefixes, bytes) {
      var s, b :| s in prefixes && b in bytes && x == s + [b];
      assert x[..|x| - 1] == s;
    }
  }

  lemma ExtendSize(prefixes: set<seq<Byte>>, bytes: set<Byte>)
    ensures |Extend(prefixes, bytes)| == |prefixes| * |bytes|
  {
    var join := (p: (seq<Byte>, Byte)) => p.0 + [p.1];
    forall p, q | p in Pairs(prefixes, bytes) && q in Pairs(prefixes, bytes) && join(p) == join(q) ensures p == q {
      SnocDetermines(p.0, p.1, q.0, q.1);
    }
    PairsSize(prefixes, bytes);
    ImageSize(Pairs(prefixes, bytes), join);
    forall x ensures x in Extend(prefixes, bytes) <==> x in Image(Pairs(prefixes, bytes), join) {
      if x in Extend(prefixes, bytes) {
        var s, b :| s in prefixes && b in bytes && x == s + [b];
        assert (s, b) in Pairs(prefixes, bytes) && join((s, b)) == x;
      }
    }
    assert Extend(prefixes, bytes) == Image(Pairs(prefixes, bytes), join);
  }

  lemma SnocDetermines(s: seq<Byte>, b: Byte, t: seq<Byte>, c: Byte)
    requires s + [b] == t + [c]
    ensures s == t && b == c
  {
    assert (s + [b])[..|s|] == s && (t + [c])[..|t|] == t && (s + [b])[|s|] == b && (t + [c])[|t|] == c;
  }

  /** The sequences of accepted bytes, as long as the secret, that yield it. */
  ghost function Sources(alphabet: string, secret: string): set<seq<Byte>>
    requires 1 <= |alphabet| <= 256
  {
    if secret == "" then {[]}
    else
      Extend(Sources(alphabet, secret[..|secret| - 1]), BytesFor(alphabet, secret[|secret| - 1]))
  }

  ghost predicate Yields(stream: seq<Byte>, alphabet: string, secret: string)
    requires 1 <= |alphabet| <= 256
  {
    |stream| == |secret| && Accepted(stream, |alphabet|) && Letters(stream, alphabet) == secret
  }

  lemma LettersSnoc(s: seq<Byte>, b: Byte, alphabet: string)
    requires 1 <= |alphabet| <= 256 && b < Limit(|alphabet|)
    ensures Letters(s + [b], alphabet) == Letters(s, alphabet) + [alphabet[b % |alphabet|]]
  {
    assert (s + [b])[..|s|] == s;
  }

  lemma SourcesSnoc(alphabet: string, secret: string, stream: seq<Byte>)
    requires 1 <= |alphabet| <= 256 && secret != ""
    ensures stream in Sources(alphabet, secret) <==>
            stream != [] && stream[..|stream| - 1] in Sources(alphabet, secret[..|secret| - 1]) &&
            stream[|stream| - 1] in BytesFor(alphabet, secret[|secret| - 1])
  {
    ExtendIn(Sources(alphabet, secret[..|secret| - 1]), BytesFor(alphabet, secret[|secret| - 1]), stream);
  }

  lemma SnocEqual(s: string, t: string, c: char, d: char)
    ensures s + [c] == t + [d] <==> s == t && c == d
  {
    assert (s + [c])[..|s|] == s && (t + [d])[..|t|] == t && (s + [c])[|s|] == c && (t + [d])[|t|] == d;
  }

  lemma AcceptedSnoc(s: seq<Byte>, b: Byte, n: nat)
    requires 1 <= n <= 256
    ensures Accepted(s + [b], n) <==> Accepted(s, n) && b < Limit(n)
  {
    assert (s + [b])[|s|] == b && forall i :: 0 <= i < |s| ==> (s + [b])[i] == s[i];
  }

  lemma YieldsSnoc(alphabet: string, init: string, c: char, s: seq<Byte>, b: Byte)
    requires 1 <= |alphabet| <= 256
    ensures Yields(s + [b], alphabet, init + [c]) <==> Yields(s, alphabet, init) && b in BytesFor(alphabet, c)
  {
    AcceptedSnoc(s, b, |alphabet|);
    if b < Limit(|alphabet|) {
      LettersSnoc(s, b, alphabet);
      SnocEqual(Letters(s, alphabet), init, alphabet[b % |alphabet|], c);
    }
  }

  lemma {:induction false} SourcesAreThose(alphabet: string, secret: string, stream: seq<Byte>)
    requires 1 <= |alphabet| <= 256
    ensures stream in Sources(alphabet, secret) <==> Yields(stream, alphabet, secret)
    decreases |secret|
  {
    if secret != "" && stream != [] {
      var init, c := secret[..|secret| - 1], secret[|secret| - 1];
      var s, b := stream[..|stream| - 1], stream[|stream| - 1];
      assert secret == init + [c] && stream == s + [b];
      SourcesSnoc(alphabet, secret, stream);
      SourcesAreThose(alphabet, init, s);
      YieldsSnoc(alphabet, init, c, s, b);
    } else if secret != "" {
      SourcesSnoc(alphabet, secret, stream);
    }
  }

  ghost predicate OverAlphabet(secret: string, alphabet: string) {
    forall i :: 0 <= i < |secret| ==> secret[i] in alphabet
  }

  lemma {:induction false} SourcesCount(alphabet: string, secret: string)
    requires 1 <= |alphabet| <= 256 && Distinct(alphabet) && OverAlphabet(secret, alphabet)
    ensures |Sources(alphabet, secret)| == Power(256 / |alphabet|, |secret|)
    decreases |secret|
  {
    if secret != "" {
      var init, c := secret[..|secret| - 1], secret[|secret| - 1];
      assert OverAlphabet(init, alphabet) && c in alphabet;
      SourcesCount(alphabet, init);
      LastLetterCount(alphabet, secret);
      PowerNext(256 / |alphabet|, |init|, |Sources(alphabet, init)|, |Sources(alphabet, secret)|);
    }
  }

  lemma PowerNext(base: nat, n: nat, before: nat, after: nat)
    requires before == Power(base, n) && after == before * base
    ensures after == Power(base, n + 1)
  {
  }

  lemma LastLetterCount(alphabet: string, secret: string)
    requires 1 <= |alphabet| <= 256 && Distinct(alphabet) && secret != "" && secret[|secret| - 1] in alphabet
    ensures |Sources(alphabet, secret)| == |Sources(alphabet, secret[..|secret| - 1])| * (256 / |alphabet|)
  {
    var c := secret[|secret| - 1];
    BytesForCount(alphabet, c);
    ExtendSize(Sources(alphabet, secret[..|secret| - 1]), BytesFor(alphabet, c));
  }

  /** Uniformity: the set of accepted byte sequences that yield a secret has the same size for
      every secret of that length over the alphabet. */
  lemma SamplingIsUniform(alphabet: string, secret: string, sources: set<seq<Byte>>)
    requires 1 <= |alphabet| <= 256 && Distinct(alphabet) && OverAlphabet(secret, alphabet)
    requires forall s :: s in sources <==> Yields(s, alphabet, secret)
    ensures |sources| == Power(256 / |alphabet|, |secret|)
  {
    SourcesCount(alphabet, secret);
    forall s ensures s in sources <==> s in Sources(alphabet, secret) {
      SourcesAreThose(alphabet, secret, s);
    }
    assert sources == Sources(alphabet, secret);
  }

  // ----- The listed profiles -----

  /** A rank that the profile alphabets list in increasing order. */
  function Rank(c: char): nat {
    if 'A' <= c <= 'Z' then c as nat - 'A' as nat
    else if 'a' <= c <= 'z' then 26 + c as nat - 'a' as nat
    else if '0' <= c <= '9' then 52 + c as nat - '0' as nat
    else if c == '-' then 62
    else if c == '_' then 63
    else 64
  }

  /** Letters in increasing rank order, with ranks from `lo` up to but not including `hi`. */
  ghost predicate Ascending(s: string, lo: nat, hi: nat) {
    && (forall i :: 0 <= i < |s| ==> lo <= Rank(s[i]) < hi)
    && (forall i, j :: 0 <= i < j < |s| ==> Rank(s[i]) < Rank(s[j]))
  }

  lemma AscendingJoin(a: string, b: string, lo: nat, mid: nat, hi: nat)
    requires lo <= mid <= hi && Ascending(a, lo, mid) && Ascending(b, mid, hi)
    ensures Ascending(a + b, lo, hi)
  {
  }

  lemma BasicsAscending()
    ensures Ascending(UPPER, 0, 26) && Ascending(LOWER, 26, 52) && Ascending(DIGITS, 52, 62)
  {
    assert forall i :: 0 <= i < 26 ==> Rank(UPPER[i]) == i;
    assert forall i :: 0 <= i < 26 ==> Rank(LOWER[i]) == 26 + i;
    assert forall i :: 0 <= i < 10 ==> Rank(DIGITS[i]) == 52 + i;
  }

  lemma UrlSafeAscending()
    ensures Ascending(ALPHANUMERIC, 0, 62) && Ascending(URL_SAFE, 0, 64)
  {
    BasicsAscending();
    AscendingJoin(UPPER, LOWER, 0, 26, 52);
    AscendingJoin(UPPER + LOWER, DIGITS, 0, 52, 62);
    AscendingJoin(UPPER + LOWER + DIGITS, "-_", 0, 62, 64);
  }

  lemma UnambiguousCapitals()
    ensures Ascending("ABCDEFGH" + "JKLMN" + "PQRSTUVWXYZ", 0, 26)
  {
    var a, b, c := "ABCDEFGH", "JKLMN", "PQRSTUVWXYZ";
    assert forall i :: 0 <= i < 8 ==> Rank(a[i]) == i;
    assert forall i :: 0 <= i < 5 ==> Rank(b[i]) == 9 + i;
    assert forall i :: 0 <= i < 11 ==> Rank(c[i]) == 15 + i;
    AscendingJoin(a, b, 0, 9, 15);
    AscendingJoin(a + b, c, 0, 15, 26);
  }

  lemma UnambiguousOthers()
    ensures Ascending("abcdefghijk" + "mnopqrstuvwxyz" + "23456789" + "-_.", 26, 65)
  {
    var d, e, f, g := "abcdefghijk", "mnopqrstuvwxyz", "23456789", "-_.";
    assert forall i :: 0 <= i < 11 ==> Rank(d[i]) == 26 + i;
    assert forall i :: 0 <= i < 14 ==> Rank(e[i]) == 38 + i;
    assert forall i :: 0 <= i < 8 ==> Rank(f[i]) == 54 + i;
    AscendingJoin(d, e, 26, 38, 54);
    AscendingJoin(d + e, f, 26, 54, 62);
    AscendingJoin(d + e + f, g, 26, 62, 65);
  }

  lemma UnambiguousAscending()
    ensures Ascending(UNAMBIGUOUS, 0, 65)
  {
    var capitals, others := "ABCDEFGH" + "JKLMN" + "PQRSTUVWXYZ", "abcdefghijk" + "mnopqrstuvwxyz" + "23456789" + "-_.";
    UnambiguousCapitals();
    UnambiguousOthers();
    AscendingJoin(capitals, others, 0, 26, 65);
    assert UNAMBIGUOUS == capitals + others;
  }

  /** No profile lists a letter twice, so uniformity holds for each of them. */
  lemma ProfilesAreDistinct(name: string)
    requires Get(name).Ok?
    ensures Distinct(Get(name).value.alphabet)
  {
    UrlSafeAscending();
    UnambiguousAscending();
  }
}
