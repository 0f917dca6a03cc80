/** Rejection counted as well: of all random streams of one length, equally many begin to draw each
    secret. */
module GeneratorStreams {
  import opened Generator
  import opened GeneratorUniform
  import opened Counting

  // ----- Streams by their first byte -----

  ghost function Prepend(bytes: set<Byte>, tails: set<seq<Byte>>): set<seq<Byte>> {
    set b, s | b in bytes && s in tails :: [b] + s
  }

  lemma PrependIn(bytes: set<Byte>, tails: set<seq<Byte>>, x: seq<Byte>)
    ensures x in Prepend(bytes, tails) <==> x != [] && x[0] in bytes && x[1..] in tails
  {
    if x != [] {
      assert x == [x[0]] + x[1..];
    }
    if x in Prepend(bytes, tails) {
      var b, s :| b in bytes && s in tails && x == [b] + s;
      assert x[1..] == s;
    }
  }

  lemma PrependSize(bytes: set<Byte>, tails: set<seq<Byte>>)
    ensures |Prepend(bytes, tails)| == |bytes| * |tails|
  {
    var join := (p: (Byte, seq<Byte>)) => [p.0] + p.1;
    forall p, q | p in Pairs(bytes, tails) && q in Pairs(bytes, tails) && join(p) == join(q) ensures p == q {
      assert join(p)[0] == p.0 && join(q)[0] == q.0 && join(p)[1..] == p.1 && join(q)[1..] == q.1;
    }
    PairsSize(bytes, tails);
    ImageSize(Pairs(bytes, tails), join);
    forall x ensures x in Prepend(bytes, tails) <==> x in Image(Pairs(bytes, tails), join) {
      if x in Prepend(bytes, tails) {
        var b, s :| b in bytes && s in tails && x == [b] + s;
        assert (b, s) in Pairs(bytes, tails) && join((b, s)) == x;
      }
    }
    assert Prepend(bytes, tails) == Image(Pairs(bytes, tails), join);
  }

  // ----- How many bytes there are -----

  ghost function AllBytes(): set<Byte> {
    WithRemainder(1, 0, 256)
  }

  lemma InAllBytes(b: Byte)
    ensures b in AllBytes()
  {
  }

  ghost function Accepting(n: nat): set<Byte>
    requires 1 <= n <= 256
  {
    WithRemainder(1, 0, Limit(n))
  }

  ghost function Rejected(n: nat): set<Byte>
    requires 1 <= n <= 256
  {
    AllBytes() - Accepting(n)
  }

  lemma ByteCounts(n: nat)
    requires 1 <= n <= 256
    ensures |AllBytes()| == 256 && |Rejected(n)| == 256 % n
  {
    RemainderCount(1, 0, 256);
    RemainderCount(1, 0, Limit(n));
    assert AllBytes() == Accepting(n) + Rejected(n);
  }

  // ----- The streams that begin to draw a secret -----

  lemma LettersOne(b: Byte, alphabet: string)
    requires 1 <= |alphabet| <= 256
    ensures Letters([b], alphabet) == if b >= Limit(|alphabet|) then "" else [alphabet[b % |alphabet|]]
  {
    assert [b][..0] == [] && Letters([], alphabet) == "";
  }

  lemma LettersCons(b: Byte, s: seq<Byte>, alphabet: string)
    requires 1 <= |alphabet| <= 256
    ensures Letters([b] + s, alphabet) ==
            (if b >= Limit(|alphabet|) then "" else [alphabet[b % |alphabet|]]) + Letters(s, alphabet)
  {
    LettersConcat([b], s, alphabet);
    LettersOne(b, alphabet);
  }

  lemma PrefixCons(c: char, s: string, t: string)
    requires t != ""
    ensures t <= [c] + s <==> t[0] == c && t[1..] <= s
  {
    assert t == [t[0]] + t[1..] && ([c] + s)[1..] == s;
    if t <= [c] + s {
      assert t[1..] == ([c] + s)[..|t|][1..] == s[..|t| - 1];
    }
    if t[0] == c && t[1..] <= s {
      assert ([c] + s)[..|t|] == [c] + s[..|t| - 1] == t;
    }
  }

  /** The first letters that `stream` gives are the secret. */
  ghost predicate Draws(stream: seq<Byte>, alphabet: string, secret: string)
    requires 1 <= |alphabet| <= 256
  {
    secret <= Letters(stream, alphabet)
  }

  lemma DrawsCons(b: Byte, s: seq<Byte>, alphabet: string, secret: string)
    requires 1 <= |alphabet| <= 256 && secret != ""
    ensures Draws([b] + s, alphabet, secret) <==>
            if b >= Limit(|alphabet|) then Draws(s, alphabet, secret)
            else alphabet[b % |alphabet|] == secret[0] && Draws(s, alphabet, secret[1..])
  {
    LettersCons(b, s, alphabet);
    if b >= Limit(|alphabet|) {
      assert "" + Letters(s, alphabet) == Letters(s, alphabet);
    } else {
      PrefixCons(alphabet[b % |alphabet|], Letters(s, alphabet), secret);
    }
  }

  /** All streams of `size` bytes. */
  ghost function Streams(size: nat): set<seq<Byte>> {
    if size == 0 then {[]} else Prepend(AllBytes(), Streams(size - 1))
  }

  lemma {:induction false} StreamsAreAll(size: nat, x: seq<Byte>)
    ensures x in Streams(size) <==> |x| == size
    decreases size
  {
    if size > 0 {
      PrependIn(AllBytes(), Streams(size - 1), x);
      if x != [] {
        StreamsAreAll(size - 1, x[1..]);
      }
    }
  }

  lemma {:induction false} StreamsCount(size: nat)
    ensures |Streams(size)| == Power(256, size)
    decreases size
  {
    if size > 0 {
      StreamsCount(size - 1);
      ByteCounts(1);
      PrependSize(AllBytes(), Streams(size - 1));
    }
  }

  /** A rejected byte before a stream of `s`, or a byte for `c` before one of `t`. */
  ghost function Joined(alphabet: string, c: char, s: set<seq<Byte>>, t: set<seq<Byte>>): set<seq<Byte>>
    requires 1 <= |alphabet| <= 256
  {
    Prepend(Rejected(|alphabet|), s) + Prepend(BytesFor(alphabet, c), t)
  }

  lemma JoinedIn(alphabet: string, c: char, s: set<seq<Byte>>, t: set<seq<Byte>>, x: seq<Byte>)
    requires 1 <= |alphabet| <= 256
    ensures x in Joined(alphabet, c, s, t) <==>
            x != [] &&
            if x[0] >= Limit(|alphabet|) then x[1..] in s else alphabet[x[0] % |alphabet|] == c && x[1..] in t
  {
    PrependIn(Rejected(|alphabet|), s, x);
    PrependIn(BytesFor(alphabet, c), t, x);
    if x != [] {
      InAllBytes(x[0]);
    }
  }

  lemma DisjointPrepends(first: set<Byte>, others: set<Byte>, s: set<seq<Byte>>, t: set<seq<Byte>>)
    requires first !! others
    ensures |Prepend(first, s) + Prepend(others, t)| == Times(|first|, |s|) + Times(|others|, |t|)
  {
    PrependSize(first, s);
    PrependSize(others, t);
    TimesIsProduct(|first|, |s|);
    TimesIsProduct(|others|, |t|);
    forall x | x in Prepend(first, s) ensures x !in Prepend(others, t) {
      PrependIn(first, s, x);
      PrependIn(others, t, x);
    }
  }

  /** Of all bytes `rejected` are refused, and each letter has `each` bytes. */
  ghost predicate Split(alphabet: string, rejected: nat, each: nat)
    requires 1 <= |alphabet| <= 256
  {
    |Rejected(|alphabet|)| == rejected && forall c :: c in alphabet ==> |BytesFor(alphabet, c)| == each
  }

  lemma AlphabetSplits(alphabet: string)
    requires 1 <= |alphabet| <= 256 && Distinct(alphabet)
    ensures Split(alphabet, 256 % |alphabet|, 256 / |alphabet|)
  {
    ByteCounts(|alphabet|);
    forall c | c in alphabet ensures |BytesFor(alphabet, c)| == 256 / |alphabet| {
      BytesForCount(alphabet, c);
    }
  }

  /** The streams that start with a rejected byte before one of `s` or a byte for `c` before one of
      `t`, and how many they are. */
  lemma Join(alphabet: string, c: char, s: set<seq<Byte>>, t: set<seq<Byte>>, rejected: nat, each: nat)
    returns (joined: set<seq<Byte>>)
    requires 1 <= |alphabet| <= 256 && Split(alphabet, rejected, each) && c in alphabet
    ensures |joined| == Times(rejected, |s|) + Times(each, |t|)
    ensures forall x :: x in joined <==> Starts(alphabet, c, s, t, x)
  {
    joined := Joined(alphabet, c, s, t);
    DisjointPrepends(Rejected(|alphabet|), BytesFor(alphabet, c), s, t);
    forall x ensures x in joined <==> Starts(alphabet, c, s, t, x) {
      JoinedIn(alphabet, c, s, t, x);
    }
  }

  ghost predicate Starts(alphabet: string, c: char, s: set<seq<Byte>>, t: set<seq<Byte>>, x: seq<Byte>)
    requires 1 <= |alphabet| <= 256
  {
    x != [] && if x[0] >= Limit(|alphabet|) then x[1..] in s else alphabet[x[0] % |alphabet|] == c && x[1..] in t
  }

  /** The set holds exactly the streams of `size` bytes that draw the secret. */
  ghost predicate AllDrawing(streams: set<seq<Byte>>, alphabet: string, secret: string, size: nat)
    requires 1 <= |alphabet| <= 256
  {
    forall x :: x in streams <==> |x| == size && Draws(x, alphabet, secret)
  }

  lemma JoinDraws(alphabet: string, secret: string, size: nat, s: set<seq<Byte>>, t: set<seq<Byte>>, x: seq<Byte>)
    requires 1 <= |alphabet| <= 256 && secret != "" && size > 0
    requires AllDrawing(s, alphabet, secret, size - 1) && AllDrawing(t, alphabet, secret[1..], size - 1)
    ensures Starts(alphabet, secret[0], s, t, x) <==> |x| == size && Draws(x, alphabet, secret)
  {
    if x != [] {
      assert x == [x[0]] + x[1..];
      DrawsCons(x[0], x[1..], alphabet, secret);
    }
  }

  lemma JoinIsAll(alphabet: string, secret: string, size: nat, s: set<seq<Byte>>, t: set<seq<Byte>>,
                  joined: set<seq<Byte>>)
    requires 1 <= |alphabet| <= 256 && secret != "" && size > 0
    requires AllDrawing(s, alphabet, secret, size - 1) && AllDrawing(t, alphabet, secret[1..], size - 1)
    requires forall x :: x in joined <==> Starts(alphabet, secret[0], s, t, x)
    ensures AllDrawing(joined, alphabet, secret, size)
  {
    forall x ensures x in joined <==> |x| == size && Draws(x, alphabet, secret) {
      JoinDraws(alphabet, secret, size, s, t, x);
    }
  }

  /** How many streams of `size` bytes begin to draw one given secret of `length` letters: by their
      first byte, which is one of the `rejected`, or one of `each` for the first letter. */
  function StreamCount(rejected: nat, each: nat, size: nat, length: nat): nat
    decreases size
  {
    if length == 0 then Power(256, size)
    else if size == 0 then 0
    else
      Times(rejected, StreamCount(rejected, each, size - 1, length)) +
      Times(each, StreamCount(rejected, each, size - 1, length - 1))
  }

  lemma OverAlphabetTail(secret: string, alphabet: string)
    requires secret != "" && OverAlphabet(secret, alphabet)
    ensures secret[0] in alphabet && OverAlphabet(secret[1..], alphabet)
  {
  }

  lemma EmptyDraws(alphabet: string, size: nat)
    requires 1 <= |alphabet| <= 256
    ensures AllDrawing(Streams(size), alphabet, "", size)
  {
    forall x ensures x in Streams(size) <==> |x| == size {
      StreamsAreAll(size, x);
    }
  }

  lemma NoneDraws(alphabet: string, secret: string)
    requires 1 <= |alphabet| <= 256 && secret != ""
    ensures AllDrawing({}, alphabet, secret, 0)
  {
  }

  lemma CountByFirst(alphabet: string, secret: string, size: nat, rejected: nat, each: nat, s: set<seq<Byte>>,
                     t: set<seq<Byte>>)
    returns (streams: set<seq<Byte>>)
    requires 1 <= |alphabet| <= 256 && Split(alphabet, rejected, each) && secret != "" && secret[0] in alphabet
    requires size > 0 && AllDrawing(s, alphabet, secret, size - 1) && AllDrawing(t, alphabet, secret[1..], size - 1)
    requires |s| == StreamCount(rejected, each, size - 1, |secret|)
    requires |t| == StreamCount(rejected, each, size - 1, |secret| - 1)
    ensures AllDrawing(streams, alphabet, secret, size) && |streams| == StreamCount(rejected, each, size, |secret|)
  {
    streams := Join(alphabet, secret[0], s, t, rejected, each);
    JoinIsAll(alphabet, secret, size, s, t, streams);
  }

  lemma {:induction false} CountDrawing(alphabet: string, secret: string, size: nat, rejected: nat, each: nat)
    returns (streams: set<seq<Byte>>)
    requires 1 <= |alphabet| <= 256 && Split(alphabet, rejected, each) && OverAlphabet(secret, alphabet)
    ensures AllDrawing(streams, alphabet, secret, size) && |streams| == StreamCount(rejected, each, size, |secret|)
    decreases size
  {
    if secret == "" {
      streams := Streams(size);
      StreamsCount(size);
      EmptyDraws(alphabet, size);
    } else if size == 0 {
      streams := {};
      NoneDraws(alphabet, secret);
    } else {
      OverAlphabetTail(secret, alphabet);
      var s := CountDrawing(alphabet, secret, size - 1, rejected, each);
      var t := CountDrawing(alphabet, secret[1..], size - 1, rejected, each);
      streams := CountByFirst(alphabet, secret, size, rejected, each, s, t);
    }
  }

  /** Uniformity with rejection: among all streams of `size` random bytes, the number that draw a
      secret depends on its length alone. */
  lemma StreamsAreUniform(alphabet: string, secret: string, size: nat, streams: set<seq<Byte>>)
    requires 1 <= |alphabet| <= 256 && Distinct(alphabet) && OverAlphabet(secret, alphabet)
    requires AllDrawing(streams, alphabet, secret, size)
    ensures |streams| == StreamCount(256 % |alphabet|, 256 / |alphabet|, size, |secret|)
  {
    AlphabetSplits(alphabet);
    var counted := CountDrawing(alphabet, secret, size, 256 % |alphabet|, 256 / |alphabet|);
    assert streams == counted;
  }

  /** Those are the streams, however batched, on which the generator returns the secret. */
  lemma GeneratesExactly(secret: string, value: string, used: nat, batches: seq<seq<Byte>>, alphabet: string)
    requires 1 <= |alphabet| <= 256 && DrawnFrom(value, |secret|, used, batches, alphabet)
    ensures value == secret <==> Draws(Flatten(batches), alphabet, secret)
  {
  }
}
