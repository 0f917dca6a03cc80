/** The one-shot redactor: which bytes of a text are replaced by the marker, and
    what the replaced text can and cannot contain.  A byte is a `char`. */
module Redaction {

  const MARKER: string := "[REDACTED]"

  /** What the marker shows between its brackets. */
  const MARKER_WORD: string := "REDACTED"

  /** Shorter values are never redacted. */
  const MIN_LENGTH: nat := 3

  // ----- Substrings -----

  ghost predicate EndsWith(text: string, s: string) {
    |s| <= |text| && text[|text| - |s|..] == s
  }

  ghost predicate OccursAt(value: string, text: string, at: nat) {
    at + |value| <= |text| && text[at..at + |value|] == value
  }

  ghost predicate Occurs(value: string, text: string) {
    exists at: nat :: OccursAt(value, text, at)
  }

  lemma OccurrenceCovers(value: string, text: string, at: nat, i: nat)
    requires OccursAt(value, text, at) && at <= i < at + |value|
    ensures text[i] in value
  {
    assert value[i - at] == text[at..at + |value|][i - at];
  }

  predicate BracketFree(value: string) {
    '[' !in value && ']' !in value
  }

  // ----- Replacement of one value -----

  /** Leftmost, non-overlapping replacement of every occurrence of `value` by `mark`. */
  function ReplaceAll(text: string, value: string, mark: string): string
    requires value != ""
    decreases |text|
  {
    if |text| < |value| then text
    else if value <= text then mark + ReplaceAll(text[|value|..], value, mark)
    else [text[0]] + ReplaceAll(text[1..], value, mark)
  }

  /** No copy of `value` lies across the cut between `left` and `right`. */
  ghost predicate Unsplit(left: string, right: string, value: string) {
    forall k :: 0 < k < |value| ==> !(EndsWith(left, value[..k]) && value[k..] <= right)
  }

  /** One step of the scan, stated by what is consumed and what is written. */
  lemma ReplaceHit(text: string, rest: string, value: string, mark: string)
    requires value != "" && text == value + rest
    ensures ReplaceAll(text, value, mark) == mark + ReplaceAll(rest, value, mark)
  {
    assert text[|value|..] == rest;
  }

  lemma ReplaceMiss(text: string, first: char, rest: string, value: string, mark: string)
    requires value != "" && text == [first] + rest && !(value <= text)
    ensures ReplaceAll(text, value, mark) == [first] + ReplaceAll(rest, value, mark)
  {
    assert text[1..] == rest;
  }

  lemma SplitPrefix(left: string, right: string, value: string)
    requires |left| < |value| && value <= left + right
    ensures EndsWith(left, value[..|left|]) && value[|left|..] <= right
  {
    assert value == (left + right)[..|value|];
  }

  lemma PrefixAcross(left: string, right: string, value: string)
    requires left != "" && value <= left + right && Unsplit(left, right, value)
    ensures value <= left
  {
    var text, k := left + right, |left|;
    assert value == text[..|value|];
    if k < |value| {
      SplitPrefix(left, right, value);
      assert false;
    }
    assert text[..|value|] == left[..|value|];
  }

  /** Replacement acts independently on the two sides of a cut that splits no occurrence. */
  lemma {:induction false} ReplaceDistributes(left: string, right: string, value: string, mark: string)
    requires value != "" && Unsplit(left, right, value)
    ensures Distributes(left, right, value, mark)
    decreases |left|
  {
    if left == "" {
      assert left + right == right;
    } else if value <= left {
      UnsplitSuffix(left, right, value, |value|);
      ReplaceDistributes(left[|value|..], right, value, mark);
      DistributesHit(left, left[|value|..], right, value, mark);
    } else {
      UnsplitSuffix(left, right, value, 1);
      ReplaceDistributes(left[1..], right, value, mark);
      if value <= left + right {
        PrefixAcross(left, right, value);
      }
      DistributesMiss(left, left[0], left[1..], right, value, mark);
    }
  }

  /** Replacing in two parts does what replacing in the whole does. */
  ghost predicate Distributes(left: string, right: string, value: string, mark: string)
    requires value != ""
  {
    ReplaceAll(left + right, value, mark) == ReplaceAll(left, value, mark) + ReplaceAll(right, value, mark)
  }

  lemma DistributesHit(left: string, rest: string, right: string, value: string, mark: string)
    requires value != "" && left == value + rest && Distributes(rest, right, value, mark)
    ensures Distributes(left, right, value, mark)
  {
    assert left + right == value + (rest + right);
    ReplaceHit(left, rest, value, mark);
    ReplaceHit(left + right, rest + right, value, mark);
    assert (mark + ReplaceAll(rest, value, mark)) + ReplaceAll(right, value, mark)
        == mark + (ReplaceAll(rest, value, mark) + ReplaceAll(right, value, mark));
  }

  lemma DistributesMiss(left: string, first: char, rest: string, right: string, value: string, mark: string)
    requires value != "" && left == [first] + rest && Distributes(rest, right, value, mark)
    requires !(value <= left) && !(value <= left + right)
    ensures Distributes(left, right, value, mark)
  {
    assert left + right == [first] + (rest + right);
    ReplaceMiss(left, first, rest, value, mark);
    ReplaceMiss(left + right, first, rest + right, value, mark);
    assert ([first] + ReplaceAll(rest, value, mark)) + ReplaceAll(right, value, mark)
        == [first] + (ReplaceAll(rest, value, mark) + ReplaceAll(right, value, mark));
  }

  lemma UnsplitSuffix(left: string, right: string, value: string, drop: nat)
    requires Unsplit(left, right, value) && drop <= |left|
    ensures Unsplit(left[drop..], right, value)
  {
  }

  /** What the bracket arguments use of the marker. */
  ghost predicate Bracketed(mark: string) {
    |mark| >= 2 && mark[0] == '[' && mark[|mark| - 1] == ']'
  }

  /** Text after the last mark is original text. */
  lemma {:induction false} BracketFreeEnd(text: string, value: string, mark: string, s: string)
    requires value != "" && Bracketed(mark) && ']' !in s && EndsWith(ReplaceAll(text, value, mark), s)
    ensures EndsWith(text, s)
    decreases |text|
  {
    if |text| < |value| {
    } else if value <= text {
      var tail := text[|value|..];
      assert text == value + tail;
      ReplaceHit(text, tail, value, mark);
      EndAcross(mark, ReplaceAll(tail, value, mark), s);
      BracketFreeEnd(tail, value, mark, s);
      EndsWithin(value, tail, s);
    } else {
      var tail := text[1..];
      assert text == [text[0]] + tail;
      ReplaceMiss(text, text[0], tail, value, mark);
      var rest := ReplaceAll(tail, value, mark);
      EndAcross([text[0]], rest, s);
      if |s| <= |rest| {
        BracketFreeEnd(tail, value, mark, s);
        EndsWithin([text[0]], tail, s);
      } else {
        assert ']' !in rest;
        MarkFreeIsOriginal(tail, value, mark);
      }
    }
  }

  lemma EndsWithin(piece: string, tail: string, s: string)
    requires EndsWith(tail, s)
    ensures EndsWith(piece + tail, s)
  {
    var text := piece + tail;
    assert tail[|tail| - |s|..] == text[|text| - |s|..];
  }

  lemma EndAcross(piece: string, rest: string, s: string)
    requires piece != "" && ']' !in s && EndsWith(piece + rest, s)
    requires |piece| == 1 || piece[|piece| - 1] == ']'
    ensures if |s| <= |rest| then EndsWith(rest, s) else |piece| == 1 && s == piece + rest
  {
    var out := piece + rest;
    if |s| <= |rest| {
      assert out[|out| - |s|..] == rest[|rest| - |s|..];
    } else {
      assert s[|s| - |rest| - 1] == piece[|piece| - 1];
    }
  }

  /** A replaced text without a closing bracket is the text itself. */
  lemma {:induction false} MarkFreeIsOriginal(text: string, value: string, mark: string)
    requires value != "" && Bracketed(mark) && ']' !in ReplaceAll(text, value, mark)
    ensures ReplaceAll(text, value, mark) == text
    decreases |text|
  {
    if |text| < |value| {
    } else if value <= text {
      assert false;
    } else {
      MarkFreeIsOriginal(text[1..], value, mark);
    }
  }

  lemma FirstInPrefix(s: string, out: string)
    requires s != "" && s <= out
    ensures out[0] in s
  {
    assert s[0] == out[0];
  }

  /** Text before the first mark is original text. */
  lemma {:induction false} BracketFreeStart(text: string, value: string, mark: string, s: string)
    requires value != "" && Bracketed(mark) && '[' !in s && s <= ReplaceAll(text, value, mark)
    ensures s <= text
    decreases |text|
  {
    if s == "" || |text| < |value| {
    } else if value <= text {
      FirstInPrefix(s, ReplaceAll(text, value, mark));
      assert false;
    } else {
      assert s[1..] <= ReplaceAll(text[1..], value, mark);
      BracketFreeStart(text[1..], value, mark, s[1..]);
      assert s == [text[0]] + s[1..];
    }
  }

  /** Inserting markers on both sides of a cut creates no new occurrence across it. */
  lemma MarkersKeepUnsplit(left: string, right: string, done: string, value: string)
    requires done != "" && BracketFree(value) && Unsplit(left, right, value)
    ensures Unsplit(ReplaceAll(left, done, MARKER), ReplaceAll(right, done, MARKER), value)
  {
    forall k | 0 < k < |value|
            && EndsWith(ReplaceAll(left, done, MARKER), value[..k]) && value[k..] <= ReplaceAll(right, done, MARKER)
      ensures false
    {
      BracketFreeEnd(left, done, MARKER, value[..k]);
      BracketFreeStart(right, done, MARKER, value[k..]);
      assert false;
    }
  }

  // ----- Redaction by a list of values -----

  function Kept(values: seq<string>): (kept: seq<string>)
    ensures forall v :: v in kept <==> v in values && |v| >= 3
  {
    if values == [] then []
    else if |values[0]| < MIN_LENGTH then Kept(values[1..])
    else [values[0]] + Kept(values[1..])
  }

  ghost predicate AllLong(kept: seq<string>) {
    forall v :: v in kept ==> |v| >= MIN_LENGTH
  }

  ghost predicate AllBracketFree(kept: seq<string>) {
    forall v :: v in kept ==> BracketFree(v)
  }

  /** One replacement pass per value, in list order. */
  function RedactKept(text: string, kept: seq<string>): string
    requires AllLong(kept)
    decreases |kept|
  {
    if kept == [] then text
    else RedactKept(ReplaceAll(text, kept[0], MARKER), kept[1..])
  }

  lemma {:induction false} RedactEmpty(kept: seq<string>)
    requires AllLong(kept)
    ensures RedactKept("", kept) == ""
    decreases |kept|
  {
    if kept != [] {
      RedactEmpty(kept[1..]);
    }
  }

  lemma OneKept(value: string)
    ensures Kept([value]) == if |value| >= 3 then [value] else []
  {
    assert [value][1..] == [];
  }

  lemma OnePass(text: string, value: string)
    requires |value| >= 3
    ensures RedactKept(text, [value]) == ReplaceAll(text, value, MARKER)
  {
    assert [value][1..] == [];
    assert RedactKept(ReplaceAll(text, value, MARKER), []) == ReplaceAll(text, value, MARKER);
  }

  /** One value alone: exactly from three bytes on it is replaced, by the bracketed word. */
  lemma OneValueReplaced(value: string)
    ensures RedactKept(value, Kept([value])) == if |value| >= 3 then "[REDACTED]" else value
  {
    OneKept(value);
    if |value| >= 3 {
      OnePass(value, value);
      WholeReplaced(value, MARKER);
      assert MARKER == "[REDACTED]";
    } else {
      assert RedactKept(value, []) == value;
    }
  }

  lemma WholeReplaced(value: string, mark: string)
    requires value != ""
    ensures ReplaceAll(value, value, mark) == mark
  {
    assert value <= value && value[|value|..] == "";
    assert ReplaceAll("", value, mark) == "";
    assert mark + "" == mark;
  }

  /** The values are passed over in list order. */
  lemma {:induction false} ListOrder(text: string, first: seq<string>, later: seq<string>)
    ensures RedactKept(text, Kept(first + later)) == RedactKept(RedactKept(text, Kept(first)), Kept(later))
    decreases |first|
  {
    if first == [] {
      assert first + later == later;
    } else {
      var v, rest := first[0], first[1..];
      assert (first + later)[0] == v && (first + later)[1..] == rest + later;
      if |v| < 3 {
        ListOrder(text, rest, later);
      } else {
        assert Kept(first)[1..] == Kept(rest) && Kept(first + later)[1..] == Kept(rest + later);
        ListOrder(ReplaceAll(text, v, MARKER), rest, later);
      }
    }
  }

  /** The loop of passes, skipping values that are too short. */
  method Redact(text: string, values: seq<string>) returns (redacted: string)
    ensures redacted == RedactKept(text, Kept(values))
  {
    redacted := text;
    if text == "" {
      RedactEmpty(Kept(values));
      return;
    }
    for i := 0 to |values|
      invariant RedactKept(redacted, Kept(values[i..])) == RedactKept(text, Kept(values))
    {
      assert values[i..][1..] == values[i + 1..];
      if |values[i]| < MIN_LENGTH {
        continue;
      }
      assert Kept(values[i..])[1..] == Kept(values[i + 1..]);
      redacted := ReplaceAll(redacted, values[i], MARKER);
    }
  }

  /** All passes distribute over a cut that splits no occurrence of any value.  With several
      values this needs them bracket-free, because a later pass sees earlier markers. */
  lemma {:induction false} RedactDistributes(left: string, right: string, kept: seq<string>)
    requires AllLong(kept) && (AllBracketFree(kept) || |kept| <= 1)
    requires forall v :: v in kept ==> Unsplit(left, right, v)
    ensures RedactKept(left + right, kept) == RedactKept(left, kept) + RedactKept(right, kept)
    decreases |kept|
  {
    if kept != [] {
      var v, rest := kept[0], kept[1..];
      ReplaceDistributes(left, right, v, MARKER);
      forall w | w in rest ensures Unsplit(ReplaceAll(left, v, MARKER), ReplaceAll(right, v, MARKER), w) {
        MarkersKeepUnsplit(left, right, v, w);
      }
      RedactDistributes(ReplaceAll(left, v, MARKER), ReplaceAll(right, v, MARKER), rest);
    }
  }

  // ----- No leaks -----

  /** A value that could be read in a marker's word can never be redacted away. */
  ghost predicate Redactable(value: string) {
    !Occurs(value, MARKER_WORD)
  }

  lemma OccursFromTail(value: string, text: string, drop: nat)
    requires drop <= |text| && Occurs(value, text[drop..])
    ensures Occurs(value, text)
  {
    var at: nat :| OccursAt(value, text[drop..], at);
    assert OccursAt(value, text, at + drop);
  }

  /** Inside `MARKER + rest`, a bracket-free value that is not in the marker's word lies in `rest`. */
  lemma OccursAfterMarker(value: string, rest: string, at: nat)
    requires value != "" && BracketFree(value) && Redactable(value) && OccursAt(value, MARKER + rest, at)
    ensures at >= |MARKER| && OccursAt(value, rest, at - |MARKER|)
  {
    var text := MARKER + rest;
    if at < |MARKER| {
      if at == 0 {
        OccurrenceCovers(value, text, at, 0);
        assert false;
      } else if at + |value| <= 9 {
        assert MARKER_WORD == MARKER[1..9];
        assert OccursAt(value, MARKER_WORD, at - 1) by {
          assert MARKER_WORD[at - 1..at - 1 + |value|] == text[at..at + |value|];
        }
        assert false;
      } else {
        OccurrenceCovers(value, text, at, 9);
        assert false;
      }
    } else {
      assert rest[at - |MARKER|..at - |MARKER| + |value|] == text[at..at + |value|];
    }
  }

  /** A pass creates no occurrence of another redactable value. */
  lemma {:induction false} PassAddsNone(text: string, done: string, value: string)
    requires done != "" && value != "" && BracketFree(value) && Redactable(value)
    requires Occurs(value, ReplaceAll(text, done, MARKER))
    ensures Occurs(value, text)
    decreases |text|
  {
    var at: nat :| OccursAt(value, ReplaceAll(text, done, MARKER), at);
    if |text| < |done| {
    } else if done <= text {
      OccursAfterMarker(value, ReplaceAll(text[|done|..], done, MARKER), at);
      PassAddsNone(text[|done|..], done, value);
      OccursFromTail(value, text, |done|);
    } else {
      var rest := ReplaceAll(text[1..], done, MARKER);
      var out := [text[0]] + rest;
      if at == 0 {
        assert value <= out by { assert out[0..|value|] == value; }
        BracketFreeStart(text, done, MARKER, value);
        assert OccursAt(value, text, 0);
      } else {
        assert rest[at - 1..at - 1 + |value|] == out[at..at + |value|];
        assert OccursAt(value, rest, at - 1);
        PassAddsNone(text[1..], done, value);
        OccursFromTail(value, text, 1);
      }
    }
  }

  /** A pass leaves no occurrence of its own value. */
  lemma {:induction false} PassRemovesAll(text: string, value: string)
    requires value != "" && BracketFree(value) && Redactable(value)
    ensures !Occurs(value, ReplaceAll(text, value, MARKER))
    decreases |text|
  {
    if at: nat :| OccursAt(value, ReplaceAll(text, value, MARKER), at) {
      if |text| < |value| {
      } else if value <= text {
        OccursAfterMarker(value, ReplaceAll(text[|value|..], value, MARKER), at);
        PassRemovesAll(text[|value|..], value);
      } else {
        var rest := ReplaceAll(text[1..], value, MARKER);
        var out := [text[0]] + rest;
        if at == 0 {
          assert value <= out by { assert out[0..|value|] == value; }
          BracketFreeStart(text, value, MARKER, value);
        } else {
          assert rest[at - 1..at - 1 + |value|] == out[at..at + |value|];
          assert OccursAt(value, rest, at - 1);
          PassRemovesAll(text[1..], value);
        }
      }
      assert false;
    }
  }

  /** Later passes never bring a value back. */
  lemma {:induction false} PassesAddNone(text: string, kept: seq<string>, value: string)
    requires AllLong(kept) && value != "" && BracketFree(value) && Redactable(value)
    requires !Occurs(value, text)
    ensures !Occurs(value, RedactKept(text, kept))
    decreases |kept|
  {
    if kept != [] {
      if Occurs(value, ReplaceAll(text, kept[0], MARKER)) {
        PassAddsNone(text, kept[0], value);
      }
      PassesAddNone(ReplaceAll(text, kept[0], MARKER), kept[1..], value);
    }
  }

  lemma {:induction false} RedactLeaksNone(text: string, kept: seq<string>, value: string)
    requires AllLong(kept) && value in kept && BracketFree(value) && Redactable(value)
    ensures !Occurs(value, RedactKept(text, kept))
    decreases |kept|
  {
    if kept[0] == value {
      PassRemovesAll(text, value);
      PassesAddNone(ReplaceAll(text, value, MARKER), kept[1..], value);
    } else {
      RedactLeaksNone(ReplaceAll(text, kept[0], MARKER), kept[1..], value);
    }
  }

  /** A pass leaves the text alone or leaves a whole marker in it. */
  lemma {:induction false} PassMarks(text: string, value: string)
    requires value != ""
    ensures ReplaceAll(text, value, MARKER) == text || Occurs(MARKER, ReplaceAll(text, value, MARKER))
    decreases |text|
  {
    if |text| < |value| {
    } else if value <= text {
      assert OccursAt(MARKER, ReplaceAll(text, value, MARKER), 0);
    } else {
      PassMarks(text[1..], value);
      if ReplaceAll(text[1..], value, MARKER) != text[1..] {
        assert ReplaceAll(text[1..], value, MARKER) == ReplaceAll(text, value, MARKER)[1..];
        OccursFromTail(MARKER, ReplaceAll(text, value, MARKER), 1);
      } else {
        assert text == [text[0]] + text[1..];
      }
    }
  }

  lemma {:induction false} RedactMarks(text: string, kept: seq<string>)
    requires AllLong(kept)
    ensures RedactKept(text, kept) == text || Occurs(MARKER, RedactKept(text, kept))
    ensures Occurs(MARKER, text) ==> Occurs(MARKER, RedactKept(text, kept))
    decreases |kept|
  {
    if kept != [] {
      PassMarks(text, kept[0]);
      RedactMarks(ReplaceAll(text, kept[0], MARKER), kept[1..]);
    }
  }

  lemma OccursTransitive(a: string, b: string, c: string)
    requires Occurs(a, b) && Occurs(b, c)
    ensures Occurs(a, c)
  {
    var i: nat :| OccursAt(a, b, i);
    var j: nat :| OccursAt(b, c, j);
    assert forall k :: 0 <= k < |a| ==> b[i + k] == a[k];
    assert forall k :: 0 <= k < |b| ==> c[j + k] == b[k];
    assert c[j + i..j + i + |a|] == a;
    assert OccursAt(a, c, j + i);
  }

  ghost predicate Leaks(kept: seq<string>, text: string)
    requires AllLong(kept)
  {
    exists v :: v in kept && Occurs(v, RedactKept(text, kept))
  }

  /** Exactly when redaction hides every kept value in every text, whatever their order,
      overlap or nesting: no value may be readable inside the marker itself. */
  lemma RedactHidesExactly(kept: seq<string>)
    requires AllLong(kept) && AllBracketFree(kept)
    ensures (forall text :: !Leaks(kept, text)) <==> (forall v :: v in kept ==> Redactable(v))
  {
    if forall v :: v in kept ==> Redactable(v) {
      forall text ensures !Leaks(kept, text) {
        forall v | v in kept ensures !Occurs(v, RedactKept(text, kept)) {
          RedactLeaksNone(text, kept, v);
        }
      }
    } else {
      var v :| v in kept && !Redactable(v);
      UnredactableLeaks(kept, v);
      assert Leaks(kept, v);
    }
  }

  /** A value inside the marker's word is still there when it is the whole text. */
  lemma UnredactableLeaks(kept: seq<string>, v: string)
    requires AllLong(kept) && v in kept && !Redactable(v)
    ensures Occurs(v, RedactKept(v, kept))
  {
    var out := RedactKept(v, kept);
    RedactMarks(v, kept);
    if out == v {
      assert OccursAt(v, out, 0);
    } else {
      assert OccursAt(MARKER_WORD, MARKER, 1);
      OccursTransitive(v, MARKER_WORD, MARKER);
      OccursTransitive(v, MARKER, out);
    }
  }

  /** Such a value: three letters of the marker's word. */
  lemma MarkerLettersLeak()
    ensures BracketFree("RED") && !Redactable("RED") && Occurs("RED", RedactKept("RED", ["RED"]))
  {
    assert MARKER_WORD[0..3] == "RED";
    assert OccursAt("RED", MARKER_WORD, 0);
    UnredactableLeaks(["RED"], "RED");
  }
}
