/** Values that contain an earlier value never match: the passes of the others do all the work. */
module RedactionLive {
  import opened Redaction

  /** Free of brackets and not readable in the marker's word. */
  ghost predicate AllHideable(kept: seq<string>) {
    forall v :: v in kept ==> BracketFree(v) && Redactable(v)
  }

  lemma OccursFirst(value: string, text: string)
    requires text != ""
    ensures value <= text || Occurs(value, text[1..]) ==> Occurs(value, text)
  {
    if value <= text {
      assert text[0..|value|] == value;
      assert OccursAt(value, text, 0);
    }
    if Occurs(value, text[1..]) {
      OccursFromTail(value, text, 1);
    }
  }

  lemma {:induction false} ReplaceNone(text: string, value: string, mark: string)
    requires value != "" && !Occurs(value, text)
    ensures ReplaceAll(text, value, mark) == text
    decreases |text|
  {
    if |text| >= |value| {
      OccursFirst(value, text);
      ReplaceNone(text[1..], value, mark);
      assert text == [text[0]] + text[1..];
    }
  }

  ghost predicate CoversSome(v: string, seen: seq<string>) {
    exists u :: u in seen && Occurs(u, v)
  }

  /** The values of `rest` inside which no value of `seen` and no earlier live one lies. */
  ghost function Live(seen: seq<string>, rest: seq<string>): seq<string>
    decreases |rest|
  {
    if rest == [] then []
    else if CoversSome(rest[0], seen) then Live(seen, rest[1..])
    else [rest[0]] + Live(seen + [rest[0]], rest[1..])
  }

  lemma {:induction false} LiveAreKept(seen: seq<string>, rest: seq<string>)
    ensures forall v :: v in Live(seen, rest) ==> v in rest && !CoversSome(v, seen)
    decreases |rest|
  {
    if rest != [] {
      if CoversSome(rest[0], seen) {
        LiveAreKept(seen, rest[1..]);
      } else {
        LiveAreKept(seen + [rest[0]], rest[1..]);
        forall v | v in Live(seen + [rest[0]], rest[1..]) ensures !CoversSome(v, seen) {
          if u :| u in seen && Occurs(u, v) {
            assert u in seen + [rest[0]];
            assert CoversSome(v, seen + [rest[0]]);
          }
        }
      }
    }
  }

  ghost predicate NoneOf(seen: seq<string>, text: string) {
    forall u :: u in seen ==> !Occurs(u, text)
  }

  lemma PassKeepsNoneOf(seen: seq<string>, text: string, v: string)
    requires AllHideable(seen) && AllLong(seen) && v != "" && NoneOf(seen, text)
    ensures NoneOf(seen, ReplaceAll(text, v, MARKER))
  {
    forall u | u in seen ensures !Occurs(u, ReplaceAll(text, v, MARKER)) {
      if Occurs(u, ReplaceAll(text, v, MARKER)) {
        PassAddsNone(text, v, u);
      }
    }
  }

  /** Only the live values matter. */
  lemma {:induction false} LiveRedacts(text: string, seen: seq<string>, rest: seq<string>)
    requires AllLong(seen) && AllLong(rest) && AllHideable(seen) && AllHideable(rest) && NoneOf(seen, text)
    ensures AllLong(Live(seen, rest)) && RedactKept(text, rest) == RedactKept(text, Live(seen, rest))
    decreases |rest|
  {
    LiveAreKept(seen, rest);
    if rest != [] {
      var v, more := rest[0], rest[1..];
      if CoversSome(v, seen) {
        var u :| u in seen && Occurs(u, v);
        if Occurs(v, text) {
          OccursTransitive(u, v, text);
        }
        ReplaceNone(text, v, MARKER);
        LiveRedacts(text, seen, more);
      } else {
        PassKeepsNoneOf(seen, text, v);
        PassRemovesAll(text, v);
        LiveRedacts(ReplaceAll(text, v, MARKER), seen + [v], more);
        assert ([v] + Live(seen + [v], more))[1..] == Live(seen + [v], more);
      }
    }
  }

  /** So redaction distributes over a cut that splits no live value. */
  lemma LiveDistributes(left: string, right: string, kept: seq<string>)
    requires AllLong(kept) && AllHideable(kept)
    requires forall v :: v in Live([], kept) ==> Unsplit(left, right, v)
    ensures RedactKept(left + right, kept) == RedactKept(left, kept) + RedactKept(right, kept)
  {
    LiveAreKept([], kept);
    LiveRedacts(left, [], kept);
    LiveRedacts(right, [], kept);
    LiveRedacts(left + right, [], kept);
    RedactDistributes(left, right, Live([], kept));
  }

  // ----- A live value on its own -----

  lemma {:induction false} MarkerIsKept(kept: seq<string>)
    requires AllLong(kept) && AllHideable(kept)
    ensures RedactKept(MARKER, kept) == MARKER
    decreases |kept|
  {
    if kept != [] {
      if at: nat :| OccursAt(kept[0], MARKER, at) {
        assert MARKER + "" == MARKER;
        OccursAfterMarker(kept[0], "", at);
      }
      ReplaceNone(MARKER, kept[0], MARKER);
      MarkerIsKept(kept[1..]);
    }
  }

  lemma {:induction false} LiveIsMarked(seen: seq<string>, rest: seq<string>, v: string)
    requires AllLong(rest) && AllHideable(rest) && v in Live(seen, rest)
    ensures RedactKept(v, rest) == MARKER
    decreases |rest|
  {
    var u, more := rest[0], rest[1..];
    if u == v {
      assert v[|v|..] == "";
      assert ReplaceAll(v, v, MARKER) == MARKER + "" == MARKER;
      MarkerIsKept(more);
    } else {
      LiveAreKept(seen, rest);
      LiveCoversNoEarlier(seen, rest, v);
      ReplaceNone(v, u, MARKER);
      LiveIsMarked(if CoversSome(u, seen) then seen else seen + [u], more, v);
    }
  }

  lemma LiveCoversNoEarlier(seen: seq<string>, rest: seq<string>, v: string)
    requires rest != [] && v in Live(seen, rest) && v != rest[0]
    ensures !Occurs(rest[0], v)
  {
    var u, more := rest[0], rest[1..];
    LiveAreKept(seen, rest);
    if CoversSome(u, seen) {
      var t :| t in seen && Occurs(t, u);
      if Occurs(u, v) {
        OccursTransitive(t, u, v);
      }
    } else {
      LiveAreKept(seen + [u], more);
      assert u in seen + [u];
    }
  }

  lemma {:induction false} RedactNonempty(text: string, kept: seq<string>)
    requires AllLong(kept) && text != ""
    ensures RedactKept(text, kept) != ""
    decreases |kept|
  {
    if kept != [] {
      RedactNonempty(ReplaceAll(text, kept[0], MARKER), kept[1..]);
    }
  }

  /** Two parts redacted apart never make up one marker. */
  lemma TwoPartsAreNoMarker(a: string, b: string, kept: seq<string>)
    requires AllLong(kept) && a != "" && b != "" && BracketFree(a)
    ensures RedactKept(a, kept) + RedactKept(b, kept) != MARKER
  {
    var x, y := RedactKept(a, kept), RedactKept(b, kept);
    RedactNonempty(a, kept);
    RedactNonempty(b, kept);
    RedactMarks(a, kept);
    assert x[0] == (x + y)[0];
  }
}
