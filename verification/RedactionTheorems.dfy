/** What streaming keeps, and exactly when it equals redacting the whole text at once. */
module RedactionTheorems {
  import opened Redaction
  import opened RedactionWriter
  import opened RedactionLive

  // ----- Chunking does not matter to what is held back -----

  lemma EndsWithTail(text: string, drop: nat, s: string)
    requires drop <= |text| && |s| <= |text| - drop
    ensures EndsWith(text[drop..], s) <==> EndsWith(text, s)
  {
    assert text[drop..][|text| - drop - |s|..] == text[|text| - |s|..];
  }

  /** If an extended text is held at `k`, the text before the extension was held too. */
  lemma HeldBefore(text: string, chunk: string, kept: seq<string>, k: nat)
    requires Held(text + chunk, kept, k) && k >= |chunk|
    ensures Held(text, kept, k - |chunk|)
  {
    var v :| v in kept && Partial(text + chunk, v, k);
    var j, all := k - |chunk|, text + chunk;
    assert all[|all| - k..] == v[..k];
    assert text[|text| - j..] == all[|all| - k..][..j] == v[..j];
    assert Partial(text, v, j);
  }

  ghost function Tail(text: string, kept: seq<string>): string {
    text[|text| - Hold(text, kept)..]
  }

  lemma PartialInTail(whole: string, drop: nat, v: string, j: nat)
    requires drop <= |whole| && j <= |whole| - drop
    ensures Partial(whole[drop..], v, j) <==> Partial(whole, v, j)
  {
    if j < |v| {
      EndsWithTail(whole, drop, v[..j]);
    }
  }

  lemma HeldInTail(whole: string, drop: nat, kept: seq<string>, j: nat)
    requires drop <= |whole| && j <= |whole| - drop
    ensures Held(whole[drop..], kept, j) <==> Held(whole, kept, j)
  {
    forall v ensures Partial(whole[drop..], v, j) <==> Partial(whole, v, j) {
      PartialInTail(whole, drop, v, j);
    }
  }

  /** A text is held as any long enough end of it is. */
  lemma EndHeldAlike(whole: string, drop: nat, kept: seq<string>, k: nat)
    requires IsHold(whole, kept, k) && drop <= |whole| && k <= |whole| - drop
    ensures IsHold(whole[drop..], kept, k)
  {
    HeldInTail(whole, drop, kept, k);
    forall j: nat | j > k ensures !Held(whole[drop..], kept, j) {
      if j <= |whole| - drop {
        HeldInTail(whole, drop, kept, j);
      }
    }
  }

  /** More is never held back than was held back before and the new bytes. */
  lemma HoldGrowsByChunk(text: string, chunk: string, kept: seq<string>)
    ensures Hold(text + chunk, kept) <= Hold(text, kept) + |chunk|
  {
    HoldIs(text, kept);
    HoldIs(text + chunk, kept);
    HeldEarlier(text, chunk, kept, Hold(text + chunk, kept));
  }

  lemma HeldEarlier(text: string, chunk: string, kept: seq<string>, k: nat)
    ensures Held(text + chunk, kept, k) && k >= |chunk| ==> Held(text, kept, k - |chunk|)
  {
    if Held(text + chunk, kept, k) && k >= |chunk| {
      HeldBefore(text, chunk, kept, k);
    }
  }

  /** Only the held-back tail matters to what is held back next. */
  lemma HoldForgets(text: string, chunk: string, kept: seq<string>)
    ensures Hold(Tail(text, kept) + chunk, kept) == Hold(text + chunk, kept)
  {
    var whole, drop := text + chunk, |text| - Hold(text, kept);
    assert Tail(text, kept) + chunk == whole[drop..];
    HoldGrowsByChunk(text, chunk, kept);
    HoldIs(whole, kept);
    EndHeldAlike(whole, drop, kept, Hold(whole, kept));
    HoldUnique(whole[drop..], kept, Hold(whole, kept));
  }

  ghost function Sent(text: string, kept: seq<string>): string {
    text[..|text| - Hold(text, kept)]
  }

  /** Holding back `t` bytes of the text and then `h` of those and the next chunk cuts the whole
      text as holding back `h` bytes of it does. */
  lemma CutTwice(text: string, chunk: string, t: nat, h: nat)
    requires t <= |text| && h <= t + |chunk|
    ensures var whole, data := text + chunk, text[|text| - t..] + chunk;
            && whole[|whole| - h..] == data[|data| - h..]
            && whole[..|whole| - h] == text[..|text| - t] + data[..|data| - h]
  {
    var whole, data := text + chunk, text[|text| - t..] + chunk;
    assert whole == text[..|text| - t] + data;
  }

  /** The next cut of the whole text is the next cut of the held-back bytes. */
  lemma CutForgets(text: string, chunk: string, kept: seq<string>)
    ensures Tail(text + chunk, kept) == Tail(Tail(text, kept) + chunk, kept)
    ensures Sent(text + chunk, kept) == Sent(text, kept) + Sent(Tail(text, kept) + chunk, kept)
  {
    var t, h, data := Hold(text, kept), Hold(text + chunk, kept), Tail(text, kept) + chunk;
    assert Hold(data, kept) == h by { HoldForgets(text, chunk, kept); }
    assert h <= |data| == t + |chunk|;
    CutTwice(text, chunk, t, h);
  }

  lemma ConcatSnoc(parts: seq<string>, part: string)
    ensures Concat(parts + [part]) == Concat(parts) + part
  {
    assert (parts + [part])[..|parts|] == parts;
  }

  lemma WriteHolds(st: Stream, chunk: string, kept: seq<string>)
    requires AllLong(kept)
    ensures WriteStep(st, chunk, kept).pending == Tail(st.pending + chunk, kept)
  {
  }

  lemma WriteSends(st: Stream, chunk: string, kept: seq<string>)
    requires AllLong(kept)
    ensures Concat(WriteStep(st, chunk, kept).written)
         == Concat(st.written) + RedactKept(Sent(st.pending + chunk, kept), kept)
  {
    var data := st.pending + chunk;
    var piece := RedactKept(Sent(data, kept), kept);
    if Hold(data, kept) == |data| {
      assert Sent(data, kept) == "";
      RedactEmpty(kept);
      assert Concat(st.written) + "" == Concat(st.written);
    } else {
      assert WriteStep(st, chunk, kept).written == st.written + [piece];
      ConcatSnoc(st.written, piece);
    }
  }

  /** What is held back is the longest suffix of the whole input so far that may be the
      start of a value, however the input was cut into writes. */
  lemma {:induction false} PendingIsLongest(chunks: seq<string>, kept: seq<string>)
    requires AllLong(kept)
    ensures Run(chunks, kept).pending == Tail(Concat(chunks), kept)
    decreases |chunks|
  {
    if chunks != [] {
      var before := chunks[..|chunks| - 1];
      PendingIsLongest(before, kept);
      CutForgets(Concat(before), chunks[|chunks| - 1], kept);
      WriteHolds(Run(before, kept), chunks[|chunks| - 1], kept);
    }
  }

  /** The writer never buffers as much as its longest value. */
  lemma PendingIsShort(chunks: seq<string>, kept: seq<string>)
    requires AllLong(kept)
    ensures var pending := Run(chunks, kept).pending;
            pending == "" || exists v :: v in kept && |pending| < |v|
  {
    PendingIsLongest(chunks, kept);
    HoldIs(Concat(chunks), kept);
  }

  /** What one write passes on: nothing, or one nonempty buffer. */
  ghost function FlushedBy(st: Stream, chunk: string, kept: seq<string>): seq<string> {
    var data := st.pending + chunk;
    var flush := |data| - Hold(data, kept);
    if flush == 0 then [] else [data[..flush]]
  }

  /** The raw bytes behind each buffer passed on. */
  ghost function Flushed(chunks: seq<string>, kept: seq<string>): seq<string>
    requires AllLong(kept)
  {
    if chunks == [] then []
    else
      var before := chunks[..|chunks| - 1];
      Flushed(before, kept) + FlushedBy(Run(before, kept), chunks[|chunks| - 1], kept)
  }

  /** The buffers `written` are the redactions of the raw buffers `raw`. */
  ghost predicate RedactsEach(written: seq<string>, raw: seq<string>, kept: seq<string>)
    requires AllLong(kept)
  {
    |raw| == |written| && forall i :: 0 <= i < |raw| ==> raw[i] != "" && written[i] == RedactKept(raw[i], kept)
  }

  ghost predicate Reassembles(whole: string, raw: seq<string>, st: Stream, kept: seq<string>)
    requires AllLong(kept)
  {
    RedactsEach(st.written, raw, kept) && Concat(raw) + st.pending == whole
  }

  lemma CutJoins(front: string, data: string, cut: nat)
    requires cut <= |data|
    ensures (front + data[..cut]) + data[cut..] == front + data
  {
    assert data == data[..cut] + data[cut..];
  }

  lemma Regroup(a: string, b: string, c: string)
    ensures a + (b + c) == (a + b) + c
  {
  }

  lemma FlushShape(st: Stream, chunk: string, kept: seq<string>)
    requires AllLong(kept)
    ensures var data := st.pending + chunk;
            var flush := |data| - Hold(data, kept);
            && WriteStep(st, chunk, kept).pending == data[flush..]
            && FlushedBy(st, chunk, kept) == if flush == 0 then [] else [data[..flush]]
  {
  }

  lemma FlushStep(whole: string, raw: seq<string>, st: Stream, chunk: string, kept: seq<string>)
    requires AllLong(kept) && Concat(raw) + st.pending == whole
    ensures Concat(raw + FlushedBy(st, chunk, kept)) + WriteStep(st, chunk, kept).pending == whole + chunk
  {
    var data := st.pending + chunk;
    FlushShape(st, chunk, kept);
    Regroup(Concat(raw), st.pending, chunk);
    FlushConcat(raw, data, |data| - Hold(data, kept));
  }

  lemma FlushConcat(raw: seq<string>, data: string, flush: nat)
    requires flush <= |data|
    ensures Concat(raw + if flush == 0 then [] else [data[..flush]]) + data[flush..] == Concat(raw) + data
  {
    if flush == 0 {
      assert raw + [] == raw && data[0..] == data;
    } else {
      ConcatSnoc(raw, data[..flush]);
      CutJoins(Concat(raw), data, flush);
    }
  }

  lemma ReassembleStep(whole: string, raw: seq<string>, st: Stream, chunk: string, kept: seq<string>)
    requires AllLong(kept) && Reassembles(whole, raw, st, kept)
    ensures Reassembles(whole + chunk, raw + FlushedBy(st, chunk, kept), WriteStep(st, chunk, kept), kept)
  {
    FlushStep(whole, raw, st, chunk, kept);
  }

  /** Nothing is lost, repeated or reordered. */
  lemma {:induction false} FlushedReassembles(chunks: seq<string>, kept: seq<string>)
    requires AllLong(kept)
    ensures Reassembles(Concat(chunks), Flushed(chunks, kept), Run(chunks, kept), kept)
    decreases |chunks|
  {
    if chunks != [] {
      var before := chunks[..|chunks| - 1];
      FlushedReassembles(before, kept);
      ReassembleStep(Concat(before), Flushed(before, kept), Run(before, kept), chunks[|chunks| - 1], kept);
    }
  }

  // ----- No overlap: the cuts never split an occurrence -----

  /** A nonempty proper suffix of `v` is a proper prefix of `w`. */
  ghost predicate Overlaps(v: string, w: string) {
    exists n: nat :: 0 < n < |v| && Partial(v, w, n)
  }

  ghost predicate NoOverlap(kept: seq<string>) {
    forall v, w :: v in kept && w in kept ==> !Overlaps(v, w)
  }

  /** Some kept value starts with `s` and goes on. */
  ghost predicate Started(s: string, kept: seq<string>) {
    exists x :: x in kept && s <= x && s != x
  }

  /** Wherever the end of `v` starts a value, and as long as more of that value follows, the whole
      of `v` and what follows also starts a kept value, and so is held back with it. */
  ghost predicate Shielded(v: string, kept: seq<string>) {
    forall w, n: nat, m: nat ::
      w in kept && 0 < n < |v| && Partial(v, w, n) && n <= m < |w| ==> Started(v + w[n..m], kept)
  }

  lemma NoOverlapShields(v: string, kept: seq<string>)
    requires forall w :: w in kept ==> !Overlaps(v, w)
    ensures Shielded(v, kept)
  {
  }

  /** The cut before the held-back tail splits no occurrence, whatever comes later. */
  lemma CutIsUnsplit(text: string, rest: string, kept: seq<string>, v: string)
    requires v in kept && Shielded(v, kept)
    ensures Unsplit(Sent(text, kept), Tail(text, kept) + rest, v)
  {
    HoldIs(text, kept);
    forall k | 0 < k < |v|
      ensures !(EndsWith(Sent(text, kept), v[..k]) && v[k..] <= Tail(text, kept) + rest)
    {
      if EndsWith(Sent(text, kept), v[..k]) && v[k..] <= Tail(text, kept) + rest {
        SplitIsHeld(text, rest, kept, v, k);
        assert false;
      }
    }
  }

  /** A shielded occurrence across the cut would have been held back from its start. */
  lemma SplitIsHeld(text: string, rest: string, kept: seq<string>, v: string, k: nat)
    requires v in kept && 0 < k < |v| && Shielded(v, kept)
    requires EndsWith(Sent(text, kept), v[..k]) && v[k..] <= Tail(text, kept) + rest
    ensures Held(text, kept, k + Hold(text, kept))
  {
    var h, tail := Hold(text, kept), Tail(text, kept);
    assert text == Sent(text, kept) + tail;
    if |v| - k > h {
      StartIsHeld(Sent(text, kept), tail, rest, v, k);
    } else {
      HoldIs(text, kept);
      var w :| w in kept && Partial(text, w, h);
      SuffixIsPrefix(text, tail, rest, v, w, k);
      var x :| x in kept && v + w[|v| - k..h] <= x && v + w[|v| - k..h] != x;
      ShieldIsHeld(Sent(text, kept), tail, v, w, k, x);
    }
  }

  lemma ShieldIsHeld(sent: string, tail: string, v: string, w: string, k: nat, x: string)
    requires 0 < k < |v| && |v| - k <= |tail| < |w| && EndsWith(sent, v[..k]) && tail == w[..|tail|]
    requires v[k..] == w[..|v| - k]
    requires v + w[|v| - k..|tail|] <= x && v + w[|v| - k..|tail|] != x
    ensures Partial(sent + tail, x, k + |tail|)
  {
    var text, n := sent + tail, |v| - k;
    assert w[..n] + w[n..|tail|] == tail;
    assert v == v[..k] + v[k..];
    assert v + w[n..|tail|] == v[..k] + tail;
    assert text[|text| - (k + |tail|)..] == sent[|sent| - k..] + tail;
  }

  /** An occurrence running past the end of the text would have been held back. */
  lemma StartIsHeld(sent: string, tail: string, rest: string, v: string, k: nat)
    requires 0 < k < |v| && EndsWith(sent, v[..k]) && v[k..] <= tail + rest && |v| - k > |tail|
    ensures Partial(sent + tail, v, k + |tail|)
  {
    var h, text := |tail|, sent + tail;
    assert v[k..][..h] == (tail + rest)[..h] == tail;
    assert v[..k + h] == v[..k] + tail;
    assert text[|text| - (k + h)..] == sent[|sent| - k..] + tail;
  }

  /** An occurrence ending inside the held-back tail overlaps the value that tail starts. */
  lemma SuffixIsPrefix(text: string, tail: string, rest: string, v: string, w: string, k: nat)
    requires 0 < k < |v| && v[k..] <= tail + rest && |v| - k <= |tail| < |w|
    requires EndsWith(text, tail) && EndsWith(text, w[..|tail|])
    ensures Partial(v, w, |v| - k) && tail == w[..|tail|] && v[k..] == w[..|v| - k]
  {
    var n := |v| - k;
    assert tail == w[..|tail|];
    assert v[k..] == (tail + rest)[..n] == tail[..n] == w[..n];
  }

  lemma UnsplitPrefix(left: string, right: string, more: string, v: string)
    requires Unsplit(left, right + more, v)
    ensures Unsplit(left, right, v)
  {
  }

  /** No end of a live value starts a kept value. */
  ghost predicate NoLiveOverlap(kept: seq<string>) {
    forall v, w :: v in Live([], kept) && w in kept ==> !Overlaps(v, w)
  }

  ghost predicate AllShielded(values: seq<string>, kept: seq<string>) {
    forall v :: v in values ==> Shielded(v, kept)
  }

  lemma NoLiveOverlapShields(kept: seq<string>)
    ensures NoOverlap(kept) ==> AllShielded(kept, kept)
    ensures NoLiveOverlap(kept) ==> AllShielded(Live([], kept), kept)
  {
    if NoOverlap(kept) {
      forall v | v in kept ensures Shielded(v, kept) {
        NoOverlapShields(v, kept);
      }
    }
    if NoLiveOverlap(kept) {
      forall v | v in Live([], kept) ensures Shielded(v, kept) {
        NoOverlapShields(v, kept);
      }
    }
  }

  /** The conditions under which passes act independently on both sides of every cut. */
  ghost predicate Separable(kept: seq<string>) {
    && AllLong(kept)
    && (((AllBracketFree(kept) || |kept| <= 1) && AllShielded(kept, kept)) ||
        (AllHideable(kept) && AllShielded(Live([], kept), kept)))
  }

  /** Redaction resumes correctly at the cut, for any amount of the bytes that follow it. */
  lemma ResumesAtCut(text: string, chunk: string, n: nat, kept: seq<string>)
    requires Separable(kept) && n <= Hold(text, kept) + |chunk|
    ensures var data := Tail(text, kept) + chunk;
            RedactKept(Sent(text, kept) + data[..n], kept) ==
            RedactKept(Sent(text, kept), kept) + RedactKept(data[..n], kept)
  {
    var data := Tail(text, kept) + chunk;
    assert data == data[..n] + data[n..];
    var cutting := if (AllBracketFree(kept) || |kept| <= 1) && AllShielded(kept, kept) then kept else Live([], kept);
    LiveAreKept([], kept);
    forall v | v in cutting ensures Unsplit(Sent(text, kept), data[..n], v) {
      CutIsUnsplit(text, chunk, kept, v);
      UnsplitPrefix(Sent(text, kept), data[..n], data[n..], v);
    }
    if cutting == kept {
      RedactDistributes(Sent(text, kept), data[..n], kept);
    } else {
      LiveDistributes(Sent(text, kept), data[..n], kept);
    }
  }

  ghost predicate SentSoFar(text: string, st: Stream, kept: seq<string>)
    requires AllLong(kept)
  {
    st.pending == Tail(text, kept) && Concat(st.written) == RedactKept(Sent(text, kept), kept)
  }

  lemma SentStep(text: string, st: Stream, chunk: string, kept: seq<string>)
    requires Separable(kept) && SentSoFar(text, st, kept)
    ensures SentSoFar(text + chunk, WriteStep(st, chunk, kept), kept)
  {
    var data := st.pending + chunk;
    CutForgets(text, chunk, kept);
    WriteHolds(st, chunk, kept);
    WriteSends(st, chunk, kept);
    ResumesAtCut(text, chunk, |data| - Hold(data, kept), kept);
  }

  /** What has been sent on is the redaction of the input up to the held-back tail. */
  lemma {:induction false} SentIsRedacted(chunks: seq<string>, kept: seq<string>)
    requires Separable(kept)
    ensures SentSoFar(Concat(chunks), Run(chunks, kept), kept)
    decreases |chunks|
  {
    if chunks == [] {
      RedactEmpty(kept);
    } else {
      var before := chunks[..|chunks| - 1];
      SentIsRedacted(before, kept);
      SentStep(Concat(before), Run(before, kept), chunks[|chunks| - 1], kept);
    }
  }

  lemma SentClose(text: string, st: Stream, kept: seq<string>)
    requires Separable(kept) && SentSoFar(text, st, kept)
    ensures Concat(CloseStep(st, kept).written) == RedactKept(text, kept)
  {
    assert st.pending + "" == st.pending && st.pending[..|st.pending|] == st.pending;
    assert text == Sent(text, kept) + st.pending;
    ResumesAtCut(text, "", |st.pending|, kept);
    RedactEmpty(kept);
    ConcatSnoc(st.written, RedactKept(st.pending, kept));
  }

  /** The streamed output is the redaction of the whole input. */
  lemma StreamIsRedact(chunks: seq<string>, kept: seq<string>)
    requires Separable(kept)
    ensures Streamed(chunks, kept) == RedactKept(Concat(chunks), kept)
  {
    SentIsRedacted(chunks, kept);
    SentClose(Concat(chunks), Run(chunks, kept), kept);
  }

  // ----- Overlap: some input is streamed differently -----

  /** No kept value lies inside a different one. */
  ghost predicate Antichain(kept: seq<string>) {
    forall u, v :: u in kept && v in kept && Occurs(u, v) ==> u == v
  }

  lemma {:induction false} RedactNone(text: string, kept: seq<string>)
    requires AllLong(kept) && forall v :: v in kept ==> !Occurs(v, text)
    ensures RedactKept(text, kept) == text
    decreases |kept|
  {
    if kept != [] {
      ReplaceNone(text, kept[0], MARKER);
      RedactNone(text, kept[1..]);
    }
  }

  /** Redacting a value that contains no other one replaces all of it. */
  lemma {:induction false} RedactWhole(kept: seq<string>, v: string)
    requires AllLong(kept) && v in kept && forall u :: u in kept && Occurs(u, v) ==> u == v
    ensures Occurs(MARKER, RedactKept(v, kept))
    ensures |kept| == 1 ==> RedactKept(v, kept) == MARKER
    decreases |kept|
  {
    var u, rest := kept[0], kept[1..];
    if u == v {
      assert v[|v|..] == "";
      assert ReplaceAll(v, v, MARKER) == MARKER + "" == MARKER;
      assert OccursAt(MARKER, MARKER, 0);
      RedactMarks(MARKER, rest);
    } else {
      ReplaceNone(v, u, MARKER);
      assert v in rest;
      RedactWhole(rest, v);
    }
  }

  lemma ProperPartHides(kept: seq<string>, v: string, part: string, at: nat)
    requires AllLong(kept) && v in kept && forall u :: u in kept && Occurs(u, v) ==> u == v
    requires OccursAt(part, v, at) && |part| < |v|
    ensures RedactKept(part, kept) == part
  {
    assert Occurs(part, v);
    forall u | u in kept ensures !Occurs(u, part) {
      if Occurs(u, part) {
        OccursTransitive(u, part, v);
        assert false;
      }
    }
    RedactNone(part, kept);
  }

  /** A value whose end may start a value is held back in part when written in one piece. */
  lemma OverlapIsHeld(kept: seq<string>, v: string, w: string)
    requires v in kept && w in kept && Overlaps(v, w) && Antichain(kept)
    ensures 0 < Hold(v, kept) < |v|
  {
    var h := Hold(v, kept);
    var n: nat :| 0 < n < |v| && Partial(v, w, n);
    assert Held(v, kept, n);
    HoldIs(v, kept);
    if h == |v| {
      var x :| x in kept && Partial(v, x, h);
      assert v[|v| - h..] == v && x[0..0 + |v|] == x[..h];
      assert OccursAt(v, x, 0);
      assert false;
    }
  }

  lemma FirstWrite(kept: seq<string>, v: string)
    requires AllLong(kept) && 0 < Hold(v, kept) < |v|
    ensures Run([v], kept) == Stream(Tail(v, kept), [RedactKept(Sent(v, kept), kept)])
  {
    assert [v][..0] == [] && "" + v == v;
    assert Run([v], kept) == WriteStep(EMPTY, v, kept);
    assert [] + [RedactKept(Sent(v, kept), kept)] == [RedactKept(Sent(v, kept), kept)];
  }

  lemma OneWrite(kept: seq<string>, v: string)
    requires AllLong(kept) && 0 < Hold(v, kept) < |v|
    ensures Streamed([v], kept) == RedactKept(Sent(v, kept), kept) + RedactKept(Tail(v, kept), kept)
  {
    var sent, tail := RedactKept(Sent(v, kept), kept), RedactKept(Tail(v, kept), kept);
    FirstWrite(kept, v);
    assert [sent] + [tail] == [sent, tail];
    ConcatTwo(sent, tail);
  }

  /** Such a value, with nothing after it, passes through in the clear. */
  lemma OverlapPassesThrough(kept: seq<string>, v: string, w: string)
    requires AllLong(kept) && v in kept && w in kept && Overlaps(v, w) && Antichain(kept)
    ensures Streamed([v], kept) == v
  {
    OverlapIsHeld(kept, v, w);
    OneWrite(kept, v);
    ProperPartHides(kept, v, Sent(v, kept), 0);
    ProperPartHides(kept, v, Tail(v, kept), |v| - Hold(v, kept));
    assert v == Sent(v, kept) + Tail(v, kept);
  }

  ghost predicate Faithful(kept: seq<string>)
    requires AllLong(kept)
  {
    forall chunks :: Streamed(chunks, kept) == RedactKept(Concat(chunks), kept)
  }

  lemma MarkerIsNotBracketFree(v: string)
    requires Occurs(MARKER, v)
    ensures !BracketFree(v)
  {
    var at: nat :| OccursAt(MARKER, v, at);
    assert v[at..at + |MARKER|][0] == '[';
  }

  lemma MarkerHasNoBorder()
    ensures !Overlaps(MARKER, MARKER)
  {
    forall n: nat | 0 < n < |MARKER| ensures !Partial(MARKER, MARKER, n) {
      assert MARKER[|MARKER| - n..][0] != MARKER[..n][0];
    }
  }

  /** Streaming agrees with redacting the whole text, on every input and every way of cutting
      it, exactly when no end of a value can start a value. */
  lemma StreamExact(kept: seq<string>)
    requires AllLong(kept) && AllBracketFree(kept) && Antichain(kept)
    ensures Faithful(kept) <==> NoOverlap(kept)
  {
    if NoOverlap(kept) {
      forall chunks ensures Streamed(chunks, kept) == RedactKept(Concat(chunks), kept) {
        StreamIsRedact(chunks, kept);
      }
    } else {
      var v, w :| v in kept && w in kept && Overlaps(v, w);
      OverlapPassesThrough(kept, v, w);
      RedactWhole(kept, v);
      if RedactKept(v, kept) == v {
        MarkerIsNotBracketFree(v);
        assert false;
      }
      assert Concat([v]) == v by { ConcatSnoc([], v); }
    }
  }

  lemma BorderlessIsFaithful(v: string)
    requires |v| >= MIN_LENGTH && !Overlaps(v, v)
    ensures Faithful([v])
  {
    assert NoOverlap([v]) by {
      forall u, w | u in [v] && w in [v] ensures !Overlaps(u, w) {
        assert u == v && w == v;
      }
    }
    forall chunks ensures Streamed(chunks, [v]) == RedactKept(Concat(chunks), [v]) {
      StreamIsRedact(chunks, [v]);
    }
  }

  lemma BorderedLeaks(v: string)
    requires |v| >= MIN_LENGTH && Overlaps(v, v)
    ensures Streamed([v], [v]) == v && RedactKept(v, [v]) == MARKER && v != MARKER
  {
    OverlapPassesThrough([v], v, v);
    RedactWhole([v], v);
    MarkerHasNoBorder();
  }

  // ----- Values inside values -----

  ghost predicate PrefixFree(kept: seq<string>) {
    forall v, x :: v in kept && x in kept && v <= x ==> v == x
  }

  /** Like `OverlapIsHeld`, for a value that starts no other. */
  lemma UnstartedIsHeld(kept: seq<string>, v: string, w: string)
    requires v in kept && w in kept && Overlaps(v, w) && !Started(v, kept)
    ensures 0 < Hold(v, kept) < |v|
  {
    var h := Hold(v, kept);
    var n: nat :| 0 < n < |v| && Partial(v, w, n);
    assert Held(v, kept, n);
    HoldIs(v, kept);
    HeldWhole(v, kept);
  }

  lemma HeldWhole(v: string, kept: seq<string>)
    requires v != ""
    ensures Held(v, kept, |v|) ==> Started(v, kept)
  {
    if Held(v, kept, |v|) {
      var x :| x in kept && Partial(v, x, |v|);
      assert v[|v| - |v|..] == v && x[..|v|] == v;
    }
  }

  /** A live value whose end may start a value, and that starts none itself, does not come out as
      a single marker. */
  lemma LiveOverlapBreaks(kept: seq<string>, v: string, w: string)
    requires AllLong(kept) && AllHideable(kept)
    requires v in Live([], kept) && w in kept && Overlaps(v, w) && !Started(v, kept)
    ensures Streamed([v], kept) != RedactKept(v, kept)
  {
    LiveAreKept([], kept);
    UnstartedIsHeld(kept, v, w);
    OneWrite(kept, v);
    LiveIsMarked([], kept, v);
    PartIsBracketFree(v, |v| - Hold(v, kept));
    TwoPartsAreNoMarker(Sent(v, kept), Tail(v, kept), kept);
  }

  /** In `text` no kept value occurs but `v`, and that only at the start. */
  ghost predicate OnlyFirst(v: string, text: string, kept: seq<string>) {
    v <= text && forall u, at: nat :: u in kept && OccursAt(u, text, at) ==> u == v && at == 0
  }

  /** An overlap without a shield, with nothing else to match: `m` bytes of `w` have come, of which
      the first `n` end `v`. */
  ghost predicate Exposed(v: string, w: string, n: nat, m: nat, kept: seq<string>) {
    && v in kept && w in kept && 0 < n < |v| && Partial(v, w, n) && n <= m < |w|
    && !Started(v + w[n..m], kept) && OnlyFirst(v, v + w[n..m], kept)
  }

  lemma ExposedIsHeld(v: string, w: string, n: nat, m: nat, kept: seq<string>)
    requires Exposed(v, w, n, m, kept)
    ensures var text := v + w[n..m]; m <= Hold(text, kept) < |text|
  {
    var text := v + w[n..m];
    assert v == v[..|v| - n] + w[..n];
    assert w[..n] + w[n..m] == w[..m];
    assert text == v[..|v| - n] + w[..m];
    assert text[|text| - m..] == w[..m];
    assert Held(text, kept, m) by { assert Partial(text, w, m); }
    HoldIs(text, kept);
    HeldWhole(text, kept);
  }

  lemma OccursInPart(u: string, text: string, from: nat, to: nat)
    requires from <= to <= |text|
    ensures Occurs(u, text[from..to]) ==> exists at: nat :: from <= at <= at + |u| <= to && OccursAt(u, text, at)
  {
    if Occurs(u, text[from..to]) {
      var at: nat :| OccursAt(u, text[from..to], at);
      assert u == text[from..to][at..at + |u|];
      assert forall j :: 0 <= j < |u| ==> text[from + at + j] == text[from..to][at + j] == u[j];
      assert text[from + at..from + at + |u|] == u;
      assert OccursAt(u, text, from + at);
    }
  }

  /** A part of such a text that is too short for `v` or starts later is left alone. */
  lemma OnlyFirstParts(v: string, text: string, kept: seq<string>, cut: nat)
    requires AllLong(kept) && OnlyFirst(v, text, kept) && 0 < cut < |v|
    ensures RedactKept(text[..cut], kept) == text[..cut] && RedactKept(text[cut..], kept) == text[cut..]
  {
    assert text[..cut] == text[0..cut] && text[cut..] == text[cut..|text|];
    forall u | u in kept ensures !Occurs(u, text[..cut]) && !Occurs(u, text[cut..]) {
      OccursInPart(u, text, 0, cut);
      OccursInPart(u, text, cut, |text|);
    }
    RedactNone(text[..cut], kept);
    RedactNone(text[cut..], kept);
  }

  lemma {:induction false} OnlyFirstMarked(v: string, text: string, kept: seq<string>)
    requires AllLong(kept) && v in kept && OnlyFirst(v, text, kept)
    ensures Occurs(MARKER, RedactKept(text, kept))
    decreases |kept|
  {
    var u, rest := kept[0], kept[1..];
    if u == v {
      assert OccursAt(MARKER, ReplaceAll(text, v, MARKER), 0);
      RedactMarks(ReplaceAll(text, v, MARKER), rest);
    } else {
      ReplaceNone(text, u, MARKER);
      OnlyFirstMarked(v, text, rest);
    }
  }

  lemma ExposedStreams(v: string, text: string, kept: seq<string>)
    requires AllLong(kept) && OnlyFirst(v, text, kept) && |text| - |v| < Hold(text, kept) < |text|
    ensures Streamed([text], kept) == text
  {
    OneWrite(kept, text);
    OnlyFirstParts(v, text, kept, |text| - Hold(text, kept));
    assert text == Sent(text, kept) + Tail(text, kept);
  }

  lemma OnlyFirstChanges(v: string, text: string, kept: seq<string>)
    requires AllLong(kept) && v in kept && OnlyFirst(v, text, kept) && BracketFree(text)
    ensures RedactKept(text, kept) != text
  {
    OnlyFirstMarked(v, text, kept);
    MarkerHasBrackets(text);
  }

  /** Such a text, written in one piece, comes out in the clear. */
  lemma ExposedLeaks(v: string, w: string, n: nat, m: nat, kept: seq<string>)
    requires AllLong(kept) && AllBracketFree(kept) && Exposed(v, w, n, m, kept)
    ensures var text := v + w[n..m]; Streamed([text], kept) == text && RedactKept(text, kept) != text
  {
    var text := v + w[n..m];
    ExposedIsHeld(v, w, n, m, kept);
    ExposedStreams(v, text, kept);
    assert BracketFree(text) by { assert BracketFree(v) && BracketFree(w); }
    OnlyFirstChanges(v, text, kept);
  }

  lemma MarkerHasBrackets(text: string)
    ensures Occurs(MARKER, text) ==> !BracketFree(text)
  {
    if Occurs(MARKER, text) {
      MarkerIsNotBracketFree(text);
    }
  }

  /** Any hideable values at all.  Streaming is faithful if every overlap of a live value is
      shielded.  It is not if a live value that overlaps one starts no other, or an overlap without
      a shield has nothing else to match. */
  lemma FaithfulBounds(kept: seq<string>)
    requires AllLong(kept) && AllHideable(kept)
    ensures AllShielded(Live([], kept), kept) ==> Faithful(kept)
    ensures Faithful(kept) ==> forall v, w :: v in Live([], kept) && w in kept && Overlaps(v, w) ==> Started(v, kept)
    ensures Faithful(kept) ==> forall v, w, n: nat, m: nat :: !Exposed(v, w, n, m, kept)
  {
    if AllShielded(Live([], kept), kept) {
      forall chunks ensures Streamed(chunks, kept) == RedactKept(Concat(chunks), kept) {
        StreamIsRedact(chunks, kept);
      }
    }
    if Faithful(kept) {
      forall v, w | v in Live([], kept) && w in kept && Overlaps(v, w) ensures Started(v, kept) {
        assert Concat([v]) == v by { ConcatSnoc([], v); }
        if !Started(v, kept) {
          LiveOverlapBreaks(kept, v, w);
        }
      }
      forall v, w, n: nat, m: nat ensures !Exposed(v, w, n, m, kept) {
        if Exposed(v, w, n, m, kept) {
          var text := v + w[n..m];
          assert Concat([text]) == text by { ConcatSnoc([], text); }
          ExposedLeaks(v, w, n, m, kept);
        }
      }
    }
  }

  lemma PartIsBracketFree(v: string, n: nat)
    requires BracketFree(v) && n <= |v|
    ensures BracketFree(v[..n]) && BracketFree(v[n..])
  {
  }

  const SHORT: string := "abc"
  const OTHER: string := "cde"
  const LONG: string := "abcdz"

  lemma ShortIsShielded()
    ensures Overlaps(SHORT, OTHER) && Shielded(SHORT, [SHORT, OTHER, LONG])
  {
    var kept := [SHORT, OTHER, LONG];
    assert SHORT[2..] == OTHER[..1] == "c";
    assert Partial(SHORT, OTHER, 1);
    forall w, n: nat, m: nat | w in kept && 0 < n < |SHORT| && Partial(SHORT, w, n) && n <= m < |w|
      ensures Started(SHORT + w[n..m], kept)
    {
      PartialFirst(SHORT, w, n);
      assert w == OTHER && n == 1;
      assert SHORT + w[n..m] == LONG[..3 + m - 1];
      assert LONG in kept;
    }
  }

  lemma OthersDoNotOverlap(v: string)
    requires v == OTHER || v == LONG
    ensures Shielded(v, [SHORT, OTHER, LONG])
  {
    forall w, n: nat | w in [SHORT, OTHER, LONG] && 0 < n < |v| ensures !Partial(v, w, n) {
      if Partial(v, w, n) {
        PartialFirst(v, w, n);
      }
    }
  }

  lemma ShieldedExample()
    ensures Separable([SHORT, OTHER, LONG])
  {
    var kept := [SHORT, OTHER, LONG];
    ShortIsShielded();
    OthersDoNotOverlap(OTHER);
    OthersDoNotOverlap(LONG);
    assert AllShielded(kept, kept);
    assert BracketFree(SHORT) && BracketFree(OTHER) && BracketFree(LONG);
  }

  /** A list with an overlap that streams faithfully all the same. */
  lemma ShieldedOverlapIsHarmless()
    ensures Overlaps(SHORT, OTHER) && Faithful([SHORT, OTHER, LONG])
  {
    var kept := [SHORT, OTHER, LONG];
    ShortIsShielded();
    ShieldedExample();
    forall chunks ensures Streamed(chunks, kept) == RedactKept(Concat(chunks), kept) {
      StreamIsRedact(chunks, kept);
    }
  }

  /** Values may contain each other, as long as none starts another: streaming is faithful exactly
      when no end of a live value starts a kept value.  A value is live if no earlier one lies
      inside it; the others never match. */
  lemma StreamExactLive(kept: seq<string>)
    requires AllLong(kept) && AllHideable(kept) && PrefixFree(kept)
    ensures Faithful(kept) <==> NoLiveOverlap(kept)
  {
    LiveAreKept([], kept);
    NoLiveOverlapShields(kept);
    FaithfulBounds(kept);
  }

  /** For one value no other hypothesis is needed: it must have no border. */
  lemma StreamExactSingle(v: string)
    requires |v| >= MIN_LENGTH
    ensures Faithful([v]) <==> !Overlaps(v, v)
    ensures Overlaps(v, v) ==> Streamed([v], [v]) == v && RedactKept(v, [v]) == MARKER && v != MARKER
  {
    if !Overlaps(v, v) {
      BorderlessIsFaithful(v);
    } else {
      BorderedLeaks(v);
      assert Concat([v]) == v by { ConcatSnoc([], v); }
    }
  }

  /** Whenever streaming is shown faithful, its whole output hides every value that redaction
      can hide at all. */
  lemma StreamHides(chunks: seq<string>, kept: seq<string>, v: string)
    requires Separable(kept) && v in kept && BracketFree(v) && Redactable(v)
    ensures !Occurs(v, Streamed(chunks, kept))
  {
    StreamIsRedact(chunks, kept);
    RedactLeaksNone(Concat(chunks), kept, v);
  }

  lemma PartialFirst(text: string, v: string, k: nat)
    requires Partial(text, v, k) && k > 0
    ensures k <= |text| && text[|text| - k] == v[0]
  {
    assert text[|text| - k..][0] == v[0];
  }

  lemma {:induction false} ReplaceSkips(skipped: string, rest: string, value: string, mark: string)
    requires value != "" && value[0] !in skipped
    ensures ReplaceAll(skipped + rest, value, mark) == skipped + ReplaceAll(rest, value, mark)
    decreases |skipped|
  {
    if skipped == "" {
      assert skipped + rest == rest;
    } else {
      var first, more := skipped[0], skipped[1..];
      assert skipped + rest == [first] + (more + rest);
      ReplaceSkips(more, rest, value, mark);
      if |more + rest| + 1 >= |value| {
        ReplaceMiss(skipped + rest, first, more + rest, value, mark);
      }
      assert [first] + (more + ReplaceAll(rest, value, mark)) == skipped + ReplaceAll(rest, value, mark);
    }
  }

  const FIRST: string := "abc"
  const SECOND: string := "]xy"
  const WORD: string := "[REDACTED"

  lemma TwoPasses(text: string, v: string, w: string)
    requires |v| >= MIN_LENGTH && |w| >= MIN_LENGTH
    ensures RedactKept(text, [v, w]) == ReplaceAll(ReplaceAll(text, v, MARKER), w, MARKER)
  {
    var both := [v, w];
    var rest := both[1..];
    assert rest == [w] && rest[1..] == [];
    var once := ReplaceAll(text, v, MARKER);
    assert RedactKept(text, both) == RedactKept(once, rest);
    assert RedactKept(once, rest) == RedactKept(ReplaceAll(once, w, MARKER), rest[1..]);
  }

  lemma BrokenFirst()
    ensures RedactKept("abc", [FIRST, SECOND]) == MARKER
  {
    TwoPasses("abc", FIRST, SECOND);
    assert "abc" == FIRST + "";
    ReplaceHit("abc", "", FIRST, MARKER);
    assert MARKER + "" == WORD + "]" == MARKER;
    ReplaceSkips(WORD, "]", SECOND, MARKER);
  }

  lemma BrokenWhole()
    ensures RedactKept("abcxy", [FIRST, SECOND]) == WORD + MARKER
  {
    TwoPasses("abcxy", FIRST, SECOND);
    assert "abcxy" == FIRST + "xy";
    ReplaceHit("abcxy", "xy", FIRST, MARKER);
    assert MARKER + "xy" == WORD + SECOND;
    ReplaceSkips(WORD, SECOND, SECOND, MARKER);
    assert SECOND == SECOND + "";
    ReplaceHit(SECOND, "", SECOND, MARKER);
    assert MARKER + "" == MARKER;
  }

  /** Nothing is held back if no byte but the first can start a value, and values are longer. */
  lemma NotHeld(text: string, kept: seq<string>)
    requires AllLong(kept) && forall v, i :: v in kept && 0 <= i < |text| && text[i] == v[0] ==> i == 0 && |v| <= |text|
    ensures Hold(text, kept) == 0
  {
    var k := Hold(text, kept);
    HoldIs(text, kept);
    if k > 0 {
      var v :| v in kept && Partial(text, v, k);
      PartialFirst(text, v, k);
    }
  }

  lemma NoBrokenOverlap()
    ensures NoOverlap([FIRST, SECOND]) && Antichain([FIRST, SECOND])
  {
    forall v, w, n: nat | v in [FIRST, SECOND] && w in [FIRST, SECOND] && 0 < n < |v| ensures !Partial(v, w, n) {
      if Partial(v, w, n) {
        PartialFirst(v, w, n);
      }
    }
    forall u, v | u in [FIRST, SECOND] && v in [FIRST, SECOND] && Occurs(u, v) ensures u == v {
      var at: nat :| OccursAt(u, v, at);
      OccurrenceCovers(v, u, 0, 0) by { assert u == v[0..3] == v; }
    }
  }

  lemma WholeText(text: string)
    ensures "" + text == text && text[..|text|] == text && text[|text|..] == ""
  {
  }

  lemma NothingHeldBack(written: seq<string>, text: string, kept: seq<string>)
    requires AllLong(kept) && text != "" && Hold(text, kept) == 0
    ensures WriteStep(Stream("", written), text, kept) == Stream("", written + [RedactKept(text, kept)])
  {
    WholeText(text);
  }

  lemma RunTwo(a: string, b: string, kept: seq<string>)
    requires AllLong(kept)
    ensures Run([a, b], kept) == WriteStep(WriteStep(EMPTY, a, kept), b, kept)
  {
    assert [a][..0] == [] && [a, b][..1] == [a];
    assert Run([a], kept) == WriteStep(EMPTY, a, kept);
  }

  lemma BrokenRun()
    ensures Run(["abc", "xy"], [FIRST, SECOND]) == Stream("", [MARKER, "xy"])
  {
    var kept := [FIRST, SECOND];
    NotHeld("abc", kept);
    NotHeld("xy", kept);
    RunTwo("abc", "xy", kept);
    assert WriteStep(EMPTY, "abc", kept) == Stream("", [MARKER]) by {
      BrokenFirst();
      NothingHeldBack([], "abc", kept);
    }
    assert RedactKept("xy", kept) == "xy" by { TwoPasses("xy", FIRST, SECOND); }
    NothingHeldBack([MARKER], "xy", kept);
    assert [MARKER] + ["xy"] == [MARKER, "xy"];
  }

  /** With several values the bracket condition cannot be dropped. */
  lemma BracketsBreakStreaming()
    ensures NoOverlap([FIRST, SECOND]) && Antichain([FIRST, SECOND])
    ensures Streamed(["abc", "xy"], [FIRST, SECOND]) == "[REDACTED]xy"
    ensures RedactKept(Concat(["abc", "xy"]), [FIRST, SECOND]) == "[REDACTED[REDACTED]"
  {
    NoBrokenOverlap();
    BrokenRun();
    BrokenWhole();
    ConcatTwo(MARKER, "xy");
    ConcatTwo("abc", "xy");
  }

  lemma ConcatTwo(a: string, b: string)
    ensures Concat([a, b]) == a + b
  {
    ConcatSnoc([], a);
    ConcatSnoc([a], b);
    assert [] + [a] == [a] && [a] + [b] == [a, b] && "" + a == a;
  }

  // ----- The writer as the broker uses it -----

  /** A command's output, piece by piece, through a writer that is closed at the end. */
  method RedactOutput(secrets: seq<string>, output: seq<string>) returns (written: seq<string>)
    ensures Concat(written) == Streamed(output, Kept(secrets))
  {
    var w := new Writer(secrets);
    for i := 0 to |output|
      invariant w.Valid() && w.secrets == Kept(secrets)
      invariant fresh(w) && forall k :: 0 <= k < |w.values| ==> fresh(w.values[k])
      invariant w.State() == Run(output[..i], Kept(secrets))
    {
      assert output[..i + 1][..i] == output[..i];
      var n := w.Write(output[i]);
    }
    assert output[..|output|] == output;
    w.Close();
    written := w.written;
  }
}
