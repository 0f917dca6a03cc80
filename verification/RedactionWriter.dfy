/** The streaming redactor: what it holds back, what it has sent on, and exactly
    when it agrees with the one-shot redactor. */
module RedactionWriter {
  import opened Redaction

  function Concat(parts: seq<string>): string {
    if parts == [] then "" else Concat(parts[..|parts| - 1]) + parts[|parts| - 1]
  }

  // ----- What is held back -----

  /** The last `k` bytes of `text` are a proper prefix of `value`. */
  ghost predicate Partial(text: string, value: string, k: nat) {
    k < |value| && EndsWith(text, value[..k])
  }

  ghost predicate Held(text: string, kept: seq<string>, k: nat) {
    exists v :: v in kept && Partial(text, v, k)
  }

  /** The length of the longest suffix that may be the start of a value. */
  ghost function Hold(text: string, kept: seq<string>): (k: nat)
    ensures k <= |text|
  {
    HoldFrom(text, kept, |text|)
  }

  ghost function HoldFrom(text: string, kept: seq<string>, k: nat): (r: nat)
    ensures r <= k
  {
    if k == 0 || Held(text, kept, k) then k else HoldFrom(text, kept, k - 1)
  }

  ghost predicate IsHold(text: string, kept: seq<string>, k: nat) {
    && k <= |text|
    && (k > 0 ==> Held(text, kept, k))
    && forall j: nat :: j > k ==> !Held(text, kept, j)
  }

  lemma {:induction false} HoldFromIs(text: string, kept: seq<string>, k: nat)
    requires k <= |text| && forall j: nat :: j > k ==> !Held(text, kept, j)
    ensures IsHold(text, kept, HoldFrom(text, kept, k))
    decreases k
  {
    if k > 0 && !Held(text, kept, k) {
      HoldFromIs(text, kept, k - 1);
    }
  }

  lemma HoldIs(text: string, kept: seq<string>)
    ensures IsHold(text, kept, Hold(text, kept))
  {
    HoldFromIs(text, kept, |text|);
  }

  lemma HoldUnique(text: string, kept: seq<string>, k: nat)
    requires IsHold(text, kept, k)
    ensures k == Hold(text, kept)
  {
    HoldIs(text, kept);
  }

  // ----- The stream as a state machine -----

  /** The held-back bytes and the buffers passed on to the destination, in order. */
  datatype Stream = Stream(pending: string, written: seq<string>)

  const EMPTY: Stream := Stream("", [])

  ghost function WriteStep(st: Stream, chunk: string, kept: seq<string>): Stream
    requires AllLong(kept)
  {
    var data := st.pending + chunk;
    var flush := |data| - Hold(data, kept);
    if flush == 0 then Stream(data, st.written)
    else Stream(data[flush..], st.written + [RedactKept(data[..flush], kept)])
  }

  ghost function CloseStep(st: Stream, kept: seq<string>): Stream
    requires AllLong(kept)
  {
    if st.pending == "" then st
    else Stream("", st.written + [RedactKept(st.pending, kept)])
  }

  ghost function Run(chunks: seq<string>, kept: seq<string>): Stream
    requires AllLong(kept)
  {
    if chunks == [] then EMPTY
    else WriteStep(Run(chunks[..|chunks| - 1], kept), chunks[|chunks| - 1], kept)
  }

  /** Everything the destination has received once the writer is closed. */
  ghost function Streamed(chunks: seq<string>, kept: seq<string>): string
    requires AllLong(kept)
  {
    Concat(CloseStep(Run(chunks, kept), kept).written)
  }

  // ----- The writer -----

  class Writer {
    var values: seq<array<char>>
    var pending: string
    var written: seq<string>
    /** What the private copies held when they were made. */
    ghost var secrets: seq<string>

    ghost predicate Valid()
      reads this, values
    {
      && |secrets| == |values|
      && (forall i :: 0 <= i < |values| ==> values[i][..] == secrets[i])
      && AllLong(secrets)
    }

    ghost function State(): Stream
      reads this
    {
      Stream(pending, written)
    }

    /** Keeps private copies of the values that are long enough. */
    constructor (given: seq<string>)
      ensures Valid() && State() == EMPTY
      ensures secrets == Kept(given)
      ensures forall k :: 0 <= k < |values| ==> fresh(values[k])
    {
      values, pending, written := [], "", [];
      secrets := [];
      new;
      KeepAll(given);
    }

    method KeepAll(given: seq<string>)
      requires Valid() && secrets == []
      modifies this`values, this`secrets
      ensures Valid() && secrets == Kept(given)
      ensures forall k :: 0 <= k < |values| ==> fresh(values[k])
    {
      for i := 0 to |given|
        invariant Valid()
        invariant secrets == Kept(given[..i])
        invariant forall k :: 0 <= k < |values| ==> fresh(values[k])
      {
        KeptNext(given, i);
        KeepIfLong(given[i]);
      }
      assert given[..|given|] == given;
    }

    method KeepIfLong(value: string)
      requires Valid()
      modifies this`values, this`secrets
      ensures Valid() && secrets == old(secrets) + if |value| < MIN_LENGTH then [] else [value]
      ensures forall k :: 0 <= k < |values| ==> fresh(values[k]) || values[k] in old(values)
    {
      if |value| < MIN_LENGTH {
        return;
      }
      KeepCopy(value);
    }

    method KeepCopy(value: string)
      requires Valid() && |value| >= MIN_LENGTH
      modifies this`values, this`secrets
      ensures Valid() && secrets == old(secrets) + [value]
      ensures |values| == |old(values)| + 1 && fresh(values[|old(values)|])
      ensures forall k :: 0 <= k < |old(values)| ==> values[k] == old(values)[k]
    {
      var copy := new char[|value|](j requires 0 <= j < |value| => value[j]);
      assert copy[..] == value;
      values := values + [copy];
      secrets := secrets + [value];
    }

    method Write(p: string) returns (n: nat)
      requires Valid()
      modifies this`pending, this`written
      ensures Valid() && State() == WriteStep(old(State()), p, secrets)
      ensures n == |p|
    {
      pending := pending + p;
      var held := PartialSuffixLength();
      var flush := |pending| - held;
      if flush <= 0 {
        return |p|;
      }
      Flush(flush);
      n := |p|;
    }

    /** Sends on the first bytes, redacted, and keeps the rest. */
    method Flush(flush: nat)
      requires Valid() && flush <= |pending|
      modifies this`pending, this`written
      ensures Valid()
      ensures State() == Stream(old(pending)[flush..], old(written) + [RedactKept(old(pending)[..flush], secrets)])
    {
      var redacted := RedactData(pending[..flush]);
      written := written + [redacted];
      pending := pending[flush..];
    }

    method PartialSuffixLength() returns (longest: nat)
      requires Valid()
      ensures longest == Hold(pending, secrets)
    {
      longest := 0;
      var i := 0;
      while i < |values|
        invariant 0 <= i <= |values| && IsHold(pending, secrets[..i], longest)
      {
        ghost var before := longest;
        assert values[i][..] == secrets[i] && secrets[i] in secrets;
        longest := LongerMatch(values[i], secrets[i], longest);
        HoldExtends(pending, secrets[..i], secrets[i], before, longest);
        assert secrets[..i + 1] == secrets[..i] + [secrets[i]];
        i := i + 1;
      }
      assert secrets[..i] == secrets;
      HoldUnique(pending, secrets, longest);
    }

    /** The inner loop: the longest match of one value beyond `found`. */
    method LongerMatch(value: array<char>, ghost secret: string, found: nat) returns (longest: nat)
      requires value[..] == secret && secret != "" && found <= |pending|
      ensures found <= longest <= |pending|
      ensures longest > found ==> Partial(pending, secret, longest)
      ensures forall j: nat :: j > longest ==> !Partial(pending, secret, j)
    {
      longest := found;
      var length := if value.Length - 1 > |pending| then |pending| else value.Length - 1;
      while length > found
        invariant 0 <= length <= |pending| && length < value.Length
        invariant forall j: nat :: j > length ==> !Partial(pending, secret, j)
      {
        assert value[..length] == secret[..length];
        if pending[|pending| - length..] == value[..length] {
          return length;
        }
        length := length - 1;
      }
    }

    method RedactData(data: string) returns (result: string)
      requires Valid()
      ensures result == RedactKept(data, secrets)
    {
      result := data;
      for i := 0 to |values|
        invariant RedactKept(result, secrets[i..]) == RedactKept(data, secrets)
      {
        assert secrets[i..][1..] == secrets[i + 1..];
        result := ReplaceAll(result, values[i][..], MARKER);
      }
    }

    /** Sends on what is held back and overwrites the private copies. */
    method Close()
      requires Valid()
      modifies this`pending, this`written, values
      ensures State() == CloseStep(old(State()), secrets)
      ensures forall i :: 0 <= i < |values| ==> Zeroed(values[i])
    {
      if |pending| > 0 {
        var redacted := RedactData(pending);
        written := written + [redacted];
        pending := "";
      }
      for i := 0 to |values|
        invariant State() == CloseStep(old(State()), secrets)
        invariant forall k :: 0 <= k < i ==> Zeroed(values[k])
      {
        Zero(values[i]);
      }
    }
  }

  lemma KeptNext(given: seq<string>, i: nat)
    requires i < |given|
    ensures Kept(given[..i + 1]) == Kept(given[..i]) + if |given[i]| < MIN_LENGTH then [] else [given[i]]
  {
    assert given[..i + 1] == given[..i] + [given[i]];
    KeptSnoc(given[..i], given[i]);
  }

  lemma {:induction false} KeptSnoc(given: seq<string>, value: string)
    ensures Kept(given + [value]) == Kept(given) + if |value| < MIN_LENGTH then [] else [value]
    decreases |given|
  {
    if given == [] {
      assert given + [value] == [value];
    } else {
      assert (given + [value])[1..] == given[1..] + [value];
      KeptSnoc(given[1..], value);
    }
  }

  ghost predicate Zeroed(buffer: array<char>)
    reads buffer
  {
    forall j :: 0 <= j < buffer.Length ==> buffer[j] == '\0'
  }

  method Zero(buffer: array<char>)
    modifies buffer
    ensures Zeroed(buffer)
  {
    for j := 0 to buffer.Length
      invariant forall m :: 0 <= m < j ==> buffer[m] == '\0'
    {
      buffer[j] := '\0';
    }
  }

  /** Scanning one more value for a longer match. */
  lemma HoldExtends(text: string, kept: seq<string>, value: string, before: nat, after: nat)
    requires IsHold(text, kept, before) && before <= after <= |text|
    requires after > before ==> Partial(text, value, after)
    requires forall j: nat :: j > after ==> !Partial(text, value, j)
    ensures IsHold(text, kept + [value], after)
  {
    var more := kept + [value];
    forall j: nat | j > after ensures !Held(text, more, j) {
      assert !Held(text, kept, j);
      assert forall v :: v in more ==> v in kept || v == value;
    }
    if after > 0 {
      if after > before {
        assert value in more;
      } else {
        var v :| v in kept && Partial(text, v, after);
        assert v in more;
      }
    }
  }
}
