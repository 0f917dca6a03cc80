/** The audit log: each row authenticates the event and the row before it in stamp order.
    When the listing accepts what was appended, and what an accepted listing pins down. */
module Audit {
  import opened Timestamp
  import opened Model
  import opened SecureCrypto

  datatype Row = Row(id: string, event: seq<Octet>, previous: seq<Octet>, signature: seq<Octet>, createdAt: string)

  datatype ListError = ChainInconsistent | AuthenticationFailed | Unreadable

  datatype Listing = Events(events: seq<AuditEvent>) | Rejected(error: ListError)

  function Encode(event: AuditEvent): seq<Octet> {
    [Json(EventDocument(event))]
  }

  function Decode(octets: seq<Octet>): Option<AuditEvent> {
    if |octets| == 1 && octets[0].Json? && octets[0].document.EventDocument? then Some(octets[0].document.event)
    else None
  }

  // ----- ORDER BY created_at -----

  function Insert(row: Row, sorted: seq<Row>): seq<Row> {
    if sorted == [] || Before(row.createdAt, sorted[0].createdAt) then [row] + sorted
    else [sorted[0]] + Insert(row, sorted[1..])
  }

  function ByStamp(rows: seq<Row>): seq<Row> {
    if rows == [] then [] else Insert(rows[|rows| - 1], ByStamp(rows[..|rows| - 1]))
  }

  ghost predicate Ordered(rows: seq<Row>) {
    forall i, j :: 0 <= i < j < |rows| ==> !Before(rows[j].createdAt, rows[i].createdAt)
  }

  lemma {:induction false} InsertKeeps(row: Row, sorted: seq<Row>)
    ensures |Insert(row, sorted)| == |sorted| + 1
    ensures multiset(Insert(row, sorted)) == multiset(sorted) + multiset{row}
    decreases |sorted|
  {
    if sorted == [] || Before(row.createdAt, sorted[0].createdAt) {
    } else {
      InsertKeeps(row, sorted[1..]);
      assert sorted == [sorted[0]] + sorted[1..];
    }
  }

  lemma {:induction false} InsertOrders(row: Row, sorted: seq<Row>)
    requires Ordered(sorted)
    ensures Ordered(Insert(row, sorted))
    decreases |sorted|
  {
    if sorted == [] {
    } else if Before(row.createdAt, sorted[0].createdAt) {
      forall j | 0 < j <= |sorted| ensures !Before(([row] + sorted)[j].createdAt, row.createdAt) {
        BeforeTotal(row.createdAt, sorted[0].createdAt);
        if Before(sorted[j - 1].createdAt, row.createdAt) {
          BeforeTransitive(sorted[j - 1].createdAt, row.createdAt, sorted[0].createdAt);
          BeforeTotal(sorted[0].createdAt, sorted[0].createdAt);
        }
      }
    } else {
      var rest := sorted[1..];
      InsertOrders(row, rest);
      InsertKeeps(row, rest);
      var out := Insert(row, rest);
      forall j | 0 <= j < |out| ensures !Before(out[j].createdAt, sorted[0].createdAt) {
        assert out[j] in multiset(out);
        assert out[j] == row || out[j] in rest;
      }
    }
  }

  lemma {:induction false} ByStampSorts(rows: seq<Row>)
    ensures Ordered(ByStamp(rows)) && multiset(ByStamp(rows)) == multiset(rows)
    ensures |ByStamp(rows)| == |rows|
    decreases |rows|
  {
    if rows != [] {
      var init, last := rows[..|rows| - 1], rows[|rows| - 1];
      ByStampSorts(init);
      InsertOrders(last, ByStamp(init));
      InsertKeeps(last, ByStamp(init));
      assert rows == init + [last];
    }
  }

  lemma {:induction false} InsertLast(row: Row, sorted: seq<Row>)
    requires forall i :: 0 <= i < |sorted| ==> !Before(row.createdAt, sorted[i].createdAt)
    ensures Insert(row, sorted) == sorted + [row]
    decreases |sorted|
  {
    if sorted != [] {
      InsertLast(row, sorted[1..]);
      assert sorted == [sorted[0]] + sorted[1..];
    }
  }

  // ----- Appending -----

  /** What the next row links to: the row with the greatest stamp. */
  function LatestSignature(rows: seq<Row>): seq<Octet> {
    ByStampSorts(rows);
    if rows == [] then [] else ByStamp(rows)[|rows| - 1].signature
  }

  function NextRow(rows: seq<Row>, key: Key, event: AuditEvent): Row {
    var previous := LatestSignature(rows);
    Row(event.id, Encode(event), previous, Mac(key, previous + Encode(event)), Format(event.timestamp))
  }

  ghost predicate HasId(rows: seq<Row>, id: string) {
    exists i :: 0 <= i < |rows| && rows[i].id == id
  }

  /** Appends one event, or fails on a duplicate id and leaves the table to be rolled back. */
  ghost function Append(rows: seq<Row>, key: Key, event: AuditEvent): Option<seq<Row>> {
    if HasId(rows, event.id) then None else Some(rows + [NextRow(rows, key, event)])
  }

  /** The table after appending events in this order. */
  ghost function Build(key: Key, events: seq<AuditEvent>): seq<Row> {
    if events == [] then []
    else
      var rows := Build(key, events[..|events| - 1]);
      var appended := Append(rows, key, events[|events| - 1]);
      if appended.None? then rows else appended.value
  }

  ghost predicate DistinctIds(events: seq<AuditEvent>) {
    forall i, j :: 0 <= i < j < |events| ==> events[i].id != events[j].id
  }

  function Stamp(event: AuditEvent): string {
    Format(event.timestamp)
  }

  ghost predicate DistinctStamps(events: seq<AuditEvent>) {
    forall i, j :: 0 <= i < j < |events| ==> Stamp(events[i]) != Stamp(events[j])
  }

  ghost predicate StampsIncrease(events: seq<AuditEvent>) {
    forall i :: 0 < i < |events| ==> Before(Stamp(events[i - 1]), Stamp(events[i]))
  }

  ghost predicate SameIds(rows: seq<Row>, events: seq<AuditEvent>) {
    |rows| == |events| && forall i :: 0 <= i < |rows| ==> rows[i].id == events[i].id
  }

  lemma {:induction false} BuildIds(key: Key, events: seq<AuditEvent>)
    requires DistinctIds(events)
    ensures SameIds(Build(key, events), events)
    decreases |events|
  {
    if events != [] {
      BuildIds(key, events[..|events| - 1]);
      AppendedIds(Build(key, events[..|events| - 1]), key, events);
    }
  }

  lemma AppendedIds(rows: seq<Row>, key: Key, events: seq<AuditEvent>)
    requires DistinctIds(events) && events != [] && SameIds(rows, events[..|events| - 1])
    ensures var appended := Append(rows, key, events[|events| - 1]);
            appended.Some? && SameIds(appended.value, events)
  {
    var init := events[..|events| - 1];
    forall i | 0 <= i < |rows| ensures rows[i].id == events[i].id {
      assert rows[i].id == init[i].id;
    }
  }

  lemma BuildLast(key: Key, events: seq<AuditEvent>)
    requires DistinctIds(events) && events != []
    ensures var init := events[..|events| - 1];
            Build(key, events) == Build(key, init) + [NextRow(Build(key, init), key, events[|events| - 1])]
  {
    var init, id := events[..|events| - 1], events[|events| - 1].id;
    BuildIds(key, init);
    var rows := Build(key, init);
    forall i | 0 <= i < |rows| ensures rows[i].id != id {
      assert rows[i].id == init[i].id == events[i].id;
    }
  }

  lemma PrefixOfSnoc(rows: seq<Row>, row: Row, i: nat)
    requires i <= |rows|
    ensures (rows + [row])[..i] == rows[..i]
  {
  }

  lemma {:induction false} BuildPrefix(key: Key, events: seq<AuditEvent>, i: nat)
    requires DistinctIds(events) && i <= |events|
    ensures |Build(key, events)| == |events| && Build(key, events)[..i] == Build(key, events[..i])
    decreases |events|
  {
    BuildIds(key, events);
    if i == |events| {
      assert events[..i] == events && Build(key, events)[..i] == Build(key, events);
    } else {
      var init := events[..|events| - 1];
      assert events[..i] == init[..i];
      BuildPrefix(key, init, i);
      BuildLast(key, events);
      PrefixOfSnoc(Build(key, init), NextRow(Build(key, init), key, events[|events| - 1]), i);
    }
  }

  lemma BuildNext(key: Key, events: seq<AuditEvent>, i: nat)
    requires DistinctIds(events) && i < |events|
    ensures Build(key, events[..i + 1]) == Build(key, events[..i]) + [NextRow(Build(key, events[..i]), key, events[i])]
  {
    var upto := events[..i + 1];
    assert upto[..i] == events[..i] && upto[i] == events[i];
    BuildLast(key, upto);
  }

  /** Row `i` records event `i`, linked to the rows before it. */
  lemma BuildRow(key: Key, events: seq<AuditEvent>, i: nat)
    requires DistinctIds(events) && i < |events|
    ensures |Build(key, events)| == |events|
    ensures Build(key, events)[i] == NextRow(Build(key, events[..i]), key, events[i])
  {
    BuildNext(key, events, i);
    BuildPrefix(key, events, i);
    BuildPrefix(key, events, i + 1);
    var rows := Build(key, events);
    assert rows[i] == rows[..i + 1][|rows[..i]|];
  }

  // ----- Listing -----

  /** The signature the verifier carries when it reaches row `i`. */
  function Carried(rows: seq<Row>, i: nat): seq<Octet>
    requires i <= |rows|
  {
    if i == 0 then [] else rows[i - 1].signature
  }

  predicate RowVerifies(rows: seq<Row>, i: nat, key: Key)
    requires i < |rows|
  {
    && rows[i].previous == Carried(rows, i)
    && rows[i].signature == Mac(key, Carried(rows, i) + rows[i].event)
    && Decode(rows[i].event).Some?
  }

  ghost predicate Chained(rows: seq<Row>, key: Key) {
    forall i :: 0 <= i < |rows| ==> RowVerifies(rows, i, key)
  }

  /** The readable events, in order. */
  function Decoded(rows: seq<Row>): seq<AuditEvent> {
    if rows == [] then []
    else
      var last := Decode(rows[|rows| - 1].event);
      Decoded(rows[..|rows| - 1]) + if last.None? then [] else [last.value]
  }

  ghost predicate Readable(rows: seq<Row>) {
    forall i :: 0 <= i < |rows| ==> Decode(rows[i].event).Some?
  }

  lemma ChainedIsReadable(rows: seq<Row>, key: Key)
    requires Chained(rows, key)
    ensures Readable(rows)
  {
    forall i | 0 <= i < |rows| ensures Decode(rows[i].event).Some? {
      assert RowVerifies(rows, i, key);
    }
  }

  lemma {:induction false} DecodedReads(rows: seq<Row>)
    requires Readable(rows)
    ensures |Decoded(rows)| == |rows|
    ensures forall i :: 0 <= i < |rows| ==> Decoded(rows)[i] == Decode(rows[i].event).value
    decreases |rows|
  {
    if rows != [] {
      DecodedReads(rows[..|rows| - 1]);
    }
  }

  function Limit(limit: int): nat {
    if limit <= 0 || limit > 1000 then 100 else limit
  }

  /** The last `limit` events, newest first. */
  ghost predicate IsNewest(result: seq<AuditEvent>, events: seq<AuditEvent>, limit: nat) {
    && |result| == (if |events| <= limit then |events| else limit)
    && forall i :: 0 <= i < |result| ==> result[i] == events[|events| - 1 - i]
  }

  /** The first row that does not verify, and what is wrong with it. */
  ghost predicate FirstFault(rows: seq<Row>, key: Key, i: nat, error: ListError) {
    && i < |rows| && !RowVerifies(rows, i, key)
    && (forall k :: 0 <= k < i ==> RowVerifies(rows, k, key))
    && error == if rows[i].previous != Carried(rows, i) then ChainInconsistent
                else if rows[i].signature != Mac(key, Carried(rows, i) + rows[i].event) then AuthenticationFailed
                else Unreadable
  }

  method ListAudit(rows: seq<Row>, key: Key, limit: int) returns (listing: Listing)
    ensures listing.Events? <==> Chained(ByStamp(rows), key)
    ensures listing.Rejected? ==> exists i :: FirstFault(ByStamp(rows), key, i, listing.error)
    ensures listing.Events? ==>
              |Decoded(ByStamp(rows))| == |rows| && IsNewest(listing.events, Decoded(ByStamp(rows)), Limit(limit))
  {
    var sorted := ByStamp(rows);
    var result: seq<AuditEvent> := [];
    var previous: seq<Octet> := [];
    for i := 0 to |sorted|
      invariant previous == Carried(sorted, i)
      invariant forall k :: 0 <= k < i ==> RowVerifies(sorted, k, key)
      invariant result == Decoded(sorted[..i])
    {
      var row := sorted[i];
      if row.previous != previous {
        assert FirstFault(sorted, key, i, ChainInconsistent);
        return Rejected(ChainInconsistent);
      }
      if row.signature != Mac(key, previous + row.event) {
        assert FirstFault(sorted, key, i, AuthenticationFailed);
        return Rejected(AuthenticationFailed);
      }
      var event := Decode(row.event);
      if event.None? {
        assert FirstFault(sorted, key, i, Unreadable);
        return Rejected(Unreadable);
      }
      assert sorted[..i + 1][..i] == sorted[..i];
      result := result + [event.value];
      previous := row.signature;
    }
    AllRowsRead(rows, key);
    result := Newest(result, Limit(limit));
    listing := Events(result);
  }

  lemma AllRowsRead(rows: seq<Row>, key: Key)
    requires forall k :: 0 <= k < |ByStamp(rows)| ==> RowVerifies(ByStamp(rows), k, key)
    ensures Chained(ByStamp(rows), key) && ByStamp(rows)[..|ByStamp(rows)|] == ByStamp(rows)
    ensures |Decoded(ByStamp(rows))| == |rows|
  {
    ChainedIsReadable(ByStamp(rows), key);
    DecodedReads(ByStamp(rows));
    ByStampSorts(rows);
  }

  /** Drops all but the last `limit` events and puts the newest first. */
  method Newest(events: seq<AuditEvent>, limit: nat) returns (result: seq<AuditEvent>)
    ensures IsNewest(result, events, limit)
  {
    var last := events;
    if |last| > limit {
      last := last[|last| - limit..];
    }
    var slice := new AuditEvent[|last|](i requires 0 <= i < |last| => last[i]);
    ReverseInPlace(slice);
    result := slice[..];
  }

  /** Swaps from both ends inwards. */
  method ReverseInPlace(events: array<AuditEvent>)
    modifies events
    ensures forall i :: 0 <= i < events.Length ==> events[i] == old(events[events.Length - 1 - i])
  {
    var left, right := 0, events.Length - 1;
    while left < right
      invariant 0 <= left <= right + 1 && left + right == events.Length - 1
      invariant forall k :: 0 <= k < left || right < k < events.Length ==>
                events[k] == old(events[events.Length - 1 - k])
      invariant forall k :: left <= k <= right ==> events[k] == old(events[k])
    {
      events[left], events[right] := events[right], events[left];
      left, right := left + 1, right - 1;
    }
  }

  // ----- Signatures grow along a chain -----

  /** The size of a symbolic octet; a signature is larger than all it signs. */
  ghost function Weight(o: Octet): nat
    decreases o
  {
    match o
    case Raw(_) => 1
    case Json(_) => 1
    case MacOctet(_, message, _) => 1 + TotalWeight(message)
  }

  ghost function TotalWeight(s: seq<Octet>): nat
    decreases s
  {
    if s == [] then 0 else Weight(s[0]) + TotalWeight(s[1..])
  }

  lemma {:induction false} TotalWeightConcat(s: seq<Octet>, t: seq<Octet>)
    ensures TotalWeight(s + t) == TotalWeight(s) + TotalWeight(t)
    decreases |s|
  {
    if s == [] {
      assert s + t == t;
    } else {
      assert (s + t)[1..] == s[1..] + t;
      TotalWeightConcat(s[1..], t);
    }
  }

  lemma SignatureIsHeavier(key: Key, previous: seq<Octet>, event: seq<Octet>)
    ensures TotalWeight(Mac(key, previous + event)) > TotalWeight(previous)
  {
    var signature := Mac(key, previous + event);
    TotalWeightConcat(previous, event);
    assert Weight(signature[0]) == 1 + TotalWeight(previous + event);
  }

  lemma {:induction false} ChainWeights(rows: seq<Row>, key: Key, i: nat, j: nat)
    requires Chained(rows, key) && i < j < |rows|
    ensures TotalWeight(rows[i].signature) < TotalWeight(rows[j].signature)
    decreases j
  {
    assert RowVerifies(rows, j, key);
    SignatureIsHeavier(key, rows[j - 1].signature, rows[j].event);
    if i < j - 1 {
      ChainWeights(rows, key, i, j - 1);
    }
  }

  // ----- When the listing accepts what was appended -----

  lemma {:induction false} StampsIncreaseBetween(events: seq<AuditEvent>, i: nat, j: nat)
    requires StampsIncrease(events) && i < j < |events|
    ensures Before(Stamp(events[i]), Stamp(events[j]))
    decreases j
  {
    if i < j - 1 {
      StampsIncreaseBetween(events, i, j - 1);
      BeforeTransitive(Stamp(events[i]), Stamp(events[j - 1]), Stamp(events[j]));
    }
  }

  /** In increasing stamp order the query returns the rows as appended. */
  lemma {:induction false} IncreasingIsSorted(key: Key, events: seq<AuditEvent>)
    requires DistinctIds(events) && StampsIncrease(events)
    ensures ByStamp(Build(key, events)) == Build(key, events)
    decreases |events|
  {
    if events != [] {
      var n := |events| - 1;
      var init, rows := events[..n], Build(key, events);
      IncreasingIsSorted(key, init);
      BuildPrefix(key, events, n);
      LastIsLatest(key, events);
      InsertLast(rows[n], rows[..n]);
    }
  }

  lemma LastIsLatest(key: Key, events: seq<AuditEvent>)
    requires DistinctIds(events) && StampsIncrease(events) && events != []
    ensures var rows := Build(key, events);
            |rows| == |events| &&
            forall i :: 0 <= i < |rows| - 1 ==> !Before(rows[|rows| - 1].createdAt, rows[i].createdAt)
  {
    var rows, n := Build(key, events), |events| - 1;
    BuildRow(key, events, n);
    forall i | 0 <= i < n ensures !Before(rows[n].createdAt, rows[i].createdAt) {
      BuildRow(key, events, i);
      StampsIncreaseBetween(events, i, n);
      BeforeTotal(rows[i].createdAt, rows[n].createdAt);
    }
  }

  /** Each row then links to the row appended just before it. */
  lemma IncreasingLinks(key: Key, events: seq<AuditEvent>, i: nat)
    requires DistinctIds(events) && i < |events| && StampsIncrease(events[..i])
    ensures var rows := Build(key, events);
            |rows| == |events| && rows[i].event == Encode(events[i]) &&
            rows[i].createdAt == Stamp(events[i]) &&
            rows[i].previous == Carried(rows, i) &&
            rows[i].signature == Mac(key, Carried(rows, i) + rows[i].event)
  {
    BuildRow(key, events, i);
    LatestIsCarried(key, events[..i]);
    assert Carried(Build(key, events), i) == Carried(Build(key, events[..i]), i) by {
      BuildPrefix(key, events, i);
    }
  }

  /** In increasing stamp order the row with the greatest stamp is the last one. */
  lemma LatestIsCarried(key: Key, events: seq<AuditEvent>)
    requires DistinctIds(events) && StampsIncrease(events)
    ensures |Build(key, events)| == |events|
    ensures LatestSignature(Build(key, events)) == Carried(Build(key, events), |events|)
  {
    BuildIds(key, events);
    IncreasingIsSorted(key, events);
  }

  lemma IncreasingIsAccepted(key: Key, events: seq<AuditEvent>)
    requires DistinctIds(events) && StampsIncrease(events)
    ensures Chained(ByStamp(Build(key, events)), key)
    ensures Decoded(ByStamp(Build(key, events))) == events
  {
    var rows := Build(key, events);
    IncreasingIsSorted(key, events);
    BuildIds(key, events);
    forall i | 0 <= i < |rows| ensures RowVerifies(rows, i, key) && rows[i].event == Encode(events[i]) {
      IncreasingVerifies(key, events, i);
    }
    DecodedReads(rows);
    forall i | 0 <= i < |rows| ensures Decoded(rows)[i] == events[i] {
      assert rows[i].event == Encode(events[i]);
    }
  }

  lemma IncreasingVerifies(key: Key, events: seq<AuditEvent>, i: nat)
    requires DistinctIds(events) && StampsIncrease(events) && i < |events|
    ensures var rows := Build(key, events);
            |rows| == |events| && rows[i].event == Encode(events[i]) && RowVerifies(rows, i, key)
  {
    assert events[..|events|] == events;
    StampsIncreasePrefix(events, |events|, i);
    IncreasingLinks(key, events, i);
  }

  lemma StampsSnoc(events: seq<AuditEvent>)
    ensures events == [] ==> StampsIncrease(events)
    ensures events != [] ==>
              var n := |events| - 1;
              (StampsIncrease(events) <==>
               StampsIncrease(events[..n]) && (n > 0 ==> Before(Stamp(events[n - 1]), Stamp(events[n]))))
  {
    if events != [] {
      var n := |events| - 1;
      var init := events[..n];
      if StampsIncrease(events) {
        StampsIncreasePrefix(events, |events|, n) by { assert events[..|events|] == events; }
      }
      if StampsIncrease(init) && (n > 0 ==> Before(Stamp(events[n - 1]), Stamp(events[n]))) {
        forall i | 0 < i < |events| ensures Before(Stamp(events[i - 1]), Stamp(events[i])) {
          if i < n {
            assert Before(Stamp(init[i - 1]), Stamp(init[i]));
          }
        }
      }
    }
  }

  /** The first place where the stamps do not increase. */
  ghost predicate DropsAt(events: seq<AuditEvent>, k: nat) {
    0 < k < |events| && StampsIncrease(events[..k]) && !Before(Stamp(events[k - 1]), Stamp(events[k]))
  }

  lemma DropExtends(events: seq<AuditEvent>, n: nat, k: nat)
    requires n <= |events| && DropsAt(events[..n], k)
    ensures DropsAt(events, k)
  {
    assert events[..n][..k] == events[..k];
  }

  lemma {:induction false} FirstDrop(events: seq<AuditEvent>) returns (k: nat)
    requires !StampsIncrease(events)
    ensures DropsAt(events, k)
    decreases |events|
  {
    StampsSnoc(events);
    var n := |events| - 1;
    if StampsIncrease(events[..n]) {
      k := n;
    } else {
      k := FirstDrop(events[..n]);
      DropExtends(events, n, k);
    }
  }

  /** In a consistent chain a row cannot sign one that sorts after it. */
  lemma SignerSortsAfter(rows: seq<Row>, key: Key, signer: Row, signed: Row)
    requires Chained(ByStamp(rows), key) && signer in rows && signed in rows
    requires signer.signature == Mac(key, signed.signature + signer.event)
    ensures !Before(signer.createdAt, signed.createdAt)
  {
    var sorted := ByStamp(rows);
    ByStampSorts(rows);
    assert signer in multiset(sorted) && signed in multiset(sorted);
    var a :| 0 <= a < |sorted| && sorted[a] == signer;
    var b :| 0 <= b < |sorted| && sorted[b] == signed;
    BeforeTotal(signer.createdAt, signer.createdAt);
    SignatureIsHeavier(key, signed.signature, signer.event);
    if a < b {
      ChainWeights(sorted, key, a, b);
    }
  }

  lemma SignsPrevious(key: Key, events: seq<AuditEvent>, k: nat)
    requires DistinctIds(events) && 0 < k < |events| && StampsIncrease(events[..k])
    ensures var rows := Build(key, events);
            |rows| == |events| &&
            rows[k].signature == Mac(key, rows[k - 1].signature + rows[k].event) &&
            rows[k].createdAt == Stamp(events[k]) && rows[k - 1].createdAt == Stamp(events[k - 1])
  {
    assert |Build(key, events)| == |events| && Build(key, events)[k - 1].createdAt == Stamp(events[k - 1]) by {
      StampsIncreasePrefix(events, k, k - 1);
      BuildRow(key, events, k - 1);
    }
    var rows := Build(key, events);
    assert rows[k].createdAt == Stamp(events[k]) &&
           rows[k].signature == Mac(key, rows[k - 1].signature + rows[k].event) by {
      IncreasingLinks(key, events, k);
    }
  }

  /** A drop makes a row that signs another one sort before it. */
  lemma DropIsRejected(key: Key, events: seq<AuditEvent>)
    requires DistinctIds(events) && DistinctStamps(events) && !StampsIncrease(events)
    ensures !Chained(ByStamp(Build(key, events)), key)
  {
    var rows := Build(key, events);
    var k := FirstDrop(events);
    SignsPrevious(key, events, k);
    BeforeTotal(Stamp(events[k - 1]), Stamp(events[k]));
    if Chained(ByStamp(rows), key) {
      assert rows[k] in rows && rows[k - 1] in rows;
      SignerSortsAfter(rows, key, rows[k], rows[k - 1]);
    }
  }

  lemma StampsIncreasePrefix(events: seq<AuditEvent>, k: nat, j: nat)
    requires j <= k <= |events| && StampsIncrease(events[..k])
    ensures StampsIncrease(events[..j])
  {
    forall i | 0 < i < j ensures Before(Stamp(events[i - 1]), Stamp(events[i])) {
      assert Before(Stamp(events[..k][i - 1]), Stamp(events[..k][i]));
    }
  }

  /** With distinct ids and stamps, the listing accepts exactly the tables whose events were
      appended in strictly increasing stamp order. */
  lemma AcceptedExactly(key: Key, events: seq<AuditEvent>)
    requires DistinctIds(events) && DistinctStamps(events)
    ensures Chained(ByStamp(Build(key, events)), key) <==> StampsIncrease(events)
  {
    if StampsIncrease(events) {
      IncreasingIsAccepted(key, events);
    } else {
      DropIsRejected(key, events);
    }
  }

  ghost predicate TimesIncrease(events: seq<AuditEvent>) {
    forall i, j :: 0 <= i < j < |events| ==> Earlier(events[i].timestamp, events[j].timestamp)
  }

  /** With a clock that always moves forward, the listing fails exactly when two consecutive
      events share a second and the fraction of the earlier one, trimmed, is continued by the
      fraction of the later one. */
  lemma ClockOrderAccepted(key: Key, events: seq<AuditEvent>)
    requires DistinctIds(events) && TimesIncrease(events)
    ensures Chained(ByStamp(Build(key, events)), key) <==>
            forall i :: 0 < i < |events| ==> !Misordered(events[i - 1].timestamp, events[i].timestamp)
  {
    forall i, j | 0 <= i < j < |events| ensures Stamp(events[i]) != Stamp(events[j]) {
      EarlierTotal(events[i].timestamp, events[j].timestamp);
      EarlierTotal(events[i].timestamp, events[i].timestamp);
      if Stamp(events[i]) == Stamp(events[j]) {
        FormatInjective(events[i].timestamp, events[j].timestamp);
      }
    }
    forall i | 0 < i < |events|
      ensures Before(Stamp(events[i - 1]), Stamp(events[i])) <==>
              !Misordered(events[i - 1].timestamp, events[i].timestamp)
    {
      var a, b := events[i - 1].timestamp, events[i].timestamp;
      EarlierTotal(a, b);
      EarlierTotal(a, a);
      FormatOrder(a, b);
    }
    AcceptedExactly(key, events);
  }

  /** Such a log exists: two events, the first on a whole second and the other later within it. */
  lemma WholeSecondRejected(key: Key, first: AuditEvent, second: AuditEvent)
    requires first.id != second.id && Clock(first.timestamp) == Clock(second.timestamp)
    requires first.timestamp.nanosecond == 0 < second.timestamp.nanosecond
    ensures TimesIncrease([first, second]) && !Chained(ByStamp(Build(key, [first, second])), key)
  {
    var events := [first, second];
    WholeSecondMisorders(first.timestamp, second.timestamp);
    ClockOrderAccepted(key, events);
    assert Misordered(events[0].timestamp, events[1].timestamp);
  }

  // ----- What the last signature pins down -----

  /** Two accepted tables with the same last signature are the same history: the signature pins
      down the number of rows and every row's event and signature. */
  lemma {:induction false} SameHeadSameHistory(a: seq<Row>, b: seq<Row>, key: Key)
    requires Chained(a, key) && Chained(b, key) && Carried(a, |a|) == Carried(b, |b|)
    ensures |a| == |b| && forall i :: 0 <= i < |a| ==> a[i].event == b[i].event && a[i].signature == b[i].signature
    decreases |a|
  {
    HeadLength(a, key);
    HeadLength(b, key);
    if a != [] && b != [] {
      var m, n := |a| - 1, |b| - 1;
      assert RowVerifies(a, m, key) && RowVerifies(b, n, key);
      ChainedPrefix(a, key, m);
      ChainedPrefix(b, key, n);
      SameSignature(key, Carried(a, m), a[m].event, Carried(b, n), b[n].event);
      assert Carried(a[..m], m) == Carried(a, m) && Carried(b[..n], n) == Carried(b, n);
      SameHeadSameHistory(a[..m], b[..n], key);
      forall i | 0 <= i < m ensures a[i].event == b[i].event && a[i].signature == b[i].signature {
        assert a[..m][i] == a[i] && b[..n][i] == b[i];
      }
    }
  }

  /** Without the key no new signature can be made.  A table that is accepted and holds no signature
      but those of an accepted history is that history with some of its newest rows cut off. */
  lemma OnlyCutShort(s: seq<Row>, h: seq<Row>, key: Key)
    requires Chained(s, key) && Chained(h, key)
    requires forall i :: 0 <= i < |s| ==> SignedIn(s[i], h)
    ensures |s| <= |h| && forall i :: 0 <= i < |s| ==> s[i].event == h[i].event && s[i].signature == h[i].signature
  {
    forall i | 0 <= i < |s| ensures i < |h| && s[i].event == h[i].event && s[i].signature == h[i].signature {
      SignedStandsThere(s, h, key, i);
    }
    if s != [] {
      SignedStandsThere(s, h, key, |s| - 1);
    }
  }

  lemma SignedStandsThere(s: seq<Row>, h: seq<Row>, key: Key, i: nat)
    requires Chained(s, key) && Chained(h, key) && i < |s| && SignedIn(s[i], h)
    ensures i < |h| && s[i].event == h[i].event && s[i].signature == h[i].signature
  {
    var j :| 0 <= j < |h| && h[j].signature == s[i].signature;
    ChainedPrefix(s, key, i + 1);
    ChainedPrefix(h, key, j + 1);
    SameHeadSameHistory(s[..i + 1], h[..j + 1], key);
    assert s[..i + 1][i] == s[i] && h[..j + 1][i] == h[i];
  }

  /** Of an accepted table, an altered event is reported as failing authentication, in its own row. */
  lemma AlteredIsRejected(rows: seq<Row>, key: Key, i: nat, event: seq<Octet>)
    requires Chained(rows, key) && i < |rows| && event != rows[i].event
    ensures FirstFault(rows[i := rows[i].(event := event)], key, i, AuthenticationFailed)
  {
    var altered := rows[i := rows[i].(event := event)];
    var carried := Carried(rows, i);
    assert Carried(altered, i) == carried && RowVerifies(rows, i, key);
    assert (carried + rows[i].event)[|carried|..] == rows[i].event && (carried + event)[|carried|..] == event;
    if Mac(key, carried + rows[i].event) == Mac(key, carried + event) {
      MacInjective(key, carried + rows[i].event, key, carried + event);
    }
    forall k | 0 <= k < i ensures RowVerifies(altered, k, key) {
      assert RowVerifies(rows, k, key);
    }
  }

  /** A row taken out before the last one breaks the chain at the row that follows it. */
  lemma RemovedIsRejected(rows: seq<Row>, key: Key, i: nat)
    requires Chained(rows, key) && i + 1 < |rows|
    ensures FirstFault(rows[..i] + rows[i + 1..], key, i, ChainInconsistent)
  {
    var left := rows[..i] + rows[i + 1..];
    assert RowVerifies(rows, i + 1, key) && RowVerifies(rows, i, key);
    assert left[i] == rows[i + 1] && Carried(left, i) == Carried(rows, i);
    if i > 0 && rows[i - 1].signature == rows[i].signature {
      ChainWeights(rows, key, i - 1, i);
    }
    forall k | 0 <= k < i ensures RowVerifies(left, k, key) {
      assert RowVerifies(rows, k, key) && left[k] == rows[k];
    }
  }

  ghost predicate SignedIn(row: Row, h: seq<Row>) {
    exists j :: 0 <= j < |h| && h[j].signature == row.signature
  }

  /** What the next row would sign is empty or one signature long. */
  lemma HeadLength(rows: seq<Row>, key: Key)
    requires Chained(rows, key)
    ensures |Carried(rows, |rows|)| == if rows == [] then 0 else MAC_SIZE
  {
    if rows != [] {
      assert RowVerifies(rows, |rows| - 1, key);
    }
  }

  /** So the listings they produce are the same. */
  lemma SameHeadSameEvents(a: seq<Row>, b: seq<Row>, key: Key)
    requires Chained(a, key) && Chained(b, key) && Carried(a, |a|) == Carried(b, |b|)
    ensures Decoded(a) == Decoded(b)
  {
    SameHeadSameHistory(a, b, key);
    SameTextSameEvents(a, b);
  }

  lemma {:induction false} SameTextSameEvents(a: seq<Row>, b: seq<Row>)
    requires |a| == |b| && forall i :: 0 <= i < |a| ==> a[i].event == b[i].event
    ensures Decoded(a) == Decoded(b)
    decreases |a|
  {
    if a != [] {
      SameTextSameEvents(a[..|a| - 1], b[..|b| - 1]);
    }
  }

  lemma ChainedPrefix(rows: seq<Row>, key: Key, n: nat)
    requires Chained(rows, key) && n <= |rows|
    ensures Chained(rows[..n], key)
  {
    forall i | 0 <= i < n ensures RowVerifies(rows[..n], i, key) {
      assert RowVerifies(rows, i, key);
    }
  }

  /** Every readable event is one JSON text, so the signed bytes split in one way. */
  lemma SameSignature(key: Key, p: seq<Octet>, e: seq<Octet>, q: seq<Octet>, f: seq<Octet>)
    requires Mac(key, p + e) == Mac(key, q + f) && Decode(e).Some? && Decode(f).Some?
    ensures p == q && e == f
  {
    MacInjective(key, p + e, key, q + f);
    assert |p| == |p + e| - 1 == |q|;
    assert p == (p + e)[..|p|] && e == (p + e)[|p|..];
    assert q == (q + f)[..|q|] && f == (q + f)[|q|..];
  }
}
