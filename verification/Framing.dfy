/** The framed strings that tokens and boxes are bound to never stand for two things. */
module Framing {
  import opened SecureCrypto

  // ----- Zero-byte framing of names -----

  predicate ZeroFree(s: string) {
    '\0' !in s
  }

  function Zeros(s: string): nat {
    if s == "" then 0 else Zeros(s[..|s| - 1]) + if s[|s| - 1] == '\0' then 1 else 0
  }

  lemma {:induction false} ZerosConcat(s: string, t: string)
    ensures Zeros(s + t) == Zeros(s) + Zeros(t)
    decreases |t|
  {
    if t == "" {
      assert s + t == s;
    } else {
      assert (s + t)[..|s + t| - 1] == s + t[..|t| - 1];
      ZerosConcat(s, t[..|t| - 1]);
    }
  }

  lemma {:induction false} ZerosOfZeroFree(s: string)
    ensures Zeros(s) == 0 <==> ZeroFree(s)
    decreases |s|
  {
    if s != "" {
      ZerosOfZeroFree(s[..|s| - 1]);
      assert s == s[..|s| - 1] + [s[|s| - 1]];
    }
  }

  ghost predicate AllZeroFree(values: seq<string>) {
    forall i :: 0 <= i < |values| ==> ZeroFree(values[i])
  }

  lemma AllZeroFreeSnoc(values: seq<string>)
    requires values != []
    ensures AllZeroFree(values) <==> AllZeroFree(values[..|values| - 1]) && ZeroFree(values[|values| - 1])
  {
    var init := values[..|values| - 1];
    assert forall i :: 0 <= i < |init| ==> init[i] == values[i];
  }

  lemma {:induction false} ZerosOfFrame(values: seq<string>)
    ensures Zeros(Frame(values)) >= |values|
    ensures Zeros(Frame(values)) == |values| <==> AllZeroFree(values)
    decreases |values|
  {
    if values != [] {
      var init, last := values[..|values| - 1], values[|values| - 1];
      ZerosOfFrame(init);
      ZerosOfZeroFree(last);
      ZerosConcat(Frame(init), "\0" + last);
      ZerosConcat("\0", last);
      assert Zeros("\0") == 1 by { assert "\0"[..0] == ""; }
      AllZeroFreeSnoc(values);
    }
  }

  /** The part after the last zero byte, and the part before it, are determined. */
  lemma LastZeroSplits(p: string, v: string, q: string, w: string)
    requires p + ("\0" + v) == q + ("\0" + w) && ZeroFree(v) && ZeroFree(w)
    ensures p == q && v == w
  {
    SeparatorSplits(p, v, q, w, '\0');
  }

  lemma LaterSeparator(p: string, v: string, q: string, w: string, separator: char)
    requires p + ([separator] + v) == q + ([separator] + w) && |p| < |q|
    ensures separator in v && separator in q
  {
    var s := p + ([separator] + v);
    assert s[|q|] == (q + ([separator] + w))[|q|] == separator;
    assert s[|q|] == v[|q| - |p| - 1];
    assert q[|p|] == s[|p|] == separator;
  }

  lemma SeparatorSplits(p: string, v: string, q: string, w: string, separator: char)
    requires p + ([separator] + v) == q + ([separator] + w) && separator !in v && separator !in w
    ensures p == q && v == w
  {
    var s := p + ([separator] + v);
    var t := q + ([separator] + w);
    if |p| < |q| {
      LaterSeparator(p, v, q, w, separator);
      assert false;
    }
    if |q| < |p| {
      LaterSeparator(q, w, p, v, separator);
      assert false;
    }
    assert s[..|p|] == p && t[..|q|] == q;
    assert s[|p| + 1..] == v && t[|q| + 1..] == w;
  }

  /** A zero-free tuple frames like another tuple of the same size only if they are equal,
      whatever bytes the other tuple contains. */
  lemma {:induction false} FrameInjective(values: seq<string>, others: seq<string>)
    requires |values| == |others| && Frame(values) == Frame(others)
    requires AllZeroFree(values)
    ensures values == others
    decreases |values|
  {
    if values != [] {
      ZerosOfFrame(values);
      ZerosOfFrame(others);
      AllZeroFreeSnoc(values);
      AllZeroFreeSnoc(others);
      var n := |values| - 1;
      LastZeroSplits(Frame(values[..n]), values[n], Frame(others[..n]), others[n]);
      FrameInjective(values[..n], others[..n]);
      assert values == values[..n] + [values[n]] && others == others[..n] + [others[n]];
    }
  }

  /** So equal tokens under one key mean equal tuples. */
  lemma TokenInjective(key: Key, values: seq<string>, others: seq<string>)
    requires |values| == |others| && LookupToken(key, values) == LookupToken(key, others)
    requires AllZeroFree(values)
    ensures values == others
  {
    MacInjective(key, Text(Frame(values)), key, Text(Frame(others)));
    TextInjective(Frame(values), Frame(others));
    FrameInjective(values, others);
  }

  /** Without the condition it fails: a zero byte can move between neighbouring parts. */
  lemma ZeroBytesCollide(key: Key)
    ensures LookupToken(key, ["secret", "p\0e", "x", "n"]) == LookupToken(key, ["secret", "p", "e\0x", "n"])
  {
    var a, b := ["secret", "p\0e", "x", "n"], ["secret", "p", "e\0x", "n"];
    assert a[..3] == ["secret", "p\0e", "x"] && b[..3] == ["secret", "p", "e\0x"];
    assert a[..3][..2] == ["secret", "p\0e"] && b[..3][..2] == ["secret", "p"];
    assert a[..3][..2][..1] == ["secret"] == b[..3][..2][..1];
    var s := Frame(["secret"]);
    assert Frame(a[..3][..2]) == s + ("\0" + "p\0e") && Frame(b[..3][..2]) == s + ("\0" + "p");
    assert Frame(a[..3]) == s + "\0p\0e\0x" == Frame(b[..3]);
  }

  // ----- Exactly which tuples are determined -----

  lemma {:induction false} FrameConcat(a: seq<string>, b: seq<string>)
    ensures Frame(a + b) == Frame(a) + Frame(b)
    decreases |b|
  {
    if b == [] {
      assert a + b == a && Frame(a) + "" == Frame(a);
    } else {
      var init, last := b[..|b| - 1], b[|b| - 1];
      assert (a + b)[..|a + b| - 1] == a + init && (a + b)[|a + b| - 1] == last;
      FrameConcat(a, init);
      assert (Frame(a) + Frame(init)) + ("\0" + last) == Frame(a) + (Frame(init) + ("\0" + last));
    }
  }

  lemma FrameTwo(x: string, y: string)
    ensures Frame([x, y]) == "\0" + (x + ("\0" + y))
  {
    assert [x, y][..1] == [x] && [x][..0] == [];
    assert Frame([x]) == "" + ("\0" + x) == "\0" + x;
    assert ("\0" + x) + ("\0" + y) == "\0" + (x + ("\0" + y));
  }

  /** Only the joined text of two neighbouring parts shows in the frame. */
  lemma NeighboursJoin(before: seq<string>, x: string, y: string, x': string, y': string, after: seq<string>)
    requires x + ("\0" + y) == x' + ("\0" + y')
    ensures Frame(before + [x, y] + after) == Frame(before + [x', y'] + after)
  {
    FrameTwo(x, y);
    FrameTwo(x', y');
    FrameConcat(before, [x, y]);
    FrameConcat(before, [x', y']);
    FrameConcat(before + [x, y], after);
    FrameConcat(before + [x', y'], after);
  }

  /** A tuple that differs from `values` at two neighbouring places only. */
  ghost function Replaced(values: seq<string>, i: nat, x: string, y: string): (others: seq<string>)
    requires i + 1 < |values|
    ensures |others| == |values| && others[i] == x && others[i + 1] == y
    ensures forall j :: 0 <= j < |values| && j != i && j != i + 1 ==> others[j] == values[j]
  {
    values[..i] + [x, y] + values[i + 2..]
  }

  lemma ReplacedBySame(values: seq<string>, i: nat)
    requires i + 1 < |values|
    ensures values[..i] + [values[i], values[i + 1]] + values[i + 2..] == values
  {
  }

  lemma ReplacedFrames(values: seq<string>, i: nat, x: string, y: string)
    requires i + 1 < |values| && values[i] + ("\0" + values[i + 1]) == x + ("\0" + y)
    ensures Frame(Replaced(values, i, x, y)) == Frame(values)
  {
    ReplacedBySame(values, i);
    NeighboursJoin(values[..i], values[i], values[i + 1], x, y, values[i + 2..]);
  }

  lemma SplitAtZero(s: string) returns (a: string, b: string)
    requires !ZeroFree(s)
    ensures s == a + ("\0" + b) && |a| < |s|
  {
    var at :| 0 <= at < |s| && s[at] == '\0';
    a, b := s[..at], s[at + 1..];
  }

  /** A zero byte in part `k` can move over a boundary to a neighbour `i` or `i + 1`. */
  lemma ZeroMoves(values: seq<string>, k: nat, i: nat) returns (others: seq<string>)
    requires i + 1 < |values| && (k == i || k == i + 1) && !ZeroFree(values[k])
    ensures |others| == |values| && others != values && Frame(others) == Frame(values)
    ensures forall j :: 0 <= j < |values| && j != i && j != i + 1 ==> others[j] == values[j]
  {
    var a, b := SplitAtZero(values[k]);
    if k == i {
      var moved := b + ("\0" + values[i + 1]);
      assert values[i] + ("\0" + values[i + 1]) == a + ("\0" + moved);
      others := Replaced(values, i, a, moved);
      ReplacedFrames(values, i, a, moved);
    } else {
      var moved := values[i] + ("\0" + a);
      assert values[i] + ("\0" + values[i + 1]) == moved + ("\0" + b);
      others := Replaced(values, i, moved, b);
      ReplacedFrames(values, i, moved, b);
    }
    assert |others[k]| != |values[k]|;
  }

  /** Same size, same frame, and the same first `fixed` parts. */
  ghost predicate FramesAlike(values: seq<string>, others: seq<string>, fixed: nat) {
    && |others| == |values| && Frame(others) == Frame(values)
    && forall j :: 0 <= j < fixed && j < |values| ==> others[j] == values[j]
  }

  /** When the first parts are zero-free and fixed, and at least two are not, a tuple is determined
      by its frame exactly if all of it is zero-free. */
  lemma FrameDeterminesExactly(values: seq<string>, fixed: nat)
    requires fixed + 2 <= |values| && AllZeroFree(values[..fixed])
    ensures AllZeroFree(values) <==> forall others :: FramesAlike(values, others, fixed) ==> others == values
  {
    forall j | 0 <= j < fixed ensures ZeroFree(values[j]) {
      assert values[..fixed][j] == values[j];
    }
    if AllZeroFree(values) {
      forall others | FramesAlike(values, others, fixed) ensures others == values {
        FrameInjective(values, others);
      }
    } else {
      var k :| 0 <= k < |values| && !ZeroFree(values[k]);
      var others := ZeroMoves(values, k, if k + 1 < |values| then k else k - 1);
      assert FramesAlike(values, others, fixed);
    }
  }

  // ----- Associated data -----

  function Decimal(n: nat): (s: string)
    ensures s != "" && forall i :: 0 <= i < |s| ==> '0' <= s[i] <= '9'
  {
    if n < 10 then ['0' + n as char] else Decimal(n / 10) + ['0' + (n % 10) as char]
  }

  lemma {:induction false} DecimalInjective(m: nat, n: nat)
    requires Decimal(m) == Decimal(n)
    ensures m == n
    decreases m
  {
    var s := Decimal(m);
    if m >= 10 && n >= 10 {
      assert s[..|s| - 1] == Decimal(m / 10) == Decimal(n / 10);
      assert s[|s| - 1] == '0' + (m % 10) as char == '0' + (n % 10) as char;
      DecimalInjective(m / 10, n / 10);
    }
  }

  function WrapperAAD(vaultID: string): string {
    "vcsm:dek:v1:" + vaultID
  }

  function ObjectAAD(kind: string, id: string, revision: nat): string {
    "vcsm:object:v1:" + (kind + (":" + (id + (":" + Decimal(revision)))))
  }

  function SecretAAD(id: string, version: nat): string {
    "vcsm:secret:v1:" + (id + (":" + Decimal(version)))
  }

  lemma CancelPrefix(p: string, s: string, t: string)
    requires p + s == p + t
    ensures s == t
  {
    assert (p + s)[|p|..] == s && (p + t)[|p|..] == t;
  }

  lemma NumberedInjective(id: string, m: nat, id': string, n: nat)
    requires id + (":" + Decimal(m)) == id' + (":" + Decimal(n))
    ensures id == id' && m == n
  {
    SeparatorSplits(id, Decimal(m), id', Decimal(n), ':');
    DecimalInjective(m, n);
  }

  lemma WrapperAADInjective(vaultID: string, other: string)
    requires vaultID != other
    ensures WrapperAAD(vaultID) != WrapperAAD(other)
  {
    if WrapperAAD(vaultID) == WrapperAAD(other) {
      CancelPrefix("vcsm:dek:v1:", vaultID, other);
    }
  }

  /** Any ids at all, even ones containing colons. */
  lemma SecretAADInjective(id: string, version: nat, id': string, version': nat)
    requires SecretAAD(id, version) == SecretAAD(id', version')
    ensures id == id' && version == version'
  {
    CancelPrefix("vcsm:secret:v1:", id + (":" + Decimal(version)), id' + (":" + Decimal(version')));
    NumberedInjective(id, version, id', version');
  }

  lemma FirstSeparatorSplits(v: string, p: string, w: string, q: string, separator: char)
    requires v + ([separator] + p) == w + ([separator] + q) && separator !in v && separator !in w
    ensures v == w && p == q
  {
    var s := v + ([separator] + p);
    var t := w + ([separator] + q);
    if |v| < |w| {
      LaterSeparator(v, p, w, q, separator);
      assert false;
    }
    if |w| < |v| {
      LaterSeparator(w, q, v, p, separator);
      assert false;
    }
    assert s[..|v|] == v && t[..|w|] == w;
    assert s[|v| + 1..] == p && t[|w| + 1..] == q;
  }

  lemma ObjectAADInjective(kind: string, id: string, revision: nat, kind': string, id': string, revision': nat)
    requires ':' !in kind && ':' !in kind'
    requires ObjectAAD(kind, id, revision) == ObjectAAD(kind', id', revision')
    ensures kind == kind' && id == id' && revision == revision'
  {
    var rest, rest' := id + (":" + Decimal(revision)), id' + (":" + Decimal(revision'));
    CancelPrefix("vcsm:object:v1:", kind + (":" + rest), kind' + (":" + rest'));
    FirstSeparatorSplits(kind, rest, kind', rest', ':');
    NumberedInjective(id, revision, id', revision');
  }

  /** The three families of associated data never meet. */
  lemma AADFamiliesDisjoint(vaultID: string, kind: string, id: string, revision: nat, id': string, version: nat)
    ensures WrapperAAD(vaultID) != ObjectAAD(kind, id, revision)
    ensures WrapperAAD(vaultID) != SecretAAD(id', version)
    ensures ObjectAAD(kind, id, revision) != SecretAAD(id', version)
  {
    assert WrapperAAD(vaultID)[5] == 'd';
    assert ObjectAAD(kind, id, revision)[5] == 'o';
    assert SecretAAD(id', version)[5] == 's';
  }
}
