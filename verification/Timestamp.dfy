/** UTC timestamps as the audit log stores them: `2006-01-02T15:04:05.999999999Z` with
    trailing zeros of the fraction trimmed, compared as strings. */
module Timestamp {

  // ----- Byte-wise string order -----

  /** `s` sorts strictly before `t`. */
  predicate Before(s: string, t: string) {
    t != "" && (s == "" || s[0] < t[0] || (s[0] == t[0] && Before(s[1..], t[1..])))
  }

  lemma {:induction false} BeforeSamePrefix(p: string, s: string, t: string)
    ensures Before(p + s, p + t) <==> Before(s, t)
    decreases |p|
  {
    if p == "" {
      assert p + s == s && p + t == t;
    } else {
      BeforeSamePrefix(p[1..], s, t);
      assert (p + s)[1..] == p[1..] + s && (p + t)[1..] == p[1..] + t;
    }
  }

  /** The first difference decides, whatever follows. */
  lemma {:induction false} BeforeDifferentPrefix(p: string, q: string, s: string, t: string)
    requires |p| == |q| && p != q
    ensures Before(p + s, q + t) <==> Before(p, q)
    decreases |p|
  {
    assert (p + s)[1..] == p[1..] + s && (q + t)[1..] == q[1..] + t;
    if p[0] == q[0] {
      assert p == [p[0]] + p[1..] && q == [q[0]] + q[1..];
      BeforeDifferentPrefix(p[1..], q[1..], s, t);
    }
  }

  lemma {:induction false} BeforeTotal(s: string, t: string)
    ensures Before(s, t) || s == t || Before(t, s)
    ensures !(Before(s, t) && Before(t, s)) && !Before(s, s)
    decreases |s|
  {
    if s != "" {
      BeforeTotal(s[1..], s[1..]);
      if t != "" {
        BeforeTotal(s[1..], t[1..]);
        assert s == [s[0]] + s[1..] && t == [t[0]] + t[1..];
      }
    }
  }

  lemma {:induction false} BeforeTransitive(s: string, t: string, u: string)
    requires Before(s, t) && Before(t, u)
    ensures Before(s, u)
    decreases |s|
  {
    if s != "" && s[0] == t[0] == u[0] {
      BeforeTransitive(s[1..], t[1..], u[1..]);
    }
  }

  // ----- Fixed-width decimals -----

  function Digit(d: nat): char
    requires d < 10
  {
    '0' + d as char
  }

  function TenTo(width: nat): nat {
    if width == 0 then 1 else 10 * TenTo(width - 1)
  }

  /** `n` in exactly `width` digits. */
  function Digits(n: nat, width: nat): (s: string)
    requires n < TenTo(width)
    ensures |s| == width && forall i :: 0 <= i < width ==> '0' <= s[i] <= '9'
  {
    if width == 0 then "" else Digits(n / 10, width - 1) + [Digit(n % 10)]
  }

  lemma {:induction false} DigitsOrder(m: nat, n: nat, width: nat)
    requires m < TenTo(width) && n < TenTo(width)
    ensures Before(Digits(m, width), Digits(n, width)) <==> m < n
    ensures Digits(m, width) == Digits(n, width) <==> m == n
    decreases width
  {
    if width > 0 {
      DigitsOrder(m / 10, n / 10, width - 1);
      LastDigitOrder(Digits(m / 10, width - 1), Digits(n / 10, width - 1), m % 10, n % 10);
    }
  }

  /** Numerals of one width compare by all digits but the last, then by the last. */
  lemma LastDigitOrder(p: string, q: string, x: nat, y: nat)
    requires |p| == |q| && x < 10 && y < 10
    ensures Before(p + [Digit(x)], q + [Digit(y)]) <==> if p == q then x < y else Before(p, q)
    ensures p + [Digit(x)] == q + [Digit(y)] <==> p == q && x == y
  {
    var s, t := [Digit(x)], [Digit(y)];
    assert (p + s)[..|p|] == p && (q + t)[..|p|] == q && (p + s)[|p|] == s[0] && (q + t)[|p|] == t[0];
    if p == q {
      BeforeSamePrefix(p, s, t);
    } else {
      BeforeDifferentPrefix(p, q, s, t);
    }
  }

  // ----- Instants -----

  const NANOSECONDS: nat := 1_000_000_000

  datatype Calendar =
    Calendar(year: nat, month: nat, day: nat, hour: nat, minute: nat, second: nat, nanosecond: nat)
  {
    predicate Valid() {
      && year <= 9999 && 1 <= month <= 12 && 1 <= day <= 31
      && hour <= 23 && minute <= 59 && second <= 59 && nanosecond < NANOSECONDS
    }
  }

  /** A UTC instant by its calendar fields, with a four-digit year. */
  type Instant = c: Calendar | c.Valid() witness ZERO_TIME

  /** The zero value of a timestamp, meaning none was given. */
  const ZERO_TIME: Calendar := Calendar(1, 1, 1, 0, 0, 0, 0)

  predicate Lexicographic(a: seq<nat>, b: seq<nat>)
    requires |a| == |b|
  {
    a != [] && (a[0] < b[0] || (a[0] == b[0] && Lexicographic(a[1..], b[1..])))
  }

  /** The fields down to the second, most significant first. */
  function Clock(i: Instant): seq<nat> {
    [i.year, i.month, i.day, i.hour, i.minute, i.second]
  }

  predicate Earlier(a: Instant, b: Instant) {
    Lexicographic(Clock(a), Clock(b)) || (Clock(a) == Clock(b) && a.nanosecond < b.nanosecond)
  }

  // ----- RFC3339Nano -----

  /** Without trailing zeros. */
  function Trim(s: string): (t: string)
    ensures t <= s && (t == "" || t[|t| - 1] != '0')
    ensures forall i :: |t| <= i < |s| ==> s[i] == '0'
    decreases |s|
  {
    if s != "" && s[|s| - 1] == '0' then Trim(s[..|s| - 1]) else s
  }

  /** The digits after the decimal point; none for a whole second. */
  function Fraction(i: Instant): string
  {
    assert TenTo(9) == NANOSECONDS;
    Trim(Digits(i.nanosecond, 9))
  }

  /** Separator and digits of each field down to the second. */
  function Fields(values: seq<nat>, widths: seq<nat>, separators: seq<string>): string
    requires |values| == |widths| == |separators|
    requires forall k :: 0 <= k < |values| ==> values[k] < TenTo(widths[k])
  {
    if values == [] then ""
    else separators[0] + (Digits(values[0], widths[0]) + Fields(values[1..], widths[1..], separators[1..]))
  }

  const WIDTHS: seq<nat> := [4, 2, 2, 2, 2, 2]
  const SEPARATORS: seq<string> := ["", "-", "-", "T", ":", ":"]

  lemma ClockFits(i: Instant)
    ensures forall k :: 0 <= k < 6 ==> Clock(i)[k] < TenTo(WIDTHS[k])
  {
    assert TenTo(2) == 100 && TenTo(4) == 10000;
  }

  function ClockText(i: Instant): string
  {
    ClockFits(i);
    Fields(Clock(i), WIDTHS, SEPARATORS)
  }

  /** The fraction as written: nothing at all for a whole second. */
  function FractionText(fraction: string): string {
    (if fraction == "" then "" else "." + fraction) + "Z"
  }

  function Format(i: Instant): string
  {
    ClockText(i) + FractionText(Fraction(i))
  }

  // ----- Order of formatted instants -----

  /** Texts that share a separator compare by a first field of one width, then by the rest. */
  lemma FirstFieldOrder(separator: string, p: string, q: string, s: string, t: string)
    requires |p| == |q|
    ensures Before(separator + (p + s), separator + (q + t)) <==> if p == q then Before(s, t) else Before(p, q)
    ensures separator + (p + s) == separator + (q + t) <==> p == q && s == t
  {
    var x, y := separator + (p + s), separator + (q + t);
    BeforeSamePrefix(separator, p + s, q + t);
    assert x[|separator|..] == p + s && y[|separator|..] == q + t;
    assert (p + s)[..|p|] == p && (q + t)[..|p|] == q && (p + s)[|p|..] == s && (q + t)[|p|..] == t;
    if p == q {
      BeforeSamePrefix(p, s, t);
    } else {
      BeforeDifferentPrefix(p, q, s, t);
    }
  }

  /** The texts `s` and `t` are as long as each other and compare as `a` and `b` do. */
  ghost predicate CompareAlike(a: seq<nat>, b: seq<nat>, s: string, t: string)
    requires |a| == |b|
  {
    |s| == |t| && (s == t <==> a == b) && (Before(s, t) <==> Lexicographic(a, b))
  }

  lemma FieldCompares(x: nat, a: seq<nat>, y: nat, b: seq<nat>, separator: string,
                      p: string, q: string, s: string, t: string)
    requires |a| == |b| && |p| == |q| && CompareAlike(a, b, s, t)
    requires (Before(p, q) <==> x < y) && (p == q <==> x == y)
    ensures CompareAlike([x] + a, [y] + b, separator + (p + s), separator + (q + t))
  {
    FirstFieldOrder(separator, p, q, s, t);
    assert ([x] + a)[1..] == a && ([y] + b)[1..] == b && ([x] + a)[0] == x && ([y] + b)[0] == y;
  }

  lemma {:induction false} FieldsOrder(a: seq<nat>, b: seq<nat>, widths: seq<nat>, separators: seq<string>)
    requires |a| == |b| == |widths| == |separators|
    requires forall k :: 0 <= k < |a| ==> a[k] < TenTo(widths[k]) && b[k] < TenTo(widths[k])
    ensures CompareAlike(a, b, Fields(a, widths, separators), Fields(b, widths, separators))
    decreases |a|
  {
    if a != [] {
      FieldsOrder(a[1..], b[1..], widths[1..], separators[1..]);
      DigitsOrder(a[0], b[0], widths[0]);
      FieldCompares(a[0], a[1..], b[0], b[1..], separators[0], Digits(a[0], widths[0]), Digits(b[0], widths[0]),
                    Fields(a[1..], widths[1..], separators[1..]), Fields(b[1..], widths[1..], separators[1..]));
      assert a == [a[0]] + a[1..] && b == [b[0]] + b[1..];
    }
  }

  ghost predicate ProperPrefix(s: string, t: string) {
    s <= t && s != t
  }

  lemma PrefixSplit(s: string, t: string)
    requires s <= t
    ensures t == s + t[|s|..]
  {
  }

  ghost predicate DigitsOnly(s: string) {
    forall k :: 0 <= k < |s| ==> '0' <= s[k] <= '9'
  }

  /** A trimmed fraction that continues another one sorts before it, because every digit and
      the decimal point come before `Z`. */
  lemma PrefixReverses(f: string, g: string)
    requires ProperPrefix(f, g) && DigitsOnly(g)
    ensures Before(FractionText(g), FractionText(f)) && !Before(FractionText(f), FractionText(g))
  {
    var rest := g[|f|..];
    PrefixSplit(f, g);
    if f != "" {
      var dot := "." + f;
      assert FractionText(g) == dot + (rest + "Z") && FractionText(f) == dot + "Z";
      BeforeSamePrefix(dot, rest + "Z", "Z");
      BeforeSamePrefix(dot, "Z", rest + "Z");
    }
  }

  /** Otherwise the first different digit decides, as it does between the untrimmed fractions. */
  lemma {:induction false} DifferentDigit(f: string, g: string) returns (k: nat)
    requires !(f <= g) && !(g <= f)
    ensures k < |f| && k < |g| && f[..k] == g[..k] && f[k] != g[k]
    decreases |f|
  {
    if f[0] != g[0] {
      k := 0;
    } else {
      assert f == [f[0]] + f[1..] && g == [g[0]] + g[1..];
      var j := DifferentDigit(f[1..], g[1..]);
      k := j + 1;
      assert f[..k] == [f[0]] + f[1..][..j] && g[..k] == [g[0]] + g[1..][..j];
    }
  }

  /** Extending two strings beyond their first difference keeps their order. */
  lemma OrderAtDifference(f: string, g: string, k: nat, s: string, t: string)
    requires k < |f| && k < |g| && f[..k] == g[..k] && f[k] != g[k]
    requires f[..k + 1] <= s && g[..k + 1] <= t
    ensures Before(s, t) <==> f[k] < g[k]
  {
    var p, q := f[..k + 1], g[..k + 1];
    PrefixSplit(p, s);
    PrefixSplit(q, t);
    BeforeDifferentPrefix(p, q, s[k + 1..], t[k + 1..]);
    assert p == f[..k] + [f[k]] && q == f[..k] + [g[k]];
    BeforeSamePrefix(f[..k], [f[k]], [g[k]]);
  }

  lemma TrimInjective(s: string, t: string)
    requires |s| == |t| && Trim(s) == Trim(t)
    ensures s == t
  {
  }

  /** Neither trimmed fraction continues the other: the text orders as the digits do. */
  lemma UnrelatedOrder(s: string, t: string)
    requires !(Trim(s) <= Trim(t)) && !(Trim(t) <= Trim(s))
    ensures Before(FractionText(Trim(s)), FractionText(Trim(t))) <==> Before(s, t)
  {
    var f, g := Trim(s), Trim(t);
    var k := DifferentDigit(f, g);
    PrefixOfPrefix(f, k + 1, s);
    PrefixOfPrefix(g, k + 1, t);
    OrderAtDifference(f, g, k, s, t);
    PrefixOfPrefix(f, k + 1, f + "Z");
    PrefixOfPrefix(g, k + 1, g + "Z");
    OrderAtDifference(f, g, k, f + "Z", g + "Z");
    BeforeSamePrefix(".", f + "Z", g + "Z");
    assert FractionText(f) == "." + (f + "Z") && FractionText(g) == "." + (g + "Z");
  }

  lemma PrefixOfPrefix(f: string, k: nat, s: string)
    requires f <= s && k <= |f|
    ensures f[..k] <= s
  {
    assert s[..k] == f[..k];
  }

  lemma TrimmedPrefixSmaller(s: string, t: string)
    requires |s| == |t| && DigitsOnly(t) && ProperPrefix(Trim(s), Trim(t))
    ensures Before(s, t)
  {
    var f, g := Trim(s), Trim(t);
    PrefixSplit(f, s);
    PrefixSplit(f, t) by { assert f <= g <= t; }
    ZerosAreLeast(s[|f|..], t[|f|..], |g| - 1 - |f|);
    BeforeSamePrefix(f, s[|f|..], t[|f|..]);
  }

  lemma {:induction false} ZerosAreLeast(s: string, t: string, k: nat)
    requires |s| == |t| && k < |t| && t[k] != '0' && DigitsOnly(t)
    requires forall i :: 0 <= i < |s| ==> s[i] == '0'
    ensures Before(s, t)
    decreases k
  {
    if t[0] == '0' {
      ZerosAreLeast(s[1..], t[1..], k - 1);
    }
  }

  /** The one case where text order and time order differ: the same second, and one trimmed
      fraction continues the other. */
  ghost predicate Misordered(a: Instant, b: Instant)
  {
    Clock(a) == Clock(b) && (ProperPrefix(Fraction(a), Fraction(b)) || ProperPrefix(Fraction(b), Fraction(a)))
  }

  /** Within one second, by nanosecond count. */
  lemma FractionOrder(m: nat, n: nat)
    requires m < n < TenTo(9)
    ensures var f, g := Trim(Digits(m, 9)), Trim(Digits(n, 9));
            && f != g && !ProperPrefix(g, f)
            && (Before(FractionText(f), FractionText(g)) <==> !ProperPrefix(f, g))
            && (Before(FractionText(g), FractionText(f)) <==> ProperPrefix(f, g))
  {
    var s, t := Digits(m, 9), Digits(n, 9);
    var f, g := Trim(s), Trim(t);
    DigitsOrder(m, n, 9);
    BeforeTotal(s, t);
    if f == g {
      TrimInjective(s, t);
    }
    if ProperPrefix(g, f) {
      TrimmedPrefixSmaller(t, s);
    }
    if ProperPrefix(f, g) {
      PrefixReverses(f, g);
    } else {
      UnrelatedOrder(s, t);
      UnrelatedOrder(t, s);
    }
  }

  lemma {:induction false} LexicographicTotal(a: seq<nat>, b: seq<nat>)
    requires |a| == |b|
    ensures Lexicographic(a, b) || a == b || Lexicographic(b, a)
    ensures !(Lexicographic(a, b) && Lexicographic(b, a)) && !Lexicographic(a, a)
    decreases |a|
  {
    if a != [] {
      LexicographicTotal(a[1..], b[1..]);
      assert a == [a[0]] + a[1..] && b == [b[0]] + b[1..];
    }
  }

  lemma ClockDetermines(a: Instant, b: Instant)
    requires Clock(a) == Clock(b) && a.nanosecond == b.nanosecond
    ensures a == b
  {
    assert forall k :: 0 <= k < 6 ==> Clock(a)[k] == Clock(b)[k];
  }

  lemma EarlierTotal(a: Instant, b: Instant)
    ensures Earlier(a, b) || a == b || Earlier(b, a)
    ensures !(Earlier(a, b) && Earlier(b, a))
  {
    LexicographicTotal(Clock(a), Clock(b));
    LexicographicTotal(Clock(b), Clock(a));
    if Clock(a) == Clock(b) && a.nanosecond == b.nanosecond {
      ClockDetermines(a, b);
    }
  }

  lemma ClockTextOrder(a: Instant, b: Instant)
    ensures |ClockText(a)| == |ClockText(b)| && (ClockText(a) == ClockText(b) <==> Clock(a) == Clock(b))
    ensures Before(ClockText(a), ClockText(b)) <==> Lexicographic(Clock(a), Clock(b))
  {
    ClockFits(a);
    ClockFits(b);
    FieldsOrder(Clock(a), Clock(b), WIDTHS, SEPARATORS);
  }

  /** Formatted instants sort as the instants do, except exactly in that case, where the order
      is reversed. */
  lemma FormatOrder(a: Instant, b: Instant)
    requires a != b
    ensures Before(Format(a), Format(b)) <==> if Misordered(a, b) then Earlier(b, a) else Earlier(a, b)
  {
    ClockTextOrder(a, b);
    var f, g := Fraction(a), Fraction(b);
    if Clock(a) != Clock(b) {
      BeforeDifferentPrefix(ClockText(a), ClockText(b), FractionText(f), FractionText(g));
    } else {
      BeforeSamePrefix(ClockText(a), FractionText(f), FractionText(g));
      LexicographicTotal(Clock(a), Clock(b));
      assert TenTo(9) == NANOSECONDS;
      if a.nanosecond < b.nanosecond {
        FractionOrder(a.nanosecond, b.nanosecond);
      } else if b.nanosecond < a.nanosecond {
        FractionOrder(b.nanosecond, a.nanosecond);
      } else {
        ClockDetermines(a, b);
      }
    }
  }

  lemma {:induction false} ZeroDigits(width: nat)
    ensures TenTo(width) >= 1 && forall i :: 0 <= i < width ==> Digits(0, width)[i] == '0'
    decreases width
  {
    if width > 0 {
      ZeroDigits(width - 1);
    }
  }

  lemma {:induction false} TrimZeros(s: string)
    ensures Trim(s) == "" <==> forall i :: 0 <= i < |s| ==> s[i] == '0'
    decreases |s|
  {
    if s != "" && s[|s| - 1] == '0' {
      TrimZeros(s[..|s| - 1]);
    }
  }

  /** A whole second has no fraction at all, and it alone. */
  lemma WholeSecondHasNoFraction(i: Instant)
    ensures Fraction(i) == "" <==> i.nanosecond == 0
  {
    assert TenTo(9) == NANOSECONDS;
    var s, zeros := Digits(i.nanosecond, 9), Digits(0, 9);
    ZeroDigits(9);
    TrimZeros(s);
    DigitsOrder(i.nanosecond, 0, 9);
    if Fraction(i) == "" {
      assert s == zeros;
    }
  }

  /** The case is real: a whole second always sorts after every later instant of that second. */
  lemma WholeSecondMisorders(a: Instant, b: Instant)
    requires Clock(a) == Clock(b) && a.nanosecond == 0 < b.nanosecond
    ensures Earlier(a, b) && Misordered(a, b) && Before(Format(b), Format(a))
  {
    WholeSecondHasNoFraction(a);
    WholeSecondHasNoFraction(b);
    LexicographicTotal(Clock(a), Clock(b));
    FormatOrder(b, a);
  }

  /** Different instants have different texts. */
  lemma FormatInjective(a: Instant, b: Instant)
    requires Format(a) == Format(b)
    ensures a == b
  {
    if a != b {
      FormatOrder(a, b);
      FormatOrder(b, a);
      BeforeTotal(Format(a), Format(b));
      EarlierTotal(a, b);
    }
  }

  lemma FieldsNext(values: seq<nat>, widths: seq<nat>, separators: seq<string>, x: nat, width: nat, separator: string)
    requires |values| == |widths| == |separators|
    requires forall k :: 0 <= k < |values| ==> values[k] < TenTo(widths[k])
    requires x < TenTo(width)
    ensures var all, wide := [x] + values, [width] + widths;
            (forall k :: 0 <= k < |all| ==> all[k] < TenTo(wide[k])) &&
            Fields(all, wide, [separator] + separators) ==
            separator + (Digits(x, width) + Fields(values, widths, separators))
  {
    assert ([x] + values)[1..] == values && ([width] + widths)[1..] == widths &&
           ([separator] + separators)[1..] == separators;
  }

  function DateText(i: Instant): string {
    assert TenTo(2) == 100 && TenTo(4) == 10000;
    Digits(i.year, 4) + "-" + Digits(i.month, 2) + "-" + Digits(i.day, 2)
  }

  function TimeText(i: Instant): string {
    assert TenTo(2) == 100;
    Digits(i.hour, 2) + ":" + Digits(i.minute, 2) + ":" + Digits(i.second, 2)
  }

  lemma TimeLayout(i: Instant)
    ensures TenTo(2) == 100 && TenTo(4) == 10000
    ensures Fields([i.hour, i.minute, i.second], [2, 2, 2], ["T", ":", ":"]) == "T" + TimeText(i)
  {
    assert TenTo(2) == 100;
    FieldsNext([], [], [], i.second, 2, ":");
    FieldsNext([i.second], [2], [":"], i.minute, 2, ":");
    FieldsNext([i.minute, i.second], [2, 2], [":", ":"], i.hour, 2, "T");
  }

  lemma DayLayout(i: Instant)
    ensures TenTo(2) == 100 && TenTo(4) == 10000
    ensures Fields([i.month, i.day, i.hour, i.minute, i.second], [2, 2, 2, 2, 2], ["-", "-", "T", ":", ":"]) ==
            "-" + (Digits(i.month, 2) + ("-" + (Digits(i.day, 2) + ("T" + TimeText(i)))))
  {
    assert TenTo(2) == 100 && TenTo(4) == 10000;
    TimeLayout(i);
    FieldsNext([i.hour, i.minute, i.second], [2, 2, 2], ["T", ":", ":"], i.day, 2, "-");
    FieldsNext([i.day, i.hour, i.minute, i.second], [2, 2, 2, 2], ["-", "T", ":", ":"], i.month, 2, "-");
  }

  lemma DateLayout(i: Instant)
    ensures TenTo(2) == 100 && TenTo(4) == 10000
    ensures Fields(Clock(i), [4, 2, 2, 2, 2, 2], ["", "-", "-", "T", ":", ":"]) == DateText(i) + ("T" + TimeText(i))
  {
    assert TenTo(2) == 100 && TenTo(4) == 10000;
    DayLayout(i);
    FieldsNext([i.month, i.day, i.hour, i.minute, i.second], [2, 2, 2, 2, 2], ["-", "-", "T", ":", ":"], i.year, 4, "");
  }

  /** The layout: four digits of the year, two of each other field, and the separators. */
  lemma FormatLayout(i: Instant)
    ensures Format(i) ==
            DateText(i) + ("T" + TimeText(i)) + (if Fraction(i) == "" then "Z" else "." + Fraction(i) + "Z")
  {
    DateLayout(i);
  }
}
