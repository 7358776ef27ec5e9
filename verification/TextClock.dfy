/** The textual clock: utc_iso prints instants so that string comparison is time comparison. */
module TextClock {
  import opened Calendar

  /** A UTC instant as datetime holds it. */
  datatype Stamp = Stamp(date: Date, hour: int, minute: int, second: int, micro: int)

  predicate ValidStamp(s: Stamp) {
    InRange(s.date) && 0 <= s.hour < 24 && 0 <= s.minute < 60 && 0 <= s.second < 60 && 0 <= s.micro < 1_000_000
  }

  /** Microseconds since the day before 1 January of year 1. */
  function Instant(s: Stamp): int
    requires ValidStamp(s)
  {
    (((Ordinal(s.date) * 24 + s.hour) * 60 + s.minute) * 60 + s.second) * 1_000_000 + s.micro
  }

  // ---------- printing ----------

  function Digit(n: int): (c: char)
    requires 0 <= n < 10
    ensures '0' <= c <= '9' && c as int == '0' as int + n
  {
    '0' + n as char
  }

  function Pow10(w: nat): (p: nat)
    ensures p > 0
  {
    if w == 0 then 1 else 10 * Pow10(w - 1)
  }

  /** n in decimal, padded with zeros to width w. */
  function Pad(n: int, w: nat): (s: string)
    requires 0 <= n
    ensures |s| == w
  {
    if w == 0 then "" else Pad(n / 10, w - 1) + [Digit(n % 10)]
  }

  function Width(k: nat): nat {
    if k == 0 then 4 else 2
  }

  function Separator(k: nat): string {
    if k < 2 then "-" else if k == 2 then "T" else if k < 5 then ":" else ""
  }

  /** The fixed-width part: year, month, day, hour, minute and second from field k on. */
  function PrintFields(xs: seq<int>, k: nat): string
    requires k + |xs| == 6 && forall i :: 0 <= i < |xs| ==> xs[i] >= 0
  {
    if xs == [] then "" else Pad(xs[0], Width(k)) + Separator(k) + PrintFields(xs[1..], k + 1)
  }

  /** Microseconds are printed only when they are not zero. */
  function PrintMicros(u: int): string
    requires 0 <= u
  {
    (if u == 0 then "" else "." + Pad(u, 6)) + "+00:00"
  }

  function Fields(s: Stamp): seq<int> {
    [s.date.year, s.date.month, s.date.day, s.hour, s.minute, s.second]
  }

  function UtcIso(s: Stamp): string
    requires ValidStamp(s)
  {
    PrintFields(Fields(s), 0) + PrintMicros(s.micro)
  }

  // ---------- comparing ----------

  /** Python's < on strings: by code point, a proper prefix first. */
  predicate LexLess(a: string, b: string) {
    if b == "" then false
    else if a == "" then true
    else a[0] < b[0] || (a[0] == b[0] && LexLess(a[1..], b[1..]))
  }

  predicate FieldsLess(xs: seq<int>, ys: seq<int>)
    requires |xs| == |ys|
  {
    xs != [] && (xs[0] < ys[0] || (xs[0] == ys[0] && FieldsLess(xs[1..], ys[1..])))
  }

  lemma {:induction false} LexAppend(p: string, q: string, a: string, b: string)
    requires |p| == |q|
    ensures LexLess(p + a, q + b) <==> LexLess(p, q) || (p == q && LexLess(a, b))
  {
    if p == "" {
      assert p + a == a && q + b == b;
    } else {
      LexAppend(p[1..], q[1..], a, b);
      assert (p + a)[1..] == p[1..] + a && (q + b)[1..] == q[1..] + b;
      assert p == [p[0]] + p[1..] && q == [q[0]] + q[1..];
    }
  }

  lemma {:induction false} LexIrreflexive(a: string)
    ensures !LexLess(a, a)
  {
    if a != "" { LexIrreflexive(a[1..]); }
  }

  /** Zero-padded decimals compare as their numbers. */
  lemma {:induction false} PadOrder(m: int, n: int, w: nat)
    requires 0 <= m < Pow10(w) && 0 <= n < Pow10(w)
    ensures LexLess(Pad(m, w), Pad(n, w)) <==> m < n
    ensures Pad(m, w) == Pad(n, w) <==> m == n
  {
    if w > 0 {
      PadOrder(m / 10, n / 10, w - 1);
      var p, q := Pad(m / 10, w - 1), Pad(n / 10, w - 1);
      LexAppend(p, q, [Digit(m % 10)], [Digit(n % 10)]);
      assert Pad(m, w)[..w - 1] == p && Pad(n, w)[..w - 1] == q;
      assert Pad(m, w)[w - 1] == Digit(m % 10) && Pad(n, w)[w - 1] == Digit(n % 10);
    }
  }

  predicate FieldsFit(xs: seq<int>, k: nat) {
    k + |xs| == 6 && forall i :: 0 <= i < |xs| ==> 0 <= xs[i] < if k + i == 0 then 10000 else 100
  }

  lemma {:induction false} Widths(k: nat)
    requires k < 6
    ensures Pow10(Width(k)) == if k == 0 then 10000 else 100
  {
    assert Pow10(1) == 10;
    assert Pow10(2) == 100;
    assert Pow10(3) == 1000;
    assert Pow10(4) == 10000;
  }

  lemma {:induction false} FieldThenRest(p: string, q: string, sep: string, r: string, t: string, a: string, b: string)
    requires |p| == |q|
    ensures LexLess((p + sep + r) + a, (q + sep + t) + b) <==> LexLess(p, q) || (p == q && LexLess(r + a, t + b))
  {
    LexAppend(p, q, sep + (r + a), sep + (t + b));
    LexAppend(sep, sep, r + a, t + b);
    LexIrreflexive(sep);
    assert (p + sep + r) + a == p + (sep + (r + a)) && (q + sep + t) + b == q + (sep + (t + b));
  }

  /** The fixed-width parts compare as the fields do, whatever follows them. */
  lemma {:induction false} FieldsOrder(xs: seq<int>, ys: seq<int>, k: nat, a: string, b: string)
    requires |xs| == |ys| && FieldsFit(xs, k) && FieldsFit(ys, k)
    ensures LexLess(PrintFields(xs, k) + a, PrintFields(ys, k) + b) <==>
      FieldsLess(xs, ys) || (xs == ys && LexLess(a, b))
    decreases |xs|
  {
    if xs == [] {
      assert "" + a == a && "" + b == b;
    } else {
      hide Pad, Pow10, LexLess, Separator;
      var w := Width(k);
      Widths(k);
      PadOrder(xs[0], ys[0], w);
      FieldsOrder(xs[1..], ys[1..], k + 1, a, b);
      FieldThenRest(Pad(xs[0], w), Pad(ys[0], w), Separator(k), PrintFields(xs[1..], k + 1),
                    PrintFields(ys[1..], k + 1), a, b);
      HeadAndTail(xs, ys);
    }
  }

  lemma {:induction false} HeadAndTail(xs: seq<int>, ys: seq<int>)
    requires |xs| == |ys| && xs != []
    ensures xs == ys <==> xs[0] == ys[0] && xs[1..] == ys[1..]
  {
    assert xs == [xs[0]] + xs[1..] && ys == [ys[0]] + ys[1..];
  }

  /** '+' sorts below '.', so a whole second sorts below any fraction of it. */
  lemma {:induction false} MicrosOrder(u: int, v: int)
    requires 0 <= u < 1_000_000 && 0 <= v < 1_000_000
    ensures LexLess(PrintMicros(u), PrintMicros(v)) <==> u < v
  {
    var zone := "+00:00";
    if u > 0 && v > 0 {
      Widths(1);
      assert Pow10(6) == 10 * (10 * (10 * (10 * Pow10(2))));
      PadOrder(u, v, 6);
      LexAppend(Pad(u, 6), Pad(v, 6), zone, zone);
      LexIrreflexive(zone);
      assert PrintMicros(u)[1..] == Pad(u, 6) + zone && PrintMicros(v)[1..] == Pad(v, 6) + zone;
    } else {
      if u == 0 { assert PrintMicros(u) == zone; }
      if v == 0 { assert PrintMicros(v) == zone; }
      LexIrreflexive(zone);
    }
  }

  lemma {:induction false} ConsLess(x: int, xs: seq<int>, y: int, ys: seq<int>)
    requires |xs| == |ys|
    ensures FieldsLess([x] + xs, [y] + ys) <==> x < y || (x == y && FieldsLess(xs, ys))
    ensures [x] + xs == [y] + ys <==> x == y && xs == ys
  {
    assert ([x] + xs)[1..] == xs && ([y] + ys)[1..] == ys;
    assert ([x] + xs)[0] == x && ([y] + ys)[0] == y;
  }

  lemma {:induction false} InstantOrder(a: Stamp, b: Stamp)
    requires ValidStamp(a) && ValidStamp(b)
    ensures Instant(a) < Instant(b)
        <==> FieldsLess(Fields(a), Fields(b)) || (Fields(a) == Fields(b) && a.micro < b.micro)
  {
    OrdinalIsOrder(a.date, b.date);
    TimeOfDayOrder(Ordinal(a.date), a, Ordinal(b.date), b);
    hide Ordinal, FieldsLess;
    var x, y := Fields(a), Fields(b);
    assert x == [a.date.year] + x[1..] && x[1..] == [a.date.month] + x[2..] && x[2..] == [a.date.day] + x[3..]
        && x[3..] == [a.hour] + x[4..] && x[4..] == [a.minute] + x[5..] && x[5..] == [a.second] + [];
    assert y == [b.date.year] + y[1..] && y[1..] == [b.date.month] + y[2..] && y[2..] == [b.date.day] + y[3..]
        && y[3..] == [b.hour] + y[4..] && y[4..] == [b.minute] + y[5..] && y[5..] == [b.second] + [];
    ConsLess(a.date.year, x[1..], b.date.year, y[1..]);
    ConsLess(a.date.month, x[2..], b.date.month, y[2..]);
    ConsLess(a.date.day, x[3..], b.date.day, y[3..]);
    ConsLess(a.hour, x[4..], b.hour, y[4..]);
    ConsLess(a.minute, x[5..], b.minute, y[5..]);
    ConsLess(a.second, [], b.second, []);
    NothingIsNotLess();
  }

  lemma {:induction false} NothingIsNotLess()
    ensures !FieldsLess([], [])
  {
  }

  lemma {:induction false} TimeOfDayOrder(m: int, a: Stamp, n: int, b: Stamp)
    requires ValidStamp(a) && ValidStamp(b)
    ensures
      (((m * 24 + a.hour) * 60 + a.minute) * 60 + a.second) * 1_000_000 + a.micro
        < (((n * 24 + b.hour) * 60 + b.minute) * 60 + b.second) * 1_000_000 + b.micro
      <==> m < n || (m == n && (a.hour < b.hour || (a.hour == b.hour && (a.minute < b.minute || (a.minute == b.minute
             && (a.second < b.second || (a.second == b.second && a.micro < b.micro)))))))
  {
  }

  /** The textual clock is an order embedding: for all instants, string comparison is time comparison, and
      equal strings are equal instants, so every string guard is the intended time guard. */
  lemma {:induction false} TextOrderIsTimeOrder(a: Stamp, b: Stamp)
    requires ValidStamp(a) && ValidStamp(b)
    ensures LexLess(UtcIso(a), UtcIso(b)) <==> Instant(a) < Instant(b)
    ensures UtcIso(a) == UtcIso(b) <==> a == b
  {
    StampsCompare(a, b);
    StampsCompare(b, a);
    LexIrreflexive(UtcIso(a));
    if UtcIso(a) == UtcIso(b) {
      assert Instant(a) == Instant(b);
      SameInstant(a, b);
    }
  }

  lemma {:induction false} StampsCompare(a: Stamp, b: Stamp)
    requires ValidStamp(a) && ValidStamp(b)
    ensures LexLess(UtcIso(a), UtcIso(b)) <==> Instant(a) < Instant(b)
  {
    FieldsOrder(Fields(a), Fields(b), 0, PrintMicros(a.micro), PrintMicros(b.micro));
    MicrosOrder(a.micro, b.micro);
    InstantOrder(a, b);
  }

  lemma {:induction false} SameInstant(a: Stamp, b: Stamp)
    requires ValidStamp(a) && ValidStamp(b) && Instant(a) == Instant(b)
    ensures a == b
  {
    TimeOfDayOrder(Ordinal(a.date), a, Ordinal(b.date), b);
    TimeOfDayOrder(Ordinal(b.date), b, Ordinal(a.date), a);
    OrdinalIsOrder(a.date, b.date);
  }
}
