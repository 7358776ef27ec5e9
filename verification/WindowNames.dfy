/** Window task names: printed by the task builders, parsed back by reporting. */
module WindowNames {
  import opened Wrappers
  import opened Calendar
  import opened TextClock
  import opened Windows

  datatype Kind = Juros | Inflacao

  /** What a window task name identifies. */
  datatype Identity = Identity(kind: Kind, code: int, start: Date, end: Date)

  // ---------- printing ----------

  /** date.isoformat. */
  function IsoDate(d: Date): string
    requires InRange(d)
  {
    Pad(d.year, 4) + "-" + Pad(d.month, 2) + "-" + Pad(d.day, 2)
  }

  /** str of a series code. */
  function Decimal(n: nat): string {
    if n < 10 then [Digit(n)] else Decimal(n / 10) + [Digit(n % 10)]
  }

  function KindText(k: Kind): string {
    match k case Juros => "juros" case Inflacao => "inflacao"
  }

  predicate Printable(id: Identity) {
    id.code >= 0 && InRange(id.start) && InRange(id.end) && !Before(id.end, id.start)
  }

  function TaskName(id: Identity): string
    requires Printable(id)
  {
    "sgs" + "_" + (KindText(id.kind) + "_"
                   + (("w" + Decimal(id.code)) + "_" + (IsoDate(id.start) + "_" + IsoDate(id.end))))
  }

  // ---------- parsing ----------

  /** str.split("_"). */
  function Split(s: string): (parts: seq<string>)
    ensures |parts| > 0
  {
    if s == "" then [""]
    else
      var rest := Split(s[1..]);
      if s[0] == '_' then [""] + rest else [[s[0]] + rest[0]] + rest[1..]
  }

  predicate IsDigit(c: char) {
    '0' <= c <= '9'
  }

  function DigitValue(c: char): (n: int)
    requires IsDigit(c)
    ensures 0 <= n < 10
  {
    c as int - '0' as int
  }

  predicate AllDigits(s: string) {
    forall i :: 0 <= i < |s| ==> IsDigit(s[i])
  }

  function Number(s: string): (n: nat)
    requires AllDigits(s)
  {
    if s == "" then 0 else 10 * Number(s[..|s| - 1]) + DigitValue(s[|s| - 1])
  }

  /** int() on ASCII decimals with an optional sign. */
  function ParseInt(s: string): Option<int> {
    if s != "" && AllDigits(s) then Some(Number(s))
    else if |s| > 1 && s[0] in "+-" && AllDigits(s[1..]) then
      var n: int := Number(s[1..]);
      Some(if s[0] == '-' then -n else n)
    else None
  }

  /** date.fromisoformat on the extended calendar form. */
  function ParseDate(s: string): (d: Option<Date>)
    ensures d.Some? ==> InRange(d.value)
  {
    if |s| == 10 && s[4] == '-' && s[7] == '-' && AllDigits(s[..4]) && AllDigits(s[5..7]) && AllDigits(s[8..]) then
      var d := Date(Number(s[..4]), Number(s[5..7]), Number(s[8..]));
      if InRange(d) then Some(d) else None
    else None
  }

  /** refresh_reporting._window_identity; the order of the dates is checked on their texts. */
  function WindowIdentity(name: string): (id: Option<Identity>)
  {
    var parts := Split(name);
    if |parts| != 5 || parts[0] != "sgs" || parts[1] !in ["juros", "inflacao"] then None
    else if !StartsWithW(parts[2]) then None
    else
      var code, start, end := ParseInt(parts[2][1..]), ParseDate(parts[3]), ParseDate(parts[4]);
      if code.None? || start.None? || end.None? then None
      else if LexLess(IsoDate(end.value), IsoDate(start.value)) then None
      else Some(Identity(if parts[1] == "juros" then Juros else Inflacao, code.value, start.value, end.value))
  }

  predicate StartsWithW(s: string) {
    |s| > 0 && s[0] == 'w'
  }

  // ---------- parsing inverts printing ----------

  predicate NoUnderscore(s: string) {
    forall i :: 0 <= i < |s| ==> s[i] != '_'
  }

  lemma {:induction false} SplitPlain(s: string)
    requires NoUnderscore(s)
    ensures Split(s) == [s]
  {
    if s != "" {
      SplitPlain(s[1..]);
      assert [s[0]] + s[1..] == s;
    }
  }

  lemma {:induction false} SplitHead(a: string, b: string)
    requires NoUnderscore(a)
    ensures Split(a + "_" + b) == [a] + Split(b)
  {
    var s := a + "_" + b;
    if a == "" {
      assert s[1..] == b;
    } else {
      SplitHead(a[1..], b);
      assert s[1..] == a[1..] + "_" + b;
      assert [s[0]] + a[1..] == a;
    }
  }

  lemma {:induction false} PadDigits(n: int, w: nat)
    requires 0 <= n
    ensures AllDigits(Pad(n, w))
    ensures n < Pow10(w) ==> Number(Pad(n, w)) == n
  {
    if w > 0 {
      PadDigits(n / 10, w - 1);
      var s := Pad(n, w);
      assert s[..|s| - 1] == Pad(n / 10, w - 1);
    }
  }

  lemma {:induction false} DecimalDigits(n: nat)
    ensures Decimal(n) != "" && AllDigits(Decimal(n)) && Number(Decimal(n)) == n
  {
    var s := Decimal(n);
    if n >= 10 {
      DecimalDigits(n / 10);
      assert s[..|s| - 1] == Decimal(n / 10);
    } else {
      assert s[..0] == "";
      assert Number(s[..0]) == 0;
    }
  }

  lemma {:induction false} DigitsHaveNoUnderscore(s: string)
    requires AllDigits(s)
    ensures NoUnderscore(s)
  {
  }

  lemma {:induction false} SmallPowers()
    ensures Pow10(2) == 100 && Pow10(4) == 10000
  {
    Widths(0);
    Widths(1);
  }

  lemma {:induction false} IsoDateParses(d: Date)
    requires InRange(d)
    ensures ParseDate(IsoDate(d)) == Some(d) && NoUnderscore(IsoDate(d))
  {
    var y, m, k := Pad(d.year, 4), Pad(d.month, 2), Pad(d.day, 2);
    PadDigits(d.year, 4);
    PadDigits(d.month, 2);
    PadDigits(d.day, 2);
    SmallPowers();
    var s := IsoDate(d);
    assert s[..4] == y && s[5..7] == m && s[8..] == k && s[4] == '-' && s[7] == '-';
    forall i | 0 <= i < |s| ensures s[i] != '_' {
      if i < 4 { assert s[i] == y[i]; }
      else if 5 <= i < 7 { assert s[i] == m[i - 5]; }
      else if i >= 8 { assert s[i] == k[i - 8]; }
    }
  }

  /** Dates in ISO form compare as dates. */
  lemma {:induction false} IsoDateOrder(a: Date, b: Date)
    requires InRange(a) && InRange(b)
    ensures LexLess(IsoDate(a), IsoDate(b)) <==> Before(a, b)
  {
    SmallPowers();
    PadOrder(a.year, b.year, 4);
    PadOrder(a.month, b.month, 2);
    PadOrder(a.day, b.day, 2);
    var ra, rb := Pad(a.month, 2) + "-" + Pad(a.day, 2), Pad(b.month, 2) + "-" + Pad(b.day, 2);
    FieldThenRest(Pad(a.year, 4), Pad(b.year, 4), "-", "", "", ra, rb);
    FieldThenRest(Pad(a.month, 2), Pad(b.month, 2), "-", "", "", Pad(a.day, 2), Pad(b.day, 2));
    assert IsoDate(a) == (Pad(a.year, 4) + "-" + "") + ra && IsoDate(b) == (Pad(b.year, 4) + "-" + "") + rb;
    assert ra == (Pad(a.month, 2) + "-" + "") + Pad(a.day, 2) && rb == (Pad(b.month, 2) + "-" + "") + Pad(b.day, 2);
    assert "" + ra == ra && "" + rb == rb && "" + Pad(a.day, 2) == Pad(a.day, 2) && "" + Pad(b.day, 2) == Pad(b.day, 2);
  }

  lemma {:induction false} NameSplits(id: Identity)
    requires Printable(id)
    ensures Split(TaskName(id)) == ["sgs", KindText(id.kind), "w" + Decimal(id.code), IsoDate(id.start),
                                    IsoDate(id.end)]
  {
    hide Split, Number, AllDigits, ParseDate;
    var code, start, end := "w" + Decimal(id.code), IsoDate(id.start), IsoDate(id.end);
    DecimalDigits(id.code);
    DigitsHaveNoUnderscore(Decimal(id.code));
    IsoDateParses(id.start);
    IsoDateParses(id.end);
    SplitPlain(end);
    SplitHead(start, end);
    SplitHead(code, start + "_" + end);
    SplitHead(KindText(id.kind), code + "_" + (start + "_" + end));
    SplitHead("sgs", KindText(id.kind) + "_" + (code + "_" + (start + "_" + end)));
  }

  /** Reporting reads back exactly what the task builders printed. */
  lemma {:induction false} NameParsesBack(id: Identity)
    requires Printable(id)
    ensures WindowIdentity(TaskName(id)) == Some(id)
  {
    NameSplits(id);
    DecimalDigits(id.code);
    IsoDateParses(id.start);
    IsoDateParses(id.end);
    IsoDateOrder(id.end, id.start);
    assert ("w" + Decimal(id.code))[1..] == Decimal(id.code);
    assert "juros"[0] == 'j' && "inflacao"[0] == 'i';
  }

  /** What parsing accepts runs forward in time and, unless its code is negative, is the identity its own
      canonical name prints; so distinct windows have distinct names. */
  lemma {:induction false} ParsedIdentityIsCanonical(name: string)
    requires WindowIdentity(name).Some?
    ensures
      var id := WindowIdentity(name).value;
      && InRange(id.start) && InRange(id.end) && !Before(id.end, id.start)
      && (id.code >= 0 ==> WindowIdentity(TaskName(id)) == Some(id))
  {
    var id := WindowIdentity(name).value;
    IsoDateOrder(id.end, id.start);
    if id.code >= 0 { NameParsesBack(id); }
  }

  lemma {:induction false} NamesAreDistinct(a: Identity, b: Identity)
    requires Printable(a) && Printable(b) && a != b
    ensures TaskName(a) != TaskName(b)
  {
    NameParsesBack(a);
    NameParsesBack(b);
  }

  // ---------- the task builders ----------

  predicate PrintableWindows(windows: seq<Window>) {
    forall i :: 0 <= i < |windows| ==>
      InRange(windows[i].start) && InRange(windows[i].end) && !Before(windows[i].end, windows[i].start)
  }

  /** The work items of every series in turn: one name per window. */
  function TaskNames(kind: Kind, codes: seq<nat>, windows: seq<Window>): seq<string>
    requires PrintableWindows(windows)
  {
    if codes == [] then [] else SeriesNames(kind, codes[0], windows) + TaskNames(kind, codes[1..], windows)
  }

  function SeriesNames(kind: Kind, code: nat, windows: seq<Window>): (names: seq<string>)
    requires PrintableWindows(windows)
    ensures |names| == |windows|
    ensures forall i :: 0 <= i < |windows| ==>
      names[i] == TaskName(Identity(kind, code, windows[i].start, windows[i].end))
  {
    seq(|windows|, i requires 0 <= i < |windows| => TaskName(Identity(kind, code, windows[i].start, windows[i].end)))
  }

  /** The nested loops of the inflation and interest task builders. */
  method WindowTasks(kind: Kind, codes: seq<nat>, windows: seq<Window>) returns (names: seq<string>)
    requires PrintableWindows(windows)
    ensures names == TaskNames(kind, codes, windows)
  {
    hide TaskName, TaskNames, SeriesNames, PrintableWindows;
    names := [];
    NamesFrom(kind, codes, windows, |codes|);
    assert codes[0..] == codes && [] + TaskNames(kind, codes, windows) == TaskNames(kind, codes, windows);
    for i := 0 to |codes|
      invariant names + TaskNames(kind, codes[i..], windows) == TaskNames(kind, codes, windows)
    {
      NamesFrom(kind, codes, windows, i);
      var series := SeriesTasks(kind, codes[i], windows);
      assert names + (series + TaskNames(kind, codes[i + 1..], windows))
          == (names + series) + TaskNames(kind, codes[i + 1..], windows);
      names := names + series;
    }
    assert names + [] == names;
  }

  method SeriesTasks(kind: Kind, code: nat, windows: seq<Window>) returns (names: seq<string>)
    requires PrintableWindows(windows)
    ensures names == SeriesNames(kind, code, windows)
  {
    hide TaskName;
    names := [];
    for j := 0 to |windows|
      invariant |names| == j
      invariant forall i :: 0 <= i < j ==> names[i] == TaskName(Identity(kind, code, windows[i].start, windows[i].end))
    {
      names := names + [TaskName(Identity(kind, code, windows[j].start, windows[j].end))];
    }
  }

  lemma {:induction false} NamesFrom(kind: Kind, codes: seq<nat>, windows: seq<Window>, i: nat)
    requires PrintableWindows(windows) && i <= |codes|
    ensures TaskNames(kind, codes[i..], windows) ==
      if i == |codes| then [] else SeriesNames(kind, codes[i], windows) + TaskNames(kind, codes[i + 1..], windows)
  {
    hide TaskName;
    if i < |codes| { assert codes[i..][1..] == codes[i + 1..]; }
  }

  /** Every name is the printed window of one of the series. */
  lemma {:induction false} NamesIdentify(kind: Kind, codes: seq<nat>, windows: seq<Window>, k: nat)
    requires PrintableWindows(windows) && k < |TaskNames(kind, codes, windows)|
    ensures
      var id := WindowIdentity(TaskNames(kind, codes, windows)[k]);
      id.Some? && id.value.kind == kind && id.value.code in codes && Window(id.value.start, id.value.end) in windows
  {
    hide TaskName, WindowIdentity;
    var first := SeriesNames(kind, codes[0], windows);
    if k < |first| {
      NameParsesBack(Identity(kind, codes[0], windows[k].start, windows[k].end));
    } else {
      NamesIdentify(kind, codes[1..], windows, k - |first|);
    }
  }

  /** For distinct series the frozen work items of annual windows never share a name. */
  lemma {:induction false} TaskNamesAreDistinct(kind: Kind, codes: seq<nat>, windows: seq<Window>, p: nat, q: nat)
    requires PrintableWindows(windows)
    requires forall i, j :: 0 <= i < j < |codes| ==> codes[i] != codes[j]
    requires forall i, j :: 0 <= i < j < |windows| ==> windows[i] != windows[j]
    requires p < q < |TaskNames(kind, codes, windows)|
    ensures TaskNames(kind, codes, windows)[p] != TaskNames(kind, codes, windows)[q]
  {
    hide TaskName, WindowIdentity;
    var first := SeriesNames(kind, codes[0], windows);
    var names := TaskNames(kind, codes, windows);
    if p >= |first| {
      TaskNamesAreDistinct(kind, codes[1..], windows, p - |first|, q - |first|);
    } else {
      NameParsesBack(Identity(kind, codes[0], windows[p].start, windows[p].end));
      if q < |first| {
        NameParsesBack(Identity(kind, codes[0], windows[q].start, windows[q].end));
        assert windows[p] != windows[q];
      } else {
        NamesIdentify(kind, codes[1..], windows, q - |first|);
        assert names[q] == TaskNames(kind, codes[1..], windows)[q - |first|];
      }
    }
  }

  lemma {:induction false} AnnualWindowsAreDistinct(s: Date, e: Date, i: nat, j: nat)
    requires Valid(s) && Valid(e) && !Before(e, s) && i < j < |YearCut(s, e)|
    ensures YearCut(s, e)[i] != YearCut(s, e)[j]
  {
    AnnualWindowsPartition(s, e);
    var d := YearCut(s, e)[i].start;
    EachDayInOneAnnualWindow(s, e, d);
    assert Within(d, YearCut(s, e)[i]);
  }

  /** Every series has every window: the names are those of the first series, window by window, then the next. */
  lemma {:induction false} NamesAreComplete(kind: Kind, codes: seq<nat>, windows: seq<Window>, i: nat, j: nat)
    requires PrintableWindows(windows)
    ensures |TaskNames(kind, codes, windows)| == |codes| * |windows|
    ensures i < |codes| && j < |windows| ==>
      && i * |windows| + j < |TaskNames(kind, codes, windows)|
      && TaskNames(kind, codes, windows)[i * |windows| + j]
           == TaskName(Identity(kind, codes[i], windows[j].start, windows[j].end))
  {
    hide TaskName;
    var n := |windows|;
    if codes != [] {
      assert |codes| * n == |codes[1..]| * n + n;
      if i > 0 {
        NamesAreComplete(kind, codes[1..], windows, i - 1, j);
        assert i * n == (i - 1) * n + n;
      } else {
        NamesAreComplete(kind, codes[1..], windows, 0, j);
      }
    }
  }

  lemma {:induction false} TwoDigits(n: int)
    requires 0 <= n < 100
    ensures Pad(n, 2) == [Digit(n / 10), Digit(n % 10)]
  {
    assert Pad(n / 10, 1) == Pad(n / 100, 0) + [Digit(n / 10 % 10)];
  }

  lemma {:induction false} KnownDate(month: int, day: int)
    requires InRange(Date(2024, month, day))
    ensures IsoDate(Date(2024, month, day))
         == "2024-" + [Digit(month / 10), Digit(month % 10), '-', Digit(day / 10), Digit(day % 10)]
  {
    hide Pad;
    TwoDigits(month);
    TwoDigits(day);
    assert Pad(2024, 4) == "2024" by { KnownYear(); }
  }

  lemma {:induction false} KnownYear()
    ensures Pad(2024, 4) == "2024"
  {
    TwoDigits(20);
    assert Pad(202, 3) == Pad(20, 2) + [Digit(2)];
    assert Pad(2024, 4) == Pad(202, 3) + [Digit(4)];
  }

  lemma {:induction false} KnownCode()
    ensures Decimal(433) == "433"
  {
    assert Decimal(4) == "4" && Decimal(43) == Decimal(4) + "3" && Decimal(433) == Decimal(43) + "3";
  }

  /** A known name fixes the words and their order. */
  lemma {:induction false} KnownName()
    ensures TaskName(Identity(Inflacao, 433, Date(2024, 1, 1), Date(2024, 12, 31)))
         == "sgs_inflacao_w433_2024-01-01_2024-12-31"
  {
    hide IsoDate, Decimal;
    KnownCode();
    KnownDate(1, 1);
    KnownDate(12, 31);
  }
}
