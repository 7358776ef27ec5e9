/** Cursors as text: JSON with sorted keys inside base64url, checked field by field when they come back. */
module CursorText {
  import opened Wrappers
  import opened TextClock
  import opened WindowNames
  import opened FlatJson
  import Base64Url
  import Paging

  const MAX_CURSOR := 2048
  const STATES: set<string> := {"running", "succeeded", "partial", "failed"}

  /** The fields of a cursor, its instants as datetimes. */
  datatype Carried = Carried(limit: nat, state: Option<string>, since: Stamp, until: Stamp, anchor: Stamp,
                             createdAt: Stamp, runId: string)

  /** The cursor that paging works with. */
  function Meaning(c: Carried): Paging.Cursor
    requires ValidStamp(c.since) && ValidStamp(c.until) && ValidStamp(c.anchor) && ValidStamp(c.createdAt)
  {
    Paging.Cursor(c.limit, c.state, Instant(c.since), Instant(c.until), Instant(c.anchor),
                  Paging.Key(Instant(c.createdAt), c.runId))
  }

  predicate RunIdChar(c: char) {
    'A' <= c <= 'Z' || 'a' <= c <= 'z' || '0' <= c <= '9' || c in {'_', '.', ':', '-'}
  }

  predicate RunId(s: string) {
    1 <= |s| <= 128 && forall i :: 0 <= i < |s| ==> RunIdChar(s[i])
  }

  /** What admin_runs puts into a cursor. */
  predicate Issued(c: Carried) {
    && ValidStamp(c.since) && ValidStamp(c.until) && ValidStamp(c.anchor) && ValidStamp(c.createdAt)
    && 1 <= c.limit <= Paging.MAX_LIMIT && (c.state.Some? ==> c.state.value in STATES) && RunId(c.runId)
  }

  // ---------- instants ----------

  /** isoformat with Z for the zero offset. */
  function ZuluIso(s: Stamp): string
    requires ValidStamp(s)
  {
    var iso := UtcIso(s);
    IsoIsLong(s);
    iso[..|iso| - 6] + "Z"
  }

  /** fromisoformat on the extended form in UTC, after Z was replaced by the zero offset. */
  function ParseStamp(s: string): Option<Stamp> {
    if |s| > 64 || |s| < 20 then None
    else if s[10] != 'T' || s[13] != ':' || s[16] != ':' || ParseDate(s[..10]).None?
            || !AllDigits(s[11..13]) || !AllDigits(s[14..16]) || !AllDigits(s[17..19]) then None
    else
      var micro := ParseMicros(s[19..]);
      var h, m, sec := Number(s[11..13]), Number(s[14..16]), Number(s[17..19]);
      if micro.None? || h > 23 || m > 59 || sec > 59 then None
      else Some(Stamp(ParseDate(s[..10]).value, h, m, sec, micro.value))
  }

  function ParseMicros(s: string): Option<int> {
    if s == "Z" || s == "+00:00" then Some(0)
    else if |s| > 7 && s[0] == '.' && AllDigits(s[1..7]) && s[7..] in ["Z", "+00:00"] then Some(Number(s[1..7]))
    else None
  }

  lemma {:induction false} ThreeFields(a: int, b: int, c: int, rest: seq<int>, k: nat)
    requires a >= 0 && b >= 0 && c >= 0 && k + 3 + |rest| == 6 && forall i :: 0 <= i < |rest| ==> rest[i] >= 0
    ensures PrintFields([a, b, c] + rest, k)
         == (Pad(a, Width(k)) + Separator(k)) + ((Pad(b, Width(k + 1)) + Separator(k + 1))
            + ((Pad(c, Width(k + 2)) + Separator(k + 2)) + PrintFields(rest, k + 3)))
  {
    hide Pad, Width, Separator;
    var f := [a, b, c] + rest;
    var g, h := [b, c] + rest, [c] + rest;
    assert f[1..] == g && g[1..] == h && h[1..] == rest;
    assert PrintFields(h, k + 2) == Pad(c, Width(k + 2)) + Separator(k + 2) + PrintFields(rest, k + 3);
    assert PrintFields(g, k + 1) == (Pad(b, Width(k + 1)) + Separator(k + 1)) + PrintFields(h, k + 2);
    assert PrintFields(f, k) == (Pad(a, Width(k)) + Separator(k)) + PrintFields(g, k + 1);
  }

  lemma {:induction false} IsoShape(s: Stamp)
    requires ValidStamp(s)
    ensures UtcIso(s) == IsoDate(s.date) + "T" + Pad(s.hour, 2) + ":" + Pad(s.minute, 2) + ":" + Pad(s.second, 2)
        + PrintMicros(s.micro)
  {
    hide Pad, PrintMicros;
    var time := [s.hour, s.minute, s.second];
    ThreeFields(s.date.year, s.date.month, s.date.day, time, 0);
    ThreeFields(s.hour, s.minute, s.second, [], 3);
    assert Fields(s) == [s.date.year, s.date.month, s.date.day] + time;
    assert time + [] == time;
    assert Pad(s.second, 2) + "" == Pad(s.second, 2);
  }

  lemma {:induction false} IsoIsLong(s: Stamp)
    requires ValidStamp(s)
    ensures 25 <= |UtcIso(s)| <= 32
  {
    IsoShape(s);
  }

  /** The two spellings of an instant. */
  function IsoWith(s: Stamp, offset: string): string
    requires ValidStamp(s)
  {
    IsoDate(s.date) + "T" + Pad(s.hour, 2) + ":" + Pad(s.minute, 2) + ":" + Pad(s.second, 2)
      + MicrosWith(s.micro, offset)
  }

  function MicrosWith(u: int, offset: string): string
    requires 0 <= u
  {
    (if u == 0 then "" else "." + Pad(u, 6)) + offset
  }

  lemma {:induction false} Spellings(s: Stamp)
    requires ValidStamp(s)
    ensures UtcIso(s) == IsoWith(s, "+00:00") && ZuluIso(s) == IsoWith(s, "Z")
  {
    IsoShape(s);
    IsoIsLong(s);
    assert PrintMicros(s.micro) == MicrosWith(s.micro, "+00:00");
  }

  lemma {:induction false} MicrosParse(u: int, offset: string)
    requires 0 <= u < 1_000_000 && offset in {"Z", "+00:00"}
    ensures ParseMicros(MicrosWith(u, offset)) == Some(u)
  {
    PadDigits(u, 6);
    SixDigits();
    var t := MicrosWith(u, offset);
    if u == 0 {
      assert t == offset;
    } else {
      assert t[1..7] == Pad(u, 6) && t[7..] == offset;
    }
  }

  lemma {:induction false} SixDigits()
    ensures Pow10(6) == 1_000_000
  {
    SmallPowers();
    assert Pow10(5) == 10 * Pow10(4);
    assert Pow10(6) == 10 * Pow10(5);
  }

  lemma {:induction false} StampParses(s: Stamp, offset: string)
    requires ValidStamp(s) && offset in {"Z", "+00:00"}
    ensures ParseStamp(IsoWith(s, offset)) == Some(s)
    ensures |IsoWith(s, offset)| <= 32 && Plain(IsoWith(s, offset))
  {
    hide Pad, ParseDate, Number, IsoDate, ParseMicros, MicrosWith;
    var d, h, m, sec, tail := IsoDate(s.date), Pad(s.hour, 2), Pad(s.minute, 2), Pad(s.second, 2),
      MicrosWith(s.micro, offset);
    var t := IsoWith(s, offset);
    IsoDateParses(s.date);
    PadDigits(s.hour, 2);
    PadDigits(s.minute, 2);
    PadDigits(s.second, 2);
    SmallPowers();
    MicrosParse(s.micro, offset);
    Lengths(s, offset);
    assert t[..10] == d && t[11..13] == h && t[14..16] == m && t[17..19] == sec && t[19..] == tail;
    assert t[10] == 'T' && t[13] == ':' && t[16] == ':';
    PlainJoins(d, "T");
    PlainJoins(d + "T", h);
    PlainJoins(d + "T" + h, ":");
    PlainJoins(d + "T" + h + ":", m);
    PlainJoins(d + "T" + h + ":" + m, ":");
    PlainJoins(d + "T" + h + ":" + m + ":", sec);
    PlainJoins(d + "T" + h + ":" + m + ":" + sec, tail);
  }

  lemma {:induction false} PlainJoins(a: string, b: string)
    requires Plain(a) && Plain(b)
    ensures Plain(a + b)
  {
  }

  lemma {:induction false} Lengths(s: Stamp, offset: string)
    requires ValidStamp(s) && offset in {"Z", "+00:00"}
    ensures |IsoDate(s.date)| == 10 && Plain(IsoDate(s.date))
    ensures 1 <= |MicrosWith(s.micro, offset)| <= 13 && Plain(MicrosWith(s.micro, offset))
    ensures Plain(Pad(s.hour, 2)) && Plain(Pad(s.minute, 2)) && Plain(Pad(s.second, 2))
  {
    hide Pad, Plain;
    var y, m, d := Pad(s.date.year, 4), Pad(s.date.month, 2), Pad(s.date.day, 2);
    PadIsPlain(s.date.year, 4);
    PadIsPlain(s.date.month, 2);
    PadIsPlain(s.date.day, 2);
    PadIsPlain(s.hour, 2);
    PadIsPlain(s.minute, 2);
    PadIsPlain(s.second, 2);
    PadIsPlain(s.micro, 6);
    MarksArePlain();
    PlainJoins(y, "-");
    PlainJoins(y + "-", m);
    PlainJoins(y + "-" + m, "-");
    PlainJoins(y + "-" + m + "-", d);
    PlainJoins(".", Pad(s.micro, 6));
    PlainJoins(if s.micro == 0 then "" else "." + Pad(s.micro, 6), offset);
  }

  lemma {:induction false} MarksArePlain()
    ensures Plain("") && Plain("-") && Plain(".") && Plain("Z") && Plain("+00:00")
  {
  }

  lemma {:induction false} PadIsPlain(n: int, w: nat)
    requires 0 <= n
    ensures Plain(Pad(n, w))
  {
    PadDigits(n, w);
  }

  // ---------- cursors ----------

  const KEYS: set<string> := {"anchor", "created_at", "limit", "run_id", "since", "state", "until"}

  function StateValue(state: Option<string>): Value {
    if state.Some? then Text(state.value) else Null
  }

  /** What json.dumps is given, its keys sorted. */
  function Members(c: Carried): (ms: seq<Member>)
    requires Issued(c)
    ensures |ms| == 7
  {
    [ Member("anchor", Text(UtcIso(c.anchor))),
      Member("created_at", Text(ZuluIso(c.createdAt))),
      Member("limit", Num(c.limit)),
      Member("run_id", Text(c.runId)),
      Member("since", Text(UtcIso(c.since))),
      Member("state", StateValue(c.state)),
      Member("until", Text(UtcIso(c.until))) ]
  }

  predicate IsLatin(s: string) {
    forall i :: 0 <= i < |s| ==> s[i] as int < 256
  }

  function Bytes(s: string): seq<Base64Url.Byte>
    requires IsLatin(s)
  {
    seq(|s|, i requires 0 <= i < |s| => s[i] as int)
  }

  function Chars(bs: seq<Base64Url.Byte>): string {
    seq(|bs|, i requires 0 <= i < |bs| => bs[i] as char)
  }

  function CursorEncode(c: Carried): string
    requires Issued(c)
  {
    ObjectIsShort(c);
    Base64Url.Encode(Bytes(PrintObject(Members(c))))
  }

  /** A JSON object keeps the last of equal keys. */
  function ToMap(ms: seq<Member>): map<string, Value> {
    if ms == [] then map[] else ToMap(ms[..|ms| - 1])[ms[|ms| - 1].name := ms[|ms| - 1].value]
  }

  datatype DecodeError = Invalid | FilterMismatch

  function StampAt(fields: map<string, Value>, name: string): Option<Stamp> {
    if name in fields && fields[name].Text? then ParseStamp(fields[name].s) else None
  }

  /** The request's filters must be the cursor's; the other fields must be well formed. */
  function CursorDecode(value: string, limit: nat, state: Option<string>): Result<Carried, DecodeError> {
    if |value| > MAX_CURSOR || value == "" || !Base64Url.InAlphabet(value) then Err(Invalid)
    else
      var raw := Base64Url.Decode(value);
      if raw.None? then Err(Invalid)
      else
        var members := ParseObject(Chars(raw.value));
        if members.None? then Err(Invalid)
        else
          CheckFields(ToMap(members.value), limit, state)
  }

  function CheckFields(fields: map<string, Value>, limit: nat, state: Option<string>): Result<Carried, DecodeError> {
    if fields.Keys != KEYS then Err(Invalid)
    else if fields["limit"] != Num(limit) || fields["state"] != StateValue(state) then Err(FilterMismatch)
    else if !fields["run_id"].Text? || !RunId(fields["run_id"].s) then Err(Invalid)
    else
      var created, anchor := StampAt(fields, "created_at"), StampAt(fields, "anchor");
      var since, until := StampAt(fields, "since"), StampAt(fields, "until");
      if created.None? || anchor.None? || since.None? || until.None? then Err(Invalid)
      else Ok(Carried(limit, state, since.value, until.value, anchor.value, created.value, fields["run_id"].s))
  }

  // ---------- decoding inverts encoding ----------

  lemma {:induction false} StampText(s: Stamp)
    requires ValidStamp(s)
    ensures Plain(UtcIso(s)) && |UtcIso(s)| <= 32 && ParseStamp(UtcIso(s)) == Some(s)
    ensures Plain(ZuluIso(s)) && |ZuluIso(s)| <= 32 && ParseStamp(ZuluIso(s)) == Some(s)
  {
    hide UtcIso, ZuluIso, IsoWith, Plain, ParseStamp;
    Spellings(s);
    StampParses(s, "+00:00");
    StampParses(s, "Z");
  }

  lemma {:induction false} FiltersArePlain(c: Carried)
    requires Issued(c)
    ensures Plain(c.runId) && PlainValue(StateValue(c.state)) && |c.runId| <= 128
        && (c.state.Some? ==> |c.state.value| <= 9)
  {
  }

  lemma {:induction false} NamesArePlain()
    ensures Plain("anchor") && Plain("created_at") && Plain("limit") && Plain("run_id") && Plain("since")
        && Plain("state") && Plain("until")
  {
  }

  lemma {:induction false} MembersArePlain(c: Carried)
    requires Issued(c)
    ensures PlainMembers(Members(c))
    ensures |UtcIso(c.anchor)| <= 32 && |UtcIso(c.since)| <= 32 && |UtcIso(c.until)| <= 32
        && |ZuluIso(c.createdAt)| <= 32
  {
    hide UtcIso, ZuluIso, Plain, ParseStamp, RunId;
    StampText(c.anchor);
    StampText(c.since);
    StampText(c.until);
    StampText(c.createdAt);
    FiltersArePlain(c);
    NamesArePlain();
  }

  lemma {:induction false} LatinJoins(a: string, b: string)
    requires IsLatin(a) && IsLatin(b)
    ensures IsLatin(a + b)
  {
  }

  lemma {:induction false} PrintedSize(ms: seq<Member>, most: nat)
    requires ms != [] && PlainMembers(ms)
    requires forall i :: 0 <= i < |ms| ==>
      |ms[i].name| <= 10 && |PrintValue(ms[i].value)| <= most && IsLatin(PrintValue(ms[i].value))
    ensures IsLatin(PrintMembers(ms)) && |PrintMembers(ms)| <= |ms| * (most + 14)
  {
    hide PrintValue, PlainValue, IsLatin;
    var name, value := ms[0].name, PrintValue(ms[0].value);
    var tail := if |ms| == 1 then "}" else "," + PrintMembers(ms[1..]);
    PlainIsLatin(name);
    MarksAreLatin();
    if |ms| > 1 {
      PrintedSize(ms[1..], most);
      LatinJoins(",", PrintMembers(ms[1..]));
      assert |ms| * (most + 14) == |ms[1..]| * (most + 14) + (most + 14);
    }
    LatinJoins(value, tail);
    LatinJoins(":", value + tail);
    LatinJoins(name, "\"");
    LatinJoins(name + "\"", ":" + (value + tail));
    LatinJoins("\"", name + "\"" + (":" + (value + tail)));
    assert PrintMembers(ms) == "\"" + (name + "\"" + (":" + (value + tail)));
  }

  lemma {:induction false} PlainIsLatin(s: string)
    requires Plain(s)
    ensures IsLatin(s)
  {
  }

  lemma {:induction false} MarksAreLatin()
    ensures IsLatin("\"") && IsLatin(":") && IsLatin(",") && IsLatin("}")
  {
  }

  lemma {:induction false} ObjectIsShort(c: Carried)
    requires Issued(c)
    ensures IsLatin(PrintObject(Members(c))) && 1 <= |PrintObject(Members(c))| <= 1009
  {
    hide UtcIso, ZuluIso, Members, PrintValue;
    MembersArePlain(c);
    ValuesAreShort(c);
    PrintedSize(Members(c), 130);
  }

  lemma {:induction false} ValuesAreShort(c: Carried)
    requires Issued(c) && PlainMembers(Members(c))
    requires |UtcIso(c.anchor)| <= 32 && |UtcIso(c.since)| <= 32 && |UtcIso(c.until)| <= 32
        && |ZuluIso(c.createdAt)| <= 32
    ensures forall i :: 0 <= i < 7 ==>
              && |Members(c)[i].name| <= 10
              && |PrintValue(Members(c)[i].value)| <= 130 && IsLatin(PrintValue(Members(c)[i].value))
  {
    hide UtcIso, ZuluIso;
    forall i | 0 <= i < 7
      ensures |Members(c)[i].name| <= 10 && |PrintValue(Members(c)[i].value)| <= 130
      ensures IsLatin(PrintValue(Members(c)[i].value))
    {
      PrintedValueIsLatin(Members(c)[i].value);
      SmallDecimal(c.limit);
    }
  }

  lemma {:induction false} SmallDecimal(n: nat)
    requires n <= 100
    ensures |Decimal(n)| <= 3
  {
    if n >= 10 {
      assert Decimal(n) == Decimal(n / 10) + [Digit(n % 10)];
      assert n / 10 >= 10 ==> n / 10 == 10 && Decimal(10) == Decimal(1) + [Digit(0)];
    }
  }

  lemma {:induction false} PrintedValueIsLatin(v: Value)
    requires PlainValue(v)
    ensures IsLatin(PrintValue(v))
  {
    if v.Num? { DecimalDigits(v.n); }
  }

  lemma {:induction false} CharsInvertsBytes(s: string)
    requires IsLatin(s)
    ensures Chars(Bytes(s)) == s
  {
  }

  /** With distinct names, a parsed object holds each member. */
  lemma {:induction false} LooksUp(ms: seq<Member>)
    requires forall i, j :: 0 <= i < j < |ms| ==> ms[i].name != ms[j].name
    ensures forall i :: 0 <= i < |ms| ==> ms[i].name in ToMap(ms) && ToMap(ms)[ms[i].name] == ms[i].value
    ensures forall k :: k in ToMap(ms) ==> exists i :: 0 <= i < |ms| && ms[i].name == k
  {
    if ms != [] {
      var front := ms[..|ms| - 1];
      LooksUp(front);
      forall k | k in ToMap(ms) ensures exists i :: 0 <= i < |ms| && ms[i].name == k {
        if k in ToMap(front) {
          var i :| 0 <= i < |front| && front[i].name == k;
          assert ms[i] == front[i];
        } else {
          assert ms[|ms| - 1].name == k;
        }
      }
      forall i | 0 <= i < |ms| ensures ms[i].name in ToMap(ms) && ToMap(ms)[ms[i].name] == ms[i].value {
        if i < |front| { assert ms[i] == front[i]; }
      }
    }
  }

  lemma {:induction false} NamesDiffer(c: Carried)
    requires Issued(c)
    ensures forall i, j :: 0 <= i < j < 7 ==> Members(c)[i].name != Members(c)[j].name
  {
    hide UtcIso, ZuluIso, Issued;
    var ms := Members(c);
    assert ms[0].name[0] == 'a' && ms[1].name[0] == 'c' && ms[2].name[0] == 'l' && ms[3].name[0] == 'r';
    assert ms[4].name[1] == 'i' && ms[5].name[1] == 't' && ms[6].name[0] == 'u';
    assert ms[4].name[0] == ms[5].name[0] == 's';
  }

  lemma {:induction false} FieldsAreMembers(c: Carried)
    requires Issued(c)
    ensures
      var fields := ToMap(Members(c));
      && fields.Keys == KEYS
      && fields["anchor"] == Text(UtcIso(c.anchor)) && fields["created_at"] == Text(ZuluIso(c.createdAt))
      && fields["since"] == Text(UtcIso(c.since)) && fields["until"] == Text(UtcIso(c.until))
      && fields["limit"] == Num(c.limit) && fields["run_id"] == Text(c.runId) && fields["state"] == StateValue(c.state)
  {
    hide UtcIso, ZuluIso, ToMap, Issued;
    var ms := Members(c);
    NamesDiffer(c);
    LooksUp(ms);
    var fields := ToMap(ms);
    assert forall i :: 0 <= i < 7 ==> ms[i].name in KEYS;
    assert ms[0].name in fields && ms[1].name in fields && ms[2].name in fields && ms[3].name in fields;
    assert ms[4].name in fields && ms[5].name in fields && ms[6].name in fields;
    assert fields.Keys == KEYS;
  }

  /** An issued cursor is short enough to come back, and comes back as issued with the filters it was issued
      for; with any other filters it is a mismatch. */
  lemma {:induction false} DecodeInvertsEncode(c: Carried, limit: nat, state: Option<string>)
    requires Issued(c)
    ensures CursorDecode(CursorEncode(c), limit, state)
         == if limit == c.limit && state == c.state then Ok(c) else Err(FilterMismatch)
  {
    hide UtcIso, ZuluIso, ParseStamp, Members, RunId, PrintObject, ParseObject, CheckFields, ToMap;
    var printed := PrintObject(Members(c));
    ObjectIsShort(c);
    Base64Url.DecodeInvertsEncode(Bytes(printed));
    CharsInvertsBytes(printed);
    MembersArePlain(c);
    ObjectParses(Members(c));
    IssuedFieldsCheck(c, limit, state);
  }

  lemma {:induction false} IssuedFieldsCheck(c: Carried, limit: nat, state: Option<string>)
    requires Issued(c)
    ensures CheckFields(ToMap(Members(c)), limit, state)
         == if limit == c.limit && state == c.state then Ok(c) else Err(FilterMismatch)
  {
    hide UtcIso, ZuluIso, ParseStamp, RunId, Members, ToMap;
    FieldsAreMembers(c);
    StampText(c.anchor);
    StampText(c.since);
    StampText(c.until);
    StampText(c.createdAt);
  }

  /** The text of a page's cursor, sent back with the same filters, continues that page's listing. */
  lemma {:induction false} TextContinuesListing(now: int, t: Paging.Table, q: Paging.Query, b: Paging.Bounds,
                                                c: Carried)
    requires Issued(c) && Paging.Period(now, q) == Ok(b)
    requires Paging.Page(now, t, q).value.next == Some(Meaning(c))
    ensures 0 <= q.limit && CursorDecode(CursorEncode(c), q.limit, q.state) == Ok(c)
    ensures Paging.Continues(q.(cursor := Some(Meaning(c))), b)
  {
    hide Paging.Page, CursorDecode, CursorEncode;
    Paging.PageIsExact(now, t, q, b);
    DecodeInvertsEncode(c, c.limit, c.state);
  }

  lemma {:induction false} ParsedStampIsValid(s: string)
    ensures ParseStamp(s).Some? ==> ValidStamp(ParseStamp(s).value)
  {
    if ParseStamp(s).Some? { ParsedMicrosAreSmall(s[19..]); }
  }

  lemma {:induction false} DigitsAreSmall(s: string)
    requires AllDigits(s)
    ensures Number(s) < Pow10(|s|)
  {
    if s != "" { DigitsAreSmall(s[..|s| - 1]); }
  }

  lemma {:induction false} ParsedMicrosAreSmall(s: string)
    ensures ParseMicros(s).Some? ==> 0 <= ParseMicros(s).value < 1_000_000
  {
    SixDigits();
    if |s| > 7 && AllDigits(s[1..7]) { DigitsAreSmall(s[1..7]); }
  }

  /** Whatever text is sent, a cursor that is accepted was sent with its own filters and is well formed. */
  lemma {:induction false} AcceptedIsWellFormed(value: string, limit: nat, state: Option<string>)
    requires CursorDecode(value, limit, state).Ok?
    ensures 1 <= |value| <= 2048 && Base64Url.InAlphabet(value)
    ensures
      var c := CursorDecode(value, limit, state).value;
      && c.limit == limit && c.state == state
      && 1 <= |c.runId| <= 128 && (forall i :: 0 <= i < |c.runId| ==> RunIdChar(c.runId[i]))
      && ValidStamp(c.since) && ValidStamp(c.until) && ValidStamp(c.anchor) && ValidStamp(c.createdAt)
  {
    hide ParseStamp, ParseObject, ToMap, Base64Url.InAlphabet, Base64Url.Decode, Chars, RunIdChar, ValidStamp;
    var fields := ToMap(ParseObject(Chars(Base64Url.Decode(value).value)).value);
    ParsedStampIsValid(fields["since"].s);
    ParsedStampIsValid(fields["until"].s);
    ParsedStampIsValid(fields["anchor"].s);
    ParsedStampIsValid(fields["created_at"].s);
  }
}
