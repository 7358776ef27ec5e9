/** The flat JSON objects inside cursors: string, integer and null members, compact separators. */
module FlatJson {
  import opened Wrappers
  import opened WindowNames

  datatype Value = Text(s: string) | Num(n: nat) | Null
  datatype Member = Member(name: string, value: Value)

  /** Printable ASCII that needs no escape. */
  predicate PlainChar(c: char) {
    ' ' <= c <= '~' && c != '"' && c != '\\'
  }

  predicate Plain(s: string) {
    forall i :: 0 <= i < |s| ==> PlainChar(s[i])
  }

  // ---------- printing ----------

  function PrintValue(v: Value): string {
    match v
    case Text(s) => "\"" + (s + "\"")
    case Num(n) => Decimal(n)
    case Null => "null"
  }

  function PrintMembers(ms: seq<Member>): string
    requires ms != []
  {
    var tail := if |ms| == 1 then "}" else "," + PrintMembers(ms[1..]);
    "\"" + (ms[0].name + "\"" + (":" + (PrintValue(ms[0].value) + tail)))
  }

  function PrintObject(ms: seq<Member>): string
    requires ms != []
  {
    "{" + PrintMembers(ms)
  }

  // ---------- parsing ----------

  /** The rest of a string literal, and what follows its closing quote. */
  function TakeText(s: string): (r: Option<(string, string)>)
    ensures r.Some? ==> |r.value.1| < |s|
  {
    if s == "" then None
    else if s[0] == '"' then Some(("", s[1..]))
    else if !PlainChar(s[0]) then None
    else
      var rest := TakeText(s[1..]);
      if rest.None? then None else Some(([s[0]] + rest.value.0, rest.value.1))
  }

  function DigitRun(s: string): (n: nat)
    ensures n <= |s| && AllDigits(s[..n])
  {
    if s == "" || !IsDigit(s[0]) then 0 else 1 + DigitRun(s[1..])
  }

  function TakeValue(s: string): (r: Option<(Value, string)>)
    ensures r.Some? ==> |r.value.1| < |s|
  {
    if s == "" then None
    else if s[0] == '"' then
      var text := TakeText(s[1..]);
      if text.None? then None else Some((Text(text.value.0), text.value.1))
    else if |s| >= 4 && s[..4] == "null" then Some((Null, s[4..]))
    else
      var n := DigitRun(s);
      if n == 0 then None else Some((Num(Number(s[..n])), s[n..]))
  }

  function ParseMembers(s: string): Option<seq<Member>>
    decreases |s|
  {
    if s == "" || s[0] != '"' then None
    else
      var name := TakeText(s[1..]);
      if name.None? || name.value.1 == "" || name.value.1[0] != ':' then None
      else
        var value := TakeValue(name.value.1[1..]);
        if value.None? || value.value.1 == "" then None
        else
          var member, rest := Member(name.value.0, value.value.0), value.value.1;
          if rest == "}" then Some([member])
          else if rest[0] != ',' then None
          else
            var more := ParseMembers(rest[1..]);
            if more.None? then None else Some([member] + more.value)
  }

  function ParseObject(s: string): Option<seq<Member>> {
    if s == "" || s[0] != '{' then None else ParseMembers(s[1..])
  }

  // ---------- parsing inverts printing ----------

  lemma {:induction false} TextParses(s: string, rest: string)
    requires Plain(s)
    ensures TakeText(s + "\"" + rest) == Some((s, rest))
  {
    var t := s + "\"" + rest;
    if s == "" {
      assert t[1..] == rest;
    } else {
      TextParses(s[1..], rest);
      assert t[1..] == s[1..] + "\"" + rest;
      assert [s[0]] + s[1..] == s;
    }
  }

  lemma {:induction false} DigitsParse(digits: string, rest: string)
    requires AllDigits(digits) && rest != "" && !IsDigit(rest[0])
    ensures DigitRun(digits + rest) == |digits|
  {
    var t := digits + rest;
    if digits == "" {
      assert t == rest;
    } else {
      DigitsParse(digits[1..], rest);
      assert t[1..] == digits[1..] + rest;
    }
  }

  predicate PlainValue(v: Value) {
    v.Text? ==> Plain(v.s)
  }

  lemma {:induction false} ValueParses(v: Value, rest: string)
    requires PlainValue(v) && rest != "" && rest[0] in {',', '}'}
    ensures TakeValue(PrintValue(v) + rest) == Some((v, rest))
  {
    var t := PrintValue(v) + rest;
    match v
    case Text(s) =>
      TextParses(s, rest);
      assert t[1..] == s + "\"" + rest;
    case Num(n) =>
      DecimalDigits(n);
      DigitsParse(Decimal(n), rest);
      assert IsDigit(Decimal(n)[0]) && t[0] == Decimal(n)[0];
      assert t[..|Decimal(n)|] == Decimal(n) && t[|Decimal(n)|..] == rest;
      assert |t| >= 4 ==> t[..4][0] == t[0] != 'n';
    case Null =>
      assert t[..4] == "null" && t[4..] == rest;
  }

  predicate PlainMembers(ms: seq<Member>) {
    forall i :: 0 <= i < |ms| ==> Plain(ms[i].name) && PlainValue(ms[i].value)
  }

  lemma {:induction false} MembersParse(ms: seq<Member>)
    requires ms != [] && PlainMembers(ms)
    ensures ParseMembers(PrintMembers(ms)) == Some(ms)
  {
    hide TakeText, TakeValue, PrintValue, Plain, PlainValue;
    var m := ms[0];
    var tail := if |ms| == 1 then "}" else "," + PrintMembers(ms[1..]);
    var afterName := ":" + (PrintValue(m.value) + tail);
    var s := PrintMembers(ms);
    assert s[1..] == m.name + "\"" + afterName;
    TextParses(m.name, afterName);
    assert afterName[1..] == PrintValue(m.value) + tail;
    ValueParses(m.value, tail);
    if |ms| > 1 {
      MembersParse(ms[1..]);
      assert tail[1..] == PrintMembers(ms[1..]);
      assert [m] + ms[1..] == ms;
    } else {
      assert [m] == ms;
    }
  }

  /** Reading back a printed flat object gives its members. */
  lemma {:induction false} ObjectParses(ms: seq<Member>)
    requires ms != [] && PlainMembers(ms)
    ensures ParseObject(PrintObject(ms)) == Some(ms)
  {
    MembersParse(ms);
    assert PrintObject(ms)[1..] == PrintMembers(ms);
  }

  lemma {:induction false} KnownValues()
    ensures PrintValue(Text("x")) == "\"x\"" && PrintValue(Num(12)) == "12" && PrintValue(Null) == "null"
  {
    assert Decimal(1) == "1" && Decimal(12) == Decimal(1) + "2";
  }

  lemma {:induction false} KnownLast(m: Member, name: string, value: string)
    requires m.name == name && PrintValue(m.value) == value
    ensures PrintMembers([m]) == "\"" + (name + "\"" + (":" + (value + "}")))
  {
    hide PrintValue;
  }

  lemma {:induction false} KnownNext(m: Member, ms: seq<Member>, name: string, value: string)
    requires m.name == name && PrintValue(m.value) == value && ms != []
    ensures PrintMembers([m] + ms) == "\"" + (name + "\"" + (":" + (value + ("," + PrintMembers(ms)))))
  {
    hide PrintValue;
    assert ([m] + ms)[1..] == ms;
  }

  /** A known object fixes the punctuation. */
  lemma {:induction false} KnownObject()
    ensures PrintObject([Member("n", Num(12)), Member("z", Null)]) == "{\"n\":12,\"z\":null}"
  {
    hide PrintMembers, PrintValue;
    var n, z := Member("n", Num(12)), Member("z", Null);
    KnownValues();
    KnownLast(z, "z", "null");
    KnownNext(n, [z], "n", "12");
    assert [n] + [z] == [n, z];
  }
}
