/** Base64url without padding, section 5 of RFC 4648, as cursors use it. */
module Base64Url {
  import opened Wrappers

  type Byte = b: int | 0 <= b < 256

  function Char(v: int): (c: char)
    requires 0 <= v < 64
  {
    if v < 26 then 'A' + v as char
    else if v < 52 then 'a' + (v - 26) as char
    else if v < 62 then '0' + (v - 52) as char
    else if v == 62 then '-' else '_'
  }

  function Sextet(c: char): (v: Option<int>)
    ensures v.Some? ==> 0 <= v.value < 64
  {
    if 'A' <= c <= 'Z' then Some(c as int - 'A' as int)
    else if 'a' <= c <= 'z' then Some(c as int - 'a' as int + 26)
    else if '0' <= c <= '9' then Some(c as int - '0' as int + 52)
    else if c == '-' then Some(62)
    else if c == '_' then Some(63)
    else None
  }

  predicate InAlphabet(s: string) {
    forall i :: 0 <= i < |s| ==> Sextet(s[i]).Some?
  }

  type Bits = v: int | 0 <= v < 64

  /** The four sextets of three bytes, and the three bytes of four sextets. */
  function Split(x: Byte, y: Byte, z: Byte): (Bits, Bits, Bits, Bits) {
    (x / 4, x % 4 * 16 + y / 16, y % 16 * 4 + z / 64, z % 64)
  }

  function Join(a: Bits, b: Bits, c: Bits, d: Bits): (Byte, Byte, Byte) {
    (a * 4 + b / 16, b % 16 * 16 + c / 4, c % 4 * 64 + d)
  }

  function Quad(x: Byte, y: Byte, z: Byte): (s: string)
    ensures |s| == 4
  {
    var (a, b, c, d) := Split(x, y, z);
    [Char(a), Char(b), Char(c), Char(d)]
  }

  /** Three bytes become four characters; a last one or two bytes become two or three. */
  function Encode(bs: seq<Byte>): string {
    if bs == [] then ""
    else if |bs| == 1 then Quad(bs[0], 0, 0)[..2]
    else if |bs| == 2 then Quad(bs[0], bs[1], 0)[..3]
    else Quad(bs[0], bs[1], bs[2]) + Encode(bs[3..])
  }

  /** Unused low bits of the last character are ignored, and a lone last character is an error. */
  function Decode(s: string): Option<seq<Byte>>
    requires InAlphabet(s)
  {
    if s == "" then Some([])
    else if |s| == 1 then None
    else
      var a, b := Sextet(s[0]).value, Sextet(s[1]).value;
      if |s| == 2 then Some([Join(a, b, 0, 0).0])
      else
        var c := Sextet(s[2]).value;
        if |s| == 3 then Some([Join(a, b, c, 0).0, Join(a, b, c, 0).1])
        else
          var (x, y, z) := Join(a, b, c, Sextet(s[3]).value);
          var rest := Decode(s[4..]);
          if rest.None? then None else Some([x, y, z] + rest.value)
  }

  lemma {:induction false} CharsAreSextets(v: Bits)
    ensures Sextet(Char(v)) == Some(v)
  {
  }

  /** A number below 16 or 4 packed under another comes out again. */
  lemma {:induction false} Unpack16(high: int, low: int)
    requires 0 <= low < 16
    ensures (high * 16 + low) / 16 == high && (high * 16 + low) % 16 == low
  {
  }

  lemma {:induction false} Unpack4(high: int, low: int)
    requires 0 <= low < 4
    ensures (high * 4 + low) / 4 == high && (high * 4 + low) % 4 == low
  {
  }

  lemma {:induction false} JoinInvertsSplit(x: Byte, y: Byte, z: Byte)
    ensures
      var (a, b, c, d) := Split(x, y, z);
      Join(a, b, c, d) == (x, y, z) && (z == 0 ==> d == 0) && (y == 0 && z == 0 ==> c == 0)
  {
    var high, low := y / 16, z / 64;
    Unpack16(x % 4, high);
    Unpack4(y % 16, low);
  }

  lemma {:induction false} QuadDecodes(x: Byte, y: Byte, z: Byte)
    ensures
      var (s, (a, b, c, d)) := (Quad(x, y, z), Split(x, y, z));
      InAlphabet(s) && Sextet(s[0]) == Some(a) && Sextet(s[1]) == Some(b) && Sextet(s[2]) == Some(c)
        && Sextet(s[3]) == Some(d)
  {
    hide Char, Sextet, Split;
    var (a, b, c, d) := Split(x, y, z);
    CharsAreSextets(a);
    CharsAreSextets(b);
    CharsAreSextets(c);
    CharsAreSextets(d);
  }

  lemma {:induction false} DecodeInvertsEncode(bs: seq<Byte>)
    ensures InAlphabet(Encode(bs)) && Decode(Encode(bs)) == Some(bs)
    ensures |Encode(bs)| == (4 * |bs| + 2) / 3
  {
    if bs != [] {
      hide Char, Sextet, Quad, Split, Join;
      var x, y, z := bs[0], if |bs| > 1 then bs[1] else 0, if |bs| > 2 then bs[2] else 0;
      QuadDecodes(x, y, z);
      JoinInvertsSplit(x, y, z);
      if |bs| > 2 {
        DecodeInvertsEncode(bs[3..]);
        assert Encode(bs)[4..] == Encode(bs[3..]);
        assert bs == [x, y, z] + bs[3..];
      } else {
        assert bs == if |bs| == 1 then [x] else [x, y];
      }
    }
  }

  /** Two known encodings fix the alphabet at its ends and the order of the bits. */
  lemma {:induction false} KnownEncodings()
    ensures Encode([77, 97, 110]) == "TWFu" && Encode([251, 255, 191, 0]) == "-_-_AA"
  {
    assert Encode([77, 97, 110]) == Quad(77, 97, 110) + Encode([]);
    assert [251 as Byte, 255, 191, 0][3..] == [0];
    assert Encode([251, 255, 191, 0]) == Quad(251, 255, 191) + Encode([0]);
    assert Encode([0]) == Quad(0, 0, 0)[..2];
  }
}
