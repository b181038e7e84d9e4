/** Hardware addresses as the node kinds use them: a partial parser for the
    48-bit textual forms `hh:hh:hh:hh:hh:hh` and `hh-hh-hh-hh-hh-hh`, and the
    canonical lower-case, colon-separated rendering. */
module Mac {
  import opened Types

  type Byte = x: int | 0 <= x < 256

  const HexDigits: string := "0123456789abcdef"

  /** Value of a hexadecimal digit of either case, or -1. */
  function HexVal(c: char): (v: int)
    ensures -1 <= v < 16
  {
    if '0' <= c <= '9' then c as int - '0' as int
    else if 'a' <= c <= 'f' then c as int - 'a' as int + 10
    else if 'A' <= c <= 'F' then c as int - 'A' as int + 10
    else -1
  }

  /** Octet `i` of a 48-bit address text: two hex digits, then the separator
      unless it is the last octet. */
  predicate OctetAt(s: string, i: nat, sep: char)
    requires |s| == 17 && i < 6
  {
    && HexVal(s[3 * i]) >= 0
    && HexVal(s[3 * i + 1]) >= 0
    && (i < 5 ==> s[3 * i + 2] == sep)
  }

  function OctetValue(s: string, i: nat): Byte
    requires |s| == 17 && i < 6 && OctetAt(s, i, s[2])
  {
    HexVal(s[3 * i]) * 16 + HexVal(s[3 * i + 1])
  }

  predicate IsMac48(s: string)
  {
    && |s| == 17
    && (s[2] == ':' || s[2] == '-')
    && forall i :: 0 <= i < 6 ==> OctetAt(s, i, s[2])
  }

  /** The 48-bit part of address parsing: six octets, one separator used
      throughout; anything else is rejected. */
  function ParseMac(s: string): (r: Option<seq<Byte>>)
    ensures r.Some? <==> IsMac48(s)
    ensures r.Some? ==> |r.value| == 6
    ensures r.Some? ==> forall i :: 0 <= i < 6 ==> r.value[i] == OctetValue(s, i)
  {
    if IsMac48(s) then Some(seq(6, i requires 0 <= i < 6 => OctetValue(s, i)))
    else None
  }

  function Octet(b: Byte): string
  {
    [HexDigits[b / 16], HexDigits[b % 16]]
  }

  /** Canonical rendering: lower-case hex octets joined by ':'. */
  function FormatMac(m: seq<Byte>): (s: string)
    ensures |m| > 0 ==> |s| == 3 * |m| - 1
    ensures |m| == 0 ==> s == ""
  {
    if |m| == 0 then ""
    else if |m| == 1 then Octet(m[0])
    else Octet(m[0]) + ":" + FormatMac(m[1..])
  }

  lemma HexDigitValue(d: nat)
    requires d < 16
    ensures HexVal(HexDigits[d]) == d
  {
  }

  /** Position by position, the rendering is the two digits of each octet
      followed by ':' except after the last. */
  lemma {:induction false} FormatMacAt(m: seq<Byte>, i: nat)
    requires i < |m|
    ensures |FormatMac(m)| == 3 * |m| - 1
    ensures FormatMac(m)[3 * i] == HexDigits[m[i] / 16]
    ensures FormatMac(m)[3 * i + 1] == HexDigits[m[i] % 16]
    ensures i < |m| - 1 ==> FormatMac(m)[3 * i + 2] == ':'
  {
    if i > 0 {
      FormatMacAt(m[1..], i - 1);
      var head, rest := Octet(m[0]) + ":", FormatMac(m[1..]);
      assert FormatMac(m) == head + rest && |head| == 3;
      var j := 3 * (i - 1);
      assert 3 * i == j + 3;
      assert m[1..][i - 1] == m[i];
    }
  }

  /** Parsing the canonical rendering of any 6-octet address gives it back. */
  lemma FormatThenParse(m: seq<Byte>)
    requires |m| == 6
    ensures ParseMac(FormatMac(m)) == Some(m)
  {
    var s := FormatMac(m);
    FormatMacAt(m, 0);
    forall i | 0 <= i < 6
      ensures OctetAt(s, i, s[2]) && OctetValue(s, i) == m[i]
    {
      FormatMacAt(m, i);
      HexDigitValue(m[i] / 16);
      HexDigitValue(m[i] % 16);
    }
    assert IsMac48(s);
    assert ParseMac(s).value == m;
  }
}
