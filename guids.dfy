/** A GUID as .NET prints it: `Guid.ToString()` (format "D") writes the 128 bits as 32
    lower-case hexadecimal digits in groups of 8, 4, 4, 4 and 12 separated by hyphens.
    The GUID is kept as its 32 digit values in that printed order. `Parse` is the
    inverse of `Format`; it exists so that the model can show that the text determines
    the GUID. */
module Guids {
  import opened Wrappers

  type Nibble = x: int | 0 <= x < 16

  type Guid = s: seq<Nibble> | |s| == 32 witness seq(32, _ => 0)

  /** The lower-case hexadecimal digit for `n`. */
  function HexDigit(n: Nibble): char {
    if n < 10 then ('0' as int + n) as char else ('a' as int + n - 10) as char
  }

  /** The value of a lower-case hexadecimal digit; None for any other character. */
  function HexValue(c: char): Option<Nibble> {
    if '0' <= c <= '9' then Some(c as int - '0' as int)
    else if 'a' <= c <= 'f' then Some(c as int - 'a' as int + 10)
    else None
  }

  lemma HexDigitRoundTrip(n: Nibble)
    ensures HexValue(HexDigit(n)) == Some(n)
  {
  }

  lemma HexValueRoundTrip(c: char)
    requires HexValue(c).Some?
    ensures HexDigit(HexValue(c).value) == c
  {
  }

  /** The digits of `ns`, one character each. */
  function Hex(ns: seq<Nibble>): (r: string)
    ensures |r| == |ns|
  {
    if ns == [] then [] else [HexDigit(ns[0])] + Hex(ns[1..])
  }

  /** The digit values of `cs`, or None when some character is not a lower-case
      hexadecimal digit. */
  function ParseHex(cs: string): (r: Option<seq<Nibble>>)
    ensures r.Some? ==> |r.value| == |cs|
  {
    if cs == [] then Some([])
    else
      match HexValue(cs[0])
      case None => None
      case Some(n) =>
        match ParseHex(cs[1..])
        case None => None
        case Some(rest) => Some([n] + rest)
  }

  lemma {:induction false} HexRoundTrip(ns: seq<Nibble>)
    ensures ParseHex(Hex(ns)) == Some(ns)
  {
    if ns != [] {
      HexRoundTrip(ns[1..]);
      HexDigitRoundTrip(ns[0]);
      assert Hex(ns)[1..] == Hex(ns[1..]);
      assert [ns[0]] + ns[1..] == ns;
    }
  }

  lemma {:induction false} ParseHexRoundTrip(cs: string)
    requires ParseHex(cs).Some?
    ensures Hex(ParseHex(cs).value) == cs
  {
    if cs != [] {
      ParseHexRoundTrip(cs[1..]);
      HexValueRoundTrip(cs[0]);
      var ns := ParseHex(cs).value;
      assert ns[1..] == ParseHex(cs[1..]).value;
      assert [cs[0]] + cs[1..] == cs;
    }
  }

  /** The "D" text of `g`: 36 characters, hyphens at positions 8, 13, 18 and 23. */
  function Format(g: Guid): string {
    Hex(g[..8]) + "-" + Hex(g[8..12]) + "-" + Hex(g[12..16]) + "-" + Hex(g[16..20]) + "-" + Hex(g[20..])
  }

  /** Reads back a "D" text in the shape `Format` writes; None for anything else. */
  function Parse(t: string): Option<Guid> {
    if |t| != 36 || t[8] != '-' || t[13] != '-' || t[18] != '-' || t[23] != '-' then None
    else
      match (ParseHex(t[..8]), ParseHex(t[9..13]), ParseHex(t[14..18]), ParseHex(t[19..23]), ParseHex(t[24..]))
      case (Some(a), Some(b), Some(c), Some(d), Some(e)) => Some(a + b + c + d + e)
      case _ => None
  }

  /** The character at position `i` of `Hex(ns)` is the digit of `ns[i]`. */
  lemma {:induction false} HexIndex(ns: seq<Nibble>, i: nat)
    requires i < |ns|
    ensures Hex(ns)[i] == HexDigit(ns[i])
  {
    if i > 0 {
      HexIndex(ns[1..], i - 1);
    }
  }

  /** The shape of every formatted GUID: 36 characters, hyphens at 8, 13, 18 and 23,
      and a lower-case hexadecimal digit everywhere else. */
  lemma FormatShape(g: Guid)
    ensures |Format(g)| == 36
    ensures Format(g)[8] == '-' && Format(g)[13] == '-' && Format(g)[18] == '-' && Format(g)[23] == '-'
    ensures forall i :: 0 <= i < 36 && i != 8 && i != 13 && i != 18 && i != 23 ==> HexValue(Format(g)[i]).Some?
  {
    var t := Format(g);
    forall i | 0 <= i < 36 && i != 8 && i != 13 && i != 18 && i != 23
      ensures HexValue(t[i]).Some?
    {
      if i < 8 {
        HexIndex(g[..8], i);
        assert t[i] == Hex(g[..8])[i];
      } else if i < 13 {
        HexIndex(g[8..12], i - 9);
        assert t[i] == Hex(g[8..12])[i - 9];
      } else if i < 18 {
        HexIndex(g[12..16], i - 14);
        assert t[i] == Hex(g[12..16])[i - 14];
      } else if i < 23 {
        HexIndex(g[16..20], i - 19);
        assert t[i] == Hex(g[16..20])[i - 19];
      } else {
        HexIndex(g[20..], i - 24);
        assert t[i] == Hex(g[20..])[i - 24];
      }
    }
  }

  /** Reading back a formatted GUID gives the same GUID. */
  lemma ParseFormat(g: Guid)
    ensures Parse(Format(g)) == Some(g)
  {
    var t := Format(g);
    HexRoundTrip(g[..8]);
    HexRoundTrip(g[8..12]);
    HexRoundTrip(g[12..16]);
    HexRoundTrip(g[16..20]);
    HexRoundTrip(g[20..]);
    assert t[..8] == Hex(g[..8]);
    assert t[9..13] == Hex(g[8..12]);
    assert t[14..18] == Hex(g[12..16]);
    assert t[19..23] == Hex(g[16..20]);
    assert t[24..] == Hex(g[20..]);
    assert g[..8] + g[8..12] + g[12..16] + g[16..20] + g[20..] == g;
  }

  /** Every text that reads back as a GUID is exactly that GUID's formatted text. */
  lemma FormatParse(t: string)
    requires Parse(t).Some?
    ensures Format(Parse(t).value) == t
  {
    var g := Parse(t).value;
    var a, b, c, d, e := ParseHex(t[..8]).value, ParseHex(t[9..13]).value, ParseHex(t[14..18]).value,
                         ParseHex(t[19..23]).value, ParseHex(t[24..]).value;
    ParseHexRoundTrip(t[..8]);
    ParseHexRoundTrip(t[9..13]);
    ParseHexRoundTrip(t[14..18]);
    ParseHexRoundTrip(t[19..23]);
    ParseHexRoundTrip(t[24..]);
    assert g == a + b + c + d + e;
    assert g[..8] == a && g[8..12] == b && g[12..16] == c && g[16..20] == d && g[20..] == e;
    assert t == t[..8] + "-" + t[9..13] + "-" + t[14..18] + "-" + t[19..23] + "-" + t[24..];
  }

  /** Distinct GUIDs print as distinct texts. */
  lemma FormatInjective(g1: Guid, g2: Guid)
    ensures Format(g1) == Format(g2) ==> g1 == g2
  {
    ParseFormat(g1);
    ParseFormat(g2);
  }
}
