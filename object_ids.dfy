/** Document ids. Each store hands out ids from a counter; `String(doc._id)` is the id
    written as lower-case hexadecimal, padded to the 24 digits of an ObjectId. */
module ObjectIds {

  const IdLength: nat := 24

  predicate IsHexDigit(c: char) {
    ('0' <= c <= '9') || ('a' <= c <= 'f')
  }

  function HexChar(d: nat): (c: char)
    requires d < 16
    ensures IsHexDigit(c)
  {
    if d < 10 then ('0' as int + d) as char else ('a' as int + d - 10) as char
  }

  function HexValue(c: char): (d: nat)
    requires IsHexDigit(c)
    ensures d < 16
  {
    if c <= '9' then c as int - '0' as int else c as int - 'a' as int + 10
  }

  lemma HexValueOfChar(d: nat)
    requires d < 16
    ensures HexValue(HexChar(d)) == d
  {
  }

  /** `n` in base 16, padded with leading zeros to at least `width` digits. */
  function Hex(n: nat, width: nat): (s: string)
    ensures |s| >= width
    ensures forall i :: 0 <= i < |s| ==> IsHexDigit(s[i])
    decreases n + width
  {
    if n == 0 && width == 0 then ""
    else Hex(n / 16, if width > 0 then width - 1 else 0) + [HexChar(n % 16)]
  }

  /** The number a string of hexadecimal digits denotes. */
  function ParseHex(s: string): nat
    requires forall i :: 0 <= i < |s| ==> IsHexDigit(s[i])
  {
    if s == [] then 0 else ParseHex(s[..|s| - 1]) * 16 + HexValue(s[|s| - 1])
  }

  function Pow16(k: nat): (p: nat)
    ensures p >= 1
  {
    if k == 0 then 1 else 16 * Pow16(k - 1)
  }

  /** `String(_id)` */
  function IdString(n: nat): string {
    Hex(n, IdLength)
  }

  /** `ObjectId.isValid(s)` for the ids this model produces: 24 hexadecimal digits. */
  predicate ValidId(s: string) {
    |s| == IdLength && forall i :: 0 <= i < |s| ==> IsHexDigit(s[i])
  }

  /** Reading the digits back gives the number. */
  lemma {:induction false} ParseHexOfHex(n: nat, width: nat)
    ensures ParseHex(Hex(n, width)) == n
    decreases n + width
  {
    if !(n == 0 && width == 0) {
      var s := Hex(n, width);
      var w' := if width > 0 then width - 1 else 0;
      assert s[..|s| - 1] == Hex(n / 16, w');
      ParseHexOfHex(n / 16, w');
      HexValueOfChar(n % 16);
    }
  }

  /** Distinct ids have distinct string forms. */
  lemma IdStringInjective(m: nat, n: nat)
    ensures IdString(m) == IdString(n) <==> m == n
  {
    ParseHexOfHex(m, IdLength);
    ParseHexOfHex(n, IdLength);
  }

  /** A number below 16^width takes exactly `width` digits. */
  lemma {:induction false} HexLength(n: nat, width: nat)
    requires n < Pow16(width)
    ensures |Hex(n, width)| == width
    decreases width
  {
    if width > 0 {
      HexLength(n / 16, width - 1);
    }
  }

  /** Every id the counter hands out before 16^24 has a valid string form. */
  lemma IdStringValid(n: nat)
    ensures n < Pow16(IdLength) ==> ValidId(IdString(n))
  {
    if n < Pow16(IdLength) {
      HexLength(n, IdLength);
    }
  }
}
