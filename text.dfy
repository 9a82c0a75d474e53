/** Characters and strings as the .NET regular expressions and string methods
    of the source see them, restricted to ASCII: `\d`, `\w`, `\s`,
    `RegexOptions.IgnoreCase` and `string.ToLower()`. */
module Text {

  /** `\d` */
  predicate IsDigit(c: char) {
    '0' <= c <= '9'
  }

  predicate IsLetter(c: char) {
    'a' <= c <= 'z' || 'A' <= c <= 'Z'
  }

  predicate IsAlphaNumeric(c: char) {
    IsLetter(c) || IsDigit(c)
  }

  /** `\w` */
  predicate IsWordChar(c: char) {
    IsAlphaNumeric(c) || c == '_'
  }

  /** `\s`: space, tab, line feed, carriage return, vertical tab, form feed */
  predicate IsSpace(c: char) {
    c == ' ' || c == '\t' || c == '\n' || c == '\r' || c == '\U{000B}' || c == '\U{000C}'
  }

  function LowerChar(c: char): (r: char)
    ensures IsLetter(c) <==> IsLetter(r)
    ensures 'a' <= r <= 'z' ==> c == r || c as int == r as int - 32
    ensures !IsLetter(c) ==> r == c
  {
    if 'A' <= c <= 'Z' then (c as int + 32) as char else c
  }

  /** `s.ToLower()` */
  function Lower(s: string): (r: string)
    ensures |r| == |s|
    ensures forall i :: 0 <= i < |s| ==> r[i] == LowerChar(s[i])
  {
    seq(|s|, i requires 0 <= i < |s| => LowerChar(s[i]))
  }

  /** A pattern literal: no upper-case letter of its own. */
  predicate IsLowerLiteral(lit: string) {
    forall i :: 0 <= i < |lit| ==> !('A' <= lit[i] <= 'Z')
  }

  /** `lit` matches a prefix of `s` under `RegexOptions.IgnoreCase`. */
  predicate StartsWithIgnoreCase(s: string, lit: string) {
    |lit| <= |s| && forall i :: 0 <= i < |lit| ==> LowerChar(s[i]) == lit[i]
  }

  lemma LowerLiteralMatchesItself(lit: string, rest: string)
    requires IsLowerLiteral(lit)
    ensures StartsWithIgnoreCase(lit + rest, lit)
  {
    forall i | 0 <= i < |lit| ensures LowerChar((lit + rest)[i]) == lit[i] {
      assert (lit + rest)[i] == lit[i];
    }
  }

  predicate IsDigits(ds: string) {
    forall i :: 0 <= i < |ds| ==> IsDigit(ds[i])
  }

  /** The value of a string of decimal digits, most significant first, as
      `int.Parse` computes it (before its range check). */
  function DigitsValue(ds: string): (n: nat)
    requires IsDigits(ds)
    decreases |ds|
  {
    if ds == [] then 0
    else
      assert IsDigit(ds[|ds| - 1]);
      DigitsValue(ds[..|ds| - 1]) * 10 + (ds[|ds| - 1] as int - '0' as int)
  }

  /** The largest value `int.Parse` accepts; a longer number throws `OverflowException`. */
  const Int32Max: int := 0x7FFF_FFFF

  /** A digit string `int.Parse` accepts without throwing. */
  predicate FitsInt32(ds: string) {
    IsDigits(ds) && DigitsValue(ds) <= Int32Max
  }

  /** `n` written in decimal without leading zeros ("0" for zero). */
  function DecimalDigits(n: nat): (ds: string)
    ensures |ds| > 0
    ensures IsDigits(ds) && DigitsValue(ds) == n
    decreases n
  {
    var d := [(('0' as int) + n % 10) as char];
    if n < 10 then d
    else
      var ds := DecimalDigits(n / 10) + d;
      assert ds[..|ds| - 1] == DecimalDigits(n / 10);
      ds
  }
}
