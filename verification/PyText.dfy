/**
 The few operations on Python text that more than one part of the program uses.  A text
 is its UTF-8 form, one char an octet; only ASCII white space is stripped.
 */
module PyText {
  type Octet = c: char | c as int < 256 witness 'a'

  type Text = seq<Octet>

  predicate Digit(c: char) { '0' <= c <= '9' }

  predicate Space(c: char) { c == ' ' || '\t' <= c <= '\r' || '\U{1c}' <= c <= '\U{1f}' }

  function StripLeft(s: Text): Text { if s != [] && Space(s[0]) then StripLeft(s[1..]) else s }

  function StripRight(s: Text): Text { if s != [] && Space(s[|s| - 1]) then StripRight(s[..|s| - 1]) else s }

  function Strip(s: Text): Text { StripRight(StripLeft(s)) }

  /** `str` of a non-negative int. */
  function Decimal(n: nat): (s: Text)
    ensures s != [] && forall i :: 0 <= i < |s| ==> Digit(s[i])
  {
    if n < 10 then ['0' + n as char] else Decimal(n / 10) + ['0' + (n % 10) as char]
  }

  /** `str` of an int. */
  function IntText(n: int): Text { if n < 0 then "-" + Decimal(-n) else Decimal(n) }
}
