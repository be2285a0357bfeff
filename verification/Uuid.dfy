/** UUIDs as the `uuid` columns of the database read and write them. */
module Uuid {
  import opened Prelude

  /** The 32 hexadecimal digits, in lower case. */
  datatype Uuid = Uuid(digits: string)

  predicate IsHex(c: char)
  {
    '0' <= c <= '9' || 'a' <= c <= 'f' || 'A' <= c <= 'F'
  }

  function LowerHex(c: char): char
  {
    if 'A' <= c <= 'F' then c - 'A' + 'a' else c
  }

  /** A hyphen is allowed after every second byte but the last. */
  function SkipHyphen(text: string, i: nat): (rest: string)
    ensures |rest| <= |text|
  {
    if text != "" && text[0] == '-' && i % 2 == 1 && i < 15 then text[1..] else text
  }

  /** The digits of the bytes from number `i` on; `end` must follow the last byte. */
  function ParseBytes(text: string, i: nat, end: string): Option<string>
    requires i <= 16
    decreases 16 - i
  {
    if i == 16 then (if text == end then Some("") else None)
    else if |text| < 2 || !IsHex(text[0]) || !IsHex(text[1]) then None
    else
      var tail := ParseBytes(SkipHyphen(text[2..], i), i + 1, end);
      if tail.None? then None else Some([LowerHex(text[0]), LowerHex(text[1])] + tail.value)
  }

  /** What the database makes of a text where it expects a UUID: braces are allowed, upper case and lower case
      are the same, and nothing at all means that the query fails. */
  function ParseUuid(text: string): Option<Uuid>
  {
    var digits := if text != "" && text[0] == '{' then ParseBytes(text[1..], 0, "}") else ParseBytes(text, 0, "");
    if digits.None? then None else Some(Uuid(digits.value))
  }

  function FormatBytes(digits: string, i: nat): (text: string)
    requires i <= 16 && |digits| == 2 * (16 - i)
    ensures i < 16 ==> text != "" && text[0] == digits[0]
    decreases 16 - i
  {
    if i == 16 then "" else digits[..2] + (Separator(i) + FormatBytes(digits[2..], i + 1))
  }

  function Separator(i: nat): string
  {
    if i == 3 || i == 5 || i == 7 || i == 9 then "-" else ""
  }

  predicate IsCanonical(u: Uuid)
  {
    |u.digits| == 32 && forall i :: 0 <= i < 32 ==> IsLowerHex(u.digits[i])
  }

  /** The text in which a column is read. */
  function Text(u: Uuid): string
  {
    if |u.digits| == 32 then FormatBytes(u.digits, 0) else ""
  }

  lemma ParsesByte(a: char, b: char, rest: string, i: nat, digits: string)
    requires i < 16 && IsHex(a) && IsHex(b)
    requires ParseBytes(SkipHyphen(rest, i), i + 1, "") == Some(digits)
    ensures ParseBytes([a, b] + rest, i, "") == Some([LowerHex(a), LowerHex(b)] + digits)
  {
    assert ([a, b] + rest)[2..] == rest;
  }

  lemma SkipsSeparator(tail: string, i: nat)
    requires i < 15 ==> tail != "" && tail[0] != '-'
    ensures SkipHyphen(Separator(i) + tail, i) == tail
  {
  }

  predicate IsLowerHex(c: char)
  {
    IsHex(c) && LowerHex(c) == c
  }

  lemma FormattedByteParses(digits: string, i: nat)
    requires i < 16 && |digits| == 2 * (16 - i)
    requires IsLowerHex(digits[0]) && IsLowerHex(digits[1]) && (i < 15 ==> IsLowerHex(digits[2]))
    requires ParseBytes(FormatBytes(digits[2..], i + 1), i + 1, "") == Some(digits[2..])
    ensures ParseBytes(FormatBytes(digits, i), i, "") == Some(digits)
  {
    var rest := digits[2..];
    var tail := FormatBytes(rest, i + 1);
    SkipsSeparator(tail, i);
    ParsesByte(digits[0], digits[1], Separator(i) + tail, i, rest);
    assert digits[..2] == [digits[0], digits[1]];
    assert digits == [digits[0], digits[1]] + rest;
  }

  lemma {:induction false} FormattedParses(digits: string, i: nat)
    requires i <= 16 && |digits| == 2 * (16 - i)
    requires forall k :: 0 <= k < |digits| ==> IsLowerHex(digits[k])
    ensures ParseBytes(FormatBytes(digits, i), i, "") == Some(digits)
    decreases 16 - i
  {
    if i < 16 {
      FormattedParses(digits[2..], i + 1);
      FormattedByteParses(digits, i);
    } else {
      assert digits == "";
    }
  }

  lemma PlainParses(text: string, digits: string)
    requires text != "" && text[0] != '{'
    ensures ParseBytes(text, 0, "") == Some(digits) ==> ParseUuid(text) == Some(Uuid(digits))
  {
  }

  /** What is written as a UUID reads back as the same UUID. */
  lemma TextParses(u: Uuid)
    requires IsCanonical(u)
    ensures ParseUuid(Text(u)) == Some(u)
  {
    var text := FormatBytes(u.digits, 0);
    assert IsLowerHex(u.digits[0]);
    FormattedParses(u.digits, 0);
    PlainParses(text, u.digits);
  }

  lemma {:induction false} ParsedIsCanonical(text: string, i: nat, end: string)
    requires i <= 16 && ParseBytes(text, i, end).Some?
    ensures var digits := ParseBytes(text, i, end).value;
            && |digits| == 2 * (16 - i)
            && forall k :: 0 <= k < |digits| ==> IsLowerHex(digits[k])
    decreases 16 - i
  {
    if i < 16 {
      ParsedIsCanonical(SkipHyphen(text[2..], i), i + 1, end);
    }
  }

  /** How far into its text byte number `i` starts. */
  function OffsetOf(i: nat): nat
  {
    if i < 4 then 2 * i else if i < 6 then 2 * i + 1 else if i < 8 then 2 * i + 2 else if i < 10 then 2 * i + 3
    else 2 * i + 4
  }

  predicate IsHyphenPlace(p: nat)
  {
    p == 8 || p == 13 || p == 18 || p == 23
  }

  ghost predicate HasShape(text: string, offset: nat)
  {
    && |text| + offset == 36
    && forall p :: 0 <= p < |text| ==> (text[p] == '-' <==> IsHyphenPlace(p + offset))
  }

  lemma ShapeOfByte(a: char, b: char, rest: string, i: nat)
    requires i < 16 && a != '-' && b != '-' && HasShape(rest, OffsetOf(i + 1))
    ensures HasShape([a, b] + (Separator(i) + rest), OffsetOf(i))
  {
    var text := [a, b] + (Separator(i) + rest);
    var skip := 2 + |Separator(i)|;
    forall p | 0 <= p < |text|
      ensures text[p] == '-' <==> IsHyphenPlace(p + OffsetOf(i))
    {
      if p >= skip {
        assert text[p] == rest[p - skip];
      }
    }
  }

  lemma {:induction false} FormatShape(digits: string, i: nat)
    requires i <= 16 && |digits| == 2 * (16 - i) && '-' !in digits
    ensures HasShape(FormatBytes(digits, i), OffsetOf(i))
    decreases 16 - i
  {
    if i < 16 {
      FormatShape(digits[2..], i + 1);
      ShapeOfByte(digits[0], digits[1], FormatBytes(digits[2..], i + 1), i);
      assert digits[..2] == [digits[0], digits[1]];
    }
  }

  /** The text of a UUID has 36 characters, with hyphens in the four places. */
  lemma TextShape(u: Uuid)
    requires IsCanonical(u)
    ensures |Text(u)| == 36
    ensures forall p :: 0 <= p < 36 ==> (Text(u)[p] == '-' <==> p == 8 || p == 13 || p == 18 || p == 23)
  {
    FormatShape(u.digits, 0);
    assert HasShape(Text(u), 0);
  }

  /** Hexadecimal digits in either case, and what they become. */
  lemma HexDigits(c: char)
    ensures IsHex(c) <==> c in "0123456789abcdefABCDEF"
    ensures IsLowerHex(c) <==> c in "0123456789abcdef"
  {
  }

  lemma LowerDigits()
    ensures LowerHex('A') == 'a' && LowerHex('B') == 'b' && LowerHex('C') == 'c'
    ensures LowerHex('D') == 'd' && LowerHex('E') == 'e' && LowerHex('F') == 'f'
  {
  }

  /** A text that starts with anything but a brace or a hexadecimal digit is no UUID. */
  lemma NotUuid(text: string)
    requires text != "" && text[0] != '{' && !IsHex(text[0])
    ensures ParseUuid(text) == None
  {
  }
}
