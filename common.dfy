/** Small pieces of JavaScript behaviour that several pages rely on. */
module Common {

  datatype Option<+T> = None | Some(value: T)

  /** JavaScript truthiness of a string: only the empty string is falsy.
      An absent (undefined or null) text field is modelled as "", which is
      falsy as well, so `a || b` behaves the same for both. */
  predicate Truthy(s: string) {
    s != ""
  }

  /** The value a form keeps for a file input: `null` before any choice,
      `undefined` when a choice was cancelled (`files[0]` of an empty list),
      or a selected file, known by its name. */
  datatype FileSlot = Null | Undefined | File(name: string)

  /** `files[0]`. */
  function FirstFile(files: seq<string>): (slot: FileSlot)
    ensures files == [] <==> slot == Undefined
    ensures files != [] ==> slot == File(files[0])
  {
    if files == [] then Undefined else File(files[0])
  }

  /** The string operator `a || b`. */
  function OrElse(a: string, b: string): (r: string)
    ensures Truthy(a) ==> r == a
    ensures !Truthy(a) ==> r == b
  {
    if Truthy(a) then a else b
  }

  predicate IsAsciiUpper(c: char) {
    'A' <= c <= 'Z'
  }

  predicate IsAsciiLetter(c: char) {
    'a' <= c <= 'z' || 'A' <= c <= 'Z'
  }

  predicate IsAsciiDigit(c: char) {
    '0' <= c <= '9'
  }

  /** `toLowerCase` restricted to ASCII: upper-case letters map to lower-case,
      every other character is kept. */
  function AsciiLowerChar(c: char): (r: char)
    ensures IsAsciiUpper(c) ==> 'a' <= r <= 'z' && r as int - c as int == 32
    ensures !IsAsciiUpper(c) ==> r == c
  {
    if IsAsciiUpper(c) then (c as int + 32) as char else c
  }

  function AsciiLower(s: string): (r: string)
    ensures |r| == |s|
    ensures forall i :: 0 <= i < |s| ==> r[i] == AsciiLowerChar(s[i])
  {
    if s == [] then [] else [AsciiLowerChar(s[0])] + AsciiLower(s[1..])
  }

  /** The value of a decimal digit; any other character counts as 0. */
  function DigitValue(c: char): nat {
    if IsAsciiDigit(c) then c as int - '0' as int else 0
  }

  /** The number a text of decimal digits spells, read most significant
      digit first. */
  function DigitsValue(s: string): nat {
    if s == [] then 0 else 10 * DigitsValue(s[..|s| - 1]) + DigitValue(s[|s| - 1])
  }

  /** The decimal text of a number, as a template literal `${n}` renders it:
      digits only, no leading zero, and they spell `n`. */
  function DecimalText(n: nat): (r: string)
    ensures |r| > 0
    ensures forall i :: 0 <= i < |r| ==> IsAsciiDigit(r[i])
    ensures n > 0 ==> r[0] != '0'
    ensures DigitsValue(r) == n
  {
    var d := ['0' + ((n % 10) as char)];
    if n < 10 then d
    else
      var r := DecimalText(n / 10) + d;
      assert r[..|r| - 1] == DecimalText(n / 10);
      r
  }

  /** The number of UTF-16 code units in a character: two for a character
      outside the Basic Multilingual Plane, one otherwise. */
  function CodeUnits(c: char): nat {
    if c as int >= 0x1_0000 then 2 else 1
  }

  /** JavaScript's `s.length`, which counts UTF-16 code units, not characters. */
  function Utf16Length(s: string): (n: nat)
    ensures |s| <= n <= 2 * |s|
    ensures (forall i :: 0 <= i < |s| ==> s[i] as int < 0x1_0000) <==> n == |s|
  {
    if s == [] then 0
    else
      var n := CodeUnits(s[0]) + Utf16Length(s[1..]);
      assert forall i :: 1 <= i < |s| ==> s[i] == s[1..][i - 1];
      n
  }

  /** A single character has length 2 outside the Basic Multilingual Plane
      and 1 inside it. */
  lemma Utf16LengthOfChar(c: char)
    ensures Utf16Length([c]) == (if c as int >= 0x1_0000 then 2 else 1)
  {
    assert [c][1..] == [];
  }

  /** The length of a concatenation is the sum of the lengths; with
      `Utf16LengthOfChar` this fixes the length of every text. */
  lemma {:induction false} Utf16LengthAppend(a: string, b: string)
    ensures Utf16Length(a + b) == Utf16Length(a) + Utf16Length(b)
  {
    if a != [] {
      assert (a + b)[0] == a[0];
      assert (a + b)[1..] == a[1..] + b;
      Utf16LengthAppend(a[1..], b);
      assert Utf16Length(a + b) == CodeUnits(a[0]) + Utf16Length(a[1..] + b);
    } else {
      assert a + b == b;
    }
  }
}
