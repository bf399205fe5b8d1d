/** Integer literals: what the executor accepts, and the numeric value it compares by. */
module SqlNumbers {
  import opened Options

  predicate IsDigit(c: char) { '0' <= c <= '9' }

  predicate AllDigits(s: string) { forall i :: 0 <= i < |s| ==> IsDigit(s[i]) }

  /** An optional minus sign and at least one digit. */
  predicate ValidInt(literal: string) {
    var digits := if literal != [] && literal[0] == '-' then literal[1..] else literal;
    digits != [] && AllDigits(digits)
  }

  predicate IsSpace(c: char) { c == ' ' || 9 <= c as int <= 13 }

  function SkipSpaces(s: string): string { if s != [] && IsSpace(s[0]) then SkipSpaces(s[1..]) else s }

  function LeadingDigits(s: string): string { if s != [] && IsDigit(s[0]) then [s[0]] + LeadingDigits(s[1..]) else [] }

  function DigitValue(c: char): nat { if IsDigit(c) then c as int - '0' as int else 0 }

  function Value(digits: string): nat
    decreases |digits|
  {
    if digits == [] then 0 else 10 * Value(digits[..|digits| - 1]) + DigitValue(digits[|digits| - 1])
  }

  const INT64_MAX: int := 0x7FFF_FFFF_FFFF_FFFF

  /** std::stoll: leading spaces, an optional sign, the longest run of digits. None stands for its
      exceptions, thrown when there is no digit or the value does not fit. */
  function ReadNumber(s: string): Option<int> {
    var t := SkipSpaces(s);
    var negative := t != [] && t[0] == '-';
    var digits := LeadingDigits(if t != [] && (t[0] == '-' || t[0] == '+') then t[1..] else t);
    if digits == [] then None
    else
      var magnitude: int := Value(digits);
      var n := if negative then -magnitude else magnitude;
      if -INT64_MAX - 1 <= n <= INT64_MAX then Some(n) else None
  }

  // ------------------------------------------------------------------------------------------
  // Numbers written out
  // ------------------------------------------------------------------------------------------

  function Digit(n: nat): char
    requires n < 10
  {
    "0123456789"[n]
  }

  /** The usual decimal digits of a number. */
  function Digits(n: nat): string
    decreases n
  {
    if n < 10 then [Digit(n)] else Digits(n / 10) + [Digit(n % 10)]
  }

  function Decimal(n: int): string { if n < 0 then ['-'] + Digits(-n) else Digits(n) }

  lemma DigitReads(n: nat)
    requires n < 10
    ensures IsDigit(Digit(n)) && DigitValue(Digit(n)) == n
  {
  }

  lemma {:induction false} DigitsRead(n: nat)
    ensures Digits(n) != [] && AllDigits(Digits(n)) && Value(Digits(n)) == n
    decreases n
  {
    hide Digit;
    DigitReads(n % 10);
    if n < 10 {
      assert Value([]) == 0 && [Digit(n)][..0] == [];
    } else {
      DigitsRead(n / 10);
      assert Digits(n)[..|Digits(n)| - 1] == Digits(n / 10);
    }
  }

  lemma {:induction false} AllLeading(s: string)
    requires AllDigits(s)
    ensures LeadingDigits(s) == s
    decreases |s|
  {
    if s != [] {
      AllLeading(s[1..]);
      assert s == [s[0]] + s[1..];
    }
  }

  lemma NoSpace(s: string)
    requires s != [] && (IsDigit(s[0]) || s[0] == '-')
    ensures SkipSpaces(s) == s
  {
  }

  /** A number written in decimal is an integer literal, and reads as that number if it fits 64 bits. */
  lemma DecimalReads(n: int)
    ensures ValidInt(Decimal(n))
    ensures ReadNumber(Decimal(n)) == if -INT64_MAX - 1 <= n <= INT64_MAX then Some(n) else None
  {
    hide Digits, Value, LeadingDigits, SkipSpaces;
    var digits := Digits(if n < 0 then -n else n);
    DigitsRead(if n < 0 then -n else n);
    AllLeading(digits);
    NoSpace(Decimal(n));
    assert n < 0 ==> Decimal(n)[1..] == digits;
    assert IsDigit(digits[0]);
  }
}
