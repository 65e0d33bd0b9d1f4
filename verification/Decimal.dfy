/**
 Whole numbers as text: how `Display` writes them and how `str::parse` reads
 them. The reader is laxer than the writer (a leading `+` and leading zeros are
 read), so reading back what was written is the interesting direction.
 */
module Decimal {
  import opened Base

  const MINUS: byte := 45
  const PLUS: byte := 43

  const I64_MAX: int := 0x7fff_ffff_ffff_ffff
  const I64_MIN: int := -0x8000_0000_0000_0000

  predicate IsDigit(b: byte) {
    48 <= b <= 57
  }

  predicate AllDigits(s: Bytes) {
    forall i :: 0 <= i < |s| ==> IsDigit(s[i])
  }

  function Digits(n: nat): (s: Bytes)
    ensures s != [] && AllDigits(s)
  {
    if n < 10 then [48 + n] else Digits(n / 10) + [48 + n % 10]
  }

  /** `to_string` on any integer type. */
  function Print(n: int): (s: Bytes)
    ensures s != []
  {
    if n < 0 then [MINUS] + Digits(-n) else Digits(n)
  }

  function DigitsValue(s: Bytes): nat
    requires AllDigits(s)
  {
    if s == [] then 0 else 10 * DigitsValue(s[..|s| - 1]) + (s[|s| - 1] - 48)
  }

  /** What is left of a number once its sign has been read past. */
  function Unsigned(s: Bytes, end: nat): (r: Option<nat>)
    ensures r.Some? ==> r.value < end
  {
    if s != [] && AllDigits(s) && DigitsValue(s) < end then Some(DigitsValue(s)) else None
  }

  /** `str::parse` for an unsigned type holding the numbers below `end`. */
  function ParseUnsigned(s: Bytes, end: nat): (r: Option<nat>)
    ensures r.Some? ==> r.value < end
  {
    if s != [] && s[0] == PLUS then Unsigned(s[1..], end) else Unsigned(s, end)
  }

  /** `str::parse` for `i64`. */
  function ParseI64(s: Bytes): (r: Option<int>)
    ensures r.Some? ==> I64_MIN <= r.value <= I64_MAX
  {
    if s != [] && s[0] == MINUS then
      var read: Option<int> := Unsigned(s[1..], -I64_MIN + 1);
      if read.Some? then Some(-read.value) else None
    else
      ParseUnsigned(s, I64_MAX + 1)
  }

  /** The value of `INCR`'s operand: only the canonical decimal spelling is accepted. */
  function AsNumber(value: Bytes): (r: Option<int>) {
    var read := ParseI64(value);
    if read.Some? && Print(read.value) == value then read else None
  }

  lemma {:induction false} DigitsReadBack(n: nat)
    ensures DigitsValue(Digits(n)) == n
  {
    if n >= 10 {
      DigitsReadBack(n / 10);
      assert Digits(n)[..|Digits(n)| - 1] == Digits(n / 10);
    } else {
      assert DigitsValue([]) == 0;
      assert [48 + n][..0] == [];
    }
  }

  lemma UnsignedReadBack(n: nat, end: nat)
    requires n < end
    ensures ParseUnsigned(Print(n), end) == Some(n)
  {
    DigitsReadBack(n);
    assert IsDigit(Digits(n)[0]);
  }

  lemma SignedReadBack(n: int)
    requires I64_MIN <= n <= I64_MAX
    ensures ParseI64(Print(n)) == Some(n)
  {
    if n < 0 {
      DigitsReadBack(-n);
      assert Print(n)[1..] == Digits(-n);
    } else {
      UnsignedReadBack(n, I64_MAX + 1);
      assert IsDigit(Digits(n)[0]);
    }
  }

  predicate Spells(digits: Bytes, n: nat) {
    digits != [] && AllDigits(digits) && DigitsValue(digits) == n
  }

  /** What is read as a number: digits, with a plus before them or not, that come to less than `end`. */
  lemma ReadWhen(s: Bytes, end: nat, n: nat)
    ensures ParseUnsigned(s, end) == Some(n) <==> n < end && (Spells(s, n) || exists d :: s == Ascii("+") + d && Spells(d, n))
  {
    assert Ascii("+") == [43];
    if s != [] && s[0] == PLUS {
      assert s == Ascii("+") + s[1..];
      assert !IsDigit(s[0]);
    }
    forall d | s == Ascii("+") + d
      ensures s[1..] == d && s[0] == PLUS
    {
    }
  }

  /** And as a signed one: the same, or digits with a minus before them. */
  lemma SignedReadWhen(s: Bytes, n: int)
    ensures ParseI64(s) == Some(n) <==>
            && -0x8000_0000_0000_0000 <= n <= 0x7fff_ffff_ffff_ffff
            && ((n >= 0 && (Spells(s, n) || exists d :: s == Ascii("+") + d && Spells(d, n)))
                || (n <= 0 && exists d :: s == Ascii("-") + d && Spells(d, -n)))
  {
    assert Ascii("-") == [45];
    if n >= 0 {
      ReadWhen(s, I64_MAX + 1, n);
    }
    if s != [] && s[0] == MINUS {
      assert s == Ascii("-") + s[1..];
      assert !IsDigit(s[0]);
      assert forall d :: s != Ascii("+") + d by {
        assert Ascii("+") == [43];
      }
    }
    forall d | s == Ascii("-") + d
      ensures s[1..] == d && s[0] == MINUS
    {
    }
  }

  /** A value counts as a number exactly when it is that number's own spelling. */
  lemma NumbersHaveOneSpelling(value: Bytes, n: int)
    ensures AsNumber(value) == Some(n) <==> I64_MIN <= n <= I64_MAX && value == Print(n)
  {
    if I64_MIN <= n <= I64_MAX {
      SignedReadBack(n);
    }
  }

  /** No number is printed with the two bytes that end a line. */
  lemma PrintHasNoLineEnd(n: int, i: nat)
    requires i < |Print(n)|
    ensures Print(n)[i] != CR && Print(n)[i] != LF
  {
    if n < 0 && i > 0 {
      assert Print(n)[i] == Digits(-n)[i - 1];
      assert IsDigit(Digits(-n)[i - 1]);
    } else if n >= 0 {
      assert IsDigit(Digits(n)[i]);
    }
  }
}
