/** The parts of Go's integer semantics the interpreter relies on: 64-bit
    signed arithmetic that wraps around, division that truncates toward zero,
    and `strconv.ParseInt(s, 0, 64)` on the digit strings the lexer produces. */
module GoInts {
  import opened Wrappers

  const MIN_INT64: int := -0x8000_0000_0000_0000
  const MAX_INT64: int := 0x7FFF_FFFF_FFFF_FFFF
  const TWO_64: int := 0x1_0000_0000_0000_0000

  type int64 = x: int | MIN_INT64 <= x <= MAX_INT64

  /** Two's-complement wrap-around of an unbounded integer into 64 bits. */
  function Wrap(x: int): (r: int64)
    ensures (r - x) % TWO_64 == 0
    ensures MIN_INT64 <= x <= MAX_INT64 ==> r == x
  {
    var m := (x - MIN_INT64) % TWO_64;
    m + MIN_INT64
  }

  function Add(a: int64, b: int64): int64 { Wrap(a + b) }
  function Sub(a: int64, b: int64): int64 { Wrap(a - b) }
  function Mul(a: int64, b: int64): int64 { Wrap(a * b) }
  function Neg(a: int64): int64 { Wrap(-(a as int)) }

  /** Go's `/` on integers: the quotient truncated toward zero (Dafny's own `/`
      is Euclidean), wrapped, so that MIN_INT64 / -1 == MIN_INT64. */
  function Quo(a: int64, b: int64): int64
    requires b != 0
  {
    var t := if (a < 0) == (b < 0) then Abs(a) / Abs(b) else -(Abs(a) / Abs(b));
    Wrap(t)
  }

  function Abs(x: int): nat { if x < 0 then -x else x }

  /** Truncation toward zero and the one overflowing quotient. */
  lemma QuoExamples()
    ensures Quo(7, 2) == 3 && Quo(-7, 2) == -3 && Quo(7, -2) == -3 && Quo(-7, -2) == 3
    ensures Quo(MIN_INT64, -1) == MIN_INT64
  {
  }

  predicate IsDigitChar(c: char) { '0' <= c <= '9' }

  predicate AllDigits(s: string) { forall i :: 0 <= i < |s| ==> IsDigitChar(s[i]) }

  predicate AllOctal(s: string) { forall i :: 0 <= i < |s| ==> '0' <= s[i] <= '7' }

  /** The number that the digits of `s` denote in base `base`. */
  function DigitsValue(s: string, base: nat): (v: nat)
    requires AllDigits(s)
    decreases |s|
  {
    if s == [] then 0
    else DigitsValue(s[..|s| - 1], base) * base + (s[|s| - 1] as int - '0' as int)
  }

  /** `strconv.ParseInt(s, 0, 64)` on strings of decimal digits: a leading `0`
      selects octal for the remaining digits, and a value above MAX_INT64 is a
      range error. Every other string is refused (Go would also accept a sign,
      a `0x`/`0b`/`0o` prefix and underscores; the lexer never produces them). */
  function ParseInt(s: string): (r: Option<int64>)
    ensures r.Some? ==> s != [] && AllDigits(s) && 0 <= r.value
    ensures r.Some? && s[0] != '0' ==> r.value == DigitsValue(s, 10)
    ensures r.Some? && s[0] == '0' ==> AllOctal(s[1..]) && r.value == DigitsValue(s[1..], 8)
  {
    if s == [] || !AllDigits(s) then None
    else
      var v: int :=
        if s[0] == '0' then (if AllOctal(s[1..]) then DigitsValue(s[1..], 8) else -1)
        else DigitsValue(s, 10);
      if 0 <= v <= MAX_INT64 then Some(v) else None
  }

  /** A successful conversion is exactly a digit string whose value fits. */
  lemma ParseIntDecimal(s: string)
    requires s != [] && AllDigits(s) && s[0] != '0'
    ensures ParseInt(s).Some? <==> DigitsValue(s, 10) <= MAX_INT64
    ensures ParseInt(s).Some? ==> ParseInt(s).value == DigitsValue(s, 10)
  {
  }

  /** A leading zero makes the rest octal, so `8` and `9` are syntax errors there. */
  lemma ParseIntOctal(s: string)
    requires s != [] && AllDigits(s) && s[0] == '0'
    ensures ParseInt(s).Some? <==> AllOctal(s[1..]) && DigitsValue(s[1..], 8) <= MAX_INT64
  {
  }

  lemma ParseIntExamples()
    ensures ParseInt("0") == Some(0)
    ensures ParseInt("42") == Some(42)
    ensures ParseInt("017") == Some(15)
    ensures ParseInt("09") == None
  {
    assert DigitsValue("4", 10) == 4;
    assert "42"[..1] == "4";
    assert "17"[..1] == "1";
    assert DigitsValue("1", 8) == 1;
    assert "017"[1..] == "17";
    assert "09"[1..][0] == '9';
  }
}
