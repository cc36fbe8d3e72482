/**
 * `strconv.ParseUint(s, base, 32)` for the two bases the loader uses
 * (10 for counts and offsets, 16 for a data line's word count), and a
 * numeral writer that serves as its inverse.
 */
module Strconv {

  const MaxUint32: nat := 0xFFFF_FFFF

  /**
   * The outcome of `ParseUint`. Go returns a value beside its error:
   * 0 on a syntax error and the largest 32-bit value on a range error.
   */
  datatype UintResult = Parsed(value: nat) | SyntaxError | RangeError {
    function Value(): nat {
      match this
      case Parsed(v) => v
      case SyntaxError => 0
      case RangeError => MaxUint32
    }
  }

  /** The digit a byte stands for; letters of either case are 10..35 and anything else is 36. */
  function DigitVal(c: char): (d: nat)
    ensures d <= 36
  {
    if '0' <= c <= '9' then c as nat - '0' as nat
    else if 'a' <= c <= 'z' then c as nat - 'a' as nat + 10
    else if 'A' <= c <= 'Z' then c as nat - 'A' as nat + 10
    else 36
  }

  /** Every character of `s` is a digit of `base` (the empty string qualifies). */
  predicate AllDigits(s: string, base: nat) {
    forall i :: 0 <= i < |s| ==> DigitVal(s[i]) < base
  }

  /** The value of a digit string, most significant digit first. */
  function NumeralValue(s: string, base: nat): nat
    requires AllDigits(s, base)
  {
    if s == [] then 0
    else NumeralValue(s[..|s| - 1], base) * base + DigitVal(s[|s| - 1])
  }

  /**
   * The scanning loop of `ParseUint`: one digit at a time, a syntax error at
   * the first non-digit, a range error as soon as the value passes 32 bits.
   * (Go's separate `n >= cutoff` test is about 64-bit overflow and cannot fire
   * while `n` stays within 32 bits.)
   */
  function Accumulate(s: string, base: nat, n: nat): UintResult
    requires n <= MaxUint32
    decreases |s|
  {
    if s == [] then Parsed(n)
    else
      var d := DigitVal(s[0]);
      if d >= base then SyntaxError
      else
        var n1 := n * base + d;
        if n1 > MaxUint32 then RangeError else Accumulate(s[1..], base, n1)
  }

  /** `strconv.ParseUint(s, base, 32)` for an explicit base (no prefix, no underscores, no sign). */
  function ParseUint(s: string, base: nat): UintResult
    requires 2 <= base <= 36
  {
    if s == [] then SyntaxError else Accumulate(s, base, 0)
  }

  /** Adding digits at the end never makes a numeral smaller. */
  lemma {:induction false} NumeralValueGrows(p: string, t: string, base: nat)
    requires base >= 1
    requires AllDigits(p, base) && AllDigits(t, base)
    ensures AllDigits(p + t, base)
    ensures NumeralValue(p + t, base) >= NumeralValue(p, base)
  {
    if t == [] {
      assert p + t == p;
    } else {
      var t' := t[..|t| - 1];
      NumeralValueGrows(p, t', base);
      assert (p + t)[..|p + t| - 1] == p + t';
      var v := NumeralValue(p + t', base);
      assert NumeralValue(p + t, base) == v * base + DigitVal(t[|t| - 1]);
      MulGrows(v, base);
    }
  }

  lemma MulGrows(v: nat, base: nat)
    requires base >= 1
    ensures v * base >= v
  {
    assert v * base == v + v * (base - 1);
  }

  lemma {:induction false} AccumulateMeaning(p: string, t: string, base: nat)
    requires 2 <= base <= 36
    requires AllDigits(p, base) && NumeralValue(p, base) <= MaxUint32
    ensures var r := Accumulate(t, base, NumeralValue(p, base));
      && (r.Parsed? <==> AllDigits(t, base) && NumeralValue(p + t, base) <= MaxUint32)
      && (r.Parsed? ==> r.value == NumeralValue(p + t, base))
    decreases |t|
  {
    if t == [] {
      assert p + t == p;
    } else {
      var d := DigitVal(t[0]);
      if d < base {
        var p' := p + [t[0]];
        assert AllDigits(p', base);
        assert p'[..|p'| - 1] == p;
        assert p' + t[1..] == p + t;
        if NumeralValue(p', base) > MaxUint32 {
          if AllDigits(t, base) {
            NumeralValueGrows(p', t[1..], base);
          }
        } else {
          AccumulateMeaning(p', t[1..], base);
        }
      }
    }
  }

  /**
   * `ParseUint` succeeds exactly on a non-empty string of digits of `base`
   * whose value fits in 32 bits, and then returns that value.
   */
  lemma ParseUintMeaning(s: string, base: nat)
    requires 2 <= base <= 36
    ensures ParseUint(s, base).Parsed?
        <==> s != [] && AllDigits(s, base) && NumeralValue(s, base) <= MaxUint32
    ensures ParseUint(s, base).Parsed? ==>
              ParseUint(s, base).value == NumeralValue(s, base) <= MaxUint32
  {
    if s != [] {
      AccumulateMeaning([], s, base);
      assert [] + s == s;
    }
  }

  /** Every value `ParseUint` hands back, error or not, fits in 32 bits. */
  lemma ParseUintBounded(s: string, base: nat)
    requires 2 <= base <= 36
    ensures ParseUint(s, base).Value() <= MaxUint32
  {
    ParseUintMeaning(s, base);
  }

  lemma DivStep(n: nat, base: nat)
    requires 2 <= base <= n
    ensures n / base < n && n % base < base
    ensures (n / base) * base + n % base == n
  {
    var q := n / base;
    assert q * base + n % base == n;
    assert q * base >= q * 2 by { MulMono(q, 2, base); }
  }

  lemma MulMono(q: nat, a: nat, b: nat)
    requires a <= b
    ensures q * a <= q * b
  {
    assert q * b == q * a + q * (b - a);
  }

  /** The lower-case digit character for `d`. */
  function DigitChar(d: nat): (c: char)
    requires d < 36
    ensures DigitVal(c) == d
  {
    if d < 10 then ('0' as nat + d) as char else ('a' as nat + d - 10) as char
  }

  /** `n` written in `base` without leading zeros, as `strconv.FormatUint` writes it. */
  function Numeral(n: nat, base: nat): (s: string)
    requires 2 <= base <= 36
    ensures s != [] && AllDigits(s, base)
    ensures NumeralValue(s, base) == n
  {
    if n < base then
      var s := [DigitChar(n)];
      assert s[..0] == [];
      s
    else
      var q, d := n / base, n % base;
      DivStep(n, base);
      var p := Numeral(q, base);
      var s := p + [DigitChar(d)];
      assert s[..|s| - 1] == p;
      s
  }

  /** Reading back a written numeral gives the number, whenever it fits in 32 bits. */
  lemma ParseNumeral(n: nat, base: nat)
    requires 2 <= base <= 36
    requires n <= MaxUint32
    ensures ParseUint(Numeral(n, base), base) == Parsed(n)
  {
    ParseUintMeaning(Numeral(n, base), base);
  }
}
