/** Decimal text of Go ints: `strconv.Itoa` (and `%v`), used for the replica names,
    and `strconv.Atoi`, used for alert thresholds. Go's `int` is taken to be 64 bits wide. */
module Decimal {
  import opened Common

  const MinInt64: int := -0x8000_0000_0000_0000
  const MaxInt64: int := 0x7fff_ffff_ffff_ffff

  predicate InInt64(v: int) { MinInt64 <= v <= MaxInt64 }

  predicate IsDigit(c: char) { '0' <= c <= '9' }

  predicate AllDigits(s: string) { forall i :: 0 <= i < |s| ==> IsDigit(s[i]) }

  function DigitValue(c: char): nat
    requires IsDigit(c)
  {
    c as int - '0' as int
  }

  function DigitChar(d: nat): (c: char)
    requires d < 10
    ensures IsDigit(c) && DigitValue(c) == d
  {
    ('0' as int + d) as char
  }

  /** The value of a digit string read most significant digit first; the reference reading. */
  function DigitsValue(s: string): nat
    requires AllDigits(s)
    decreases |s|
  {
    if s == [] then 0 else DigitsValue(s[..|s| - 1]) * 10 + DigitValue(s[|s| - 1])
  }

  /** strconv's accumulation `n = n*10 + d`, left to right, starting from `acc`. */
  function Accumulate(acc: int, s: string): int
    requires AllDigits(s)
    decreases |s|
  {
    if s == [] then acc else Accumulate(acc * 10 + DigitValue(s[0]), s[1..])
  }

  /** The digits of `n` with no leading zero (the shortest form). */
  function NatToString(n: nat): (s: string)
    ensures |s| > 0 && AllDigits(s)
    ensures IsDigit(s[0])
    ensures s[0] == '0' ==> n == 0
    decreases n
  {
    if n < 10 then [DigitChar(n)] else NatToString(n / 10) + [DigitChar(n % 10)]
  }

  /** strconv.Itoa(i), which is also what fmt's "%v" prints for an int. */
  function Itoa(i: int): (s: string)
    ensures |s| > 0
    ensures i < 0 <==> s[0] == '-'
  {
    if i < 0 then "-" + NatToString(-i) else NatToString(i)
  }

  /** The part of `s` after an optional leading sign. */
  function Unsigned(s: string): string
  {
    if |s| > 0 && (s[0] == '+' || s[0] == '-') then s[1..] else s
  }

  /** The syntax strconv.Atoi accepts: an optional '+' or '-' and then one or more digits. */
  predicate WellFormed(s: string)
  {
    |Unsigned(s)| > 0 && AllDigits(Unsigned(s))
  }

  /** strconv.Atoi(s): the sign, then the digit loop, then the 64-bit range check.
      ErrSyntax and ErrRange are both reported as NumError(s). */
  function Atoi(s: string): (r: Result<int, Error>)
    ensures r.Failure? ==> r == Failure(NumError(s))
    ensures r.Success? ==> WellFormed(s) && InInt64(r.value)
    ensures r.Success? && r.value < 0 ==> s[0] == '-'
  {
    if |s| == 0 then Failure(NumError(s))
    else
      var neg := s[0] == '-';
      var body := if s[0] == '+' || s[0] == '-' then s[1..] else s;
      if |body| == 0 || !AllDigits(body) then Failure(NumError(s))
      else
        AccumulateIsDigitsValue(body);
        var n := Accumulate(0, body);
        var v := if neg then -n else n;
        if !InInt64(v) then Failure(NumError(s)) else Success(v)
  }

  lemma {:induction false} AccumulateSnoc(acc: int, s: string, c: char)
    requires AllDigits(s) && IsDigit(c)
    ensures AllDigits(s + [c])
    ensures Accumulate(acc, s + [c]) == Accumulate(acc, s) * 10 + DigitValue(c)
    decreases |s|
  {
    if s != [] {
      assert (s + [c])[1..] == s[1..] + [c];
      AccumulateSnoc(acc * 10 + DigitValue(s[0]), s[1..], c);
    }
  }

  /** The left-to-right loop of strconv computes the reference value of the digits. */
  lemma {:induction false} AccumulateIsDigitsValue(s: string)
    requires AllDigits(s)
    ensures Accumulate(0, s) == DigitsValue(s)
    decreases |s|
  {
    if s != [] {
      var init := s[..|s| - 1];
      AccumulateIsDigitsValue(init);
      AccumulateSnoc(0, init, s[|s| - 1]);
      assert init + [s[|s| - 1]] == s;
    }
  }

  lemma {:induction false} NatToStringValue(n: nat)
    ensures DigitsValue(NatToString(n)) == n
    decreases n
  {
    if n >= 10 {
      NatToStringValue(n / 10);
      var s := NatToString(n);
      assert s[..|s| - 1] == NatToString(n / 10);
    }
  }

  /** Atoi accepts exactly the well-formed texts whose value fits in 64 bits, and reads
      a sign and a digit string as the signed reference value of the digits. */
  lemma AtoiAccepts(s: string)
    ensures Atoi(s).Success? <==> WellFormed(s) && InInt64(SignedValue(s))
    ensures Atoi(s).Success? ==> Atoi(s).value == SignedValue(s)
    ensures Atoi(s).Failure? ==> Atoi(s) == Failure(NumError(s))
  {
    if WellFormed(s) {
      AccumulateIsDigitsValue(Unsigned(s));
    }
  }

  /** The value a well-formed text denotes, by the reference reading of its digits. */
  function SignedValue(s: string): int
  {
    if WellFormed(s) then
      var magnitude: int := DigitsValue(Unsigned(s));
      if s[0] == '-' then -magnitude else magnitude
    else 0
  }

  /** Round trip: Atoi reads back every 64-bit int that Itoa prints. */
  lemma AtoiItoa(i: int)
    requires InInt64(i)
    ensures Atoi(Itoa(i)) == Success(i)
  {
    var s := Itoa(i);
    var digits := if i < 0 then -i else i;
    assert Unsigned(s) == NatToString(digits);
    NatToStringValue(digits);
    AtoiAccepts(s);
  }

  /** Distinct ints have distinct decimal names; in particular the replica names
      "0", "1", ... never collide. */
  lemma ItoaInjective(i: int, j: int)
    requires Itoa(i) == Itoa(j)
    ensures i == j
  {
    if i < 0 && j < 0 {
      assert NatToString(-i) == Itoa(i)[1..] == NatToString(-j);
      NatToStringValue(-i);
      NatToStringValue(-j);
    } else if i >= 0 && j >= 0 {
      NatToStringValue(i);
      NatToStringValue(j);
    }
  }
}
