/**
  Addition without carry, the digit arithmetic behind the SET (percent)
  checksum.  helpers.py and the static method Message.add_no_carry in
  uc2000.py are the same code; this module models both.

  The code adds up, for each decimal position, the digits of the operands at
  that position, keeps that column's sum modulo 10, and then ADDS the kept
  column results together (final_sum += result_no_carry % 10) instead of
  placing each one at its decimal position.  AddNoCarry is that code;
  PositionalNoCarry is the carry-less number the documentation describes, and
  CodeIsDigitSumOfPositional states how the two relate.
*/
module Helpers {
  import opened Wrappers

  function Pow10(n: nat): (r: nat)
    ensures r >= 1
  {
    if n == 0 then 1 else 10 * Pow10(n - 1)
  }

  lemma MulAtLeast(k: int, m: int)
    requires k >= 1 && m > 0
    ensures k * m >= m
  {
    assert k * m == (k - 1) * m + m;
  }

  lemma MulAtMost(k: int, n: int, m: int)
    requires k <= n && m >= 0
    ensures k * m <= n * m
  {
    assert n * m - k * m == (n - k) * m;
  }

  /** Division with remainder is unique: x = a*m + b with 0 <= b < m fixes x / m and x % m. */
  lemma DivModUnique(x: int, m: int, a: int, b: int)
    requires m > 0 && 0 <= b < m && x == a * m + b
    ensures x / m == a && x % m == b
  {
    var q, r := x / m, x % m;
    assert (a - q) * m == r - b by {
      assert a * m - q * m == (a - q) * m;
    }
    if a > q {
      MulAtLeast(a - q, m);
    } else if a < q {
      MulAtLeast(q - a, m);
    }
  }

  /** Number of characters of the decimal text of x, i.e. len(str(x)) for a non-negative int. */
  function NumDigits(x: nat): (d: nat)
    ensures d >= 1
    ensures x < Pow10(d)
    ensures d == 1 || Pow10(d - 1) <= x
  {
    if x < 10 then 1
    else
      var d' := NumDigits(x / 10);
      assert x / 10 < Pow10(d');
      assert d' == 1 ==> 1 <= x / 10;
      assert d' > 1 ==> Pow10(d' - 1) <= x / 10;
      1 + d'
  }

  /** The pwr-th decimal digit of x, counting the units digit as position 1. */
  function Digit(x: nat, pwr: nat): (d: nat)
    requires pwr >= 1
    ensures d < 10
  {
    if pwr == 1 then x % 10 else Digit(x / 10, pwr - 1)
  }

  /** x / 10 / m == x / (10 * m) */
  lemma DivTenThen(x: nat, m: nat)
    requires m > 0
    ensures x / 10 / m == x / (10 * m)
  {
    var a, b := x / 10, x % 10;
    var c, e := a / m, a % m;
    assert x == c * (10 * m) + (10 * e + b);
    DivModUnique(x, 10 * m, c, 10 * e + b);
  }

  /** Digit is the pwr-th decimal digit: x / 10**(pwr - 1) % 10. */
  lemma {:induction false} DigitIsDecimalDigit(x: nat, pwr: nat)
    requires pwr >= 1
    ensures Digit(x, pwr) == x / Pow10(pwr - 1) % 10
  {
    if pwr > 1 {
      DigitIsDecimalDigit(x / 10, pwr - 1);
      DivTenThen(x, Pow10(pwr - 2));
    }
  }

  /** Digit is what the source computes with arg % 10**pwr // 10**(pwr - 1). */
  lemma DigitIsSourceExpression(x: nat, pwr: nat)
    requires pwr >= 1
    ensures Digit(x, pwr) == x % Pow10(pwr) / Pow10(pwr - 1)
  {
    DigitIsDecimalDigit(x, pwr);
    ModThenDiv(x, Pow10(pwr - 1));
  }

  /** x % (10 * p) / p == x / p % 10 */
  lemma ModThenDiv(x: nat, p: nat)
    requires p > 0
    ensures x % (10 * p) / p == x / p % 10
  {
    var q, r := x / p, x % p;
    var hi, lo := q / 10, q % 10;
    var rest := lo * p + r;
    assert q * p == hi * (10 * p) + lo * p by {
      assert q == 10 * hi + lo;
    }
    assert rest < 10 * p by {
      MulAtMost(lo, 9, p);
    }
    DivModUnique(x, 10 * p, hi, rest);
    DivModUnique(rest, p, lo, r);
  }

  /** The column term of one operand: its digit, when its text is long enough to have one. */
  function Contribution(x: nat, pwr: nat): (c: nat)
    requires pwr >= 1
  {
    if NumDigits(x) >= pwr then Digit(x, pwr) else 0
  }

  /** result_no_carry for column pwr, accumulated over the operands in order. */
  function ColumnSum(args: seq<nat>, pwr: nat): nat
    requires pwr >= 1
  {
    if |args| == 0 then 0
    else ColumnSum(args[..|args| - 1], pwr) + Contribution(args[|args| - 1], pwr)
  }

  /** The sum of the kept column results (column sum mod 10) for columns lo..hi. */
  function SumColumns(args: seq<nat>, lo: nat, hi: nat): nat
    requires lo >= 1
    decreases hi + 1 - lo
  {
    if lo > hi then 0 else ColumnSum(args, lo) % 10 + SumColumns(args, lo + 1, hi)
  }

  /** The list num_digits: the text length of every operand. */
  function DigitCounts(args: seq<nat>): seq<nat>
  {
    seq(|args|, i requires 0 <= i < |args| => NumDigits(args[i]))
  }

  /** max() of a non-empty list. */
  function MaxOf(s: seq<nat>): (m: nat)
    requires |s| > 0
    ensures forall i :: 0 <= i < |s| ==> s[i] <= m
    ensures exists i :: 0 <= i < |s| && s[i] == m
  {
    if |s| == 1 then s[0]
    else
      var m' := MaxOf(s[..|s| - 1]);
      if s[|s| - 1] > m' then s[|s| - 1] else m'
  }

  /** max_digits: the length of the longest operand text. */
  function MaxDigits(args: seq<nat>): (m: nat)
    requires |args| > 0
    ensures m >= 1
    ensures forall i :: 0 <= i < |args| ==> NumDigits(args[i]) <= m
    ensures exists i :: 0 <= i < |args| && NumDigits(args[i]) == m
  {
    if |args| == 1 then NumDigits(args[0])
    else
      var m' := MaxDigits(args[..|args| - 1]);
      var d := NumDigits(args[|args| - 1]);
      if d > m' then d else m'
  }

  /** What add_no_carry(*args) returns. */
  function AddNoCarry(args: seq<nat>): nat
    requires |args| > 0
  {
    SumColumns(args, 1, MaxDigits(args))
  }

  /**
    add_no_carry as written: a first loop collects the operands' text lengths,
    max() of them bounds the digit positions (and raises on an empty operand
    list, modelled as None), then nested loops accumulate each column and add
    its result modulo 10 to final_sum.
  */
  method AddNoCarryLoop(args: seq<nat>) returns (finalSum: Option<nat>)
    ensures |args| == 0 ==> finalSum == None
    ensures |args| > 0 ==> finalSum == Some(AddNoCarry(args))
  {
    var numDigits: seq<nat> := [];
    for i := 0 to |args|
      invariant numDigits == DigitCounts(args[..i])
    {
      numDigits := numDigits + [NumDigits(args[i])];
    }
    if |numDigits| == 0 {
      return None;
    }
    assert numDigits == DigitCounts(args) by {
      assert args[..|args|] == args;
    }
    var maxDigits := MaxOf(numDigits);
    MaxOfDigitCounts(args);
    var sum: nat := 0;
    for pwr := 1 to maxDigits + 1
      invariant sum == SumColumns(args, 1, pwr - 1)
    {
      var resultNoCarry := ColumnLoop(args, pwr);
      SumColumnsSnoc(args, 1, pwr - 1);
      sum := sum + resultNoCarry % 10;
    }
    finalSum := Some(sum);
  }

  /** The inner loop of add_no_carry: result_no_carry for one decimal position. */
  method ColumnLoop(args: seq<nat>, pwr: nat) returns (resultNoCarry: nat)
    requires pwr >= 1
    ensures resultNoCarry == ColumnSum(args, pwr)
  {
    resultNoCarry := 0;
    for k := 0 to |args|
      invariant resultNoCarry == ColumnSum(args[..k], pwr)
    {
      assert args[..k + 1][..k] == args[..k];
      if NumDigits(args[k]) >= pwr {
        resultNoCarry := resultNoCarry + Digit(args[k], pwr);
      }
    }
    assert args[..|args|] == args;
  }

  /** max(num_digits) is max_digits. */
  lemma MaxOfDigitCounts(args: seq<nat>)
    requires |args| > 0
    ensures MaxOf(DigitCounts(args)) == MaxDigits(args)
  {
    var ds := DigitCounts(args);
    assert forall i :: 0 <= i < |args| ==> ds[i] == NumDigits(args[i]);
  }

  /** Adding the next column on the high end adds its kept result. */
  lemma {:induction false} SumColumnsSnoc(args: seq<nat>, lo: nat, hi: nat)
    requires 1 <= lo <= hi + 1
    ensures SumColumns(args, lo, hi + 1) == SumColumns(args, lo, hi) + ColumnSum(args, hi + 1) % 10
    decreases hi + 1 - lo
  {
    if lo <= hi {
      SumColumnsSnoc(args, lo + 1, hi);
    }
  }

  // ---------------------------------------------------------------------
  // Properties of the code's result
  // ---------------------------------------------------------------------

  /** Each column contributes at most 9, so 0 <= result <= 9 * max_digits. */
  lemma {:induction false} AddNoCarryBounds(args: seq<nat>)
    requires |args| > 0
    ensures 0 <= AddNoCarry(args) <= 9 * MaxDigits(args)
  {
    SumColumnsBound(args, 1, MaxDigits(args));
  }

  lemma {:induction false} SumColumnsBound(args: seq<nat>, lo: nat, hi: nat)
    requires lo >= 1
    ensures lo <= hi + 1 ==> SumColumns(args, lo, hi) <= 9 * (hi + 1 - lo)
    decreases hi + 1 - lo
  {
    if lo <= hi {
      SumColumnsBound(args, lo + 1, hi);
    }
  }

  /**
    The len(str(arg)) >= pwr guard only skips positions whose digit is 0:
    every operand contributes its plain digit to every column.
  */
  lemma {:induction false} GuardOnlySkipsZeroDigits(x: nat, pwr: nat)
    requires pwr >= 1
    ensures Contribution(x, pwr) == Digit(x, pwr)
    ensures NumDigits(x) < pwr ==> Digit(x, pwr) == 0
  {
    if NumDigits(x) < pwr && pwr > 1 {
      GuardOnlySkipsZeroDigits(x / 10, pwr - 1);
    }
  }

  /** Columns past the longest operand sum to zero. */
  lemma {:induction false} ColumnSumBeyondLongest(args: seq<nat>, pwr: nat)
    requires pwr >= 1
    requires forall i :: 0 <= i < |args| ==> NumDigits(args[i]) < pwr
    ensures ColumnSum(args, pwr) == 0
  {
    if |args| > 0 {
      ColumnSumBeyondLongest(args[..|args| - 1], pwr);
    }
  }

  /** Columns above m, where no operand has a digit, add nothing. */
  lemma {:induction false} ZeroColumnsAbove(args: seq<nat>, lo: nat, m: nat, hi: nat)
    requires 1 <= lo && m <= hi
    requires forall i :: 0 <= i < |args| ==> NumDigits(args[i]) <= m
    ensures SumColumns(args, lo, hi) == SumColumns(args, lo, m)
    decreases hi + 1 - lo
  {
    if lo <= hi {
      ZeroColumnsAbove(args, lo + 1, m, hi);
      if lo > m {
        ColumnSumBeyondLongest(args, lo);
      }
    }
  }

  /**
    Summing further columns than max_digits changes nothing.  This is why a
    float operand, whose text ("62.5") is longer than its integer part, gives
    the same result as that integer part.
  */
  lemma ExtraColumnsAddNothing(args: seq<nat>, hi: nat)
    requires |args| > 0 && hi >= MaxDigits(args)
    ensures SumColumns(args, 1, hi) == AddNoCarry(args)
  {
    ZeroColumnsAbove(args, 1, MaxDigits(args), hi);
  }

  /** ColumnSum splits over concatenation. */
  lemma {:induction false} ColumnSumAppend(u: seq<nat>, v: seq<nat>, pwr: nat)
    requires pwr >= 1
    ensures ColumnSum(u + v, pwr) == ColumnSum(u, pwr) + ColumnSum(v, pwr)
    decreases |v|
  {
    if |v| > 0 {
      var w := v[..|v| - 1];
      assert (u + v)[..|u + v| - 1] == u + w;
      ColumnSumAppend(u, w, pwr);
    } else {
      assert u + v == u;
    }
  }

  /** Taking one operand out of a column takes out its term. */
  lemma ColumnSumRemove(b: seq<nat>, i: nat, pwr: nat)
    requires pwr >= 1 && i < |b|
    ensures ColumnSum(b, pwr) == ColumnSum(b[..i] + b[i + 1..], pwr) + Contribution(b[i], pwr)
  {
    var u, v := b[..i], b[i + 1..];
    assert b == u + ([b[i]] + v);
    ColumnSumAppend(u, [b[i]] + v, pwr);
    ColumnSumAppend([b[i]], v, pwr);
    ColumnSumAppend(u, v, pwr);
    assert [b[i]][..0] == [];
  }

  /** A column's sum depends only on which operands there are, not on their order. */
  lemma {:induction false} ColumnSumPermutation(a: seq<nat>, b: seq<nat>, pwr: nat)
    requires pwr >= 1 && multiset(a) == multiset(b)
    ensures ColumnSum(a, pwr) == ColumnSum(b, pwr)
    decreases |a|
  {
    if |a| == 0 {
      assert |b| == |multiset(b)| == 0;
    } else {
      var x := a[|a| - 1];
      var a' := a[..|a| - 1];
      assert x in multiset(b) by {
        assert a == a' + [x];
      }
      var i :| 0 <= i < |b| && b[i] == x;
      var b' := b[..i] + b[i + 1..];
      RemoveMatching(a, b, i);
      ColumnSumPermutation(a', b', pwr);
      ColumnSumRemove(b, i, pwr);
    }
  }

  /** Taking the last element of a and a matching element of b out of two equal multisets leaves them equal. */
  lemma RemoveMatching(a: seq<nat>, b: seq<nat>, i: nat)
    requires |a| > 0 && multiset(a) == multiset(b) && i < |b| && b[i] == a[|a| - 1]
    ensures multiset(a[..|a| - 1]) == multiset(b[..i] + b[i + 1..])
  {
    var x := a[|a| - 1];
    assert a == a[..|a| - 1] + [x];
    assert b == b[..i] + [x] + b[i + 1..];
    assert multiset(a[..|a| - 1]) == multiset(a) - multiset{x};
    assert multiset(b[..i] + b[i + 1..]) == multiset(b) - multiset{x};
  }

  lemma {:induction false} SumColumnsPermutation(a: seq<nat>, b: seq<nat>, lo: nat, hi: nat)
    requires lo >= 1 && multiset(a) == multiset(b)
    ensures SumColumns(a, lo, hi) == SumColumns(b, lo, hi)
    decreases hi + 1 - lo
  {
    if lo <= hi {
      ColumnSumPermutation(a, b, lo);
      SumColumnsPermutation(a, b, lo + 1, hi);
    }
  }

  /** The longest operand text depends only on which operands there are. */
  lemma MaxDigitsPermutation(a: seq<nat>, b: seq<nat>)
    requires |a| > 0 && multiset(a) == multiset(b)
    ensures |b| > 0 && MaxDigits(a) == MaxDigits(b)
  {
    assert |b| == |multiset(b)| == |multiset(a)| == |a|;
    var i :| 0 <= i < |a| && NumDigits(a[i]) == MaxDigits(a);
    assert a[i] in multiset(b);
    var j :| 0 <= j < |b| && NumDigits(b[j]) == MaxDigits(b);
    assert b[j] in multiset(a);
  }

  /** The result does not depend on the order of the operands. */
  lemma AddNoCarryPermutation(a: seq<nat>, b: seq<nat>)
    requires |a| > 0 && multiset(a) == multiset(b)
    ensures |b| > 0 && AddNoCarry(a) == AddNoCarry(b)
  {
    MaxDigitsPermutation(a, b);
    SumColumnsPermutation(a, b, 1, MaxDigits(a));
  }

  /** add_no_carry(a, b) == add_no_carry(b, a). */
  lemma AddNoCarryCommutative(a: nat, b: nat)
    ensures AddNoCarry([a, b]) == AddNoCarry([b, a])
  {
    assert multiset([a, b]) == multiset([b, a]);
    AddNoCarryPermutation([a, b], [b, a]);
  }

  /** With two operands a column holds the two operands' terms. */
  lemma TwoOperands(a: nat, b: nat, pwr: nat)
    requires pwr >= 1
    ensures ColumnSum([a, b], pwr) == Contribution(a, pwr) + Contribution(b, pwr)
    ensures MaxDigits([a, b]) == if NumDigits(a) < NumDigits(b) then NumDigits(b) else NumDigits(a)
  {
    var args := [a, b];
    assert args[..1] == [a] && args[1] == b;
    assert [a][..0] == [];
    assert MaxDigits([a]) == NumDigits(a);
    assert ColumnSum([a], pwr) == Contribution(a, pwr);
  }

  /** For single-digit operands the result is their sum modulo 10, as is the positional sum. */
  lemma SingleDigits(a: nat, b: nat)
    requires a < 10 && b < 10
    ensures AddNoCarry([a, b]) == (a + b) % 10
    ensures PositionalNoCarry([a, b]) == (a + b) % 10
  {
    TwoOperands(a, b, 1);
  }

  /**
    A units digit plus a two-digit number: the code adds the tens digit to the
    kept units column, where the positional sum places it in the tens.
  */
  lemma UnitsAndTens(a: nat, b: nat)
    requires a < 10 && 10 <= b < 100
    ensures AddNoCarry([a, b]) == (a + b % 10) % 10 + b / 10
    ensures PositionalNoCarry([a, b]) == (a + b % 10) % 10 + 10 * (b / 10)
  {
    var args := [a, b];
    assert NumDigits(b) == 2 && NumDigits(a) == 1;
    TwoOperands(a, b, 1);
    TwoOperands(a, b, 2);
    assert MaxDigits(args) == 2;
    var units := ColumnSum(args, 1);
    var tens := ColumnSum(args, 2);
    assert units == a + b % 10;
    assert tens == b / 10 by {
      assert Contribution(b, 2) == Digit(b / 10, 1) == b / 10 % 10;
    }
    assert SumColumns(args, 1, 2) == units % 10 + tens % 10 + SumColumns(args, 3, 2);
    assert Positional(args, 1, 2) == units % 10 + 10 * (tens % 10 + 10 * Positional(args, 3, 2));
  }

  /** The examples of the documentation, as the code computes them. */
  lemma DocumentedExamples()
    ensures AddNoCarry([1, 1]) == 2
    ensures AddNoCarry([1, 18]) == 10
    ensures AddNoCarry([1, 19]) == 1
  {
    SingleDigits(1, 1);
    UnitsAndTens(1, 18);
    UnitsAndTens(1, 19);
  }

  /** The sums behind the percent checksums of 0 %, 2 % and 10 %. */
  lemma SetPercentSumZero()
    ensures AddNoCarry([0x7F, 0]) == 10
  {
    TwoOperands(0x7F, 0, 1);
    TwoOperands(0x7F, 0, 2);
    TwoOperands(0x7F, 0, 3);
  }

  lemma SetPercentSumTwo()
    ensures AddNoCarry([0x7F, 2]) == 12
  {
    TwoOperands(0x7F, 2, 1);
    TwoOperands(0x7F, 2, 2);
    TwoOperands(0x7F, 2, 3);
  }

  lemma SetPercentSumTen()
    ensures AddNoCarry([0x7F, 10]) == 11
  {
    TwoOperands(0x7F, 10, 1);
    TwoOperands(0x7F, 10, 2);
    TwoOperands(0x7F, 10, 3);
  }

  // ---------------------------------------------------------------------
  // The positional carry-less sum the documentation describes
  // ---------------------------------------------------------------------

  /** Columns lo..hi, each kept modulo 10 and placed at its decimal position. */
  function Positional(args: seq<nat>, lo: nat, hi: nat): nat
    requires lo >= 1
    decreases hi + 1 - lo
  {
    if lo > hi then 0 else ColumnSum(args, lo) % 10 + 10 * Positional(args, lo + 1, hi)
  }

  /** The carry-less number: add_no_carry(1, 18) would be 19 and add_no_carry(1, 19) would be 10. */
  function PositionalNoCarry(args: seq<nat>): nat
    requires |args| > 0
  {
    Positional(args, 1, MaxDigits(args))
  }

  /** Sum of the decimal digits of x. */
  function DigitSum(x: nat): nat
  {
    if x == 0 then 0 else x % 10 + DigitSum(x / 10)
  }

  lemma {:induction false} PositionalDigits(args: seq<nat>, lo: nat, hi: nat)
    requires lo >= 1
    ensures DigitSum(Positional(args, lo, hi)) == SumColumns(args, lo, hi)
    decreases hi + 1 - lo
  {
    if lo <= hi {
      var c := ColumnSum(args, lo) % 10;
      var rest := Positional(args, lo + 1, hi);
      PositionalDigits(args, lo + 1, hi);
      DivModUnique(c + 10 * rest, 10, rest, c);
    }
  }

  /**
    The code returns the digit sum of the carry-less number the documentation
    describes: the kept column results are added instead of placed.
  */
  lemma CodeIsDigitSumOfPositional(args: seq<nat>)
    requires |args| > 0
    ensures AddNoCarry(args) == DigitSum(PositionalNoCarry(args))
  {
    PositionalDigits(args, 1, MaxDigits(args));
  }

  /** The documented values are those of the positional sum, not of the code. */
  lemma DocumentedExamplesArePositional()
    ensures PositionalNoCarry([1, 1]) == 2
    ensures PositionalNoCarry([1, 18]) == 19
    ensures PositionalNoCarry([1, 19]) == 10
  {
    SingleDigits(1, 1);
    UnitsAndTens(1, 18);
    UnitsAndTens(1, 19);
  }
}
