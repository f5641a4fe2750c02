/** The exact two-sided McNemar test over paired outcomes, against its tail-sum definition. */
module Mcnemar {

  // ---------------------------------------------------------------- binomial coefficients

  function Comb(n: nat, k: nat): nat {
    if k == 0 then 1 else if n == 0 then 0 else Comb(n - 1, k - 1) + Comb(n - 1, k)
  }

  function Factorial(n: nat): nat {
    if n == 0 then 1 else n * Factorial(n - 1)
  }

  function Pow2(n: nat): nat {
    if n == 0 then 1 else 2 * Pow2(n - 1)
  }

  lemma {:induction false} CombAboveIsZero(n: nat, k: nat)
    requires k > n
    ensures Comb(n, k) == 0
  {
    if n > 0 {
      CombAboveIsZero(n - 1, k - 1);
      CombAboveIsZero(n - 1, k);
    }
  }

  lemma {:induction false} CombOfAll(n: nat)
    ensures Comb(n, n) == 1
  {
    if n > 0 {
      CombOfAll(n - 1);
      CombAboveIsZero(n - 1, n);
    }
  }

  /** The factorial formula. */
  lemma {:induction false} CombIsFactorialQuotient(n: nat, k: nat)
    requires k <= n
    ensures Comb(n, k) * (Factorial(k) * Factorial(n - k)) == Factorial(n)
  {
    if k == n {
      CombOfAll(n);
    } else if k > 0 {
      CombIsFactorialQuotient(n - 1, k - 1);
      CombIsFactorialQuotient(n - 1, k);
      PascalStep(Comb(n - 1, k - 1), Comb(n - 1, k), Factorial(k - 1), Factorial(n - k - 1), k, n - k);
    }
  }

  lemma PascalStep(a: int, b: int, f: int, g: int, k: int, m: int)
    requires a * (f * (m * g)) == b * ((k * f) * g)
    ensures (a + b) * ((k * f) * (m * g)) == (k + m) * (a * (f * (m * g)))
  {
    var whole := a * (f * (m * g));
    assert a * ((k * f) * (m * g)) == k * whole by {
      assert (k * f) * (m * g) == k * (f * (m * g));
      assert a * (k * (f * (m * g))) == k * (a * (f * (m * g)));
    }
    assert b * ((k * f) * (m * g)) == m * (b * ((k * f) * g)) by {
      assert (k * f) * (m * g) == m * ((k * f) * g);
      assert b * (m * ((k * f) * g)) == m * (b * ((k * f) * g));
    }
  }

  lemma {:induction false} CombIsSymmetric(n: nat, k: nat)
    requires k <= n
    ensures Comb(n, k) == Comb(n, n - k)
  {
    if k == 0 || k == n {
      CombOfAll(n);
    } else {
      CombIsSymmetric(n - 1, k - 1);
      CombIsSymmetric(n - 1, k);
    }
  }

  // ---------------------------------------------------------------- sums of coefficients

  /** Sum of Comb(n, k) over lo <= k < hi. */
  function CombSum(n: nat, lo: nat, hi: nat): nat
    decreases hi
  {
    if hi <= lo then 0 else CombSum(n, lo, hi - 1) + Comb(n, hi - 1)
  }

  lemma {:induction false} CombSumSplits(n: nat, lo: nat, mid: nat, hi: nat)
    requires lo <= mid <= hi
    ensures CombSum(n, lo, hi) == CombSum(n, lo, mid) + CombSum(n, mid, hi)
    decreases hi
  {
    if mid < hi {
      CombSumSplits(n, lo, mid, hi - 1);
    }
  }

  lemma {:induction false} CombSumOfFirst(n: nat, lo: nat, hi: nat)
    requires lo < hi
    ensures CombSum(n, lo, hi) == Comb(n, lo) + CombSum(n, lo + 1, hi)
  {
    CombSumSplits(n, lo, lo + 1, hi);
    assert CombSum(n, lo, lo) == 0;
  }

  /** The upper tail mirrors the lower one. */
  lemma {:induction false} TailsAreEqual(n: nat, m: nat)
    requires m <= n
    ensures CombSum(n, n - m, n + 1) == CombSum(n, 0, m + 1)
    decreases m
  {
    CombIsSymmetric(n, m);
    CombSumOfFirst(n, n - m, n + 1);
    if m > 0 {
      TailsAreEqual(n, m - 1);
    }
  }

  lemma {:induction false} PascalSum(n: nat, hi: nat)
    requires n > 0
    ensures CombSum(n, 0, hi + 1) == CombSum(n - 1, 0, hi + 1) + CombSum(n - 1, 0, hi)
  {
    if hi > 0 {
      PascalSum(n, hi - 1);
    }
  }

  lemma {:induction false} RowSumIsPowerOfTwo(n: nat)
    ensures CombSum(n, 0, n + 1) == Pow2(n)
  {
    if n > 0 {
      RowSumIsPowerOfTwo(n - 1);
      PascalSum(n, n);
      CombAboveIsZero(n - 1, n);
    }
  }

  // ---------------------------------------------------------------- the definition of the p-value

  /** Outcomes of `n` fair coin flips whose heads and tails differ by at least `gap`. */
  predicate IsExtreme(n: nat, gap: nat, k: nat) {
    2 * k - n >= gap || n - 2 * k >= gap
  }

  /** Number of flip sequences with such an outcome, over k < hi heads. */
  function ExtremeSum(n: nat, gap: nat, hi: nat): nat {
    if hi == 0 then 0
    else ExtremeSum(n, gap, hi - 1) + if IsExtreme(n, gap, hi - 1) then Comb(n, hi - 1) else 0
  }

  lemma {:induction false} ExtremeSumAll(n: nat, gap: nat, lo: nat, hi: nat)
    requires lo <= hi && forall k :: lo <= k < hi ==> IsExtreme(n, gap, k)
    ensures ExtremeSum(n, gap, hi) == ExtremeSum(n, gap, lo) + CombSum(n, lo, hi)
    decreases hi
  {
    if lo < hi {
      ExtremeSumAll(n, gap, lo, hi - 1);
    }
  }

  lemma {:induction false} ExtremeSumNone(n: nat, gap: nat, lo: nat, hi: nat)
    requires lo <= hi && forall k :: lo <= k < hi ==> !IsExtreme(n, gap, k)
    ensures ExtremeSum(n, gap, hi) == ExtremeSum(n, gap, lo)
    decreases hi
  {
    if lo < hi {
      ExtremeSumNone(n, gap, lo, hi - 1);
    }
  }

  lemma ExtremeIsTwoTails(n: nat, m: nat)
    requires 2 * m < n
    ensures ExtremeSum(n, n - 2 * m, n + 1) == 2 * CombSum(n, 0, m + 1)
  {
    ExtremeSumAll(n, n - 2 * m, 0, m + 1);
    ExtremeSumNone(n, n - 2 * m, m + 1, n - m);
    ExtremeSumAll(n, n - 2 * m, n - m, n + 1);
    TailsAreEqual(n, m);
  }

  lemma TieExceedsOne(m: nat)
    ensures ExtremeSum(2 * m, 0, 2 * m + 1) == Pow2(2 * m) < 2 * CombSum(2 * m, 0, m + 1)
  {
    RowSumIsPowerOfTwo(2 * m);
    ExtremeSumAll(2 * m, 0, 0, 2 * m + 1);
    TailsAreEqual(2 * m, m);
    CombSumSplits(2 * m, 0, m, 2 * m + 1);
    CombIsPositive(2 * m, m);
  }

  // ---------------------------------------------------------------- the code

  /** Number of tasks that the first variant alone answers, `tasks` pairing the two outcomes. */
  function OnlyFirst(tasks: seq<(bool, bool)>): nat {
    if tasks == [] then 0
    else OnlyFirst(tasks[1..]) + if tasks[0].0 && !tasks[0].1 then 1 else 0
  }

  function OnlySecond(tasks: seq<(bool, bool)>): nat {
    if tasks == [] then 0
    else OnlySecond(tasks[1..]) + if !tasks[0].0 && tasks[0].1 then 1 else 0
  }

  function PValue(wins: nat, losses: nat): real {
    if wins + losses == 0 then 1.0
    else
      PowIsPositive(wins + losses);
      var p := DoubledTail(wins, losses) as real / Pow2(wins + losses) as real;
      if p < 1.0 then p else 1.0
  }

  lemma {:induction false} PowIsPositive(n: nat)
    ensures Pow2(n) > 0
  {
    if n > 0 {
      PowIsPositive(n - 1);
    }
  }

  function Gap(wins: nat, losses: nat): nat {
    if losses < wins then wins - losses else losses - wins
  }

  function Fewer(wins: nat, losses: nat): nat {
    if losses < wins then losses else wins
  }

  function DoubledTail(wins: nat, losses: nat): nat {
    2 * CombSum(wins + losses, 0, Fewer(wins, losses) + 1)
  }

  lemma RatioTimesDenominator(a: nat, b: nat)
    requires b > 0
    ensures (a as real / b as real) * b as real == a as real
    ensures a as real / b as real < 1.0 <==> a < b
    ensures a > 0 ==> a as real / b as real > 0.0
  {
  }

  lemma PValueScaled(wins: nat, losses: nat)
    ensures var total, tail := Pow2(wins + losses), DoubledTail(wins, losses);
            && PValue(wins, losses) * total as real == (if tail < total then tail else total) as real
            && (PValue(wins, losses) == 1.0 <==> total <= tail)
            && (tail > 0 ==> 0.0 < PValue(wins, losses) <= 1.0)
  {
    PowIsPositive(wins + losses);
    RatioTimesDenominator(DoubledTail(wins, losses), Pow2(wins + losses));
    if wins + losses == 0 {
      assert CombSum(0, 0, 1) == CombSum(0, 0, 0) + Comb(0, 0) == 1;
    }
  }

  /** The p-value is the share of all outcomes at least as lopsided as the observed one. */
  lemma PValueIsTailShare(wins: nat, losses: nat)
    ensures PValue(wins, losses) * Pow2(wins + losses) as real
         == ExtremeSum(wins + losses, Gap(wins, losses), wins + losses + 1) as real
  {
    PValueScaled(wins, losses);
    if wins == losses {
      TieExceedsOne(wins);
    } else {
      ExtremeIsTwoTails(wins + losses, Fewer(wins, losses));
      DoubledTailMissesMiddle(wins + losses, Fewer(wins, losses));
    }
  }

  /** The two tails of a lead of at least one miss something exactly when the lead is at least two. */
  lemma DoubledTailMissesMiddle(n: nat, m: nat)
    requires 2 * m < n
    ensures 2 * CombSum(n, 0, m + 1) <= Pow2(n)
    ensures 2 * CombSum(n, 0, m + 1) == Pow2(n) <==> n - 2 * m <= 1
  {
    RowSumIsPowerOfTwo(n);
    TailsAreEqual(n, m);
    CombSumSplits(n, 0, m + 1, n + 1);
    CombSumSplits(n, m + 1, n - m, n + 1);
    if m + 1 < n - m {
      CombIsPositive(n, m + 1);
      CombSumOfFirst(n, m + 1, n - m);
    }
  }

  /** It is a probability, equal to one exactly for a tie or a lead of one. */
  lemma PValueIsOneOnlyNearTie(wins: nat, losses: nat)
    ensures 0.0 < PValue(wins, losses) <= 1.0
    ensures PValue(wins, losses) == 1.0 <==> Gap(wins, losses) <= 1
  {
    PValueScaled(wins, losses);
    CombSumOfFirst(wins + losses, 0, Fewer(wins, losses) + 1);
    if wins == losses {
      TieExceedsOne(wins);
    } else {
      DoubledTailMissesMiddle(wins + losses, Fewer(wins, losses));
    }
  }

  lemma {:induction false} CombIsPositive(n: nat, k: nat)
    requires k <= n
    ensures Comb(n, k) > 0
  {
    if k > 0 && k < n {
      CombIsPositive(n - 1, k);
    } else {
      CombOfAll(n);
    }
  }

  lemma {:induction false} OnlySecondIsSwappedFirst(tasks: seq<(bool, bool)>, swapped: seq<(bool, bool)>)
    requires |swapped| == |tasks| && forall i :: 0 <= i < |tasks| ==> swapped[i] == (tasks[i].1, tasks[i].0)
    ensures OnlySecond(tasks) == OnlyFirst(swapped) && OnlyFirst(tasks) == OnlySecond(swapped)
  {
    if tasks != [] {
      OnlySecondIsSwappedFirst(tasks[1..], swapped[1..]);
    }
  }

  /** Swapping the two variants leaves the p-value as it is. */
  lemma PValueIgnoresWhichIsFirst(tasks: seq<(bool, bool)>, swapped: seq<(bool, bool)>)
    requires |swapped| == |tasks| && forall i :: 0 <= i < |tasks| ==> swapped[i] == (tasks[i].1, tasks[i].0)
    ensures PValue(OnlyFirst(tasks), OnlySecond(tasks)) == PValue(OnlyFirst(swapped), OnlySecond(swapped))
  {
    OnlySecondIsSwappedFirst(tasks, swapped);
  }
}
