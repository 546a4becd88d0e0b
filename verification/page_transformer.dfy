/**
 * The page-offset arithmetic of PageTransformerAdapter.kt: how many pages a
 * child's adapter position lies from the page being scrolled. In circular
 * mode the two ways round are compared and the shorter one wins.
 */
module PageTransformer {
  import opened Wrappers
  import opened Kotlin

  /** `k` and `x` denote the same page modulo `n`. */
  predicate Congruent(k: int, x: int, n: int)
    requires n > 0
  {
    k % n == x % n
  }

  /** `steps`: pages from `reference` forward to `position`, going round. */
  function Steps(reference: int, position: int, n: int): (r: int)
    requires n > 0
    ensures Congruent(r, position - reference, n)
    ensures 0 <= reference < n && 0 <= position < n ==> 0 <= r < n
  {
    var x := position - reference + n;
    KRemCongruent(x, n);
    ModUnique(x, n, (position - reference) / n + 1, (position - reference) % n);
    KRem(x, n)
  }

  /** `stepsOpposite`: pages from `reference` backward to `position`, as a non-positive count. */
  function StepsOpposite(reference: int, position: int, n: int): (r: int)
    requires n > 0
    ensures Congruent(r, position - reference, n)
    ensures 0 <= reference < n && 0 <= position < n ==> -n < r <= 0
  {
    var x := reference - position + n;
    var k := KRem(x, n);
    KRemCongruent(x, n);
    ModUnique(x, n, (reference - position) / n + 1, (reference - position) % n);
    NegationCongruent(k, reference - position, n);
    k * -1
  }

  lemma NegationCongruent(a: int, b: int, n: int)
    requires n > 0 && a % n == b % n
    ensures (-a) % n == (-b) % n
  {
    var qa, qb := a / n, b / n;
    var r := a % n;
    if r == 0 {
      ModUnique(-a, n, -qa, 0);
      ModUnique(-b, n, -qb, 0);
    } else {
      ModUnique(-a, n, -qa - 1, n - r);
      ModUnique(-b, n, -qb - 1, n - r);
    }
  }

  /**
   * `calculatePositionDiff`: the signed page distance from `reference` to
   * `position`. Circular mode with no items divides by zero.
   */
  function CalculatePositionDiff(reference: int, position: int, maxItemCount: nat, circular: bool): (r: Result<int, string>)
    ensures r.Err? <==> circular && maxItemCount == 0
    ensures !circular ==> r == Ok(position - reference)
    ensures circular && maxItemCount > 0 ==> r.Ok? && Congruent(r.value, position - reference, maxItemCount)
  {
    if circular then
      if maxItemCount == 0 then Err("ArithmeticException: / by zero")
      else
        var steps := Steps(reference, position, maxItemCount);
        var stepsOpposite := StepsOpposite(reference, position, maxItemCount);
        Ok(if Abs(steps) < Abs(stepsOpposite) then steps else stepsOpposite)
    else
      Ok(position - reference)
  }

  /** Going forward `s` pages and going backward `n - s` pages reach the same page. */
  lemma StepsComplement(reference: int, position: int, n: int)
    requires n > 0 && 0 <= reference < n && 0 <= position < n
    ensures var s := Steps(reference, position, n);
            StepsOpposite(reference, position, n) == if s == 0 then 0 else s - n
  {
    var s := Steps(reference, position, n);
    var o := StepsOpposite(reference, position, n);
    assert s % n == (position - reference) % n;
    assert o % n == (position - reference) % n;
    ModUnique(s, n, 0, s);
    if o == 0 {
      ModUnique(0, n, 0, 0);
    } else {
      ModUnique(o, n, -1, o + n);
    }
  }

  /** Between pages of the adapter the difference is `s` or `s - n`, whichever is shorter, `s` being the forward steps. */
  lemma DiffValue(reference: int, position: int, n: int)
    requires n > 0 && 0 <= reference < n && 0 <= position < n
    ensures var s := Steps(reference, position, n);
            CalculatePositionDiff(reference, position, n, true).value == if s == 0 then 0 else if s < n - s then s else s - n
  {
    StepsComplement(reference, position, n);
  }

  /** Among the numbers `s + j * n`, `s` or `s - n` is shortest, ties going to the negative one. */
  lemma ShortestRepresentative(s: int, n: int, k: int)
    requires n > 0 && 0 <= s < n && k % n == s
    ensures var r := if s == 0 then 0 else if s < n - s then s else s - n;
            Abs(r) < Abs(k) || (Abs(r) == Abs(k) && r <= k)
  {
    var j := k / n;
    assert k == j * n + s;
    if j >= 0 {
      assert j * n >= 0;
    } else if j < -1 {
      assert j * n <= -2 * n;
    }
  }

  /**
   * Between pages of the adapter, the circular difference is the shortest
   * signed distance round the carousel: no number denoting the same page is
   * smaller in magnitude, and of two equally short ones it is the negative.
   */
  lemma CircularDiffIsShortest(reference: int, position: int, n: int)
    requires n > 0 && 0 <= reference < n && 0 <= position < n
    ensures var r := CalculatePositionDiff(reference, position, n, true).value;
            Abs(r) <= n / 2 &&
            forall k :: Congruent(k, position - reference, n) ==> Abs(r) < Abs(k) || (Abs(r) == Abs(k) && r <= k)
  {
    var s := Steps(reference, position, n);
    DiffValue(reference, position, n);
    ModUnique(s, n, 0, s);
    forall k | Congruent(k, position - reference, n)
      ensures var r := CalculatePositionDiff(reference, position, n, true).value;
              Abs(r) < Abs(k) || (Abs(r) == Abs(k) && r <= k)
    {
      ShortestRepresentative(s, n, k);
    }
  }

  /** Neighbouring pages are one step apart, also across the seam between the last page and the first. */
  lemma NeighboursAreOneApart(reference: int, n: int)
    requires n >= 3 && 0 <= reference < n
    ensures CalculatePositionDiff(reference, (reference + 1) % n, n, true) == Ok(1)
    ensures CalculatePositionDiff((reference + 1) % n, reference, n, true) == Ok(-1)
  {
    var next := (reference + 1) % n;
    if reference + 1 < n {
      ModUnique(reference + 1, n, 0, reference + 1);
    } else {
      ModUnique(reference + 1, n, 1, 0);
    }
    assert 0 <= next < n;
    ModUnique(1, n, 0, 1);
    ModUnique(-1, n, -1, n - 1);
    ModUnique(1 - n, n, -1, 1);
    ModUnique(n - 1, n, 0, n - 1);
    var s := Steps(reference, next, n);
    assert s % n == 1;
    ModUnique(s, n, 0, s);
    StepsComplement(reference, next, n);
    var t := Steps(next, reference, n);
    assert t % n == n - 1;
    ModUnique(t, n, 0, t);
    StepsComplement(next, reference, n);
  }
}
