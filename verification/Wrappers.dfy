/** What several modules share: the optional value, a product that the solver need not
    multiply, and the size of subsets. */
module Wrappers {
  datatype Option<+T> = None | Some(value: T)

  // `n` times `gap`.
  function Times(n: nat, gap: nat): nat {
    if n == 0 then 0 else Times(n - 1, gap) + gap
  }

  lemma {:induction false} TimesIsProduct(n: nat, gap: nat)
    ensures Times(n, gap) == n * gap
  {
    if n > 0 {
      TimesIsProduct(n - 1, gap);
      assert n * gap == (n - 1) * gap + gap;
    }
  }

  lemma {:induction false} TimesMonotone(m: nat, n: nat, gap: nat)
    requires m <= n
    ensures Times(m, gap) <= Times(n, gap)
  {
    if m < n {
      TimesMonotone(m, n - 1, gap);
    }
  }

  lemma {:induction false} TimesAdds(m: nat, n: nat, gap: nat)
    ensures Times(m + n, gap) == Times(m, gap) + Times(n, gap)
  {
    if n > 0 {
      TimesAdds(m, n - 1, gap);
    }
  }

  lemma {:induction false} TimesAddsThree(m: nat, n: nat, o: nat, gap: nat)
    ensures Times(m + n + o, gap) == Times(m, gap) + Times(n, gap) + Times(o, gap)
  {
    TimesAdds(m + n, o, gap);
    TimesAdds(m, n, gap);
  }

  lemma {:induction false} TimesFaster(n: nat, slow: nat, fast: nat)
    requires slow <= fast
    ensures Times(n, slow) <= Times(n, fast)
  {
    if n > 0 {
      TimesFaster(n - 1, slow, fast);
    }
  }

  lemma {:induction false} TimesSwap(n: nat, gap: nat)
    ensures Times(n, gap) == Times(gap, n)
  {
    TimesIsProduct(n, gap);
    TimesIsProduct(gap, n);
  }

  lemma {:induction false} TimesCancel(m: nat, n: nat, gap: nat)
    requires gap > 0 && Times(m, gap) <= Times(n, gap)
    ensures m <= n
  {
    if m > n {
      TimesMonotone(n + 1, m, gap);
    }
  }

  lemma SubsetSize<T>(a: set<T>, b: set<T>)
    requires a <= b
    ensures |a| <= |b|
  {
    if a != {} {
      var x :| x in a;
      SubsetSize(a - {x}, b - {x});
    }
  }
}
