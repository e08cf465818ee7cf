/** The k-combinations of a sequence, as `Itertools::combinations` yields them:
    every increasing choice of k indices, in lexicographic order of the indices. */
module Combinatorics {
  import opened Collections

  /** `[x] + c` for every `c` of `cs`, in order. */
  function Prepend(x: nat, cs: seq<seq<nat>>): (r: seq<seq<nat>>)
    ensures |r| == |cs|
    ensures forall i :: 0 <= i < |cs| ==> r[i] == [x] + cs[i]
  {
    seq(|cs|, i requires 0 <= i < |cs| => [x] + cs[i])
  }

  /** The increasing k-element sequences over the indices `lo .. n-1`, in lexicographic order. */
  function Combos(lo: nat, n: nat, k: nat): seq<seq<nat>>
    decreases n - lo, k
  {
    if k == 0 then [[]]
    else if lo >= n then []
    else Prepend(lo, Combos(lo + 1, n, k - 1)) + Combos(lo + 1, n, k)
  }

  /** The index combinations of `combinations(k)` over a sequence of length `n`. */
  function Combinations(n: nat, k: nat): seq<seq<nat>>
  {
    Combos(0, n, k)
  }

  function Binomial(n: nat, k: nat): nat
  {
    if k == 0 then 1
    else if n == 0 then 0
    else Binomial(n - 1, k - 1) + Binomial(n - 1, k)
  }

  /** `c` is an increasing sequence of `k` indices from `lo .. n-1`. */
  ghost predicate IsCombo(c: seq<nat>, lo: nat, n: nat, k: nat)
  {
    && |c| == k
    && (forall i, j :: 0 <= i < j < |c| ==> c[i] < c[j])
    && (forall i :: 0 <= i < |c| ==> lo <= c[i] < n)
  }

  /** Strict lexicographic order on index sequences. */
  predicate LexLess(a: seq<nat>, b: seq<nat>)
  {
    |a| > 0 && |b| > 0 && (a[0] < b[0] || (a[0] == b[0] && LexLess(a[1..], b[1..])))
  }

  ghost predicate LexSorted(cs: seq<seq<nat>>)
  {
    forall i, j :: 0 <= i < j < |cs| ==> LexLess(cs[i], cs[j])
  }

  // ---------------------------------------------------------------------------
  // Count

  /** There are C(n, k) combinations; none when k > n and exactly one (the empty one) when k = 0. */
  lemma {:induction false} CombinationsCount(n: nat, k: nat)
    ensures |Combinations(n, k)| == Binomial(n, k)
    ensures k > n ==> |Combinations(n, k)| == 0
    ensures k == 0 ==> Combinations(n, k) == [[]]
  {
    CombosCount(0, n, k);
    if k > n {
      BinomialAboveN(n, k);
    }
  }

  lemma {:induction false} CombosCount(lo: nat, n: nat, k: nat)
    requires lo <= n
    ensures |Combos(lo, n, k)| == Binomial(n - lo, k)
    decreases n - lo, k
  {
    if k > 0 && lo < n {
      CombosCount(lo + 1, n, k - 1);
      CombosCount(lo + 1, n, k);
    }
  }

  lemma {:induction false} BinomialAboveN(n: nat, k: nat)
    requires k > n
    ensures Binomial(n, k) == 0
  {
    if n > 0 {
      BinomialAboveN(n - 1, k - 1);
      BinomialAboveN(n - 1, k);
    }
  }

  // ---------------------------------------------------------------------------
  // Shape and completeness

  /** Every combination is an increasing sequence of k indices below n. */
  lemma CombinationsShape(n: nat, k: nat)
    ensures forall c :: c in Combinations(n, k) ==> IsCombo(c, 0, n, k)
  {
    CombosShape(0, n, k);
  }

  lemma {:induction false} CombosShape(lo: nat, n: nat, k: nat)
    ensures forall c :: c in Combos(lo, n, k) ==> IsCombo(c, lo, n, k)
    decreases n - lo, k
  {
    if k > 0 && lo < n {
      var a := Combos(lo + 1, n, k - 1);
      var b := Combos(lo + 1, n, k);
      CombosShape(lo + 1, n, k - 1);
      CombosShape(lo + 1, n, k);
      forall c | c in Prepend(lo, a) + b ensures IsCombo(c, lo, n, k) {
        if c in b {
          assert IsCombo(c, lo + 1, n, k);
        } else {
          var i :| 0 <= i < |a| && Prepend(lo, a)[i] == c;
          assert IsCombo(a[i], lo + 1, n, k - 1);
          assert c == [lo] + a[i];
        }
      }
    }
  }

  /** Every increasing sequence of k indices below n is one of the combinations. */
  lemma CombinationsComplete(n: nat, k: nat, c: seq<nat>)
    requires IsCombo(c, 0, n, k)
    ensures c in Combinations(n, k)
  {
    CombosComplete(0, n, k, c);
  }

  lemma {:induction false} CombosComplete(lo: nat, n: nat, k: nat, c: seq<nat>)
    requires IsCombo(c, lo, n, k)
    ensures c in Combos(lo, n, k)
    decreases n - lo, k
  {
    if k > 0 {
      var a := Combos(lo + 1, n, k - 1);
      if c[0] == lo {
        assert IsCombo(c[1..], lo + 1, n, k - 1) by {
          forall i | 0 <= i < |c[1..]| ensures lo + 1 <= c[1..][i] {
            assert c[0] < c[i + 1];
          }
        }
        CombosComplete(lo + 1, n, k - 1, c[1..]);
        var i :| 0 <= i < |a| && a[i] == c[1..];
        assert Prepend(lo, a)[i] == c;
      } else {
        assert IsCombo(c, lo + 1, n, k) by {
          forall i | 0 <= i < |c| ensures lo + 1 <= c[i] {
            if i > 0 {
              assert c[0] < c[i];
            }
          }
        }
        CombosComplete(lo + 1, n, k, c);
      }
    }
  }

  // ---------------------------------------------------------------------------
  // Order

  /** The combinations come in strictly increasing lexicographic order, so each occurs once. */
  lemma CombinationsOrder(n: nat, k: nat)
    ensures LexSorted(Combinations(n, k))
    ensures Distinct(Combinations(n, k))
  {
    CombosSorted(0, n, k);
    SortedDistinct(Combinations(n, k));
  }

  lemma {:induction false} CombosSorted(lo: nat, n: nat, k: nat)
    ensures LexSorted(Combos(lo, n, k))
    decreases n - lo, k
  {
    if k > 0 && lo < n {
      var a := Combos(lo + 1, n, k - 1);
      var b := Combos(lo + 1, n, k);
      CombosSorted(lo + 1, n, k - 1);
      CombosSorted(lo + 1, n, k);
      CombosShape(lo + 1, n, k);
      var cs := Prepend(lo, a) + b;
      forall i, j | 0 <= i < j < |cs| ensures LexLess(cs[i], cs[j]) {
        if j < |a| {
          assert LexLess(a[i], a[j]);
          assert cs[i][1..] == a[i] && cs[j][1..] == a[j];
        } else if i >= |a| {
          assert LexLess(b[i - |a|], b[j - |a|]);
        } else {
          assert IsCombo(b[j - |a|], lo + 1, n, k);
          assert cs[i][0] == lo < cs[j][0];
        }
      }
    }
  }

  lemma {:induction false} LexIrreflexive(a: seq<nat>)
    ensures !LexLess(a, a)
    decreases |a|
  {
    if |a| > 0 {
      LexIrreflexive(a[1..]);
    }
  }

  lemma SortedDistinct(cs: seq<seq<nat>>)
    requires LexSorted(cs)
    ensures Distinct(cs)
  {
    forall i, j | 0 <= i < j < |cs| ensures cs[i] != cs[j] {
      LexIrreflexive(cs[i]);
    }
  }
}
