/** Weighted sums over multisets. */
module MultisetSums {

  ghost function Sum<T(!new)>(m: multiset<T>, w: T -> nat): nat
    decreases |m|
  {
    if m == multiset{} then 0
    else
      var t :| t in m;
      w(t) + Sum(m - multiset{t}, w)
  }

  /** The sum does not depend on the order in which elements are picked. */
  lemma {:induction false} SumPick<T(!new)>(m: multiset<T>, w: T -> nat, t: T)
    requires t in m
    ensures Sum(m, w) == w(t) + Sum(m - multiset{t}, w)
    decreases |m|
  {
    var u :| u in m && Sum(m, w) == w(u) + Sum(m - multiset{u}, w);
    if u != t {
      SumPick(m - multiset{u}, w, t);
      SumPick(m - multiset{t}, w, u);
      assert m - multiset{u} - multiset{t} == m - multiset{t} - multiset{u};
    }
  }

  lemma SumAdd<T(!new)>(m: multiset<T>, w: T -> nat, t: T)
    ensures Sum(m + multiset{t}, w) == Sum(m, w) + w(t)
  {
    SumPick(m + multiset{t}, w, t);
    assert m + multiset{t} - multiset{t} == m;
  }
}
