/** Counting who holds what: `at` maps places (variables) to the things they hold. */
module Holding {

  ghost function Holders<P, V>(at: map<P, V>, v: V): set<P> {
    set p | p in at && at[p] == v
  }

  /** A pointer moves from one variable to another. */
  function Move<P(==), V>(at: map<P, V>, from: P, to: P): map<P, V>
    requires from in at
  {
    (at - {from})[to := at[from]]
  }

  lemma HoldersAdd<P, V>(at: map<P, V>, p: P, v: V, w: V)
    requires p !in at
    ensures |Holders(at[p := v], w)| == |Holders(at, w)| + (if v == w then 1 else 0)
  {
    if v == w {
      assert Holders(at[p := v], w) == Holders(at, w) + {p};
    } else {
      assert Holders(at[p := v], w) == Holders(at, w);
    }
  }

  lemma HoldersRemove<P, V>(at: map<P, V>, p: P, w: V)
    requires p in at
    ensures |Holders(at, w)| == |Holders(at - {p}, w)| + (if at[p] == w then 1 else 0)
  {
    if at[p] == w {
      assert Holders(at, w) == Holders(at - {p}, w) + {p};
    } else {
      assert Holders(at, w) == Holders(at - {p}, w);
    }
  }

  lemma HoldersMove<P, V>(at: map<P, V>, from: P, to: P, w: V)
    requires from in at && to !in at
    ensures |Holders(Move(at, from, to), w)| == |Holders(at, w)|
  {
    HoldersRemove(at, from, w);
    HoldersAdd(at - {from}, to, at[from], w);
  }

  lemma HoldersSome<P, V>(at: map<P, V>, p: P)
    requires p in at
    ensures |Holders(at, at[p])| > 0
  {
    assert p in Holders(at, at[p]);
  }

  lemma HoldersTwo<P, V>(at: map<P, V>, p: P, q: P)
    requires p in at && q in at && p != q && at[p] == at[q]
    ensures |Holders(at, at[p])| > 1
  {
    var h := Holders(at, at[p]);
    assert {p, q} <= h;
    assert |h - {p, q}| + 2 == |h|;
  }
}
