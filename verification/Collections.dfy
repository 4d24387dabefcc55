/** Small facts about options, sequences, sets and maps. */
module Collections {

  datatype Option<T> = None | Some(value: T)

  predicate Distinct<T(==)>(q: seq<T>) {
    forall i, j :: 0 <= i < j < |q| ==> q[i] != q[j]
  }

  function Names<T>(q: seq<T>): set<T> { set x | x in q }

  lemma {:induction false} DistinctCount<T>(q: seq<T>)
    requires Distinct(q)
    ensures |Names(q)| == |q|
  {
    if q != [] {
      var init, x := q[..|q| - 1], q[|q| - 1];
      DistinctCount(init);
      assert q == init + [x];
      assert Names(q) == Names(init) + {x};
    }
  }

  lemma {:induction false} CardinalityOfSubset<T>(a: set<T>, b: set<T>)
    requires a <= b
    ensures |a| <= |b|
    decreases a
  {
    if a != {} {
      var x :| x in a;
      CardinalityOfSubset(a - {x}, b - {x});
    }
  }

  /** Every entry of `a` is in `b`, unchanged. */
  ghost predicate SubMap<K, V>(a: map<K, V>, b: map<K, V>) {
    forall k :: k in a ==> k in b && b[k] == a[k]
  }
}
