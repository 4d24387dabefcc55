/** Backup retention of the self-installer, its dry run, and the search for an unused name. */
module Retention {
  import opened Collections
  import opened Decimals

  /** An authority backup: its directory and when the copy was made. */
  datatype Backup = Backup(name: string, made: int)

  // ---------------------------------------------------------------- newest first

  /** Put a backup behind those at least as new. */
  function Place(q: seq<Backup>, x: Backup): seq<Backup> {
    if q == [] || q[|q| - 1].made >= x.made then q + [x]
    else Place(q[..|q| - 1], x) + [q[|q| - 1]]
  }

  /** sorted(..., reverse=True) over a directory listing: ties stay in listing order. */
  function NewestFirst(listing: seq<Backup>): seq<Backup> {
    if listing == [] then [] else Place(NewestFirst(listing[..|listing| - 1]), listing[|listing| - 1])
  }

  predicate Descending(q: seq<Backup>) {
    forall i, j :: 0 <= i < j < |q| ==> q[i].made >= q[j].made
  }

  lemma {:induction false} PlacePermutes(q: seq<Backup>, x: Backup)
    ensures multiset(Place(q, x)) == multiset(q) + multiset{x}
  {
    if q != [] && q[|q| - 1].made < x.made {
      PlacePermutes(q[..|q| - 1], x);
      assert q == q[..|q| - 1] + [q[|q| - 1]];
    }
  }

  lemma {:induction false} PlaceSorts(q: seq<Backup>, x: Backup)
    requires Descending(q)
    ensures Descending(Place(q, x))
  {
    if q != [] && q[|q| - 1].made < x.made {
      var init, y := q[..|q| - 1], q[|q| - 1];
      PlaceSorts(init, x);
      PlacePermutes(init, x);
      var r := Place(init, x);
      forall i | 0 <= i < |r| ensures r[i].made >= y.made {
        assert r[i] in multiset(init) + multiset{x};
      }
    }
  }

  lemma {:induction false} NewestFirstSorts(listing: seq<Backup>)
    ensures Descending(NewestFirst(listing)) && multiset(NewestFirst(listing)) == multiset(listing)
  {
    if listing != [] {
      var init, x := listing[..|listing| - 1], listing[|listing| - 1];
      NewestFirstSorts(init);
      PlaceSorts(NewestFirst(init), x);
      PlacePermutes(NewestFirst(init), x);
      assert listing == init + [x];
    }
  }

  lemma {:induction false} PlaceInFront(q: seq<Backup>, x: Backup)
    requires forall i :: 0 <= i < |q| ==> q[i].made < x.made
    ensures Place(q, x) == [x] + q
  {
    if q != [] {
      PlaceInFront(q[..|q| - 1], x);
    }
  }

  lemma {:induction false} PlaceBehind(first: Backup, q: seq<Backup>, x: Backup)
    requires x.made < first.made
    ensures Place([first] + q, x) == [first] + Place(q, x)
  {
    var s := [first] + q;
    if q == [] {
      assert s == [first];
    } else {
      assert s[|s| - 1] == q[|q| - 1] && s[..|s| - 1] == [first] + q[..|q| - 1];
      PlaceBehind(first, q[..|q| - 1], x);
    }
  }

  /** Wherever the newest backup appears in the listing, it is sorted to the front and the others
      keep their places. */
  lemma {:induction false} NewestComesFirst(a: seq<Backup>, x: Backup, b: seq<Backup>)
    requires forall y :: y in a + b ==> y.made < x.made
    ensures NewestFirst(a + [x] + b) == [x] + NewestFirst(a + b)
    decreases |b|
  {
    if b == [] {
      assert a + [x] + b == a + [x] && a + b == a;
      NewestFirstNext(a, x);
      OlderStaysOlder(a, x);
      PlaceInFront(NewestFirst(a), x);
    } else {
      var init, y := b[..|b| - 1], b[|b| - 1];
      assert y in a + b;
      assert forall z :: z in a + init ==> z in a + b;
      NewestComesFirst(a, x, init);
      assert a + [x] + b == a + [x] + init + [y] && a + b == a + init + [y];
      NewestFirstNext(a + [x] + init, y);
      NewestFirstNext(a + init, y);
      PlaceBehind(x, NewestFirst(a + init), y);
    }
  }

  lemma NewestFirstNext(q: seq<Backup>, x: Backup)
    ensures NewestFirst(q + [x]) == Place(NewestFirst(q), x)
  {
    assert (q + [x])[..|q|] == q;
  }

  lemma OlderStaysOlder(q: seq<Backup>, x: Backup)
    requires forall y :: y in q ==> y.made < x.made
    ensures forall i :: 0 <= i < |NewestFirst(q)| ==> NewestFirst(q)[i].made < x.made
  {
    NewestFirstSorts(q);
    forall i | 0 <= i < |NewestFirst(q)| ensures NewestFirst(q)[i].made < x.made {
      assert NewestFirst(q)[i] in multiset(q);
    }
  }

  /** The backups made at one time, in order. */
  function MadeAt(q: seq<Backup>, t: int): seq<Backup> {
    if q == [] then []
    else MadeAt(q[..|q| - 1], t) + if q[|q| - 1].made == t then [q[|q| - 1]] else []
  }

  lemma MadeAtNext(q: seq<Backup>, x: Backup, t: int)
    ensures MadeAt(q + [x], t) == MadeAt(q, t) + if x.made == t then [x] else []
  {
    assert (q + [x])[..|q|] == q;
  }

  lemma {:induction false} PlaceKeepsTies(q: seq<Backup>, x: Backup, t: int)
    ensures MadeAt(Place(q, x), t) == MadeAt(q, t) + if x.made == t then [x] else []
  {
    MadeAtNext(q, x, t);
    if q != [] && q[|q| - 1].made < x.made {
      var init, y := q[..|q| - 1], q[|q| - 1];
      PlaceKeepsTies(init, x, t);
      MadeAtNext(Place(init, x), y, t);
    }
  }

  /** Backups made at the same time stay in listing order. */
  lemma {:induction false} TiesStay(listing: seq<Backup>, t: int)
    ensures MadeAt(NewestFirst(listing), t) == MadeAt(listing, t)
  {
    if listing != [] {
      TiesStay(listing[..|listing| - 1], t);
      PlaceKeepsTies(NewestFirst(listing[..|listing| - 1]), listing[|listing| - 1], t);
    }
  }

  // ---------------------------------------------------------------- what retention removes

  function Uncited(q: seq<Backup>, cited: set<string>): seq<Backup> {
    if q == [] then []
    else if q[0].name in cited then Uncited(q[1..], cited)
    else [q[0]] + Uncited(q[1..], cited)
  }

  /** At least one is always kept; a dry run leaves room for the backup still to be taken. */
  function Kept(keep: int, adding: bool): nat {
    var k := if adding then keep - 1 else keep;
    if k < 1 then 1 else k
  }

  function Behind<T>(q: seq<T>, k: nat): seq<T> {
    if k <= |q| then q[k..] else []
  }

  function ToPrune(listing: seq<Backup>, cited: set<string>, keep: int, adding: bool): seq<Backup> {
    Behind(Uncited(NewestFirst(listing), cited), Kept(keep, adding))
  }

  /** The dry run taken before the new backup names exactly what the real run removes after it, if
      and only if two or more are kept or there is nothing uncited to remove. */
  lemma DryRunEqualsReal(a: seq<Backup>, x: Backup, b: seq<Backup>, cited: set<string>, keep: int)
    requires (forall y :: y in a + b ==> y.made < x.made) && x.name !in cited
    ensures ToPrune(a + b, cited, keep, true) == ToPrune(a + [x] + b, cited, keep, false)
       <==> keep >= 2 || Uncited(NewestFirst(a + b), cited) == []
  {
    NewestComesFirst(a, x, b);
    UncitedFirst(x, NewestFirst(a + b), cited);
    RoomForOne(x, Uncited(NewestFirst(a + b), cited), keep);
  }

  lemma UncitedFirst(x: Backup, q: seq<Backup>, cited: set<string>)
    requires x.name !in cited
    ensures Uncited([x] + q, cited) == [x] + Uncited(q, cited)
  {
    assert ([x] + q)[1..] == q;
  }

  lemma RoomForOne(x: Backup, u: seq<Backup>, keep: int)
    ensures Behind(u, Kept(keep, true)) == Behind([x] + u, Kept(keep, false)) <==> keep >= 2 || u == []
  {
  }

  /** Keeping one: the dry run promises to spare the backup that the real run then removes. */
  lemma KeepOneDisagrees()
    ensures var a, b := Backup("self-install-a", 1), Backup("self-install-b", 2);
            ToPrune([a], {}, 1, true) == [] && ToPrune([a, b], {}, 1, false) == [a]
  {
    var a, b := Backup("self-install-a", 1), Backup("self-install-b", 2);
    assert [a][..0] == [] && NewestFirst([]) == [];
    assert NewestFirst([a]) == Place([], a) == [a];
    assert [a, b][..1] == [a] && NewestFirst([a, b]) == Place([a], b);
    assert [a][..0] == [] && Place([], b) == [b];
    assert Place([a], b) == [b, a];
    assert [b, a][1..] == [a] && [a][1..] == [];
    assert Uncited([], {}) == [] && Uncited([a], {}) == [a] && Uncited([b, a], {}) == [b, a];
  }

  lemma {:induction false} UncitedMeans(q: seq<Backup>, cited: set<string>)
    ensures forall x :: x in Uncited(q, cited) <==> x in q && x.name !in cited
    ensures Descending(q) ==> Descending(Uncited(q, cited))
    ensures q != [] && q[0].name !in cited ==> Uncited(q, cited) != [] && Uncited(q, cited)[0] == q[0]
  {
    if q != [] {
      UncitedMeans(q[1..], cited);
      assert q == [q[0]] + q[1..];
      var rest := Uncited(q[1..], cited);
      if Descending(q) {
        forall i | 0 <= i < |rest| ensures q[0].made >= rest[i].made {
          assert rest[i] in q[1..];
        }
      }
    }
  }

  lemma PrunedAreUncited(listing: seq<Backup>, cited: set<string>, keep: int, x: Backup)
    requires x in ToPrune(listing, cited, keep, false)
    ensures x in listing && x.name !in cited
  {
    var q := NewestFirst(listing);
    NewestFirstSorts(listing);
    UncitedMeans(q, cited);
    assert x in Uncited(q, cited);
    assert x in multiset(q) && x in multiset(listing);
  }

  /** Retention never removes a cited backup, leaves at most max(keep, 1) uncited ones, that many if
      it removes any, and keeps no uncited backup older than one it removes. */
  lemma RetentionKeeps(listing: seq<Backup>, cited: set<string>, keep: int)
    ensures var pruned, u := ToPrune(listing, cited, keep, false), Uncited(NewestFirst(listing), cited);
            var kept := u[..|u| - |pruned|];
            var bound := if keep < 1 then 1 else keep;
            && u == kept + pruned && |kept| <= bound && (pruned != [] ==> |kept| == bound)
            && (forall i, j :: 0 <= i < |kept| && 0 <= j < |pruned| ==> kept[i].made >= pruned[j].made)
    ensures forall x :: x in ToPrune(listing, cited, keep, false) ==> x in listing && x.name !in cited
  {
    NewestFirstSorts(listing);
    UncitedMeans(NewestFirst(listing), cited);
    SplitsInOrder(Uncited(NewestFirst(listing), cited), Kept(keep, false));
    forall x | x in ToPrune(listing, cited, keep, false) ensures x in listing && x.name !in cited {
      PrunedAreUncited(listing, cited, keep, x);
    }
  }

  lemma SplitsInOrder(u: seq<Backup>, k: nat)
    requires Descending(u)
    ensures var pruned := Behind(u, k);
            var kept := u[..|u| - |pruned|];
            && u == kept + pruned && |kept| <= k && (pruned != [] ==> |kept| == k)
            && forall i, j :: 0 <= i < |kept| && 0 <= j < |pruned| ==> kept[i].made >= pruned[j].made
  {
  }

  /** The newest backup stays, even if others tie with it: the first in the order is never pruned. */
  lemma NewestStays(listing: seq<Backup>, cited: set<string>, keep: int)
    requires listing != [] && Distinct(listing)
    ensures NewestFirst(listing) != [] && NewestFirst(listing)[0] !in ToPrune(listing, cited, keep, false)
    ensures forall x :: x in listing ==> NewestFirst(listing)[0].made >= x.made
  {
    var q := NewestFirst(listing);
    NewestFirstSorts(listing);
    assert |multiset(q)| == |q| && |multiset(listing)| == |listing|;
    UncitedMeans(q, cited);
    var x := q[0];
    if x.name !in cited {
      var u := Uncited(q, cited);
      OnceInListing(listing);
      UncitedOnce(q, cited);
      assert forall i :: 1 <= i < |u| ==> u[i] != x;
    }
    forall y | y in listing ensures x.made >= y.made {
      assert y in multiset(q);
      var i :| 0 <= i < |q| && q[i] == y;
    }
  }

  lemma {:induction false} PlaceOnce(q: seq<Backup>, x: Backup)
    requires Distinct(q) && x !in q
    ensures Distinct(Place(q, x))
  {
    if q != [] && q[|q| - 1].made < x.made {
      PlaceOnce(q[..|q| - 1], x);
      PlacePermutes(q[..|q| - 1], x);
      var r := Place(q[..|q| - 1], x);
      forall i | 0 <= i < |r| ensures r[i] != q[|q| - 1] {
        assert r[i] in multiset(q[..|q| - 1]) + multiset{x};
      }
    }
  }

  lemma {:induction false} OnceInListing(listing: seq<Backup>)
    requires Distinct(listing)
    ensures Distinct(NewestFirst(listing))
  {
    if listing != [] {
      var init, x := listing[..|listing| - 1], listing[|listing| - 1];
      OnceInListing(init);
      NewestFirstSorts(init);
      assert x !in init;
      assert x !in multiset(init);
      PlaceOnce(NewestFirst(init), x);
    }
  }

  lemma {:induction false} UncitedOnce(q: seq<Backup>, cited: set<string>)
    requires Distinct(q)
    ensures Distinct(Uncited(q, cited))
  {
    if q != [] {
      UncitedOnce(q[1..], cited);
      UncitedMeans(q[1..], cited);
    }
  }

  // ---------------------------------------------------------------- pruning

  function Without(q: seq<Backup>, gone: seq<Backup>): seq<Backup> {
    if q == [] then []
    else if q[0] in gone then Without(q[1..], gone)
    else [q[0]] + Without(q[1..], gone)
  }

  lemma {:induction false} WithoutMeans(q: seq<Backup>, gone: seq<Backup>)
    ensures forall x :: x in Without(q, gone) <==> x in q && x !in gone
  {
    if q != [] {
      WithoutMeans(q[1..], gone);
      assert q == [q[0]] + q[1..];
    }
  }

  lemma {:induction false} WithoutNext(q: seq<Backup>, gone: seq<Backup>, x: Backup)
    ensures Without(Without(q, gone), [x]) == Without(q, gone + [x])
  {
    if q != [] {
      WithoutNext(q[1..], gone, x);
      if q[0] !in gone {
        var r := Without(q[1..], gone);
        assert ([q[0]] + r)[1..] == r;
      }
    }
  }

  lemma Survivors(q: seq<Backup>, cited: set<string>, keep: int)
    ensures var left := Without(q, ToPrune(q, cited, keep, false));
            && (forall x :: x in q && x.name in cited ==> x in left)
            && (q != [] && Distinct(q) ==> NewestFirst(q) != [] && NewestFirst(q)[0] in left)
  {
    var pruned := ToPrune(q, cited, keep, false);
    WithoutMeans(q, pruned);
    forall x | x in q && x.name in cited ensures x !in pruned {
      if x in pruned {
        PrunedAreUncited(q, cited, keep, x);
      }
    }
    if q != [] && Distinct(q) {
      NewestStays(q, cited, keep);
      NewestFirstSorts(q);
      assert NewestFirst(q)[0] in multiset(q);
    }
  }

  class BackupDirectory {
    var backups: seq<Backup>

    /** Remove what retention says, one directory after the other.  A removal that raises ends it: the
        directories before that one are gone, that one and the ones after it are still there, and nothing
        is returned. */
    method PruneSelfInstallBackups(cited: set<string>, keep: int, raisesAt: nat -> bool)
      returns (ok: bool, removed: seq<string>, ghost done: nat)
      modifies this
      ensures var pruned := ToPrune(old(backups), cited, keep, false);
              && done <= |pruned| && (forall i :: 0 <= i < done ==> !raisesAt(i))
              && (if ok then done == |pruned| else done < |pruned| && raisesAt(done))
              && backups == Without(old(backups), pruned[..done])
              && (ok ==> |removed| == done && forall i :: 0 <= i < done ==> removed[i] == pruned[i].name)
      ensures forall x :: x in old(backups) && x.name in cited ==> x in backups
      ensures old(backups) != [] && Distinct(old(backups))
              ==> NewestFirst(old(backups)) != [] && NewestFirst(old(backups))[0] in backups
    {
      var pruned := ToPrune(backups, cited, keep, false);
      ghost var start := backups;
      ok, removed, done := RemoveEach(pruned, raisesAt);
      PartSurvives(start, cited, keep, done);
    }

    method RemoveEach(pruned: seq<Backup>, raisesAt: nat -> bool)
      returns (ok: bool, removed: seq<string>, ghost done: nat)
      modifies this
      ensures done <= |pruned| && (forall i :: 0 <= i < done ==> !raisesAt(i))
      ensures if ok then done == |pruned| else done < |pruned| && raisesAt(done)
      ensures backups == Without(old(backups), pruned[..done])
      ensures ok ==> |removed| == done && forall i :: 0 <= i < done ==> removed[i] == pruned[i].name
    {
      ghost var start := backups;
      removed := [];
      var k := 0;
      WithoutNothing(backups);
      while k < |pruned|
        invariant 0 <= k <= |pruned| && |removed| == k
        invariant backups == Without(start, pruned[..k])
        invariant forall i :: 0 <= i < k ==> removed[i] == pruned[i].name && !raisesAt(i)
      {
        if raisesAt(k) {
          return false, [], k;
        }
        assert pruned[..k + 1] == pruned[..k] + [pruned[k]];
        WithoutNext(start, pruned[..k], pruned[k]);
        backups := Without(backups, [pruned[k]]);
        removed := removed + [pruned[k].name];
        k := k + 1;
      }
      ok, done := true, k;
    }
  }

  /** What survives all removals survives the first k. */
  lemma PartSurvives(q: seq<Backup>, cited: set<string>, keep: int, k: nat)
    requires k <= |ToPrune(q, cited, keep, false)|
    ensures var left := Without(q, ToPrune(q, cited, keep, false)[..k]);
            && (forall x :: x in q && x.name in cited ==> x in left)
            && (q != [] && Distinct(q) ==> NewestFirst(q) != [] && NewestFirst(q)[0] in left)
  {
    var pruned := ToPrune(q, cited, keep, false);
    Survivors(q, cited, keep);
    WithoutMeans(q, pruned);
    WithoutMeans(q, pruned[..k]);
  }

  lemma {:induction false} WithoutNothing(q: seq<Backup>)
    ensures Without(q, []) == q
  {
    if q != [] {
      WithoutNothing(q[1..]);
      assert q == [q[0]] + q[1..];
    }
  }

  // ---------------------------------------------------------------- unused names

  /** The n-th name tried: path, path-2, path-3, ... */
  function Candidate(path: string, n: nat): string {
    if n <= 1 then path else path + "-" + Decimal(n)
  }

  lemma CandidatesDiffer(path: string, m: nat, n: nat)
    requires 1 <= m < n
    ensures Candidate(path, m) != Candidate(path, n)
  {
    if m > 1 && Candidate(path, m) == Candidate(path, n) {
      var k := |path| + 1;
      assert Candidate(path, m)[k..] == Decimal(m) && Candidate(path, n)[k..] == Decimal(n);
      DecimalReads(m);
      DecimalReads(n);
    }
  }

  /** Whatever finite set of names is taken, the search ends with the first free name. */
  method Unused(path: string, taken: set<string>) returns (name: string, n: nat)
    ensures name == Candidate(path, n) && name !in taken && n >= 1
    ensures forall j :: 1 <= j < n ==> Candidate(path, j) in taken
    ensures n <= |taken| + 1
  {
    name, n := path, 1;
    ghost var tried: set<string> := {};
    while name in taken
      invariant n >= 1 && name == Candidate(path, n)
      invariant forall j :: 1 <= j < n ==> Candidate(path, j) in taken
      invariant tried <= taken && |tried| == n - 1 && forall s :: s in tried
                                                                  ==> exists j :: 1 <= j < n && s == Candidate(path, j)
      invariant n <= |taken| + 1
      decreases |taken| + 1 - n
    {
      if name in tried {
        var j :| 1 <= j < n && name == Candidate(path, j);
        CandidatesDiffer(path, j, n);
        assert false;
      }
      CardinalityOfSubset(tried + {name}, taken);
      tried := tried + {name};
      n := n + 1;
      name := path + "-" + Decimal(n);
    }
    CardinalityOfSubset(tried, taken);
  }
}
