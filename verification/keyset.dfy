/**
 Keyset pagination in general: a table is a set of keys under a strict total
 order, a query sorts the keys beyond a boundary and takes the first few, and a
 walk follows the last key of each page over a table that may change in between.
 */
module Keyset {
  import opened Wrappers

  ghost predicate OrderLaws<K>(lt: (K, K) -> bool, a: K, b: K, c: K) {
    && !lt(a, a)
    && (lt(a, b) && lt(b, c) ==> lt(a, c))
    && (a != b ==> lt(a, b) || lt(b, a))
  }

  /** A strict total order.  Proofs name the keys they need the laws for. */
  ghost predicate StrictTotal<K(!new)>(lt: (K, K) -> bool) {
    forall a, b, c :: OrderLaws(lt, a, b, c)
  }

  ghost predicate Ascending<K>(ks: seq<K>, lt: (K, K) -> bool) {
    forall i, j :: 0 <= i < j < |ks| ==> lt(ks[i], ks[j])
  }

  /** The keys of s, each once, in ascending order. */
  ghost predicate IsSorted<K(!new)>(ks: seq<K>, s: set<K>, lt: (K, K) -> bool) {
    && Ascending(ks, lt)
    && |ks| == |s|
    && forall k :: k in ks <==> k in s
  }

  ghost predicate IsLeast<K>(s: set<K>, lt: (K, K) -> bool, m: K) {
    m in s && forall x <- s :: x == m || lt(m, x)
  }

  lemma {:induction false} LeastExists<K(!new)>(s: set<K>, lt: (K, K) -> bool) returns (m: K)
    requires s != {} && StrictTotal(lt)
    ensures IsLeast(s, lt, m)
  {
    m :| m in s;
    var rest := s - {m};
    assert forall y <- s :: y == m || y in rest;
    if rest != {} {
      var x := m;
      var r := LeastExists(rest, lt);
      m := if lt(x, r) then x else r;
      forall y <- s ensures y == m || lt(m, y) {
        assert OrderLaws(lt, x, r, y);
      }
    }
  }

  lemma {:induction false} SortExists<K(!new)>(s: set<K>, lt: (K, K) -> bool) returns (ks: seq<K>)
    requires StrictTotal(lt)
    ensures IsSorted(ks, s, lt)
  {
    if s == {} {
      ks := [];
    } else {
      var m := LeastExists(s, lt);
      var rest := SortExists(s - {m}, lt);
      ks := [m] + rest;
      assert forall i :: 0 <= i < |rest| ==> rest[i] in rest;
    }
  }

  lemma Sortable<K(!new)>(s: set<K>, lt: (K, K) -> bool)
    requires StrictTotal(lt)
    ensures exists ks :: IsSorted(ks, s, lt)
  {
    var ks := SortExists(s, lt);
  }

  /** ORDER BY: the keys of s in ascending order. */
  ghost function Sort<K(!new)>(s: set<K>, lt: (K, K) -> bool): (ks: seq<K>)
    requires StrictTotal(lt)
    ensures IsSorted(ks, s, lt)
  {
    Sortable(s, lt);
    var ks :| IsSorted(ks, s, lt);
    ks
  }

  lemma SomeElement<K(!new)>(ks: seq<K>, ls: seq<K>)
    requires ks != [] && forall k :: k in ks ==> k in ls
    ensures ls != []
  {
    assert ks[0] in ls;
  }

  lemma {:induction false} SortedIsUnique<K(!new)>(ks: seq<K>, ls: seq<K>, lt: (K, K) -> bool)
    requires StrictTotal(lt) && Ascending(ks, lt) && Ascending(ls, lt)
    requires forall k :: k in ks <==> k in ls
    ensures ks == ls
  {
    if ks == [] {
      if ls != [] {
        SomeElement(ls, ks);
      }
    } else {
      SomeElement(ks, ls);
      assert ks[0] in ls && ls[0] in ks;
      var a, b := ks[0], ls[0];
      assert OrderLaws(lt, a, b, a);
      assert a == b;
      forall k ensures k in ks[1..] <==> k in ls[1..] {
        assert OrderLaws(lt, a, a, a);
        assert k in ks <==> k == a || k in ks[1..];
        assert k in ls <==> k == a || k in ls[1..];
      }
      SortedIsUnique(ks[1..], ls[1..], lt);
    }
  }

  lemma SortIsUnique<K(!new)>(ks: seq<K>, s: set<K>, lt: (K, K) -> bool)
    requires StrictTotal(lt) && Ascending(ks, lt)
    requires forall k :: k in ks <==> k in s
    ensures ks == Sort(s, lt)
  {
    SortedIsUnique(ks, Sort(s, lt), lt);
  }

  /** The keys strictly after the boundary; all of them without one. */
  ghost function Beyond<K>(s: set<K>, after: Option<K>, lt: (K, K) -> bool): set<K> {
    set k <- s | after.None? || lt(after.value, k)
  }

  function Take<T>(n: nat, xs: seq<T>): seq<T> {
    if |xs| <= n then xs else xs[..n]
  }

  /** ORDER BY ... LIMIT limit, of the keys beyond the boundary. */
  ghost function Query<K(!new)>(s: set<K>, after: Option<K>, limit: nat, lt: (K, K) -> bool): seq<K>
    requires StrictTotal(lt)
  {
    Take(limit, Sort(Beyond(s, after, lt), lt))
  }

  /** Splitting the order at any of its keys: what is beyond it is what follows it. */
  lemma SortBeyond<K(!new)>(s: set<K>, after: Option<K>, lt: (K, K) -> bool, n: nat)
    requires StrictTotal(lt)
    requires 0 < n <= |Sort(Beyond(s, after, lt), lt)|
    ensures var all := Sort(Beyond(s, after, lt), lt);
            Sort(Beyond(s, Some(all[n - 1]), lt), lt) == all[n..]
  {
    var all := Sort(Beyond(s, after, lt), lt);
    var last := all[n - 1];
    assert last in all;
    forall k ensures k in all[n..] <==> k in Beyond(s, Some(last), lt) {
      if k in Beyond(s, Some(last), lt) {
        assert after.Some? ==> OrderLaws(lt, after.value, last, k);
        assert k in Beyond(s, after, lt);
        var i :| 0 <= i < |all| && all[i] == k;
        assert OrderLaws(lt, k, last, k);
        assert all[n..][i - n] == k;
      }
      if k in all[n..] {
        var i :| 0 <= i < |all[n..]| && all[n..][i] == k;
        assert all[n + i] == k && k in all;
      }
    }
    SortIsUnique(all[n..], Beyond(s, Some(last), lt), lt);
  }

  /** Filtering a table filters its order. */
  lemma SortFiltered<K(!new)>(s: set<K>, kept: set<K>, p: K -> bool, lt: (K, K) -> bool)
    requires StrictTotal(lt) && forall k :: k in kept <==> k in s && p(k)
    ensures Sort(kept, lt) == Filter(p, Sort(s, lt))
  {
    FilterKeeps(p, Sort(s, lt), lt);
    SortIsUnique(Filter(p, Sort(s, lt)), kept, lt);
  }

  function Filter<T>(p: T -> bool, xs: seq<T>): seq<T> {
    if xs == [] then []
    else (if p(xs[0]) then [xs[0]] else []) + Filter(p, xs[1..])
  }

  lemma {:induction false} FilterKeeps<T(!new)>(p: T -> bool, xs: seq<T>, lt: (T, T) -> bool)
    requires Ascending(xs, lt)
    ensures Ascending(Filter(p, xs), lt)
    ensures forall x :: x in Filter(p, xs) <==> x in xs && p(x)
  {
    if xs != [] {
      FilterKeeps(p, xs[1..], lt);
      assert xs == [xs[0]] + xs[1..];
      forall x | x in Filter(p, xs[1..]) ensures lt(xs[0], x) {
        var i :| 0 <= i < |xs[1..]| && xs[1..][i] == x;
        assert xs[i + 1] == x;
      }
    }
  }

  function Reverse<T>(xs: seq<T>): (ys: seq<T>)
    ensures |ys| == |xs| && forall i :: 0 <= i < |xs| ==> ys[i] == xs[|xs| - 1 - i]
  {
    if xs == [] then [] else Reverse(xs[1..]) + [xs[0]]
  }

  /** Sorting by the opposite order reverses. */
  lemma SortReversed<K(!new)>(s: set<K>, lt: (K, K) -> bool, gt: (K, K) -> bool)
    requires StrictTotal(lt) && StrictTotal(gt)
    requires forall a, b :: gt(a, b) <==> lt(b, a)
    ensures Reverse(Sort(s, lt)) == Sort(s, gt)
  {
    var all := Sort(s, lt);
    forall k ensures k in Reverse(all) <==> k in s {
      if k in s {
        var i :| 0 <= i < |all| && all[i] == k;
        assert Reverse(all)[|all| - 1 - i] == k;
      }
    }
    SortIsUnique(Reverse(all), s, gt);
  }

  // ----- walks -----

  function Flatten<T>(xss: seq<seq<T>>): seq<T> {
    if xss == [] then [] else xss[0] + Flatten(xss[1..])
  }

  lemma {:induction false} FlattenAscends<K>(xss: seq<seq<K>>, lt: (K, K) -> bool)
    requires Ascending(Flatten(xss), lt)
    ensures forall i :: 0 <= i < |xss| ==> Ascending(xss[i], lt)
    ensures forall i, j, x, y :: 0 <= i < j < |xss| && x in xss[i] && y in xss[j] ==> lt(x, y)
  {
    if xss != [] {
      var head, tail := xss[0], Flatten(xss[1..]);
      AscendingSplit(head, tail, lt);
      FlattenAscends(xss[1..], lt);
      forall j, y | 0 < j < |xss| && y in xss[j] ensures y in tail {
        assert xss[1..][j - 1] == xss[j];
        FlattenHas(xss[1..], j - 1, y);
      }
    }
  }

  /** Anything later in the pages is later in the order. */
  lemma LaterIsBeyond<K>(xss: seq<seq<K>>, lt: (K, K) -> bool, i: nat, j: nat, a: nat, b: nat)
    requires i <= j < |xss| && a < |xss[i]| && b < |xss[j]| && (i < j || a < b)
    requires Ascending(xss[i], lt)
    requires i < j ==> forall x, y :: x in xss[i] && y in xss[j] ==> lt(x, y)
    ensures lt(xss[i][a], xss[j][b])
  {
  }

  lemma AscendingSplit<K>(xs: seq<K>, ys: seq<K>, lt: (K, K) -> bool)
    requires Ascending(xs + ys, lt)
    ensures Ascending(xs, lt) && Ascending(ys, lt)
    ensures forall x <- xs, y <- ys :: lt(x, y)
  {
    var all := xs + ys;
    assert forall i :: 0 <= i < |xs| ==> all[i] == xs[i];
    assert forall i :: 0 <= i < |ys| ==> all[|xs| + i] == ys[i];
  }

  lemma {:induction false} FlattenHas<T>(xss: seq<seq<T>>, i: nat, x: T)
    requires i < |xss| && x in xss[i]
    ensures x in Flatten(xss)
  {
    if i > 0 {
      FlattenHas(xss[1..], i - 1, x);
    }
  }

  lemma {:induction false} FlattenFrom<T>(xss: seq<seq<T>>, x: T) returns (i: nat)
    requires x in Flatten(xss)
    ensures i < |xss| && x in xss[i]
  {
    if x in xss[0] {
      i := 0;
    } else {
      i := FlattenFrom(xss[1..], x);
      i := i + 1;
    }
  }

  ghost predicate HasMore<K(!new)>(s: set<K>, after: Option<K>, n: nat, lt: (K, K) -> bool)
    requires StrictTotal(lt)
  {
    |Sort(Beyond(s, after, lt), lt)| > n
  }

  /** Fetching one row more than the page tells whether there is a next page. */
  lemma FetchOneMore<K(!new)>(s: set<K>, after: Option<K>, n: nat, lt: (K, K) -> bool)
    requires StrictTotal(lt)
    ensures HasMore(s, after, n, lt) <==> |Query(s, after, n + 1, lt)| > n
    ensures Query(s, after, n, lt) == Take(n, Query(s, after, n + 1, lt))
  {
    var all := Sort(Beyond(s, after, lt), lt);
    if |all| > n + 1 {
      assert all[..n + 1][..n] == all[..n];
    }
  }

  /** The pages of a walk that reads table i of the sequence in its i-th request. */
  ghost function Walk<K(!new)>(tables: seq<set<K>>, after: Option<K>, n: nat, lt: (K, K) -> bool): (pages: seq<seq<K>>)
    requires StrictTotal(lt)
    ensures |pages| <= |tables|
  {
    if tables == [] then []
    else
      var page := Query(tables[0], after, n, lt);
      if HasMore(tables[0], after, n, lt) && page != []
      then [page] + Walk(tables[1..], Some(page[|page| - 1]), n, lt)
      else [page]
  }

  /** The walk got to a page without a next one. */
  ghost predicate Finished<K(!new)>(tables: seq<set<K>>, after: Option<K>, n: nat, lt: (K, K) -> bool)
    requires StrictTotal(lt)
  {
    tables != []
    && var page := Query(tables[0], after, n, lt);
       HasMore(tables[0], after, n, lt) && page != [] ==> Finished(tables[1..], Some(page[|page| - 1]), n, lt)
  }

  lemma PageFacts<K(!new)>(s: set<K>, after: Option<K>, n: nat, lt: (K, K) -> bool)
    requires StrictTotal(lt)
    ensures Ascending(Query(s, after, n, lt), lt)
    ensures forall k <- Query(s, after, n, lt) :: k in Beyond(s, after, lt)
  {
    var all := Sort(Beyond(s, after, lt), lt);
    forall k <- Take(n, all) ensures k in Beyond(s, after, lt) {
      assert k in all;
    }
  }

  /** A key the page has not reached lies beyond the page's last key. */
  lemma NotReached<K(!new)>(s: set<K>, after: Option<K>, n: nat, lt: (K, K) -> bool, k: K)
    requires StrictTotal(lt) && n >= 1
    requires k in Beyond(s, after, lt) && k !in Query(s, after, n, lt)
    ensures HasMore(s, after, n, lt) && |Query(s, after, n, lt)| == n
    ensures lt(Query(s, after, n, lt)[n - 1], k)
  {
    var all := Sort(Beyond(s, after, lt), lt);
    PageFacts(s, after, n, lt);
    var i :| 0 <= i < |all| && all[i] == k;
    assert forall j :: 0 <= j < n && j < |all| ==> all[j] in Take(n, all);
  }

  /**
   Over a table that changes arbitrarily between requests, a walk returns the
   keys in strictly ascending order, so none of them twice, and each was in the
   table when its page was read.
   */
  lemma {:induction false} WalkAscends<K(!new)>(tables: seq<set<K>>, after: Option<K>, n: nat, lt: (K, K) -> bool)
    requires StrictTotal(lt)
    ensures Ascending(Flatten(Walk(tables, after, n, lt)), lt)
    ensures after.Some? ==> forall k <- Flatten(Walk(tables, after, n, lt)) :: lt(after.value, k)
    ensures forall i :: 0 <= i < |Walk(tables, after, n, lt)| ==>
                          forall k <- Walk(tables, after, n, lt)[i] :: k in tables[i]
  {
    if tables != [] {
      var page := Query(tables[0], after, n, lt);
      var walk := Walk(tables, after, n, lt);
      PageFacts(tables[0], after, n, lt);
      if HasMore(tables[0], after, n, lt) && page != [] {
        var last := page[|page| - 1];
        var rest := Walk(tables[1..], Some(last), n, lt);
        WalkAscends(tables[1..], Some(last), n, lt);
        JoinFirst(page, rest);
        assert last in page;
        forall x, y | x in page && y in Flatten(rest) ensures lt(x, y) {
          assert OrderLaws(lt, x, last, y);
        }
        forall y | y in Flatten(rest) && after.Some? ensures lt(after.value, y) {
          assert OrderLaws(lt, after.value, last, y);
        }
        AscendingJoin(page, Flatten(rest), lt);
      } else {
        JoinFirst(page, []);
      }
    }
  }

  lemma AscendingJoin<K>(xs: seq<K>, ys: seq<K>, lt: (K, K) -> bool)
    requires Ascending(xs, lt) && Ascending(ys, lt)
    requires forall x <- xs, y <- ys :: lt(x, y)
    ensures Ascending(xs + ys, lt)
  {
  }

  /**
   A finished walk returns every key that was in the table at every request,
   whatever was inserted or deleted in between, the boundary's key included.
   */
  lemma {:induction false} WalkIsComplete<K(!new)>(tables: seq<set<K>>, after: Option<K>, n: nat, lt: (K, K) -> bool, k: K)
    requires StrictTotal(lt) && n >= 1 && Finished(tables, after, n, lt)
    requires forall s <- tables[..|Walk(tables, after, n, lt)|] :: k in s
    requires after.Some? ==> lt(after.value, k)
    ensures k in Flatten(Walk(tables, after, n, lt))
  {
    var page := Query(tables[0], after, n, lt);
    var walk := Walk(tables, after, n, lt);
    assert tables[0] in tables[..|walk|];
    if k !in page {
      NotReached(tables[0], after, n, lt, k);
      var last := Some(page[n - 1]);
      var rest := Walk(tables[1..], last, n, lt);
      WalkAscends(tables[1..], last, n, lt);
      assert forall s :: s in tables[1..][..|rest|] ==> s in tables[..|walk|];
      WalkIsComplete(tables[1..], last, n, lt, k);
      assert walk[1..] == rest;
    }
  }

  /** How many requests a walk over total rows makes with pages of n. */
  function PageCount(total: nat, n: nat): nat
    requires n >= 1
  {
    if total <= n then 1 else 1 + PageCount(total - n, n)
  }

  /** Cut into pages of n, every page with a next one ends in a key a cursor can name. */
  predicate LeadsOn<K>(ks: seq<K>, n: nat, nameable: K -> bool)
    requires n >= 1
    decreases |ks|
  {
    |ks| > n ==> nameable(ks[n - 1]) && LeadsOn(ks[n..], n, nameable)
  }

  /** One request of a walk. */
  lemma WalkUnfolds<K(!new)>(tables: seq<set<K>>, after: Option<K>, n: nat, lt: (K, K) -> bool)
    requires StrictTotal(lt) && n >= 1 && tables != []
    ensures var all := Sort(Beyond(tables[0], after, lt), lt);
            if |all| > n then
              && Walk(tables, after, n, lt) == [all[..n]] + Walk(tables[1..], Some(all[n - 1]), n, lt)
              && (Finished(tables, after, n, lt) <==> Finished(tables[1..], Some(all[n - 1]), n, lt))
            else
              Walk(tables, after, n, lt) == [all] && Finished(tables, after, n, lt)
  {
  }

  lemma SplitAt<T>(xs: seq<T>, n: nat)
    requires n <= |xs|
    ensures xs == xs[..n] + xs[n..]
  {
  }

  lemma JoinFirst<T>(xs: seq<T>, rest: seq<seq<T>>)
    ensures Flatten([xs] + rest) == xs + Flatten(rest)
  {
    assert ([xs] + rest)[1..] == rest;
  }

  /**
   Over an unchanged table the walk finishes after exactly as many requests as
   the rows beyond the boundary need, and its pages joined are those rows in order.
   */
  lemma {:induction false} WalkOfUnchanged<K(!new)>(s: set<K>, tables: seq<set<K>>, after: Option<K>, n: nat, lt: (K, K) -> bool)
    requires StrictTotal(lt) && n >= 1
    requires forall i :: 0 <= i < |tables| ==> tables[i] == s
    requires |tables| >= PageCount(|Beyond(s, after, lt)|, n)
    ensures Finished(tables, after, n, lt)
    ensures |Walk(tables, after, n, lt)| == PageCount(|Beyond(s, after, lt)|, n)
    ensures Flatten(Walk(tables, after, n, lt)) == Sort(Beyond(s, after, lt), lt)
    decreases |tables|
  {
    var all := Sort(Beyond(s, after, lt), lt);
    if |all| > n {
      var last := Some(all[n - 1]);
      RestOfUnchanged(s, after, n, lt);
      WalkOfUnchanged(s, tables[1..], last, n, lt);
      WalkUnfolds(tables, after, n, lt);
      JoinFirst(all[..n], Walk(tables[1..], last, n, lt));
    } else {
      WalkUnfolds(tables, after, n, lt);
      JoinFirst(all, []);
    }
  }

  lemma RestOfUnchanged<K(!new)>(s: set<K>, after: Option<K>, n: nat, lt: (K, K) -> bool)
    requires StrictTotal(lt) && n >= 1 && |Beyond(s, after, lt)| > n
    ensures var all := Sort(Beyond(s, after, lt), lt);
            var last := Some(all[n - 1]);
            && |Beyond(s, last, lt)| == |all| - n
            && PageCount(|Beyond(s, after, lt)|, n) == 1 + PageCount(|Beyond(s, last, lt)|, n)
            && Sort(Beyond(s, last, lt), lt) == all[n..]
            && all == all[..n] + Sort(Beyond(s, last, lt), lt)
  {
    var all := Sort(Beyond(s, after, lt), lt);
    var last := Some(all[n - 1]);
    SplitAt(all, n);
    SortBeyond(s, after, lt, n);
    assert |Sort(Beyond(s, last, lt), lt)| == |Beyond(s, last, lt)|;
  }
}
