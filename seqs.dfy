/** Sequence helpers shared by the model: first/last match, de-duplication, sorting. */
module Seqs {
  import opened Wrappers

  /** The index of the first `true`: a loop that stops at its first hit. */
  function FirstTrue(bs: seq<bool>): (r: Option<nat>)
    ensures r.Some? ==> r.value < |bs| && bs[r.value]
    ensures r.Some? ==> forall j :: 0 <= j < r.value ==> !bs[j]
    ensures r.None? ==> forall j :: 0 <= j < |bs| ==> !bs[j]
  {
    if |bs| == 0 then None
    else if bs[0] then Some(0)
    else match FirstTrue(bs[1..])
      case None => None
      case Some(k) => Some(k + 1)
  }

  /** One more element: the first hit stays, or the new element is the first hit. */
  lemma FirstTrueStep(bs: seq<bool>, i: nat)
    requires i < |bs|
    ensures FirstTrue(bs[..i + 1]) ==
      if FirstTrue(bs[..i]).Some? then FirstTrue(bs[..i]) else if bs[i] then Some(i) else None
  {
    var p := bs[..i + 1];
    assert p[..i] == bs[..i];
    var r := FirstTrue(bs[..i]);
    if r.Some? {
      assert p[r.value] && forall j :: 0 <= j < r.value ==> !p[j];
    } else {
      assert forall j :: 0 <= j < i ==> !p[j];
    }
  }

  /** A hit within a prefix is the first hit of the whole sequence. */
  lemma FirstTruePrefix(bs: seq<bool>, i: nat)
    requires i <= |bs| && FirstTrue(bs[..i]).Some?
    ensures FirstTrue(bs) == FirstTrue(bs[..i])
  {
    var v := FirstTrue(bs[..i]).value;
    assert bs[..i][v] == bs[v];
    assert forall j :: 0 <= j < v ==> bs[..i][j] == bs[j];
    FirstTrueIs(bs, Some(v));
  }

  /** `k` is the first `true` of `bs`. */
  predicate FirstAt(bs: seq<bool>, k: nat)
  {
    k < |bs| && bs[k] && forall j :: 0 <= j < k ==> !bs[j]
  }

  /** FirstTrue is pinned down by its contract. */
  lemma FirstTrueIs(bs: seq<bool>, found: Option<nat>)
    requires found.Some? ==> FirstAt(bs, found.value)
    requires found.None? ==> forall j :: 0 <= j < |bs| ==> !bs[j]
    ensures FirstTrue(bs) == found
  {
  }

  /** The index of the last `true`: a loop whose later hits overwrite earlier ones. */
  function LastTrue(bs: seq<bool>): (r: Option<nat>)
    ensures r.Some? ==> r.value < |bs| && bs[r.value]
    ensures r.Some? ==> forall j :: r.value < j < |bs| ==> !bs[j]
    ensures r.None? ==> forall j :: 0 <= j < |bs| ==> !bs[j]
  {
    if |bs| == 0 then None
    else if bs[|bs| - 1] then Some(|bs| - 1)
    else LastTrue(bs[..|bs| - 1])
  }

  predicate NoDup<T(==)>(s: seq<T>)
  {
    forall i, j :: 0 <= i < j < |s| ==> s[i] != s[j]
  }

  lemma {:induction false} NoDupOnce<T>(a: seq<T>, x: T)
    requires NoDup(a)
    ensures multiset(a)[x] <= 1
  {
    if |a| > 0 {
      var init := a[..|a| - 1];
      assert a == init + [a[|a| - 1]];
      assert NoDup(init) by {
        forall i, j | 0 <= i < j < |init|
          ensures init[i] != init[j]
        {
          assert init[i] == a[i] && init[j] == a[j];
        }
      }
      NoDupOnce(init, x);
      if x == a[|a| - 1] {
        assert x !in init by {
          forall i | 0 <= i < |init|
            ensures init[i] != x
          {
            assert init[i] == a[i];
          }
        }
      }
    }
  }

  lemma PermutationNoDup<T>(a: seq<T>, b: seq<T>)
    requires NoDup(a) && multiset(a) == multiset(b)
    ensures NoDup(b)
  {
    forall i, j | 0 <= i < j < |b|
      ensures b[i] != b[j]
    {
      if b[i] == b[j] {
        var x := b[i];
        assert multiset(b)[x] >= 2 by {
          assert b == b[..i] + [b[i]] + b[i + 1..j] + [b[j]] + b[j + 1..];
        }
        NoDupOnce(a, x);
      }
    }
  }

  /** The first occurrence of `x` in `s`. */
  function IndexOf<T(==)>(s: seq<T>, x: T): (r: nat)
    requires x in s
    ensures r < |s| && s[r] == x
    ensures forall j :: 0 <= j < r ==> s[j] != x
  {
    if s[0] == x then 0 else 1 + IndexOf(s[1..], x)
  }

  /** pandas `Series.unique()`: every value once, in order of first appearance. */
  function Distinct<T(==,!new)>(s: seq<T>): (r: seq<T>)
    ensures NoDup(r)
    ensures forall x :: x in r <==> x in s
  {
    if |s| == 0 then []
    else
      var d := Distinct(s[..|s| - 1]);
      if s[|s| - 1] in d then d else d + [s[|s| - 1]]
  }

  /** Distinct lists values in the order in which they first appear. */
  lemma {:induction false} DistinctFirstAppearance<T(!new)>(s: seq<T>)
    ensures forall i, j :: 0 <= i < j < |Distinct(s)| ==>
      IndexOf(s, Distinct(s)[i]) < IndexOf(s, Distinct(s)[j])
  {
    if |s| > 0 {
      var p := s[..|s| - 1];
      var d := Distinct(p);
      DistinctFirstAppearance(p);
      forall x | x in p
        ensures IndexOf(s, x) == IndexOf(p, x)
      {
        IndexOfPrefix(s, p, x);
      }
      assert forall x :: x in d ==> x in s;
      if s[|s| - 1] !in d {
        assert s[|s| - 1] !in p;
        assert IndexOf(s, s[|s| - 1]) == |s| - 1;
        forall i | 0 <= i < |d|
          ensures IndexOf(s, d[i]) < |s| - 1
        {
          assert d[i] in p;
        }
      }
    }
  }

  lemma {:induction false} IndexOfPrefix<T>(s: seq<T>, p: seq<T>, x: T)
    requires p <= s && x in p
    ensures IndexOf(s, x) == IndexOf(p, x)
  {
    if s[0] != x {
      assert p[0] == s[0];
      IndexOfPrefix(s[1..], p[1..], x);
    }
  }

  function Flatten<T>(ss: seq<seq<T>>): seq<T>
  {
    if |ss| == 0 then [] else Flatten(ss[..|ss| - 1]) + ss[|ss| - 1]
  }

  /** A comparison Python's `sorted` and pandas `sort_values` can order by. */
  ghost predicate TotalPreorder<T(!new)>(le: (T, T) -> bool)
  {
    && (forall a, b :: le(a, b) || le(b, a))
    && (forall a, b, c :: le(a, b) && le(b, c) ==> le(a, c))
  }

  predicate SortedBy<T>(s: seq<T>, le: (T, T) -> bool)
  {
    forall i, j :: 0 <= i < j < |s| ==> le(s[i], s[j])
  }

  function Insert<T>(x: T, s: seq<T>, le: (T, T) -> bool): (r: seq<T>)
    ensures multiset(r) == multiset(s) + multiset{x}
  {
    if |s| == 0 then [x]
    else if le(x, s[0]) then [x] + s
    else
      assert s == [s[0]] + s[1..];
      [s[0]] + Insert(x, s[1..], le)
  }

  lemma {:induction false} InsertSorted<T(!new)>(x: T, s: seq<T>, le: (T, T) -> bool)
    requires TotalPreorder(le) && SortedBy(s, le)
    ensures SortedBy(Insert(x, s, le), le)
  {
    if |s| > 0 && !le(x, s[0]) {
      var rest := Insert(x, s[1..], le);
      InsertSorted(x, s[1..], le);
      forall j | 0 <= j < |rest|
        ensures le(s[0], rest[j])
      {
        assert rest[j] in multiset(rest);
        if rest[j] != x {
          assert rest[j] in multiset(s[1..]);
          var k :| 0 <= k < |s[1..]| && s[1..][k] == rest[j];
          assert s[k + 1] == rest[j];
        }
      }
      var r := [s[0]] + rest;
      forall i, j | 0 <= i < j < |r|
        ensures le(r[i], r[j])
      {
        if i > 0 {
          assert r[i] == rest[i - 1] && r[j] == rest[j - 1];
        } else {
          assert r[j] == rest[j - 1];
        }
      }
    }
    if |s| > 0 && le(x, s[0]) {
      var r := [x] + s;
      forall i, j | 0 <= i < j < |r|
        ensures le(r[i], r[j])
      {
        if i == 0 {
          assert r[j] == s[j - 1];
          assert le(s[0], s[j - 1]) || j - 1 == 0;
        } else {
          assert r[i] == s[i - 1] && r[j] == s[j - 1];
        }
      }
    }
  }

  /** Insertion sort: one of the orders an unstable sort may produce. */
  function Sort<T(!new)>(s: seq<T>, le: (T, T) -> bool): (r: seq<T>)
    requires TotalPreorder(le)
    ensures multiset(r) == multiset(s)
    ensures SortedBy(r, le)
  {
    if |s| == 0 then []
    else
      assert s == s[..|s| - 1] + [s[|s| - 1]];
      var sorted := Sort(s[..|s| - 1], le);
      InsertSorted(s[|s| - 1], sorted, le);
      Insert(s[|s| - 1], sorted, le)
  }

  /** Keeps the elements `f` maps to a value, in order, replaced by that value. */
  function FilterMap<A, B(!new)>(s: seq<A>, f: A -> Option<B>): (r: seq<B>)
    ensures |r| <= |s|
    ensures forall y :: y in r <==> exists k :: 0 <= k < |s| && f(s[k]) == Some(y)
  {
    if |s| == 0 then []
    else
      var init := s[..|s| - 1];
      assert forall k :: 0 <= k < |init| ==> init[k] == s[k];
      FilterMap(init, f) + (match f(s[|s| - 1]) case Some(y) => [y] case None => [])
  }

  /** Filtering a concatenation filters each part: the kept elements stay in order. */
  lemma {:induction false} FilterMapAppend<A, B(!new)>(a: seq<A>, b: seq<A>, f: A -> Option<B>)
    ensures FilterMap(a + b, f) == FilterMap(a, f) + FilterMap(b, f)
  {
    if |b| > 0 {
      var init := b[..|b| - 1];
      assert (a + b)[..|a + b| - 1] == a + init;
      FilterMapAppend(a, init, f);
    } else {
      assert a + b == a;
    }
  }
}
