/**
 Sequence helpers shared by the client and the server models: order-preserving
 search and filtering (JavaScript's `find` and `filter`), duplicate freedom, and a
 stable insertion sort that orders by a key, largest key first.
 */
module Seqs {
  import opened Wrappers

  /** The index of the first element satisfying `p` (`Array.prototype.find`), or None when none does. */
  function FirstIndex<T>(s: seq<T>, p: T -> bool): (r: Option<nat>)
    ensures r.Some? ==> r.value < |s| && p(s[r.value])
    ensures r.Some? ==> forall j :: 0 <= j < r.value ==> !p(s[j])
    ensures r.None? <==> forall j :: 0 <= j < |s| ==> !p(s[j])
  {
    if |s| == 0 then None
    else if p(s[0]) then Some(0)
    else
      match FirstIndex(s[1..], p)
      case None => None
      case Some(k) => Some(k + 1)
  }

  /** The elements of `s` that satisfy `p`, in their original order. */
  function Filter<T>(s: seq<T>, p: T -> bool): (r: seq<T>)
    ensures |r| <= |s|
    ensures forall i :: 0 <= i < |r| ==> p(r[i])
  {
    if |s| == 0 then []
    else if p(s[0]) then [s[0]] + Filter(s[1..], p)
    else Filter(s[1..], p)
  }

  /**
   The filter's result holds exactly the elements of `s` that satisfy `p`:
   each of its elements comes from `s`, and each element of `s` that
   satisfies `p` survives.
   */
  lemma {:induction false} FilterMembers<T>(s: seq<T>, p: T -> bool)
    ensures forall i :: 0 <= i < |Filter(s, p)| ==> Filter(s, p)[i] in s
    ensures forall i :: 0 <= i < |s| && p(s[i]) ==> s[i] in Filter(s, p)
  {
    if |s| > 0 {
      FilterMembers(s[1..], p);
      forall i | 1 <= i < |s| ensures s[i] == s[1..][i - 1] {
      }
    }
  }

  /** When every element satisfies `p`, filtering changes nothing. */
  lemma {:induction false} FilterAll<T>(s: seq<T>, p: T -> bool)
    requires forall i :: 0 <= i < |s| ==> p(s[i])
    ensures Filter(s, p) == s
  {
    if |s| > 0 {
      assert forall i :: 0 <= i < |s[1..]| ==> s[1..][i] == s[i + 1];
      FilterAll(s[1..], p);
    }
  }

  /** Filtering distributes over concatenation, so it keeps relative order. */
  lemma {:induction false} FilterAppend<T>(a: seq<T>, b: seq<T>, p: T -> bool)
    ensures Filter(a + b, p) == Filter(a, p) + Filter(b, p)
  {
    if |a| == 0 {
      assert a + b == b;
    } else {
      assert (a + b)[0] == a[0];
      assert (a + b)[1..] == a[1..] + b;
      FilterAppend(a[1..], b, p);
    }
  }

  /** Removing the only element that fails `p` is the same as cutting it out. */
  lemma FilterDropsOne<T>(s: seq<T>, k: nat, p: T -> bool)
    requires k < |s|
    requires !p(s[k])
    requires forall i :: 0 <= i < |s| && i != k ==> p(s[i])
    ensures Filter(s, p) == s[..k] + s[k + 1..]
  {
    KeptAround(s, k, p);
    SplitAt(s, k);
    FilterSplice(s[..k], s[k], s[k + 1..], p);
  }

  lemma SplitAt<T>(s: seq<T>, k: nat)
    requires k < |s|
    ensures s == s[..k] + [s[k]] + s[k + 1..]
  {
  }

  /** The elements before and after the only one failing `p` all pass the filter. */
  lemma KeptAround<T>(s: seq<T>, k: nat, p: T -> bool)
    requires k < |s|
    requires forall i :: 0 <= i < |s| && i != k ==> p(s[i])
    ensures Filter(s[..k], p) == s[..k] && Filter(s[k + 1..], p) == s[k + 1..]
  {
    var a, b := s[..k], s[k + 1..];
    forall i | 0 <= i < |a| ensures p(a[i]) {
      assert a[i] == s[i];
    }
    FilterAll(a, p);
    forall i | 0 <= i < |b| ensures p(b[i]) {
      assert b[i] == s[k + 1 + i];
    }
    FilterAll(b, p);
  }

  lemma FilterSplice<T>(a: seq<T>, x: T, b: seq<T>, p: T -> bool)
    requires Filter(a, p) == a && !p(x) && Filter(b, p) == b
    ensures Filter(a + [x] + b, p) == a + b
  {
    assert Filter([x], p) == [] by {
      assert [x][1..] == [];
    }
    FilterAppend(a + [x], b, p);
    FilterAppend(a, [x], p);
  }

  predicate NoDup<T(==)>(s: seq<T>) {
    forall i, j :: 0 <= i < j < |s| ==> s[i] != s[j]
  }

  /** A duplicate-free sequence has as many elements as the set of its elements. */
  lemma {:induction false} NoDupCardinality<T>(s: seq<T>)
    requires NoDup(s)
    ensures |set x | x in s| == |s|
  {
    if |s| > 0 {
      var last := s[|s| - 1];
      var init := s[..|s| - 1];
      assert NoDup(init);
      NoDupCardinality(init);
      assert last !in init by {
        forall i | 0 <= i < |init| ensures init[i] != last {
          assert s[i] == init[i];
        }
      }
      assert (set x | x in s) == (set x | x in init) + {last} by {
        assert s == init + [last];
      }
    }
  }

  /** A duplicate-free sequence holds each value at most once. */
  lemma {:induction false} NoDupCount<T>(s: seq<T>, x: T)
    requires NoDup(s)
    ensures multiset(s)[x] <= 1
  {
    if |s| > 0 {
      var init := s[..|s| - 1];
      assert forall i :: 0 <= i < |init| ==> init[i] == s[i];
      NoDupCount(init, x);
      assert s == init + [s[|s| - 1]];
      assert forall i :: 0 <= i < |init| ==> init[i] != s[|s| - 1];
      assert s[|s| - 1] !in init;
    }
  }

  /** Taking part of a duplicate-free sequence, in any order, keeps it duplicate free. */
  lemma SubMultisetNoDup<T>(t: seq<T>, s: seq<T>)
    requires NoDup(s) && multiset(t) <= multiset(s)
    ensures NoDup(t)
  {
    forall i, j | 0 <= i < j < |t| ensures t[i] != t[j] {
      var x := t[i];
      assert t == t[..j] + t[j..];
      assert t[..j][i] == x;
      assert multiset(t[..j])[x] >= 1;
      NoDupCount(s, x);
      assert multiset(t[j..])[x] == 0;
      assert t[j..][0] == t[j];
    }
  }

  /** Every adjacent pair is ordered by `key`, largest first. */
  predicate SortedDescBy<T>(s: seq<T>, key: T -> int) {
    forall i, j :: 0 <= i < j < |s| ==> key(s[i]) >= key(s[j])
  }

  /**
   Places `x` after every element whose key is at least `key(x)`; equal keys
   keep their arrival order, so the sort built from it is stable.
   */
  function InsertBy<T>(x: T, s: seq<T>, key: T -> int): (r: seq<T>)
    requires SortedDescBy(s, key)
    ensures |r| == |s| + 1
    ensures multiset(r) == multiset(s) + multiset{x}
    ensures SortedDescBy(r, key)
    ensures r[0] == x || (|s| > 0 && r[0] == s[0])
  {
    if |s| == 0 then [x]
    else if key(x) > key(s[0]) then [x] + s
    else
      var rest := InsertBy(x, s[1..], key);
      assert s == [s[0]] + s[1..];
      [s[0]] + rest
  }

  /**
   A stable sort, largest key first: the model of JavaScript's (stable)
   `Array.prototype.sort` with a comparator that subtracts keys.
   */
  function SortDescBy<T>(s: seq<T>, key: T -> int): (r: seq<T>)
    ensures |r| == |s|
    ensures multiset(r) == multiset(s)
    ensures SortedDescBy(r, key)
  {
    if |s| == 0 then []
    else
      var init := s[..|s| - 1];
      assert s == init + [s[|s| - 1]];
      InsertBy(s[|s| - 1], SortDescBy(init, key), key)
  }

  /**
   The first `n` elements of a sorted permutation of `s` come from `s`, stay
   sorted, and beat every element of `s` left out.
   */
  lemma SortedPrefix<T>(s: seq<T>, sorted: seq<T>, n: nat, key: T -> int)
    requires multiset(sorted) == multiset(s) && SortedDescBy(sorted, key)
    requires n <= |sorted|
    ensures SortedDescBy(sorted[..n], key)
    ensures multiset(sorted[..n]) <= multiset(s)
    ensures forall i :: 0 <= i < n ==> sorted[..n][i] in s
    ensures n > 0 ==> forall i :: 0 <= i < |s| && s[i] !in sorted[..n] ==> key(s[i]) <= key(sorted[..n][n - 1])
  {
    var t := sorted[..n];
    assert sorted == t + sorted[n..];
    forall i | 0 <= i < n ensures t[i] in s {
      assert t[i] == sorted[i];
      assert sorted[i] in multiset(s);
    }
    if n > 0 {
      forall i | 0 <= i < |s| && s[i] !in t ensures key(s[i]) <= key(t[n - 1]) {
        assert s[i] in multiset(sorted);
        var m :| 0 <= m < |sorted| && sorted[m] == s[i];
        assert forall j :: 0 <= j < n ==> t[j] == sorted[j] && t[j] != s[i];
        assert m >= n;
        assert t[n - 1] == sorted[n - 1];
      }
    }
  }
}
