/** Edit batches: stable sort by key, then one entry per key, the last edit winning. */
module Batch {
  import opened Wrappers

  ghost predicate TotalOrder<K(!new)>(lt: (K, K) -> bool) {
    && (forall a :: !lt(a, a))
    && (forall a, b, c :: lt(a, b) && lt(b, c) ==> lt(a, c))
    && (forall a, b :: a == b || lt(a, b) || lt(b, a))
  }

  ghost predicate Sorted<K, V>(lt: (K, K) -> bool, s: seq<(K, V)>) {
    forall i, j :: 0 <= i < j < |s| ==> !lt(s[j].0, s[i].0)
  }

  /** Ascending with one entry per key. */
  ghost predicate Ascending<K, V>(lt: (K, K) -> bool, s: seq<(K, V)>) {
    forall i, j :: 0 <= i < j < |s| ==> lt(s[i].0, s[j].0)
  }

  /** The value of the last entry for `k`. */
  function Last<K(==), V>(s: seq<(K, V)>, k: K): Option<V> {
    if s == [] then None
    else if s[|s| - 1].0 == k then Some(s[|s| - 1].1)
    else Last(s[..|s| - 1], k)
  }

  lemma {:induction false} LastConcat<K, V>(a: seq<(K, V)>, b: seq<(K, V)>, k: K)
    ensures Last(a + b, k) == if Last(b, k).Some? then Last(b, k) else Last(a, k)
    decreases |b|
  {
    if b == [] {
      assert a + b == a;
    } else {
      assert (a + b)[..|a + b| - 1] == a + b[..|b| - 1];
      LastConcat(a, b[..|b| - 1], k);
    }
  }

  lemma {:induction false} LastNone<K, V>(s: seq<(K, V)>, k: K)
    ensures Last(s, k).None? <==> forall i :: 0 <= i < |s| ==> s[i].0 != k
    decreases |s|
  {
    if s != [] {
      LastNone(s[..|s| - 1], k);
    }
  }

  /** In a list with one entry per key, an entry is the last for its key. */
  lemma {:induction false} LastAt<K, V>(s: seq<(K, V)>, i: nat)
    requires i < |s| && forall a, b :: 0 <= a < b < |s| ==> s[a].0 != s[b].0
    ensures Last(s, s[i].0) == Some(s[i].1)
    decreases |s|
  {
    if i < |s| - 1 {
      LastAt(s[..|s| - 1], i);
    }
  }

  lemma {:induction false} LastIn<K, V>(s: seq<(K, V)>, k: K)
    requires Last(s, k).Some?
    ensures (k, Last(s, k).value) in s
    decreases |s|
  {
    if s[|s| - 1].0 != k {
      LastIn(s[..|s| - 1], k);
    }
  }

  /** A slice holding every entry for `k` answers for the whole list. */
  lemma {:induction false} LastSlice<K, V>(s: seq<(K, V)>, lo: nat, hi: nat, k: K)
    requires lo <= hi <= |s|
    requires forall i :: 0 <= i < |s| && s[i].0 == k ==> lo <= i < hi
    ensures Last(s[lo..hi], k) == Last(s, k)
  {
    assert s == s[..lo] + (s[lo..hi] + s[hi..]);
    LastConcat(s[..lo], s[lo..hi] + s[hi..], k);
    LastConcat(s[lo..hi], s[hi..], k);
    LastNone(s[..lo], k);
    LastNone(s[hi..], k);
  }

  /** Moving an entry ahead of entries with other keys changes no last value. */
  lemma {:induction false} LastMoved<K, V>(a: seq<(K, V)>, e: (K, V), b: seq<(K, V)>, k: K)
    requires forall i :: 0 <= i < |b| ==> b[i].0 != e.0
    ensures Last(a + [e] + b, k) == Last(a + b + [e], k)
  {
    LastConcat(a + [e], b, k);
    LastConcat(a, [e], k);
    LastConcat(a, b, k);
    LastConcat(a + b, [e], k);
    LastNone(b, k);
  }

  /** A sorted list stays sorted around an entry put between its halves. */
  lemma {:induction false} SortedInsert<K(!new), V>(lt: (K, K) -> bool, s: seq<(K, V)>, i: nat, e: (K, V))
    requires TotalOrder(lt) && Sorted(lt, s) && i <= |s|
    requires i > 0 ==> !lt(e.0, s[i - 1].0)
    requires forall j :: i <= j < |s| ==> lt(e.0, s[j].0)
    ensures Sorted(lt, s[..i] + [e] + s[i..])
  {
  }

  /** A new key keeps the entries one per key. */
  lemma {:induction false} AscendingInsert<K(!new), V>(lt: (K, K) -> bool, s: seq<(K, V)>, i: nat, e: (K, V))
    requires TotalOrder(lt) && Ascending(lt, s) && i <= |s| && Last(s, e.0).None?
    requires i > 0 ==> !lt(e.0, s[i - 1].0)
    requires forall j :: i <= j < |s| ==> lt(e.0, s[j].0)
    ensures Ascending(lt, s[..i] + [e] + s[i..])
  {
    LastNone(s, e.0);
    forall j | 0 <= j < i
      ensures lt(s[j].0, e.0)
    {
      assert s[i - 1].0 != e.0 && lt(s[i - 1].0, e.0);
    }
  }

  /** The position after every entry that is not greater. */
  method InsertPoint<K(!new), V>(lt: (K, K) -> bool, s: seq<(K, V)>, k: K) returns (i: nat)
    requires TotalOrder(lt)
    ensures i <= |s|
    ensures i > 0 ==> !lt(k, s[i - 1].0)
    ensures forall j :: i <= j < |s| ==> lt(k, s[j].0)
  {
    i := |s|;
    while i > 0 && lt(k, s[i - 1].0)
      invariant 0 <= i <= |s|
      invariant forall j :: i <= j < |s| ==> lt(k, s[j].0)
    {
      i := i - 1;
    }
  }

  /** Sorting a sorted list with one entry appended. */
  method InsertStable<K(!new), V>(lt: (K, K) -> bool, s: seq<(K, V)>, e: (K, V)) returns (out: seq<(K, V)>)
    requires TotalOrder(lt) && Sorted(lt, s)
    ensures Sorted(lt, out) && multiset(out) == multiset(s) + multiset{e}
    ensures forall k :: Last(out, k) == Last(s + [e], k)
  {
    var i := InsertPoint(lt, s, e.0);
    SortedInsert(lt, s, i, e);
    out := s[..i] + [e] + s[i..];
    assert s == s[..i] + s[i..];
    forall k
      ensures Last(out, k) == Last(s + [e], k)
    {
      LastMoved(s[..i], e, s[i..], k);
    }
  }

  /** Sorting an ascending list with a new key appended. */
  method InsertNew<K(!new), V>(lt: (K, K) -> bool, s: seq<(K, V)>, e: (K, V)) returns (out: seq<(K, V)>)
    requires TotalOrder(lt) && Ascending(lt, s) && Last(s, e.0).None?
    ensures Ascending(lt, out)
    ensures |out| == |s| + 1 && forall x :: x in out <==> x in s || x == e
    ensures forall k :: Last(out, k) == Last(s + [e], k)
  {
    var i := InsertPoint(lt, s, e.0);
    AscendingInsert(lt, s, i, e);
    out := s[..i] + [e] + s[i..];
    assert s == s[..i] + s[i..];
    forall k
      ensures Last(out, k) == Last(s + [e], k)
    {
      LastMoved(s[..i], e, s[i..], k);
    }
  }

  /** Stable sort: entries with one key keep their input order. */
  method StableSort<K(!new), V>(lt: (K, K) -> bool, s: seq<(K, V)>) returns (out: seq<(K, V)>)
    requires TotalOrder(lt)
    ensures Sorted(lt, out) && multiset(out) == multiset(s)
    ensures forall k :: Last(out, k) == Last(s, k)
  {
    out := [];
    for i := 0 to |s|
      invariant Sorted(lt, out) && multiset(out) == multiset(s[..i])
      invariant forall k :: Last(out, k) == Last(s[..i], k)
    {
      ghost var before := out;
      out := InsertStable(lt, out, s[i]);
      assert s[..i + 1] == s[..i] + [s[i]];
      forall k
        ensures Last(out, k) == Last(s[..i + 1], k)
      {
        LastConcat(before, [s[i]], k);
        LastConcat(s[..i], [s[i]], k);
      }
    }
    assert s[..|s|] == s;
  }

  /** Keep the first entry of each run of equal keys, with the run's last value. */
  method Dedup<K(!new, ==), V>(lt: (K, K) -> bool, s: seq<(K, V)>) returns (out: seq<(K, V)>)
    requires TotalOrder(lt) && Sorted(lt, s)
    ensures Ascending(lt, out)
    ensures forall k :: Last(out, k) == Last(s, k)
  {
    out := [];
    for i := 0 to |s|
      invariant Ascending(lt, out)
      invariant out == [] <==> i == 0
      invariant i > 0 ==> out[|out| - 1].0 == s[i - 1].0
      invariant forall k :: Last(out, k) == Last(s[..i], k)
    {
      ghost var before := out;
      if out != [] && out[|out| - 1].0 == s[i].0 {
        out := out[..|out| - 1] + [(out[|out| - 1].0, s[i].1)];
        assert before == before[..|before| - 1] + [before[|before| - 1]];
        forall k
          ensures Last(out, k) == Last(before + [s[i]], k)
        {
          LastConcat(before[..|before| - 1], [(s[i].0, s[i].1)], k);
          LastConcat(before, [s[i]], k);
        }
      } else {
        assert i > 0 ==> lt(s[i - 1].0, s[i].0);
        out := out + [s[i]];
      }
      assert s[..i + 1] == s[..i] + [s[i]];
      forall k
        ensures Last(out, k) == Last(s[..i + 1], k)
      {
        LastConcat(before, [s[i]], k);
        LastConcat(s[..i], [s[i]], k);
      }
    }
    assert s[..|s|] == s;
  }

  /** The net batch: ascending keys, each with its last value. */
  method Normalize<K(!new, ==), V>(lt: (K, K) -> bool, s: seq<(K, V)>) returns (out: seq<(K, V)>)
    requires TotalOrder(lt)
    ensures Ascending(lt, out)
    ensures forall k :: Last(out, k) == Last(s, k)
  {
    var sorted := StableSort(lt, s);
    out := Dedup(lt, sorted);
  }
}
