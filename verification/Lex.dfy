/** Byte strings, hashes, and the bytewise order every table, edit list and scan uses. */
module Lex {
  type byte = x: int | 0 <= x < 256
  type Bytes = seq<byte>

  /** A 32-byte digest. */
  type Hash = h: Bytes | |h| == 32 witness seq(32, _ => 0)

  /** The first position at which two strings differ, or the end of the shorter one. */
  function FirstDiff(a: seq<int>, b: seq<int>): (k: nat)
    ensures k <= |a| && k <= |b|
    ensures forall i :: 0 <= i < k ==> a[i] == b[i]
    ensures k < |a| && k < |b| ==> a[k] != b[k]
  {
    if |a| == 0 || |b| == 0 || a[0] != b[0] then 0
    else
      var k := FirstDiff(a[1..], b[1..]);
      assert forall i :: 0 < i < k + 1 ==> a[i] == a[1..][i - 1] && b[i] == b[1..][i - 1];
      k + 1
  }

  /** Lexicographic order; a proper prefix comes first. */
  predicate Less(a: seq<int>, b: seq<int>) {
    var k := FirstDiff(a, b);
    k < |b| && (k == |a| || a[k] < b[k])
  }

  predicate AtMost(a: seq<int>, b: seq<int>) {
    a == b || Less(a, b)
  }

  lemma {:induction false} Irreflexive(a: seq<int>)
    ensures !Less(a, a)
  {
  }

  lemma {:induction false} Transitive(a: seq<int>, b: seq<int>, c: seq<int>)
    requires Less(a, b) && Less(b, c)
    ensures Less(a, c)
  {
    var j, k, m := FirstDiff(a, b), FirstDiff(b, c), FirstDiff(a, c);
    assert m >= j || m >= k;
  }

  lemma {:induction false} Trichotomy(a: seq<int>, b: seq<int>)
    ensures a == b || Less(a, b) || Less(b, a)
    ensures !(Less(a, b) && Less(b, a))
  {
    var j, k := FirstDiff(a, b), FirstDiff(b, a);
    assert j == k;
  }

  /** A decision at any position after a shared stretch settles the order. */
  lemma {:induction false} LessAt(a: seq<int>, b: seq<int>, k: nat)
    requires k < |a| && k < |b|
    requires forall i :: 0 <= i < k ==> a[i] == b[i]
    requires a[k] < b[k]
    ensures Less(a, b) && FirstDiff(a, b) == k
  {
  }

  /** Strings starting with a common prefix are contiguous. */
  lemma {:induction false} PrefixConvex(prefix: seq<int>, a: seq<int>, b: seq<int>, c: seq<int>)
    requires prefix <= a && prefix <= c
    requires AtMost(a, b) && AtMost(b, c)
    ensures prefix <= b
  {
    if a != b && b != c {
      var j, k := FirstDiff(a, b), FirstDiff(b, c);
      assert |prefix| <= j;
      assert prefix == b[..|prefix|];
    }
  }

  /** A shared beginning does not affect the order. */
  lemma {:induction false} LessAfter(p: seq<int>, a: seq<int>, b: seq<int>)
    ensures Less(p + a, p + b) <==> Less(a, b)
  {
    var k, m := FirstDiff(a, b), FirstDiff(p + a, p + b);
    assert forall i :: 0 <= i < k ==> (p + a)[|p| + i] == a[i] && (p + b)[|p| + i] == b[i];
    assert m >= |p| + k;
    if k < |a| && k < |b| {
      assert (p + a)[|p| + k] == a[k] && (p + b)[|p| + k] == b[k];
    }
    assert m == |p| + k;
  }

  /** Beginnings of one width that differ decide the order. */
  lemma {:induction false} LessByHead(p: seq<int>, q: seq<int>, a: seq<int>, b: seq<int>)
    requires |p| == |q| && Less(p, q)
    ensures Less(p + a, q + b)
  {
    LessAt(p + a, q + b, FirstDiff(p, q));
  }

  /** At or above the prefix and below its successor is starting with the prefix. */
  lemma {:induction false} BelowSuccessor(prefix: Bytes, i: nat, k: Bytes)
    requires i < |prefix| && prefix[i] < 255
    requires forall m :: i < m < |prefix| ==> prefix[m] == 255
    ensures var successor := prefix[..i] + [prefix[i] as int + 1];
            prefix <= k <==> !Less(k, prefix) && Less(k, successor)
  {
    var successor := prefix[..i] + [prefix[i] as int + 1];
    var j, m := FirstDiff(k, prefix), FirstDiff(k, successor);
    if prefix <= k {
      assert j == |prefix|;
      LessAt(k, successor, i);
    } else if !Less(k, prefix) {
      assert j < |prefix| && j < |k| && k[j] > prefix[j];
      if j < i {
        assert m == j;
      } else {
        assert j == i;
      }
    }
  }

  /** Nothing lies above a prefix of 0xff bytes except what starts with it. */
  lemma {:induction false} AllMax(prefix: Bytes, k: Bytes)
    requires forall m :: 0 <= m < |prefix| ==> prefix[m] == 255
    ensures prefix <= k <==> !Less(k, prefix)
  {
    var j := FirstDiff(k, prefix);
  }
}
