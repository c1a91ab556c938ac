/** Big-endian words: value order is byte order. */
module Words {
  import opened Lex

  function Power256(n: nat): (p: nat)
    ensures p > 0
  {
    if n == 0 then 1 else 256 * Power256(n - 1)
  }

  /** The `n`-byte big-endian form of a value, truncated to that width. */
  function ToBytes(v: nat, n: nat): (b: Bytes)
    ensures |b| == n
  {
    if n == 0 then [] else ToBytes(v / 256, n - 1) + [v % 256]
  }

  function FromBytes(b: Bytes): nat {
    if b == [] then 0 else FromBytes(b[..|b| - 1]) * 256 + b[|b| - 1]
  }

  lemma {:induction false} FromToBytes(v: nat, n: nat)
    requires v < Power256(n)
    ensures FromBytes(ToBytes(v, n)) == v
    decreases n
  {
    if n > 0 {
      FromToBytes(v / 256, n - 1);
      var b := ToBytes(v, n);
      assert b[..n - 1] == ToBytes(v / 256, n - 1);
    }
  }

  lemma {:induction false} ToFromBytes(b: Bytes)
    ensures FromBytes(b) < Power256(|b|) && ToBytes(FromBytes(b), |b|) == b
    decreases |b|
  {
    if b != [] {
      ToFromBytes(b[..|b| - 1]);
      assert b == b[..|b| - 1] + [b[|b| - 1]];
    }
  }

  /** Words of one width compare as their values. */
  lemma {:induction false} WordOrder(a: Bytes, b: Bytes)
    requires |a| == |b|
    ensures Less(a, b) <==> FromBytes(a) < FromBytes(b)
    decreases |a|
  {
    if a != [] {
      var n := |a| - 1;
      var a', b', x, y := a[..n], b[..n], a[n], b[n];
      assert a == a' + [x] && b == b' + [y];
      WordOrder(a', b');
      if a' == b' {
        LessAfter(a', [x], [y]);
      } else if Less(a', b') {
        LessByHead(a', b', [x], [y]);
      } else {
        Trichotomy(a', b');
        WordOrder(b', a');
        LessByHead(b', a', [y], [x]);
        Trichotomy(a, b);
      }
    }
  }

  const U64: nat := 0x1_0000_0000_0000_0000

  lemma {:induction false} U64Bytes()
    ensures Power256(8) == U64
  {
    assert Power256(2) == 65536;
    assert Power256(4) == 0x1_0000_0000;
    assert Power256(6) == 0x1_0000_0000_0000;
  }
}
