/** Byte paths and nibble paths: high nibble first, two to a byte. */
module PathCodec {
  import opened Lex
  import opened TrieModel

  function NibbleAt(path: Bytes, depth: nat): Nibble
    requires depth < 2 * |path|
  {
    if depth % 2 == 0 then path[depth / 2] / 16 else path[depth / 2] % 16
  }

  /** The first `n` nibbles of packed bytes. */
  function Unpack(path: Bytes, n: nat): (p: Path)
    requires n <= 2 * |path|
    ensures |p| == n
    ensures forall i :: 0 <= i < n ==> p[i] == NibbleAt(path, i)
  {
    seq(n, i requires 0 <= i < n => NibbleAt(path, i))
  }

  function Nibbles(path: Bytes): (p: Path)
    ensures |p| == 2 * |path|
  {
    Unpack(path, 2 * |path|)
  }

  /** Nibbles in pairs; an odd last one is padded with zero. */
  function Pack(p: Path): (path: Bytes)
    ensures |path| == (|p| + 1) / 2
  {
    seq((|p| + 1) / 2,
        i requires 0 <= i < (|p| + 1) / 2 => (p[2 * i] as int) * 16 + if 2 * i + 1 < |p| then p[2 * i + 1] else 0)
  }

  lemma {:induction false} UnpackPack(p: Path)
    ensures Unpack(Pack(p), |p|) == p
  {
    forall i | 0 <= i < |p|
      ensures NibbleAt(Pack(p), i) == p[i]
    {
      assert i == 2 * (i / 2) + i % 2;
    }
  }

  lemma {:induction false} PackPadding(p: Path)
    ensures |p| % 2 == 1 ==> Pack(p)[|Pack(p)| - 1] % 16 == 0
  {
  }

  /** Packed bytes with zero padding are the only packing of their nibbles. */
  lemma {:induction false} PackUnpack(path: Bytes, n: nat)
    requires |path| == (n + 1) / 2 && (n % 2 == 1 ==> path[|path| - 1] % 16 == 0)
    ensures Pack(Unpack(path, n)) == path
  {
    forall i | 0 <= i < |path|
      ensures Pack(Unpack(path, n))[i] == path[i]
    {
      assert (2 * i) / 2 == i && (2 * i + 1) / 2 == i;
    }
  }

  /** Sorting full paths by bytes is sorting them by nibbles. */
  lemma {:induction false} SameOrder(a: Bytes, b: Bytes)
    requires |a| == |b|
    ensures Less(a, b) <==> Less(Nibbles(a), Nibbles(b))
  {
    var k := FirstDiff(a, b);
    var p, q := Nibbles(a), Nibbles(b);
    forall i | 0 <= i < 2 * k
      ensures p[i] == q[i]
    {
      assert i / 2 < k;
    }
    if k < |a| {
      assert (2 * k) / 2 == k && (2 * k + 1) / 2 == k;
      var m := if p[2 * k] != q[2 * k] then 2 * k else 2 * k + 1;
      if a[k] < b[k] {
        LessAt(p, q, m);
      } else {
        LessAt(q, p, m);
        Trichotomy(p, q);
      }
    } else {
      assert p == q;
      Irreflexive(p);
    }
  }
}
