/** Complete cell addresses: an eight-byte record ID followed by the name. */
module CellKeys {
  import opened Wrappers
  import opened Lex
  import opened Words

  type RecordId = v: int | 0 <= v < U64

  datatype CellKey = CellKey(id: RecordId, name: Bytes)

  function Encode(k: CellKey): Bytes {
    ToBytes(k.id, 8) + k.name
  }

  function Decode(b: Bytes): Option<CellKey> {
    if |b| < 8 then None
    else
      ToFromBytes(b[..8]);
      U64Bytes();
      Some(CellKey(FromBytes(b[..8]), b[8..]))
  }

  /** Addresses order by record, then by name bytes. */
  predicate KeyLess(a: CellKey, b: CellKey) {
    a.id < b.id || (a.id == b.id && Less(a.name, b.name))
  }

  lemma {:induction false} DecodeEncode(k: CellKey)
    ensures Decode(Encode(k)) == Some(k)
  {
    U64Bytes();
    FromToBytes(k.id, 8);
    assert Encode(k)[..8] == ToBytes(k.id, 8) && Encode(k)[8..] == k.name;
  }

  lemma {:induction false} EncodeDecode(b: Bytes)
    requires |b| >= 8
    ensures Encode(Decode(b).value) == b
  {
    ToFromBytes(b[..8]);
    assert b == b[..8] + b[8..];
  }

  /** Address order is encoded byte order. */
  lemma {:induction false} KeyOrder(a: CellKey, b: CellKey)
    ensures KeyLess(a, b) <==> Less(Encode(a), Encode(b))
  {
    var p, q := ToBytes(a.id, 8), ToBytes(b.id, 8);
    U64Bytes();
    FromToBytes(a.id, 8);
    FromToBytes(b.id, 8);
    WordOrder(p, q);
    WordOrder(q, p);
    if a.id == b.id {
      LessAfter(p, a.name, b.name);
    } else if a.id < b.id {
      LessByHead(p, q, a.name, b.name);
    } else {
      LessByHead(q, p, b.name, a.name);
      Trichotomy(Encode(a), Encode(b));
    }
  }

  // ---- The key range of an encoded prefix ----

  datatype End = Unbounded | Below(key: CellKey)

  /** A bound too short for a key, filled up with zero bytes: no key lies between the two. */
  function Padded(b: Bytes): (p: Bytes)
    ensures |p| >= 8
  {
    b + seq(if |b| < 8 then 8 - |b| else 0, _ => 0)
  }

  /** The last position that is not 0xff. */
  method LastBelowMax(b: Bytes) returns (i: Option<nat>)
    ensures i.Some? ==> i.value < |b| && b[i.value] < 255
    ensures forall k :: (if i.Some? then i.value + 1 else 0) <= k < |b| ==> b[k] == 255
  {
    var n: nat := |b|;
    while n > 0 && b[n - 1] == 255
      invariant n <= |b|
      invariant forall k :: n <= k < |b| ==> b[k] == 255
    {
      n := n - 1;
    }
    i := if n == 0 then None else Some(n - 1);
  }

  /** First key and end of the keys whose encoding starts with `prefix`. */
  method PrefixRange(prefix: Bytes) returns (first: CellKey, end: End)
    ensures forall k: CellKey :: InRange(k, first, end) <==> prefix <= Encode(k)
  {
    first := Decode(Padded(prefix)).value;
    var i := LastBelowMax(prefix);
    var successor: Bytes := [];
    if i.Some? {
      successor := prefix[..i.value] + [prefix[i.value] as int + 1];
      end := Below(Decode(Padded(successor)).value);
    } else {
      end := Unbounded;
    }
    forall k: CellKey
      ensures InRange(k, first, end) <==> prefix <= Encode(k)
    {
      BoundOrder(prefix, k);
      if i.Some? {
        BoundOrder(successor, k);
        BelowSuccessor(prefix, i.value, Encode(k));
      } else {
        AllMax(prefix, Encode(k));
      }
    }
  }

  /** A key lies below a padded bound exactly when its encoding lies below the bound. */
  lemma {:induction false} BoundOrder(b: Bytes, k: CellKey)
    ensures KeyLess(k, Decode(Padded(b)).value) <==> Less(Encode(k), b)
  {
    KeyOrder(k, Decode(Padded(b)).value);
    EncodeDecode(Padded(b));
    PaddedBound(b, Encode(k));
  }

  predicate InRange(k: CellKey, first: CellKey, end: End) {
    !KeyLess(k, first) && (end.Below? ==> KeyLess(k, end.key))
  }

  /** Below a bound and below its padding are the same for full keys. */
  lemma {:induction false} PaddedBound(b: Bytes, k: Bytes)
    requires |k| >= 8
    ensures Less(k, Padded(b)) <==> Less(k, b)
  {
    var p := Padded(b);
    assert b <= p;
    var j := FirstDiff(k, b);
    if j < |k| && j < |b| {
      assert k[j] != p[j] && forall i :: 0 <= i < j ==> k[i] == p[i];
      assert FirstDiff(k, p) == j;
    } else if j == |b| {
      var m := FirstDiff(k, p);
      assert m >= |b|;
      assert m < |p| ==> p[m] == 0;
    }
  }
}
