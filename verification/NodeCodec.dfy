/** The compact branch row: packed prefix, child masks, hashes and leaf paths. */
module NodeCodec {
  import opened Wrappers
  import opened Lex
  import opened TrieModel
  import opened TrieStore
  import opened PathCodec
  import TrieDigest

  /** A sixteen-bit mask, bit `s` for slot `s`. */
  type Mask = m: seq<bool> | |m| == 16 witness seq(16, _ => false)

  /** The row's fields. One hash per occupied slot and one path per leaf slot, lowest slot first. */
  datatype Compact = Compact(prefix: Bytes, prefixLen: nat, state: Mask, tree: Mask, hashes: seq<Hash>,
                             paths: seq<Bytes>)

  // ---- Masks ----

  /** Set bits below position `n`. */
  function Count(bits: seq<bool>, n: nat): (c: nat)
    requires n <= |bits|
    ensures c <= n
  {
    if n == 0 then 0 else Count(bits, n - 1) + if bits[n - 1] then 1 else 0
  }

  function Ones(m: Mask): nat {
    Count(m, 16)
  }

  /** Slots in the first mask and not in the second. */
  function Minus(a: Mask, b: Mask): Mask {
    seq(16, i requires 0 <= i < 16 => a[i] && !b[i])
  }

  lemma {:induction false} CountRises(bits: seq<bool>, m: nat, n: nat)
    requires m <= n <= |bits|
    ensures Count(bits, m) <= Count(bits, n)
    ensures m < n && bits[m] ==> Count(bits, m) < Count(bits, n)
    decreases n
  {
    if m < n {
      CountRises(bits, m, n - 1);
    }
  }

  /** The value whose bit `i` is `bits[i]`. */
  function Value(bits: seq<bool>): nat {
    if bits == [] then 0 else (if bits[0] then 1 else 0) + 2 * Value(bits[1..])
  }

  function Bits(v: nat, n: nat): (bits: seq<bool>)
    ensures |bits| == n
  {
    if n == 0 then [] else [v % 2 == 1] + Bits(v / 2, n - 1)
  }

  function Power(n: nat): nat {
    if n == 0 then 1 else 2 * Power(n - 1)
  }

  lemma {:induction false} BitsValue(bits: seq<bool>)
    ensures Bits(Value(bits), |bits|) == bits && Value(bits) < Power(|bits|)
    decreases |bits|
  {
    if bits != [] {
      BitsValue(bits[1..]);
      assert bits == [bits[0]] + bits[1..];
    }
  }

  lemma {:induction false} ValueBits(v: nat, n: nat)
    requires v < Power(n)
    ensures Value(Bits(v, n)) == v
    decreases n
  {
    if n > 0 {
      ValueBits(v / 2, n - 1);
    }
  }

  lemma {:induction false} PowerSixteen()
    ensures Power(16) == 65536
  {
    assert Power(4) == 16;
    assert Power(8) == 256 by {
      assert Power(6) == 64;
    }
    assert Power(12) == 4096 by {
      assert Power(10) == 1024;
    }
    assert Power(14) == 16384;
  }

  /** Big-endian bytes of a mask. */
  function MaskBytes(m: Mask): (b: Bytes)
    ensures |b| == 2
  {
    BitsValue(m);
    PowerSixteen();
    [Value(m) / 256, Value(m) % 256]
  }

  function BytesMask(hi: byte, lo: byte): Mask {
    Bits((hi as int) * 256 + lo, 16)
  }

  lemma {:induction false} MaskRoundTrip(m: Mask)
    ensures BytesMask(MaskBytes(m)[0], MaskBytes(m)[1]) == m
  {
    BitsValue(m);
  }

  lemma {:induction false} BytesRoundTrip(hi: byte, lo: byte)
    ensures MaskBytes(BytesMask(hi, lo)) == [hi, lo]
  {
    PowerSixteen();
    var v := (hi as int) * 256 + lo;
    ValueBits(v, 16);
    assert v / 256 == hi && v % 256 == lo;
  }

  // ---- Fixed-width runs ----

  function Flatten(parts: seq<Bytes>): Bytes {
    if parts == [] then [] else parts[0] + Flatten(parts[1..])
  }

  /** Exact chunks of `width` bytes. */
  function Chunks(b: Bytes, width: nat, n: nat): (parts: seq<Bytes>)
    requires |b| == n * width
    ensures |parts| == n && forall i :: 0 <= i < n ==> |parts[i]| == width
    decreases n
  {
    if n == 0 then []
    else
      assert |b| == (n - 1) * width + width;
      [b[..width]] + Chunks(b[width..], width, n - 1)
  }

  lemma {:induction false} FlattenLength(parts: seq<Bytes>, width: nat)
    requires forall i :: 0 <= i < |parts| ==> |parts[i]| == width
    ensures |Flatten(parts)| == |parts| * width
    decreases |parts|
  {
    if parts != [] {
      FlattenLength(parts[1..], width);
      assert |parts| * width == (|parts| - 1) * width + width;
    }
  }

  lemma {:induction false} ChunksFlatten(parts: seq<Bytes>, width: nat)
    requires forall i :: 0 <= i < |parts| ==> |parts[i]| == width
    ensures |Flatten(parts)| == |parts| * width && Chunks(Flatten(parts), width, |parts|) == parts
    decreases |parts|
  {
    FlattenLength(parts, width);
    if parts != [] {
      ChunksFlatten(parts[1..], width);
      assert Flatten(parts)[..width] == parts[0] && Flatten(parts)[width..] == Flatten(parts[1..]);
    }
  }

  lemma {:induction false} FlattenChunks(b: Bytes, width: nat, n: nat)
    requires |b| == n * width
    ensures Flatten(Chunks(b, width, n)) == b
    decreases n
  {
    if n > 0 {
      assert |b| == (n - 1) * width + width;
      FlattenChunks(b[width..], width, n - 1);
      assert b == b[..width] + b[width..];
    }
  }

  // ---- Rows ----

  /** What construction admits. */
  predicate CompactOk(n: nat, c: Compact) {
    && c.prefixLen < 2 * n && |c.prefix| == (c.prefixLen + 1) / 2
    && (c.prefixLen % 2 == 1 ==> c.prefix[|c.prefix| - 1] % 16 == 0)
    && Ones(c.state) >= 2
    && (forall s :: 0 <= s < 16 && c.tree[s] ==> c.state[s])
    && |c.hashes| == Ones(c.state)
    && |c.paths| == Ones(Minus(c.state, c.tree))
    && forall i :: 0 <= i < |c.paths| ==> |c.paths[i]| == n
  }

  function HashPayload(c: Compact): Bytes
    requires c.prefixLen < 256
  {
    [c.prefixLen] + c.prefix + MaskBytes(c.state) + MaskBytes(c.tree) + Flatten(c.hashes)
  }

  function Encode(c: Compact): Bytes
    requires c.prefixLen < 256
  {
    HashPayload(c) + Flatten(c.paths)
  }

  /** Strict decoding: no trailing bytes, bad masks or nonzero padding. */
  function Decode(n: nat, b: Bytes): Option<Compact> {
    if |b| == 0 then None
    else
      var end := 1 + (b[0] as int + 1) / 2;
      if |b| < end + 4 then None
      else
        var state, tree := BytesMask(b[end], b[end + 1]), BytesMask(b[end + 2], b[end + 3]);
        DecodeBody(n, b, end, state, tree, end + 4 + Ones(state) * 32, Ones(Minus(state, tree)))
  }

  /** The length of a run of equal parts. */
  function Run(count: nat, width: nat): nat {
    count * width
  }

  /** Hashes up to `hashEnd`, then the paths of the leaves, to the last byte. */
  function DecodeBody(n: nat, b: Bytes, end: nat, state: Mask, tree: Mask, hashEnd: nat, leaves: nat): Option<Compact>
    requires 1 <= end && end + 4 <= hashEnd && end + 4 <= |b| && hashEnd == end + 4 + Ones(state) * 32
  {
    if |b| != hashEnd + Run(leaves, n) then None
    else
      var c := Compact(b[1..end], b[0], state, tree, Chunks(b[end + 4..hashEnd], 32, Ones(state)),
                       Chunks(b[hashEnd..], n, leaves));
      if CompactOk(n, c) then Some(c) else None
  }

  /** The three parts of a concatenation. */
  lemma {:induction false} ThreeParts(a: Bytes, h: Bytes, p: Bytes, b: Bytes)
    requires b == a + h + p
    ensures |b| == |a| + |h| + |p| && b[..|a|] == a && b[|a|..|a| + |h|] == h && b[|a| + |h|..] == p
  {
  }

  /** The length byte, the prefix and the masks. */
  lemma {:induction false} HeadParts(len: byte, prefix: Bytes, state: Bytes, tree: Bytes, b: Bytes)
    requires |state| == 2 && |tree| == 2 && |b| >= 5 + |prefix| && b[..5 + |prefix|] == [len] + prefix + state + tree
    ensures b[0] == len && b[1..1 + |prefix|] == prefix
    ensures [b[1 + |prefix|], b[2 + |prefix|]] == state && [b[3 + |prefix|], b[4 + |prefix|]] == tree
  {
    var n := |prefix|;
    var head := [len] + prefix + state + tree;
    assert forall i :: 0 <= i < 5 + n ==> b[i] == head[i];
    assert head[1 + n] == state[0] && head[2 + n] == state[1] && head[3 + n] == tree[0] && head[4 + n] == tree[1];
  }

  /** Where the parts of an encoded row lie. */
  lemma {:induction false} Layout(c: Compact, n: nat, b: Bytes, end: nat, hashEnd: nat)
    requires CompactOk(n, c) && n <= 32 && b == Encode(c) && end == 1 + |c.prefix|
    requires hashEnd == end + 4 + |c.hashes| * 32
    ensures |b| == hashEnd + |Flatten(c.paths)| && b[0] == c.prefixLen && b[1..end] == c.prefix
    ensures [b[end], b[end + 1]] == MaskBytes(c.state) && [b[end + 2], b[end + 3]] == MaskBytes(c.tree)
    ensures b[end + 4..hashEnd] == Flatten(c.hashes) && b[hashEnd..] == Flatten(c.paths)
  {
    FlattenLength(c.hashes, 32);
    FlattenLength(c.paths, n);
    var head := [c.prefixLen] + c.prefix + MaskBytes(c.state) + MaskBytes(c.tree);
    ThreeParts(head, Flatten(c.hashes), Flatten(c.paths), b);
    HeadParts(c.prefixLen, c.prefix, MaskBytes(c.state), MaskBytes(c.tree), b);
  }

  /** The body decodes when its parts lie where they should. */
  lemma {:induction false} BodyDecodes(n: nat, c: Compact, b: Bytes, end: nat, hashEnd: nat)
    requires CompactOk(n, c) && n <= 32 && 1 <= end && end + 4 <= hashEnd <= |b|
    requires hashEnd == end + 4 + Ones(c.state) * 32 && |b| == hashEnd + |Flatten(c.paths)|
    requires b[0] == c.prefixLen && b[1..end] == c.prefix && b[end + 4..hashEnd] == Flatten(c.hashes)
    requires b[hashEnd..] == Flatten(c.paths)
    ensures DecodeBody(n, b, end, c.state, c.tree, hashEnd, Ones(Minus(c.state, c.tree))) == Some(c)
  {
    FlattenLength(c.paths, n);
    ChunksFlatten(c.hashes, 32);
    ChunksFlatten(c.paths, n);
  }

  /** Every valid row is decoded back from its encoding. */
  lemma {:induction false} DecodeEncode(n: nat, c: Compact)
    requires CompactOk(n, c) && n <= 32
    ensures Decode(n, Encode(c)) == Some(c)
  {
    var b, end := Encode(c), 1 + |c.prefix|;
    var hashEnd := end + 4 + |c.hashes| * 32;
    Layout(c, n, b, end, hashEnd);
    MaskRoundTrip(c.state);
    MaskRoundTrip(c.tree);
    BodyDecodes(n, c, b, end, hashEnd);
  }

  lemma {:induction false} Cut(b: Bytes, end: nat, hashEnd: nat)
    requires 1 <= end && end + 4 <= hashEnd <= |b|
    ensures b == [b[0]] + b[1..end] + [b[end], b[end + 1]] + [b[end + 2], b[end + 3]] + b[end + 4..hashEnd] +
                 b[hashEnd..]
  {
    assert b[end..end + 4] == [b[end], b[end + 1]] + [b[end + 2], b[end + 3]];
  }

  lemma {:induction false} EncodeParts(c: Compact, b: Bytes, end: nat, hashEnd: nat)
    requires 1 <= end && end + 4 <= hashEnd <= |b|
    requires c.prefixLen == b[0] && c.prefix == b[1..end]
    requires MaskBytes(c.state) == [b[end], b[end + 1]] && MaskBytes(c.tree) == [b[end + 2], b[end + 3]]
    requires Flatten(c.hashes) == b[end + 4..hashEnd] && Flatten(c.paths) == b[hashEnd..]
    ensures Encode(c) == b
  {
    Cut(b, end, hashEnd);
  }

  /** The hash run and the path run, chunked and joined again. */
  lemma {:induction false} RunsFlatten(n: nat, b: Bytes, end: nat, hashEnd: nat, hashes: nat, leaves: nat)
    requires end + 4 <= hashEnd <= |b| && hashEnd == end + 4 + hashes * 32 && |b| == hashEnd + Run(leaves, n)
    ensures Flatten(Chunks(b[end + 4..hashEnd], 32, hashes)) == b[end + 4..hashEnd]
    ensures Flatten(Chunks(b[hashEnd..], n, leaves)) == b[hashEnd..]
  {
    FlattenChunks(b[end + 4..hashEnd], 32, hashes);
    FlattenChunks(b[hashEnd..], n, leaves);
  }

  /** Where the parts of a decoded row were. */
  lemma {:induction false} BodyParts(n: nat, b: Bytes, end: nat, state: Mask, tree: Mask, hashEnd: nat, leaves: nat)
    requires 1 <= end && end + 4 <= hashEnd && end + 4 <= |b| && hashEnd == end + 4 + Ones(state) * 32
    requires DecodeBody(n, b, end, state, tree, hashEnd, leaves).Some?
    ensures hashEnd <= |b| && CompactOk(n, DecodeBody(n, b, end, state, tree, hashEnd, leaves).value)
    ensures var c := DecodeBody(n, b, end, state, tree, hashEnd, leaves).value;
            && c.prefixLen == b[0] && c.prefix == b[1..end] && c.state == state && c.tree == tree
            && Flatten(c.hashes) == b[end + 4..hashEnd] && Flatten(c.paths) == b[hashEnd..]
  {
    RunsFlatten(n, b, end, hashEnd, Ones(state), leaves);
  }

  lemma {:induction false} BodyEncodes(n: nat, b: Bytes, end: nat, state: Mask, tree: Mask, hashEnd: nat, leaves: nat)
    requires 1 <= end && end + 4 <= hashEnd && end + 4 <= |b| && hashEnd == end + 4 + Ones(state) * 32
    requires state == BytesMask(b[end], b[end + 1]) && tree == BytesMask(b[end + 2], b[end + 3])
    requires DecodeBody(n, b, end, state, tree, hashEnd, leaves).Some?
    ensures CompactOk(n, DecodeBody(n, b, end, state, tree, hashEnd, leaves).value)
    ensures Encode(DecodeBody(n, b, end, state, tree, hashEnd, leaves).value) == b
  {
    BodyParts(n, b, end, state, tree, hashEnd, leaves);
    BytesRoundTrip(b[end], b[end + 1]);
    BytesRoundTrip(b[end + 2], b[end + 3]);
    EncodeParts(DecodeBody(n, b, end, state, tree, hashEnd, leaves).value, b, end, hashEnd);
  }

  /** Every accepted byte string is the encoding of what it decodes to. */
  lemma {:induction false} EncodeDecode(n: nat, b: Bytes)
    requires Decode(n, b).Some?
    ensures CompactOk(n, Decode(n, b).value) && Encode(Decode(n, b).value) == b
  {
    var end := 1 + (b[0] as int + 1) / 2;
    var state, tree := BytesMask(b[end], b[end + 1]), BytesMask(b[end + 2], b[end + 3]);
    BodyEncodes(n, b, end, state, tree, end + 4 + Ones(state) * 32, Ones(Minus(state, tree)));
  }

  // ---- Child references ----

  /** The reference in a slot, found by counting the occupied slots below it. */
  function Child(n: nat, c: Compact, slot: Nibble): RootRef
    requires CompactOk(n, c)
  {
    if !c.state[slot] then Empty
    else
      CountRises(c.state, slot, 16);
      var hash := c.hashes[Count(c.state, slot)];
      if c.tree[slot] then Branch(hash)
      else
        CountRises(Minus(c.state, c.tree), slot, 16);
        Leaf(Nibbles(c.paths[Count(Minus(c.state, c.tree), slot)]), hash)
  }

  function Children(n: nat, c: Compact): seq<RootRef>
    requires CompactOk(n, c)
  {
    seq(16, i requires 0 <= i < 16 => Child(n, c, i))
  }

  function StateOf(children: seq<RootRef>): Mask
    requires |children| == SLOTS
  {
    seq(16, i requires 0 <= i < 16 => children[i] != Empty)
  }

  function TreeOf(children: seq<RootRef>): Mask
    requires |children| == SLOTS
  {
    seq(16, i requires 0 <= i < 16 => children[i].Branch?)
  }

  /** Hashes of the live children below slot `n`, ascending. */
  function HashesOf(children: seq<RootRef>, n: nat): seq<Hash>
    requires n <= |children|
  {
    if n == 0 then [] else HashesOf(children, n - 1) + if children[n - 1] == Empty then [] else [children[n - 1].hash]
  }

  /** Packed paths of the leaf children below slot `n`, ascending. */
  function PathsOf(children: seq<RootRef>, n: nat): seq<Bytes>
    requires n <= |children|
  {
    if n == 0 then [] else PathsOf(children, n - 1) + if children[n - 1].Leaf? then [Pack(children[n - 1].path)] else []
  }

  /** The row of a branch, as node construction fills it. */
  function CompactOf(prefix: Path, children: seq<RootRef>): Compact
    requires |children| == SLOTS
  {
    Compact(Pack(prefix), |prefix|, StateOf(children), TreeOf(children), HashesOf(children, 16), PathsOf(children, 16))
  }

  datatype NodeError = PrefixLength | PrefixPadding | ChildMasks

  /** Construct a branch of its parts, which must fit together. */
  method New(n: nat, c: Compact) returns (r: Result<Compact, NodeError>)
    requires forall i :: 0 <= i < |c.paths| ==> |c.paths[i]| == n
    ensures r.Ok? <==> CompactOk(n, c)
    ensures r.Ok? ==> r.value == c
    ensures r == Err(PrefixLength) <==> !(c.prefixLen < 2 * n && |c.prefix| == (c.prefixLen + 1) / 2)
    ensures r == Err(PrefixPadding) ==> c.prefixLen % 2 == 1 && c.prefix != [] && c.prefix[|c.prefix| - 1] % 16 != 0
  {
    if c.prefixLen >= 2 * n || |c.prefix| != (c.prefixLen + 1) / 2 {
      return Err(PrefixLength);
    }
    if c.prefixLen % 2 == 1 && c.prefix[|c.prefix| - 1] % 16 != 0 {
      return Err(PrefixPadding);
    }
    if Ones(c.state) < 2 || !(forall s :: 0 <= s < 16 && c.tree[s] ==> c.state[s]) || |c.hashes| != Ones(c.state)
       || |c.paths| != Ones(Minus(c.state, c.tree)) {
      return Err(ChildMasks);
    }
    r := Ok(c);
  }

  /** One pass over the children fills the masks, hashes and paths. The branch is constructed exactly
      when its prefix leaves room for a child and two children are there. */
  method FromChildren(n: nat, prefix: Path, children: seq<RootRef>) returns (r: Result<Compact, NodeError>)
    requires |children| == SLOTS && 1 <= n <= 32
    requires forall i :: 0 <= i < SLOTS && children[i].Leaf? ==> |children[i].path| == 2 * n
    ensures r.Ok? <==> NodeOk(2 * n, Node(prefix, children))
    ensures r.Ok? ==> r.value == CompactOf(prefix, children)
    ensures r.Err? ==> r.error == if |prefix| >= 2 * n then PrefixLength else ChildMasks
  {
    var state, tree, hashes, paths := FillMasks(children);
    PathWidths(children, n, 16);
    var c := Compact(Pack(prefix), |prefix| % 256, state, tree, hashes, paths);
    Constructed(n, prefix, children, c);
    r := New(n, c);
  }

  lemma {:induction false} Constructed(n: nat, prefix: Path, children: seq<RootRef>, c: Compact)
    requires |children| == SLOTS && 1 <= n <= 32
    requires forall i :: 0 <= i < SLOTS && children[i].Leaf? ==> |children[i].path| == 2 * n
    requires c == CompactOf(prefix, children).(prefixLen := |prefix| % 256)
    ensures CompactOk(n, c) <==> NodeOk(2 * n, Node(prefix, children))
    ensures |prefix| >= 2 * n <==> !(c.prefixLen < 2 * n && |c.prefix| == (c.prefixLen + 1) / 2)
    ensures c.prefixLen == |prefix| ==> (c.prefixLen % 2 == 1 ==> c.prefix[|c.prefix| - 1] % 16 == 0)
  {
    PackPadding(prefix);
    if NodeOk(2 * n, Node(prefix, children)) {
      RowOk(n, Node(prefix, children));
    }
    if CompactOk(n, c) {
      var i, j := TwoOnes(StateOf(children), 16);
      assert children[i] != Empty && children[j] != Empty;
    }
  }

  method FillMasks(children: seq<RootRef>) returns (state: Mask, tree: Mask, hashes: seq<Hash>, paths: seq<Bytes>)
    requires |children| == SLOTS
    ensures state == StateOf(children) && tree == TreeOf(children)
    ensures hashes == HashesOf(children, 16) && paths == PathsOf(children, 16)
  {
    state, tree, hashes, paths := seq(16, _ => false), seq(16, _ => false), [], [];
    for slot: int := 0 to 16
      invariant forall i :: 0 <= i < 16 ==> state[i] == (i < slot && children[i] != Empty)
      invariant forall i :: 0 <= i < 16 ==> tree[i] == (i < slot && children[i].Branch?)
      invariant hashes == HashesOf(children, slot) && paths == PathsOf(children, slot)
    {
      match children[slot]
      case Empty =>
      case Leaf(path, hash) =>
        hashes, paths, state := hashes + [hash], paths + [Pack(path)], state[slot := true];
      case Branch(hash) =>
        tree, hashes, state := tree[slot := true], hashes + [hash], state[slot := true];
    }
  }

  /** Counting occupied slots gives each child's place in the runs. */
  lemma {:induction false} Places(children: seq<RootRef>, n: nat)
    requires |children| == SLOTS && n <= 16
    ensures |HashesOf(children, n)| == Count(StateOf(children), n)
    ensures |PathsOf(children, n)| == Count(Minus(StateOf(children), TreeOf(children)), n)
    decreases n
  {
    if n > 0 {
      Places(children, n - 1);
    }
  }

  /** A live child's hash and path stand at its place. */
  lemma {:induction false} Placed(children: seq<RootRef>, slot: nat, n: nat)
    requires |children| == SLOTS && slot < n <= 16
    ensures children[slot] != Empty ==>
              var k := Count(StateOf(children), slot);
              k < |HashesOf(children, n)| && HashesOf(children, n)[k] == children[slot].hash
    ensures children[slot].Leaf? ==>
              var k := Count(Minus(StateOf(children), TreeOf(children)), slot);
              k < |PathsOf(children, n)| && PathsOf(children, n)[k] == Pack(children[slot].path)
    decreases n
  {
    Places(children, slot);
    if slot < n - 1 {
      Placed(children, slot, n - 1);
    }
  }

  lemma {:induction false} PathWidths(children: seq<RootRef>, w: nat, n: nat)
    requires |children| == SLOTS && n <= 16
    requires forall i :: 0 <= i < SLOTS && children[i].Leaf? ==> |children[i].path| == 2 * w
    ensures forall i :: 0 <= i < |PathsOf(children, n)| ==> |PathsOf(children, n)[i]| == w
    decreases n
  {
    if n > 0 {
      PathWidths(children, w, n - 1);
    }
  }

  /** A node the trie may store has a valid row. */
  lemma {:induction false} RowOk(n: nat, node: Node)
    requires NodeOk(2 * n, node)
    ensures CompactOk(n, CompactOf(node.prefix, node.children))
  {
    Places(node.children, 16);
    PathWidths(node.children, n, 16);
    PackPadding(node.prefix);
    var i, j :| 0 <= i < j < SLOTS && node.children[i] != Empty && node.children[j] != Empty;
    AtLeastTwo(StateOf(node.children), i, j);
  }

  lemma {:induction false} AtLeastTwo(state: Mask, i: nat, j: nat)
    requires i < j < 16 && state[i] && state[j]
    ensures Ones(state) >= 2
  {
    CountRises(state, i, j);
    CountRises(state, j, 16);
  }

  /** The row gives back the same sixteen references and the same prefix. */
  lemma {:induction false} RowNode(n: nat, node: Node)
    requires NodeOk(2 * n, node)
    ensures var c := CompactOf(node.prefix, node.children);
            CompactOk(n, c) && Children(n, c) == node.children && Unpack(c.prefix, c.prefixLen) == node.prefix
  {
    RowOk(n, node);
    var c := CompactOf(node.prefix, node.children);
    UnpackPack(node.prefix);
    forall s: Nibble
      ensures Child(n, c, s) == node.children[s]
    {
      Placed(node.children, s, 16);
      if node.children[s].Leaf? {
        UnpackPack(node.children[s].path);
      }
    }
  }

  // ---- The codec the trie runs on ----

  function EncodeNode(n: nat, node: Node): Bytes {
    if NodeOk(2 * n, node) && n <= 32 then
      Encode(CompactOf(node.prefix, node.children))
    else []
  }

  function DecodeNode(n: nat, b: Bytes): Option<Node> {
    var c := Decode(n, b);
    if c.Some? then Some(Node(Unpack(c.value.prefix, c.value.prefixLen), Children(n, c.value))) else None
  }

  /** The branch hash: the owner's domain byte and the payload, without leaf paths. */
  function NodeHash(n: nat, domain: byte, hash: Bytes -> Hash, node: Node): Hash {
    if NodeOk(2 * n, node) && n <= 32 then
      hash([domain] + HashPayload(CompactOf(node.prefix, node.children)))
    else hash([domain])
  }

  /** A trie table of `n`-byte paths with its branch domain. */
  function TableEnv(n: nat, domain: byte, hash: Bytes -> Hash): Env {
    Env(2 * n, node => NodeHash(n, domain, hash, node), node => EncodeNode(n, node), b => DecodeNode(n, b))
  }

  // ---- What the branch digest binds ----

  /** The payload shows the prefix, the masks and the hashes. */
  lemma {:induction false} PayloadParts(n: nat, c: Compact, d: Compact)
    requires CompactOk(n, c) && CompactOk(n, d) && n <= 32 && HashPayload(c) == HashPayload(d)
    ensures c.prefixLen == d.prefixLen && c.prefix == d.prefix && c.state == d.state && c.tree == d.tree
    ensures c.hashes == d.hashes
  {
    var b := HashPayload(c);
    assert c.prefixLen == b[0] == d.prefixLen;
    PayloadAt(c, b);
    PayloadAt(d, b);
    MaskRoundTrip(c.state);
    MaskRoundTrip(d.state);
    MaskRoundTrip(c.tree);
    MaskRoundTrip(d.tree);
    ChunksFlatten(c.hashes, 32);
    ChunksFlatten(d.hashes, 32);
  }

  /** Where the parts of a payload lie. */
  lemma {:induction false} PayloadAt(c: Compact, b: Bytes)
    requires c.prefixLen < 256 && b == HashPayload(c)
    ensures |b| >= 5 + |c.prefix| && b[1..1 + |c.prefix|] == c.prefix
    ensures var n := |c.prefix|;
            [b[1 + n], b[2 + n]] == MaskBytes(c.state) && [b[3 + n], b[4 + n]] == MaskBytes(c.tree)
    ensures b[5 + |c.prefix|..] == Flatten(c.hashes)
  {
    var head := [c.prefixLen] + c.prefix + MaskBytes(c.state) + MaskBytes(c.tree);
    ThreeParts(head, Flatten(c.hashes), [], b);
    HeadParts(c.prefixLen, c.prefix, MaskBytes(c.state), MaskBytes(c.tree), b);
  }

  /** Branches with one payload have one prefix, and child by child one kind and one digest. */
  lemma {:induction false} PayloadTells(n: nat, a: Node, b: Node)
    requires NodeOk(2 * n, a) && NodeOk(2 * n, b) && n <= 32
    requires HashPayload(CompactOf(a.prefix, a.children)) == HashPayload(CompactOf(b.prefix, b.children))
    ensures TrieDigest.SameShape(a, b)
  {
    var c, d := CompactOf(a.prefix, a.children), CompactOf(b.prefix, b.children);
    RowNode(n, a);
    RowNode(n, b);
    PayloadParts(n, c, d);
    ChildMarks(n, c, d);
  }

  lemma {:induction false} ChildMarks(n: nat, c: Compact, d: Compact)
    requires CompactOk(n, c) && CompactOk(n, d) && c.state == d.state && c.tree == d.tree && c.hashes == d.hashes
    ensures forall i :: 0 <= i < 16 ==>
              TrieDigest.MarkOf(Children(n, c)[i]) == TrieDigest.MarkOf(Children(n, d)[i])
  {
    forall i: Nibble
      ensures TrieDigest.MarkOf(Child(n, c, i)) == TrieDigest.MarkOf(Child(n, d, i))
    {
      CountRises(c.state, i, 16);
    }
  }

  /** Branches whose digest is that of a preimage in play. */
  ghost function HashedNodes(n: nat, domain: byte, preimages: iset<Bytes>): iset<Node> {
    iset node | n <= 32 && NodeOk(2 * n, node) &&
                [domain] + HashPayload(CompactOf(node.prefix, node.children)) in preimages
  }

  /** No two of these have one digest. */
  ghost predicate CollisionFree(hash: Bytes -> Hash, preimages: iset<Bytes>) {
    forall a, b :: a in preimages && b in preimages && hash(a) == hash(b) ==> a == b
  }

  /** Short of a collision, a branch digest binds the prefix and every child's kind and digest. */
  lemma {:induction false} TableTells(n: nat, domain: byte, hash: Bytes -> Hash, preimages: iset<Bytes>)
    requires CollisionFree(hash, preimages)
    ensures TrieDigest.ShapesTell(TableEnv(n, domain, hash), HashedNodes(n, domain, preimages))
  {
    var env, nodes := TableEnv(n, domain, hash), HashedNodes(n, domain, preimages);
    forall a, b | a in nodes && b in nodes && env.hash(a) == env.hash(b)
      ensures TrieDigest.SameShape(a, b)
    {
      var x, y := HashPayload(CompactOf(a.prefix, a.children)), HashPayload(CompactOf(b.prefix, b.children));
      assert [domain] + x == [domain] + y;
      assert x == ([domain] + x)[1..] && y == ([domain] + y)[1..];
      PayloadTells(n, a, b);
    }
  }

  lemma {:induction false} TwoOnes(bits: seq<bool>, n: nat) returns (i: nat, j: nat)
    requires n <= |bits| && Count(bits, n) >= 2
    ensures i < j < n && bits[i] && bits[j]
    decreases n
  {
    if bits[n - 1] {
      j := n - 1;
      i := SomeOne(bits, n - 1);
    } else {
      i, j := TwoOnes(bits, n - 1);
    }
  }

  lemma {:induction false} SomeOne(bits: seq<bool>, n: nat) returns (i: nat)
    requires n <= |bits| && Count(bits, n) >= 1
    ensures i < n && bits[i]
    decreases n
  {
    if bits[n - 1] {
      i := n - 1;
    } else {
      i := SomeOne(bits, n - 1);
    }
  }

  /** An accepted row is a node the trie may hold. */
  lemma {:induction false} DecodedOk(n: nat, b: Bytes)
    requires DecodeNode(n, b).Some?
    ensures NodeOk(2 * n, DecodeNode(n, b).value)
  {
    var c := Decode(n, b).value;
    var node := DecodeNode(n, b).value;
    var i, j := TwoOnes(c.state, 16);
    assert node.children[i] != Empty && node.children[j] != Empty;
    forall s: Nibble | node.children[s].Leaf?
      ensures |node.children[s].path| == 2 * n
    {
      CountRises(Minus(c.state, c.tree), s, 16);
    }
  }

  /** The byte codec meets what the trie assumes of one, at every path width. */
  lemma {:induction false} TableLawful(n: nat, domain: byte, hash: Bytes -> Hash)
    requires 1 <= n <= 32
    ensures Lawful(TableEnv(n, domain, hash))
  {
    var env := TableEnv(n, domain, hash);
    forall node: Node | NodeOk(env.width, node)
      ensures env.decode(env.encode(node)) == Some(node)
    {
      RowNode(n, node);
      DecodeEncode(n, CompactOf(node.prefix, node.children));
    }
    forall b: Bytes | env.decode(b).Some?
      ensures NodeOk(env.width, env.decode(b).value)
    {
      DecodedOk(n, b);
    }
  }
}
