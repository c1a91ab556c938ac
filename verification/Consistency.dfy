/** What the engine's theorems ask of hashing, of codecs and of the content in play can be met all at
    once: a hash function and a container codec under which any run over keys it tells apart may start. */
module Consistency {
  import opened Wrappers
  import opened Lex
  import opened Words
  import opened Batch
  import opened CellKeys
  import opened Order
  import opened Terms
  import opened Postings
  import opened CellValues
  import opened TrieModel
  import opened TrieStore
  import opened Trie
  import opened NodeCodec
  import opened System
  import opened Records
  import opened Genesis
  import opened Superblock
  import opened Bitmaps
  import opened Seal
  import opened Opening
  import opened Binds
  import opened Scheme
  import RecordRuns
  import Engine
  import C = Commitment
  import I = IndexStore
  import S = CellStore

  // ---- A container codec: the chunk number, then one byte per offset ----

  const SPAN: nat := 0x1_0000

  function Pack(c: Container): (b: Bytes)
    ensures |b| == 6 + SPAN
  {
    ToBytes(c.chunk, 6) + seq(SPAN, i requires 0 <= i < SPAN => if i in c.offsets then 1 else 0)
  }

  predicate Has(b: Bytes, i: Offset) {
    |b| == 6 + SPAN && b[6 + i] == 1
  }

  function OffsetsAt(b: Bytes): set<Offset> {
    set i: Offset | 0 <= i < SPAN && Has(b, i)
  }

  function ChunkAt(b: Bytes): Chunk
    requires |b| >= 6
  {
    ToFromBytes(b[..6]);
    SixBytes();
    FromBytes(b[..6])
  }

  lemma {:induction false} SixBytes()
    ensures Power256(6) == 0x1_0000_0000_0000
  {
    assert Power256(3) == 0x100_0000;
  }

  /** Only packed, nonempty containers are accepted. */
  function Unpack(b: Bytes): Option<Container> {
    if |b| != 6 + SPAN then None
    else
      var c := Container(ChunkAt(b), OffsetsAt(b));
      if c.offsets != {} && Pack(c) == b then Some(c) else None
  }

  lemma {:induction false} UnpackPacked(c: Container)
    requires c.offsets != {}
    ensures Unpack(Pack(c)) == Some(c)
  {
    var b := Pack(c);
    SixBytes();
    FromToBytes(c.chunk, 6);
    assert b[..6] == ToBytes(c.chunk, 6);
    forall i: Offset
      ensures Has(b, i) <==> i in c.offsets
    {
      assert b[6 + i] == if i in c.offsets then 1 else 0;
    }
    assert OffsetsAt(b) == c.offsets;
  }

  function Packed(): Packing {
    Packing(c => Pack(c), b => Unpack(b))
  }

  lemma {:induction false} PackedCanonical()
    ensures Scheme.Canonical(Packed())
  {
    forall c: Container | c.offsets != {}
      ensures Unpack(Pack(c)) == Some(c)
    {
      UnpackPacked(c);
    }
  }

  // ---- A hash that shows its domain ----

  function ByteAt(b: Bytes, i: nat): byte {
    if i < |b| then b[i] else 0
  }

  /** The first byte, and those from the eighth on; the empty string has its own mark. */
  function Hasher(b: Bytes): (h: Hash)
    ensures h[0] == if b == [] then 255 else b[0]
    ensures forall i :: 1 <= i < 32 ==> h[i] == ByteAt(b, 6 + i)
  {
    [if b == [] then 255 else b[0]] + seq(31, i requires 0 <= i < 31 => ByteAt(b, 7 + i))
  }

  function Marker(): Bytes -> Hash {
    b => Hasher(b)
  }

  /** Every digest that shows the domain. */
  ghost function Marked(domain: byte): iset<Hash> {
    iset h: Hash | h[0] == domain
  }

  ghost function AllNodes(): iset<Node> {
    iset node: Node | |node.children| >= 0
  }

  ghost function Everything(): Stage {
    Stage(C.Content(Marked(CELL_LEAF), AllNodes()), C.Content(Marked(INDEX_LEAF), AllNodes()),
          BitmapContent((iset c: Container | c.chunk >= 0), AllNodes()))
  }

  ghost function Witness(utf8: Bytes -> bool): Setup {
    SetupOf(Marker(), utf8, Packed(), Everything())
  }

  lemma {:induction false} WitnessSound(utf8: Bytes -> bool, terms: set<Bytes>)
    requires forall t :: t in terms ==> Terms.Decode(utf8, t).Ok?
    ensures Seal.Sound(Witness(utf8), terms) && SystemOk(Witness(utf8).codec.ok)
  {
    PackedCanonical();
    EverythingApart();
    SchemeSound(Marker(), utf8, Packed(), Everything(), terms);
  }

  // ---- Every state is in play ----

  lemma {:induction false} NodeMarked(n: nat, domain: byte, node: Node)
    ensures TableEnv(n, domain, Marker()).hash(node)[0] == domain
  {
  }

  lemma {:induction false} EverythingApart()
    ensures KindsApart(Marker(), Packed(), Everything())
  {
    forall node: Node
      ensures TableEnv(32, CELL_BRANCH, Marker()).hash(node)[0] == CELL_BRANCH
      ensures TableEnv(32, INDEX_BRANCH, Marker()).hash(node)[0] == INDEX_BRANCH
      ensures TableEnv(6, BITMAP_BRANCH, Marker()).hash(node)[0] == BITMAP_BRANCH
    {
      NodeMarked(32, CELL_BRANCH, node);
      NodeMarked(32, INDEX_BRANCH, node);
      NodeMarked(6, BITMAP_BRANCH, node);
    }
    forall c: Container
      ensures LeafHash(BitmapsOf(Marker(), Packed(), Everything().bitmaps), c)[0] == BITMAP_LEAF
    {
      ContainerMarked(c);
    }
  }

  lemma {:induction false} ContainerMarked(c: Container)
    ensures Hasher([BITMAP_LEAF] + Pack(c))[0] == BITMAP_LEAF
  {
    var b := [BITMAP_LEAF] + Pack(c);
    assert b[0] == BITMAP_LEAF;
  }

  /** Every branch is in play. */
  lemma {:induction false} BranchesPlayed(env: Env, m: Leaves)
    ensures MapIn(env, m, AllNodes())
  {
    forall t: Tree | TrieFor(env.width, t, m)
      ensures NodesIn(env, t, AllNodes())
    {
      NodesPlayed(env, t);
    }
  }

  lemma {:induction false} NodesPlayed(env: Env, t: Tree)
    ensures NodesIn(env, t, AllNodes())
    decreases t
  {
    if t.Fork? {
      forall i | 0 <= i < |t.kids|
        ensures NodesIn(env, t.kids[i], AllNodes())
      {
        NodesPlayed(env, t.kids[i]);
      }
    }
  }

  lemma {:induction false} LeafMarked(domain: byte, key: Bytes, value: Bytes)
    ensures LeafDigest(Marker(), domain, key, value) in Marked(domain)
  {
    var b := [domain] + Hasher(key) + value;
    assert b[0] == domain;
  }

  /** Rows whose keys stay apart have all their digests in play. */
  lemma {:induction false} RowsInPlay(a: C.Auth, leaf: byte, flat: C.Flat)
    requires a.play == C.Content(Marked(leaf), AllNodes())
    requires forall k, v :: a.leaf(k, v) == LeafDigest(Marker(), leaf, k, v)
    requires C.Apart(a, flat.Keys)
    ensures C.InPlay(a, flat)
  {
    BranchesPlayed(a.env, C.Image(a, flat));
    forall k | k in flat
      ensures a.leaf(k, flat[k]) in a.play.leaves
    {
      LeafMarked(leaf, k, flat[k]);
    }
  }

  lemma {:induction false} IdsPlayed(utf8: Bytes -> bool, ids: set<RecordId>)
    ensures IdsInPlay(Witness(utf8).index.bitmaps, ids)
  {
    var env := Witness(utf8).index.bitmaps;
    BranchesPlayed(env.trie, Image(env, ids));
  }

  /** The keys and terms of a state are in play. */
  ghost predicate Covers(play: Play, cells: CellMap) {
    && (forall k :: k in cells ==> CellKeys.Encode(k) in play.keys)
    && (forall k, t :: k in cells && TermOf(k, Some(cells[k])) == Ok(Some(t)) ==> t in play.terms)
  }

  lemma {:induction false} CoveredInPlay(utf8: Bytes -> bool, play: Play, cells: CellMap)
    requires Covers(play, cells) && C.Apart(Witness(utf8).cells, play.keys)
    requires C.Apart(Witness(utf8).index.terms, play.terms)
    requires LawfulCodec(Witness(utf8).codec)
    ensures StateInPlay(Witness(utf8), cells)
  {
    var u := Witness(utf8);
    RowsInPlay(u.cells, CELL_LEAF, S.FlatOf(u.codec, cells));
    forall index | IsIndex(index, cells)
      ensures I.IndexInPlay(u.index, index)
    {
      CoveredIndex(utf8, play, cells, index);
    }
  }

  lemma {:induction false} CoveredIndex(utf8: Bytes -> bool, play: Play, cells: CellMap, index: FlatIndex)
    requires Covers(play, cells) && C.Apart(Witness(utf8).index.terms, play.terms) && IsIndex(index, cells)
    ensures I.IndexInPlay(Witness(utf8).index, index)
  {
    var env := Witness(utf8).index;
    forall t: Bytes
      ensures IdsInPlay(env.bitmaps, PostingsOf(index, t))
    {
      IdsPlayed(utf8, PostingsOf(index, t));
    }
    forall t | t in index
      ensures t in play.terms
    {
      assert index[t] == Rebuilt(cells, t) && index[t] != {};
      var id :| id in Rebuilt(cells, t);
    }
    forall flat | I.TermRows(env, flat, index)
      ensures C.InPlay(env.terms, flat)
    {
      RowsInPlay(env.terms, INDEX_LEAF, flat);
    }
  }

  /** Every covered state. */
  ghost function AllCovered(keys: set<Bytes>, terms: set<Bytes>): Play {
    Play(keys, terms, iset cells: CellMap | Covers(Play(keys, terms, iset{}), cells))
  }

  /** Any keys and terms the hash tells apart, genesis among them, with every state over them: a run may
      start, and whatever it publishes over them stays in play. */
  lemma {:induction false} RunsCanStart(utf8: Bytes -> bool, d: Deployment, keys: set<Bytes>, terms: set<Bytes>)
    requires LimitsFit(d.limits) && C.Apart(Witness(utf8).cells, keys) && C.Apart(Witness(utf8).index.terms, terms)
    requires forall k :: k in InitialCells(d.limits) ==> CellKeys.Encode(k) in keys
    requires forall t :: t in terms ==> Terms.Decode(utf8, t).Ok?
    ensures Engine.GivenFor(Witness(utf8), d, AllCovered(keys, terms))
  {
    WitnessSound(utf8, terms);
    StatesInPlay(utf8, keys, terms);
    GenesisHere(utf8, d.limits, AllCovered(keys, terms));
  }

  lemma {:induction false} GenesisHere(utf8: Bytes -> bool, limits: Limits, play: Play)
    requires C.Apart(Witness(utf8).cells, play.keys) && C.Apart(Witness(utf8).index.terms, play.terms)
    requires LawfulCodec(Witness(utf8).codec)
    requires forall k :: k in InitialCells(limits) ==> CellKeys.Encode(k) in play.keys
    ensures GenesisInPlay(Witness(utf8), limits, play) && StateInPlay(Witness(utf8), InitialCells(limits))
  {
    InitialCovered(play, limits);
    CoveredInPlay(utf8, play, InitialCells(limits));
    GenesisKeysIn(limits, play);
  }

  lemma {:induction false} StatesInPlay(utf8: Bytes -> bool, keys: set<Bytes>, terms: set<Bytes>)
    requires C.Apart(Witness(utf8).cells, keys) && C.Apart(Witness(utf8).index.terms, terms)
    requires LawfulCodec(Witness(utf8).codec)
    ensures Engine.AllInPlay(Witness(utf8), AllCovered(keys, terms))
  {
    var play := AllCovered(keys, terms);
    forall cells | cells in play.states
      ensures StateInPlay(Witness(utf8), cells)
    {
      assert Covers(play, cells);
      CoveredInPlay(utf8, play, cells);
    }
  }

  lemma {:induction false} InitialCovered(play: Play, limits: Limits)
    requires forall k :: k in InitialCells(limits) ==> CellKeys.Encode(k) in play.keys
    ensures Covers(play, InitialCells(limits))
  {
    InitialPlain(limits);
  }

  lemma {:induction false} GenesisKeysIn(limits: Limits, play: Play)
    requires forall k :: k in InitialCells(limits) ==> CellKeys.Encode(k) in play.keys
    ensures forall i :: 0 <= i < |InitialEdits(limits)| ==> CellKeys.Encode(InitialEdits(limits)[i].0) in play.keys
  {
    forall i | 0 <= i < |InitialEdits(limits)|
      ensures InitialEdits(limits)[i].0 in InitialCells(limits)
    {
      forall j | 0 <= j < |InitialEdits(limits)|
        ensures InitialEdits(limits)[j].1.Some?
      {
        if j < |LimitEdits(limits, 3)| {
          LimitEditOk(v => true, limits, 3, j);
        }
      }
      AllPuts(InitialEdits(limits), i);
    }
  }

  /** What is put and never deleted is there. */
  lemma {:induction false} AllPuts(edits: seq<S.CellEdit>, i: nat)
    requires i < |edits| && forall j :: 0 <= j < |edits| ==> edits[j].1.Some?
    ensures edits[i].0 in S.Updated(map[], edits)
  {
    S.UpdatedLast(map[], edits, edits[i].0);
    LastNone(edits, edits[i].0);
    LastIn(edits, edits[i].0);
  }

  // ---- A play with the genesis keys ----

  /** The genesis keys, and the key of the first roots. */
  ghost predicate EarlyKey(limits: Limits, k: CellKey) {
    k in InitialCells(limits) || k == RootsKey(0)
  }

  /** A digest byte of an encoded key: the record ID's low byte, or a byte of the name. */
  lemma {:induction false} PrintedId(k: CellKey)
    ensures Hasher(CellKeys.Encode(k))[1] == k.id % 256
  {
    assert ToBytes(k.id, 8)[7] == k.id % 256 && CellKeys.Encode(k)[7] == k.id % 256;
  }

  lemma {:induction false} Printed(k: CellKey, j: nat)
    requires j < 30
    ensures Hasher(CellKeys.Encode(k))[2 + j] == ByteAt(k.name, j)
  {
    var b := CellKeys.Encode(k);
    assert j < |k.name| ==> b[8 + j] == k.name[j];
  }

  /** The early key with this digest. */
  ghost function KeyFrom(h: Hash): CellKey {
    if h[3] == 107 then Ident(h[1])
    else if h[3] == 110 then Allocator()
    else if h[1] == 0 then Limit(if h[6] == 67 then 0 else if h[6] == 83 then 1 else 2)
    else if h[1] == 2 then RootsKey(0)
    else Binding(ReservedKey((h[3], h[7], h[8])))
  }

  /** The reserved key with these three bytes. */
  ghost function ReservedKey(p: (byte, byte, byte)): RecordKey {
    var i := if p == (112, 109, 115) then 0
             else if p == (97, 99, 0) then 1
             else if p == (114, 115, 0) then 2
             else if p == (114, 114, 100) then 3
             else if p == (114, 73, 110) then 4
             else if p == (109, 114, 105) then 5
             else 6;
    Catalogue()[i].1
  }

  lemma {:induction false} IdentFrom(i: nat)
    requires i < 7
    ensures KeyFrom(Hasher(CellKeys.Encode(Ident(Catalogue()[i].0)))) == Ident(Catalogue()[i].0)
  {
    var k := Ident(Catalogue()[i].0);
    CatalogueDistinct(i, i);
    PrintedId(k);
    Printed(k, 1);
    assert ByteAt(KeyName(), 1) == 107;
  }

  lemma {:induction false} BindingFrom(i: nat)
    requires i < 7
    ensures KeyFrom(Hasher(CellKeys.Encode(Binding(Catalogue()[i].1)))) == Binding(Catalogue()[i].1)
  {
    PrintedId(Binding(Catalogue()[i].1));
    BindingPrint(i);
    ReservedIs(i);
  }

  lemma {:induction false} BindingPrint(i: nat)
    requires i < 7
    ensures var h := Hasher(CellKeys.Encode(Binding(Catalogue()[i].1)));
            (h[3], h[7], h[8]) == Prints()[i]
  {
    var k := Binding(Catalogue()[i].1);
    Printed(k, 1);
    Printed(k, 5);
    Printed(k, 6);
    Fingerprint(i);
  }

  lemma {:induction false} ReservedIs(i: nat)
    requires i < 7
    ensures ReservedKey(Prints()[i]) == Catalogue()[i].1
    ensures Prints()[i].0 != 107 && Prints()[i].0 != 110
  {
  }

  lemma {:induction false} LimitFrom(i: nat)
    requires i < 3
    ensures KeyFrom(Hasher(CellKeys.Encode(Limit(i)))) == Limit(i)
  {
    PrintedId(Limit(i));
    Printed(Limit(i), 1);
    Printed(Limit(i), 4);
    assert ByteAt(LimitName(i), 1) == 109;
    assert ByteAt(LimitName(i), 4) == [67, 83, 66][i];
  }

  lemma {:induction false} AllocatorFrom()
    ensures KeyFrom(Hasher(CellKeys.Encode(Allocator()))) == Allocator()
  {
    Printed(Allocator(), 1);
    assert ByteAt(NextName(), 1) == 110;
  }

  lemma {:induction false} RootsFrom()
    ensures KeyFrom(Hasher(CellKeys.Encode(RootsKey(0)))) == RootsKey(0)
  {
    RootsPrint(ToBytes(0, 8));
    ZeroBytes(8, 1);
  }

  /** A name of zero bytes below the roots record. */
  lemma {:induction false} RootsPrint(name: Bytes)
    requires |name| == 8
    ensures name[1] == 0 ==> KeyFrom(Hasher(CellKeys.Encode(CellKey(ROOTS, name)))) == RootsKey(0)
  {
    PrintedId(CellKey(ROOTS, name));
    Printed(CellKey(ROOTS, name), 1);
  }

  lemma {:induction false} ZeroBytes(n: nat, i: nat)
    requires i < n
    ensures ToBytes(0, n)[i] == 0
    decreases n
  {
    if i < n - 1 {
      ZeroBytes(n - 1, i);
    }
  }

  lemma {:induction false} EarlyFrom(limits: Limits, k: CellKey)
    requires EarlyKey(limits, k)
    ensures KeyFrom(Hasher(CellKeys.Encode(k))) == k
  {
    InitialIs(limits);
    AllocatorFrom();
    RootsFrom();
    if k in InitialCells(limits) && SystemCell(k, 7) {
      var i :| 0 <= i < 7 && (k == Ident(Catalogue()[i].0) || k == Binding(Catalogue()[i].1));
      IdentFrom(i);
      BindingFrom(i);
    } else if k != Allocator() && k != RootsKey(0) {
      LimitFrom(0);
      LimitFrom(1);
      LimitFrom(2);
    }
  }

  ghost function EarlyKeys(limits: Limits): set<Bytes> {
    (set k | k in InitialCells(limits) :: CellKeys.Encode(k)) + {CellKeys.Encode(RootsKey(0))}
  }

  lemma {:induction false} EarlyApart(utf8: Bytes -> bool, limits: Limits)
    ensures C.Apart(Witness(utf8).cells, EarlyKeys(limits))
  {
    var keys := EarlyKeys(limits);
    forall a, b | a in keys && b in keys && Scheme.Route(Marker(), a) == Scheme.Route(Marker(), b)
      ensures a == b
    {
      var k :| EarlyKey(limits, k) && CellKeys.Encode(k) == a;
      var l :| EarlyKey(limits, l) && CellKeys.Encode(l) == b;
      RoutesTell(Marker(), a, b);
      EarlyFrom(limits, k);
      EarlyFrom(limits, l);
    }
  }

  lemma {:induction false} PublishedCovered(limits: Limits, head: Head)
    requires head.commit == 0
    ensures RecordRuns.Publish(head, InitialCells(limits)) in AllCovered(EarlyKeys(limits), {}).states
  {
    InitialCovered(Play(EarlyKeys(limits), {}, iset{}), limits);
    assert RootsValue(head).indexable == false;
  }

  /** A hash function, a codec and content in play under which runs start from genesis and, whatever
      the genesis roots turn out to be, may publish over it. */
  lemma {:induction false} SetupExists(utf8: Bytes -> bool, d: Deployment) returns (u: Setup, play: Play)
    requires LimitsFit(d.limits)
    ensures Engine.GivenFor(u, d, play) && u.codec.key(RootsKey(0)) in play.keys
    ensures forall head: Head :: head.commit == 0 ==> RecordRuns.Publish(head, InitialCells(d.limits)) in play.states
  {
    u, play := Witness(utf8), AllCovered(EarlyKeys(d.limits), {});
    EarlyApart(utf8, d.limits);
    RunsCanStart(utf8, d, EarlyKeys(d.limits), {});
    forall head: Head | head.commit == 0
      ensures RecordRuns.Publish(head, InitialCells(d.limits)) in play.states
    {
      PublishedCovered(d.limits, head);
    }
  }

  // ---- Two states with roots that tell them apart ----

  /** A state of one field: the allocator at `n`. */
  ghost function OneField(n: RecordId): CellMap {
    map[Allocator() := IdValue(n)]
  }

  ghost function FieldLeaf(n: RecordId): Bytes {
    [CELL_LEAF] + Hasher(CellKeys.Encode(Allocator())) + EncodeValue(IdValue(n))
  }

  const FAR: RecordId := 0x1_0000_0000

  /** What is hashed for the two states: nothing, the key, and the two leaves. */
  ghost function TwoFields(): iset<Bytes> {
    iset{[], CellKeys.Encode(Allocator()), FieldLeaf(0), FieldLeaf(FAR)}
  }

  lemma {:induction false} FieldPrint(n: RecordId)
    ensures Hasher(FieldLeaf(n))[1] == 116 && Hasher(FieldLeaf(n))[31] == ToBytes(n, 8)[3]
  {
    var h, v := Hasher(CellKeys.Encode(Allocator())), EncodeValue(IdValue(n));
    var b := [CELL_LEAF] + h + v;
    Printed(Allocator(), 4);
    assert b[7] == h[6] && h[6] == ByteAt(NextName(), 4) == 116;
    assert b[37] == v[4] && v[4] == ToBytes(n, 8)[3];
  }

  lemma {:induction false} FarByte()
    ensures ToBytes(FAR, 8)[3] == 1 && ToBytes(0, 8)[3] == 0
  {
    ZeroBytes(8, 3);
    assert ToBytes(1, 4)[3] == 1;
    assert ToBytes(0x100, 5)[3] == 1;
    assert ToBytes(0x1_0000, 6)[3] == 1;
    assert ToBytes(0x100_0000, 7)[3] == 1;
  }

  lemma {:induction false} FieldsApart()
    ensures CollisionFree(Marker(), TwoFields())
  {
    FieldPrints();
    FourApart(Marker(), [], CellKeys.Encode(Allocator()), FieldLeaf(0), FieldLeaf(FAR));
  }

  /** Four strings with four digests. */
  lemma {:induction false} FourApart(h: Bytes -> Hash, a: Bytes, b: Bytes, c: Bytes, d: Bytes)
    requires h(a) != h(b) && h(a) != h(c) && h(a) != h(d) && h(b) != h(c) && h(b) != h(d) && h(c) != h(d)
    ensures CollisionFree(h, iset{a, b, c, d})
  {
  }

  lemma {:induction false} FieldPrints()
    ensures Hasher([])[0] == 255 && Hasher(FieldLeaf(0))[0] == CELL_LEAF && Hasher(FieldLeaf(FAR))[0] == CELL_LEAF
    ensures Hasher(CellKeys.Encode(Allocator()))[0] == 0 && Hasher(CellKeys.Encode(Allocator()))[1] == ALLOC
    ensures Hasher(FieldLeaf(0))[1] == 116 && Hasher(FieldLeaf(FAR))[1] == 116
    ensures Hasher(FieldLeaf(0))[31] == 0 && Hasher(FieldLeaf(FAR))[31] == 1
  {
    PrintedId(Allocator());
    FieldPrint(0);
    FieldPrint(FAR);
    FarByte();
    assert CellKeys.Encode(Allocator())[0] == ToBytes(ALLOC, 8)[0] == 0 by {
      assert ToBytes(0, 1)[0] == 0;
      assert ToBytes(0, 2)[0] == 0;
      assert ToBytes(0, 4)[0] == 0;
      assert ToBytes(0, 6)[0] == 0;
    }
    assert FieldLeaf(0)[0] == CELL_LEAF && FieldLeaf(FAR)[0] == CELL_LEAF;
  }

  /** A map of one leaf has no branches. */
  lemma {:induction false} OneLeaf(env: Env, m: Leaves, p: Path, nodes: iset<Node>)
    requires m.Keys == {p}
    ensures MapIn(env, m, nodes)
  {
    forall t: Tree | TrieFor(env.width, t, m)
      ensures !t.Fork?
    {
      if t.Fork? {
        var a, b := TwoPaths(env.width, t, []);
      }
    }
  }

  lemma {:induction false} FieldWithin(utf8: Bytes -> bool, n: RecordId)
    requires n == 0 || n == FAR
    ensures CellsWithin(Witness(utf8), ContentFor(Marker(), Packed(), TwoFields()), OneField(n))
  {
    var u, c := Witness(utf8), ContentFor(Marker(), Packed(), TwoFields());
    Engine.EngineCodec(utf8);
    OneFlat(u.codec, Allocator(), IdValue(n));
    FieldInPlay(n);
    OneRowWithin(u.cells, c.cellNodes, c.cells, CellKeys.Encode(Allocator()), EncodeValue(IdValue(n)));
  }

  lemma {:induction false} OneFlat(c: Codec, k: CellKey, v: CellValue)
    requires LawfulCodec(c)
    ensures S.FlatOf(c, map[k := v]) == map[c.key(k) := c.value(v)]
  {
    var flat := S.FlatOf(c, map[k := v]);
    assert flat.Keys == {c.key(k)};
  }

  lemma {:induction false} FieldInPlay(n: RecordId)
    requires n == 0 || n == FAR
    ensures (CellKeys.Encode(Allocator()), EncodeValue(IdValue(n))) in HashedRows(Marker(), TwoFields(), CELL_LEAF)
  {
  }

  lemma {:induction false} OneRowWithin(a: C.Auth, nodes: iset<Node>, pairs: iset<(Bytes, Bytes)>, key: Bytes,
                                        value: Bytes)
    requires (key, value) in pairs
    ensures Binds.Within(a, nodes, pairs, map[key := value])
  {
    var flat := map[key := value];
    assert C.Image(a, flat).Keys == {a.route(key)};
    OneLeaf(a.env, C.Image(a, flat), a.route(key), nodes);
  }

  lemma {:induction false} NoIndexWithin(utf8: Bytes -> bool, n: RecordId, index: FlatIndex)
    requires IsIndex(index, OneField(n))
    ensures IndexWithin(Witness(utf8), ContentFor(Marker(), Packed(), TwoFields()), index)
  {
    var u, c := Witness(utf8), ContentFor(Marker(), Packed(), TwoFields());
    NothingIndexed(OneField(n));
    forall t
      ensures t !in index
    {
    }
    assert index == map[];
    assert Image(u.index.bitmaps, {}) == map[];
    NoBranches(u.index.bitmaps.trie, c.chunkNodes);
    NoBranches(u.index.terms.env, c.termNodes);
    forall flat | I.TermRows(u.index, flat, index)
      ensures Binds.Within(u.index.terms, c.termNodes, c.terms, flat)
    {
      assert flat == map[] && C.Image(u.index.terms, flat) == map[];
    }
  }

  /** What the roots are asked to bind can be met, by states that differ. */
  lemma {:induction false} BindingIsMet(utf8: Bytes -> bool)
    ensures CollisionFree(Marker(), TwoFields()) && [] in TwoFields() && OneField(0) != OneField(FAR)
    ensures Scheme.Hashed(Marker(), utf8, Packed(), Everything(), TwoFields(), OneField(0))
    ensures Scheme.Hashed(Marker(), utf8, Packed(), Everything(), TwoFields(), OneField(FAR))
  {
    FieldsApart();
    FarByte();
    FieldHashed(utf8, 0);
    FieldHashed(utf8, FAR);
    assert OneField(0)[Allocator()].stored[3] != OneField(FAR)[Allocator()].stored[3];
  }

  lemma {:induction false} FieldHashed(utf8: Bytes -> bool, n: RecordId)
    requires n == 0 || n == FAR
    ensures Scheme.Hashed(Marker(), utf8, Packed(), Everything(), TwoFields(), OneField(n))
  {
    FieldWithin(utf8, n);
    forall index | IsIndex(index, OneField(n))
      ensures IndexWithin(Witness(utf8), ContentFor(Marker(), Packed(), TwoFields()), index)
    {
      NoIndexWithin(utf8, n, index);
    }
  }
}
