/** The engine's own commitment scheme over one hash function: routes and leaves by domain byte, branch
    rows in their byte form, and rows that count only when they decode. */
module Scheme {
  import opened Wrappers
  import opened Lex
  import opened Words
  import opened CellKeys
  import opened Terms
  import opened Postings
  import opened CellValues
  import opened PathCodec
  import opened TrieModel
  import opened TrieStore
  import opened Trie
  import opened NodeCodec
  import opened Records
  import opened Seal
  import opened TrieDigest
  import opened Binds
  import Cursor
  import System
  import Engine
  import Opening
  import B = Bitmaps
  import C = Commitment
  import I = IndexStore
  import S = CellStore

  const CELL_LEAF: byte := 0
  const CELL_BRANCH: byte := 1
  const INDEX_LEAF: byte := 2
  const INDEX_BRANCH: byte := 3
  const BITMAP_LEAF: byte := 4
  const BITMAP_BRANCH: byte := 5

  /** The content in play, table by table. */
  datatype Stage = Stage(cells: C.Content, terms: C.Content, bitmaps: B.BitmapContent)

  /** A canonical container codec. */
  datatype Packing = Packing(pack: B.Container -> Bytes, unpack: Bytes -> Option<B.Container>)

  ghost predicate Canonical(p: Packing) {
    && (forall c: B.Container :: c.offsets != {} ==> p.unpack(p.pack(c)) == Some(c))
    && (forall b: Bytes :: p.unpack(b).Some? ==> p.unpack(b).value.offsets != {} && p.pack(p.unpack(b).value) == b)
  }

  /** A path is the digest of the key. */
  function Route(hasher: Bytes -> Hash, key: Bytes): (p: Path)
    ensures |p| == 64
  {
    Nibbles(hasher(key))
  }

  /** A leaf binds the whole path to the row's value. */
  function LeafDigest(hasher: Bytes -> Hash, domain: byte, key: Bytes, value: Bytes): Hash {
    hasher([domain] + hasher(key) + value)
  }

  function CellAuth(hasher: Bytes -> Hash, utf8: Bytes -> bool, play: C.Content): C.Auth {
    C.Auth(TableEnv(32, CELL_BRANCH, hasher), k => Route(hasher, k), (k, v) => LeafDigest(hasher, CELL_LEAF, k, v),
           hasher([]),
           (k, v) => CellKeys.Decode(k).Some? && ParseValue(utf8, v).Some?, play)
  }

  function TermAuth(hasher: Bytes -> Hash, utf8: Bytes -> bool, play: C.Content): C.Auth {
    C.Auth(TableEnv(32, INDEX_BRANCH, hasher), t => Route(hasher, t), (t, h) => LeafDigest(hasher, INDEX_LEAF, t, h),
           hasher([]),
           (t, h) => Terms.Decode(utf8, t).Ok? && |h| == 32 && h != hasher([]), play)
  }

  function BitmapsOf(hasher: Bytes -> Hash, p: Packing, play: B.BitmapContent): B.BitmapEnv {
    B.BitmapEnv(TableEnv(6, BITMAP_BRANCH, hasher), p.pack, p.unpack, b => hasher([BITMAP_LEAF] + b), hasher([]), play)
  }

  /** The engine over a hash function, with this content in play. */
  function SetupOf(hasher: Bytes -> Hash, utf8: Bytes -> bool, p: Packing, stage: Stage): Setup {
    Setup(CellAuth(hasher, utf8, stage.cells),
          I.IndexEnv(BitmapsOf(hasher, p, stage.bitmaps), TermAuth(hasher, utf8, stage.terms)), CodecOf(utf8), utf8)
  }

  /** No digest in play stands for two kinds of content of one table, or for nothing. */
  ghost predicate KindsApart(hasher: Bytes -> Hash, p: Packing, stage: Stage) {
    && Disjoint(hasher, TableEnv(32, CELL_BRANCH, hasher), stage.cells)
    && Disjoint(hasher, TableEnv(32, INDEX_BRANCH, hasher), stage.terms)
    && B.Separate(BitmapsOf(hasher, p, stage.bitmaps))
  }

  ghost predicate Disjoint(hasher: Bytes -> Hash, env: Env, play: C.Content) {
    && hasher([]) !in play.leaves
    && forall n :: n in play.nodes ==> env.hash(n) !in play.leaves && env.hash(n) != hasher([])
  }

  lemma {:induction false} CellsSound(hasher: Bytes -> Hash, utf8: Bytes -> bool, p: Packing, stage: Stage)
    requires KindsApart(hasher, p, stage)
    ensures C.Sound(CellAuth(hasher, utf8, stage.cells)) && S.Admits(CellAuth(hasher, utf8, stage.cells), CodecOf(utf8))
  {
    TableLawful(32, CELL_BRANCH, hasher);
    forall k: CellKey, v: CellValue | ValueOk(utf8, v)
      ensures CellKeys.Decode(CellKeys.Encode(k)).Some? && ParseValue(utf8, EncodeValue(v)).Some?
    {
      CellKeys.DecodeEncode(k);
      ParseEncode(utf8, v);
    }
  }

  lemma {:induction false} IndexSound(hasher: Bytes -> Hash, utf8: Bytes -> bool, p: Packing, stage: Stage)
    requires KindsApart(hasher, p, stage) && Canonical(p)
    ensures C.Sound(TermAuth(hasher, utf8, stage.terms)) && B.Sound(BitmapsOf(hasher, p, stage.bitmaps))
  {
    TableLawful(32, INDEX_BRANCH, hasher);
    TableLawful(6, BITMAP_BRANCH, hasher);
  }

  /** Whatever the hash function, keeping the kinds apart in what is in play is all it takes. */
  lemma {:induction false} SchemeSound(hasher: Bytes -> Hash, utf8: Bytes -> bool, p: Packing, stage: Stage,
                                       terms: set<Bytes>)
    requires KindsApart(hasher, p, stage) && Canonical(p) && forall t :: t in terms ==> Terms.Decode(utf8, t).Ok?
    ensures Seal.Sound(SetupOf(hasher, utf8, p, stage), terms) && SystemOk(SetupOf(hasher, utf8, p, stage).codec.ok)
  {
    CellsSound(hasher, utf8, p, stage);
    IndexSound(hasher, utf8, p, stage);
    Engine.EngineCodec(utf8);
    var u := SetupOf(hasher, utf8, p, stage);
    assert forall t, h: Hash :: t in terms && h != u.index.bitmaps.empty ==> u.index.terms.wellFormed(t, h);
  }

  /** Keys route alike only when their digests are equal. */
  lemma {:induction false} RoutesTell(hasher: Bytes -> Hash, a: Bytes, b: Bytes)
    requires Route(hasher, a) == Route(hasher, b)
    ensures hasher(a) == hasher(b)
  {
    PackUnpack(hasher(a), 64);
    PackUnpack(hasher(b), 64);
  }

  // ---- Preimages in play ----

  /** The digests of the preimages with one domain byte. */
  ghost function Domain(hasher: Bytes -> Hash, preimages: iset<Bytes>, domain: byte): iset<Hash> {
    iset b | b in preimages && b != [] && b[0] == domain :: hasher(b)
  }

  lemma {:induction false} DomainsApart(hasher: Bytes -> Hash, preimages: iset<Bytes>, a: byte, b: byte)
    requires CollisionFree(hasher, preimages) && [] in preimages && a != b
    ensures Domain(hasher, preimages, a) !! Domain(hasher, preimages, b)
    ensures hasher([]) !in Domain(hasher, preimages, a)
  {
  }

  // ---- What the digests bind ----

  /** The rows whose key and leaf are among the preimages. */
  ghost function HashedRows(hasher: Bytes -> Hash, preimages: iset<Bytes>, domain: byte): iset<Cursor.Entry> {
    iset x: Cursor.Entry | x.0 in preimages && [domain] + hasher(x.0) + x.1 in preimages
  }

  ghost function HashedContainers(p: Packing, preimages: iset<Bytes>): iset<B.Container> {
    iset c: B.Container | c.offsets != {} && [BITMAP_LEAF] + p.pack(c) in preimages
  }

  /** All content whose digests are of preimages in play. */
  ghost function ContentFor(hasher: Bytes -> Hash, p: Packing, preimages: iset<Bytes>): Content {
    Content(HashedNodes(32, CELL_BRANCH, preimages), HashedRows(hasher, preimages, CELL_LEAF),
            HashedNodes(32, INDEX_BRANCH, preimages), HashedRows(hasher, preimages, INDEX_LEAF),
            HashedNodes(6, BITMAP_BRANCH, preimages), HashedContainers(p, preimages))
  }

  /** A leaf digest binds the key and the value. */
  lemma {:induction false} LeafTells(hasher: Bytes -> Hash, preimages: iset<Bytes>, domain: byte, x: Cursor.Entry,
                                     y: Cursor.Entry)
    requires CollisionFree(hasher, preimages)
    requires x in HashedRows(hasher, preimages, domain) && y in HashedRows(hasher, preimages, domain)
    requires LeafDigest(hasher, domain, x.0, x.1) == LeafDigest(hasher, domain, y.0, y.1)
    ensures x == y
  {
    var a, b := [domain] + hasher(x.0) + x.1, [domain] + hasher(y.0) + y.1;
    assert a == b;
    assert a[1..33] == hasher(x.0) && a[33..] == x.1;
    assert b[1..33] == hasher(y.0) && b[33..] == y.1;
  }

  /** Domain bytes keep leaves and branches apart. */
  lemma {:induction false} KindsOf(n: nat, leaf: byte, branch: byte, hasher: Bytes -> Hash, preimages: iset<Bytes>,
                                   places: iset<Place>)
    requires CollisionFree(hasher, preimages) && [] in preimages && leaf != branch
    requires forall x :: x in places ==> x.1 in Domain(hasher, preimages, leaf)
    ensures KindsTell(TableEnv(n, branch, hasher), hasher([]), HashedNodes(n, branch, preimages), places)
  {
    DomainsApart(hasher, preimages, leaf, branch);
    DomainsApart(hasher, preimages, branch, leaf);
    HashedIn(n, branch, hasher, preimages);
  }

  lemma {:induction false} HashedIn(n: nat, branch: byte, hasher: Bytes -> Hash, preimages: iset<Bytes>)
    ensures forall node :: node in HashedNodes(n, branch, preimages) ==>
              TableEnv(n, branch, hasher).hash(node) in Domain(hasher, preimages, branch)
  {
    forall node | node in HashedNodes(n, branch, preimages)
      ensures TableEnv(n, branch, hasher).hash(node) in Domain(hasher, preimages, branch)
    {
      var b := [branch] + HashPayload(CompactOf(node.prefix, node.children));
      assert b in preimages && b[0] == branch;
    }
  }

  /** A table whose branches are hashed by one domain and whose leaves bind path and value by another. */
  lemma {:induction false} TableBindsHere(a: C.Auth, leaf: byte, branch: byte, hasher: Bytes -> Hash,
                                          preimages: iset<Bytes>)
    requires CollisionFree(hasher, preimages) && [] in preimages && leaf != branch
    requires a.env == TableEnv(32, branch, hasher) && a.empty == hasher([])
    requires forall k, v :: a.leaf(k, v) == LeafDigest(hasher, leaf, k, v)
    ensures TableBinds(a, HashedNodes(32, branch, preimages), HashedRows(hasher, preimages, leaf))
  {
    var pairs := HashedRows(hasher, preimages, leaf);
    forall x, y | x in pairs && y in pairs && a.leaf(x.0, x.1) == a.leaf(y.0, y.1)
      ensures x == y
    {
      LeafTells(hasher, preimages, leaf, x, y);
    }
    TableTells(32, branch, hasher, preimages);
    forall p | p in Leafed(a, pairs)
      ensures p.1 in Domain(hasher, preimages, leaf)
    {
      var x :| x in pairs && p == (a.route(x.0), a.leaf(x.0, x.1));
      var b := [leaf] + hasher(x.0) + x.1;
      assert b in preimages && b[0] == leaf;
    }
    KindsOf(32, leaf, branch, hasher, preimages, Leafed(a, pairs));
  }

  lemma {:induction false} BitmapsBindHere(hasher: Bytes -> Hash, p: Packing, play: B.BitmapContent,
                                           preimages: iset<Bytes>)
    requires CollisionFree(hasher, preimages) && [] in preimages && Canonical(p)
    ensures BitmapBinds(BitmapsOf(hasher, p, play), HashedNodes(6, BITMAP_BRANCH, preimages),
                        HashedContainers(p, preimages))
  {
    var env, cs := BitmapsOf(hasher, p, play), HashedContainers(p, preimages);
    forall x, y | x in cs && y in cs && B.LeafHash(env, x) == B.LeafHash(env, y)
      ensures x == y
    {
      var a, b := [BITMAP_LEAF] + p.pack(x), [BITMAP_LEAF] + p.pack(y);
      assert a == b && a[1..] == p.pack(x) && b[1..] == p.pack(y);
      assert p.unpack(p.pack(x)) == Some(x) && p.unpack(p.pack(y)) == Some(y);
    }
    TableTells(6, BITMAP_BRANCH, hasher, preimages);
    forall q | q in Chunked(env, cs)
      ensures q.1 in Domain(hasher, preimages, BITMAP_LEAF)
    {
      var c :| c in cs && q == (B.Route(c.chunk), B.LeafHash(env, c));
      var b := [BITMAP_LEAF] + p.pack(c);
      assert b in preimages && b[0] == BITMAP_LEAF;
    }
    KindsOf(6, BITMAP_LEAF, BITMAP_BRANCH, hasher, preimages, Chunked(env, cs));
  }

  /** Where the hash does not collide on the preimages in play, every digest of the engine binds its content. */
  lemma {:induction false} SchemeBinds(hasher: Bytes -> Hash, utf8: Bytes -> bool, p: Packing, stage: Stage,
                                       preimages: iset<Bytes>)
    requires CollisionFree(hasher, preimages) && [] in preimages && Canonical(p)
    ensures SetupBinds(SetupOf(hasher, utf8, p, stage), ContentFor(hasher, p, preimages))
  {
    TableBindsHere(CellAuth(hasher, utf8, stage.cells), CELL_LEAF, CELL_BRANCH, hasher, preimages);
    TableBindsHere(TermAuth(hasher, utf8, stage.terms), INDEX_LEAF, INDEX_BRANCH, hasher, preimages);
    BitmapsBindHere(hasher, p, stage.bitmaps, preimages);
  }

  /** The engine's roots: over the program's own digests, heads of any two stores with one state root stand for
      the same cells, and with one index root for the same postings. */
  lemma {:induction false} RootsTell(hasher: Bytes -> Hash, utf8: Bytes -> bool, p: Packing, stage: Stage,
                                     preimages: iset<Bytes>, s: Snapshot, head: System.Head, cells: CellMap, play: Play,
                                     s': Snapshot, head': System.Head, cells': CellMap, play': Play)
    requires CollisionFree(hasher, preimages) && [] in preimages && Canonical(p)
    requires Hashed(hasher, utf8, p, stage, preimages, cells) && Hashed(hasher, utf8, p, stage, preimages, cells')
    requires Coherent(SetupOf(hasher, utf8, p, stage), s, head, cells, play)
    requires Coherent(SetupOf(hasher, utf8, p, stage), s', head', cells', play')
    ensures head.state == head'.state ==> cells == cells'
    ensures head.index == head'.index ==> forall t :: Rebuilt(cells, t) == Rebuilt(cells', t)
  {
    var u, c := SetupOf(hasher, utf8, p, stage), ContentFor(hasher, p, preimages);
    SchemeBinds(hasher, utf8, p, stage, preimages);
    HeadsTell(u, c, s, head, cells, play, s', head', cells', play');
  }

  /** Every preimage hashed for this state and its index is in play. */
  ghost predicate Hashed(hasher: Bytes -> Hash, utf8: Bytes -> bool, p: Packing, stage: Stage,
                         preimages: iset<Bytes>, cells: CellMap)
  {
    var u, c := SetupOf(hasher, utf8, p, stage), ContentFor(hasher, p, preimages);
    CellsWithin(u, c, cells) && forall index :: IsIndex(index, cells) ==> IndexWithin(u, c, index)
  }

  // ---- Playing over preimages ----

  /** Where the rows of a table go in its trie. */
  ghost function RowPlaces(hasher: Bytes -> Hash, preimages: iset<Bytes>, domain: byte): iset<Place> {
    iset x | x in HashedRows(hasher, preimages, domain) ::
      (Route(hasher, x.0), LeafDigest(hasher, domain, x.0, x.1))
  }

  ghost function ChunkPlacesOf(hasher: Bytes -> Hash, p: Packing, preimages: iset<Bytes>): iset<Place> {
    iset c | c in HashedContainers(p, preimages) :: (B.Route(c.chunk), hasher([BITMAP_LEAF] + p.pack(c)))
  }

  ghost function TableFor(hasher: Bytes -> Hash, preimages: iset<Bytes>, leaf: byte, branch: byte): C.Content {
    C.Content(Domain(hasher, preimages, leaf),
              Proper(HashedNodes(32, branch, preimages), RowPlaces(hasher, preimages, leaf)))
  }

  /** Everything whose digests are of preimages in play. */
  ghost function StageFor(hasher: Bytes -> Hash, p: Packing, preimages: iset<Bytes>): Stage {
    Stage(TableFor(hasher, preimages, CELL_LEAF, CELL_BRANCH), TableFor(hasher, preimages, INDEX_LEAF, INDEX_BRANCH),
          B.BitmapContent(HashedContainers(p, preimages),
                          Proper(HashedNodes(6, BITMAP_BRANCH, preimages), ChunkPlacesOf(hasher, p, preimages))))
  }

  lemma {:induction false} TableDisjoint(hasher: Bytes -> Hash, preimages: iset<Bytes>, leaf: byte, branch: byte)
    requires CollisionFree(hasher, preimages) && [] in preimages && leaf != branch
    ensures Disjoint(hasher, TableEnv(32, branch, hasher), TableFor(hasher, preimages, leaf, branch))
  {
    DomainsApart(hasher, preimages, leaf, branch);
    DomainsApart(hasher, preimages, branch, leaf);
    HashedIn(32, branch, hasher, preimages);
  }

  /** Domain bytes keep the kinds apart wherever the hash does not collide on what is in play. */
  lemma {:induction false} DomainsSuffice(hasher: Bytes -> Hash, p: Packing, preimages: iset<Bytes>)
    requires CollisionFree(hasher, preimages) && [] in preimages
    ensures KindsApart(hasher, p, StageFor(hasher, p, preimages))
  {
    TableDisjoint(hasher, preimages, CELL_LEAF, CELL_BRANCH);
    TableDisjoint(hasher, preimages, INDEX_LEAF, INDEX_BRANCH);
    DomainsApart(hasher, preimages, BITMAP_LEAF, BITMAP_BRANCH);
    DomainsApart(hasher, preimages, BITMAP_BRANCH, BITMAP_LEAF);
    HashedIn(6, BITMAP_BRANCH, hasher, preimages);
    var env := BitmapsOf(hasher, p, StageFor(hasher, p, preimages).bitmaps);
    forall c | c in HashedContainers(p, preimages)
      ensures B.LeafHash(env, c) in Domain(hasher, preimages, BITMAP_LEAF)
    {
      var b := [BITMAP_LEAF] + p.pack(c);
      assert b in preimages && b[0] == BITMAP_LEAF;
    }
  }

  /** No two contents in play share a digest, in any table. */
  ghost predicate Told(u: Setup) {
    && Distinguishes(u.cells.env, u.cells.play.nodes)
    && Distinguishes(u.index.terms.env, u.index.terms.play.nodes)
    && Distinguishes(u.index.bitmaps.trie, u.index.bitmaps.play.nodes)
    && B.ContainersTell(u.index.bitmaps)
  }

  /** Where the hash does not collide on the preimages in play, no content can meet another under its digest. */
  lemma {:induction false} NoConflicts(hasher: Bytes -> Hash, utf8: Bytes -> bool, p: Packing, preimages: iset<Bytes>)
    requires CollisionFree(hasher, preimages) && [] in preimages && Canonical(p)
    ensures Told(SetupOf(hasher, utf8, p, StageFor(hasher, p, preimages)))
  {
    var stage := StageFor(hasher, p, preimages);
    var u, c := SetupOf(hasher, utf8, p, stage), ContentFor(hasher, p, preimages);
    SchemeBinds(hasher, utf8, p, stage, preimages);
    TablePlaces(u.cells, c.cellNodes, c.cells);
    TablePlaces(u.index.terms, c.termNodes, c.terms);
    ChunkPlaces(u.index.bitmaps, c.chunkNodes, c.containers);
    assert Leafed(u.cells, c.cells) == RowPlaces(hasher, preimages, CELL_LEAF);
    assert Leafed(u.index.terms, c.terms) == RowPlaces(hasher, preimages, INDEX_LEAF);
    assert Chunked(u.index.bitmaps, c.containers) == ChunkPlacesOf(hasher, p, preimages);
    ShapesDistinguish(u.cells.env, c.cellNodes, Leafed(u.cells, c.cells));
    ShapesDistinguish(u.index.terms.env, c.termNodes, Leafed(u.index.terms, c.terms));
    ShapesDistinguish(u.index.bitmaps.trie, c.chunkNodes, Chunked(u.index.bitmaps, c.containers));
  }

  /** Over content whose digests are told apart, only storage stops initialization, and only storage or the
      last commit number stops a seal. */
  lemma {:induction false} OnlyStorageHinders(u: Setup, head: System.Head, e: SealError, opening: Opening.OpenError)
    requires Told(u)
    ensures Opening.Hindered(u, opening) ==> FAULTS && opening == Opening.Failed
    ensures Engine.Blameless(u, e, head) ==> FAULTS || head.commit + 1 == U64
  {
  }
}
