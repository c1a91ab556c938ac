/** A term's postings: record IDs cut into chunks, each chunk one content-addressed container below
    a trie over the chunk numbers. */
module Bitmaps {
  import opened Wrappers
  import opened Lex
  import opened Words
  import opened Batch
  import opened CellKeys
  import opened PathCodec
  import opened TrieModel
  import opened TrieStore
  import opened TrieBatch
  import opened Trie
  import TrieRead
  import TrieWalk

  /** The high 48 bits of a record ID, and the low 16. */
  type Chunk = x: int | 0 <= x < 0x1_0000_0000_0000
  type Offset = x: int | 0 <= x < 0x1_0000

  datatype Container = Container(chunk: Chunk, offsets: set<Offset>)

  /** The containers and the branches in play. */
  datatype BitmapContent = BitmapContent(containers: iset<Container>, nodes: iset<Node>)

  /** The chunk trie, the container codec, the digests of containers and of nothing, and those in play. */
  datatype BitmapEnv = BitmapEnv(
    trie: Env,
    pack: Container -> Bytes,
    unpack: Bytes -> Option<Container>,
    digest: Bytes -> Hash,
    empty: Hash,
    play: BitmapContent)

  datatype IndexError =
    | Merkle(error: MerkleError)
    | MissingContainer | ContainerMismatch | BadContainer | EmptyRoot | WrongChunk
    | Unsorted
    | ConflictingContent

  /** A storage failure, where storage may fail. */
  predicate Failure(e: IndexError) {
    e.Merkle? && Faulted(e.error)
  }

  /** What may stop storing a container: storage, or two containers in play under one digest. */
  ghost predicate Excuse(env: BitmapEnv, e: IndexError) {
    Failure(e) || (e == ConflictingContent && !ContainersTell(env))
  }

  /** What may stop an update: the same, or two branches in play under one digest. */
  ghost predicate Expects(env: BitmapEnv, e: IndexError) {
    Excuse(env, e) || (e == Merkle(ConflictingBranch) && !Distinguishes(env.trie, env.play.nodes))
  }

  /** No two containers in play have one digest. */
  ghost predicate ContainersTell(env: BitmapEnv) {
    forall x, y :: x in env.play.containers && y in env.play.containers && LeafHash(env, x) == LeafHash(env, y) ==>
      x == y
  }

  /** Only canonical bytes of nonempty containers decode; digests of the three kinds stay apart. */
  ghost predicate Sound(env: BitmapEnv) {
    && Lawful(env.trie) && env.trie.width == 12
    && (forall c: Container :: c.offsets != {} ==> env.unpack(env.pack(c)) == Some(c))
    && (forall b: Bytes :: env.unpack(b).Some? ==>
          env.unpack(b).value.offsets != {} && env.pack(env.unpack(b).value) == b)
    && Separate(env)
  }

  /** No digest in play is both a container's and a branch's, or the digest of nothing. */
  ghost predicate Separate(env: BitmapEnv) {
    && (forall c, n :: c in env.play.containers && n in env.play.nodes ==> LeafHash(env, c) != env.trie.hash(n))
    && (forall c :: c in env.play.containers ==> LeafHash(env, c) != env.empty)
    && (forall n :: n in env.play.nodes ==> env.trie.hash(n) != env.empty)
  }

  function ChunkOf(id: RecordId): Chunk {
    id / 0x1_0000
  }

  function OffsetOf(id: RecordId): Offset {
    id % 0x1_0000
  }

  function Join(c: Chunk, o: Offset): RecordId {
    c * 0x1_0000 + o
  }

  function Route(c: Chunk): (p: Path)
    ensures |p| == 12
  {
    Nibbles(ToBytes(c, 6))
  }

  /** Chunk order is path order. */
  lemma {:induction false} RouteOrder(a: Chunk, b: Chunk)
    ensures a < b <==> PathLess(Route(a), Route(b))
    ensures Route(a) == Route(b) ==> a == b
  {
    var x, y := ToBytes(a, 6), ToBytes(b, 6);
    assert Power256(6) == 0x1_0000_0000_0000 by {
      assert Power256(3) == 0x100_0000;
    }
    FromToBytes(a, 6);
    FromToBytes(b, 6);
    WordOrder(x, y);
    WordOrder(y, x);
    SameOrder(x, y);
    SameOrder(y, x);
    Irreflexive(Route(a));
  }

  lemma {:induction false} RoutesApart()
    ensures forall a: Chunk, b: Chunk :: Route(a) == Route(b) ==> a == b
  {
    forall a: Chunk, b: Chunk | Route(a) == Route(b)
      ensures a == b
    {
      RouteOrder(a, b);
    }
  }

  // ---- What a root holds ----

  /** The offsets of one chunk. */
  ghost function Part(ids: set<RecordId>, c: Chunk): set<Offset> {
    set id | id in ids && ChunkOf(id) == c :: OffsetOf(id)
  }

  lemma {:induction false} PartHas(ids: set<RecordId>, c: Chunk, o: Offset)
    ensures o in Part(ids, c) <==> Join(c, o) in ids
  {
    assert ChunkOf(Join(c, o)) == c && OffsetOf(Join(c, o)) == o;
    assert forall id: RecordId :: id == Join(ChunkOf(id), OffsetOf(id));
  }

  function LeafHash(env: BitmapEnv, c: Container): Hash {
    env.digest(env.pack(c))
  }

  /** The leaves of the chunk trie for a set of record IDs. */
  ghost function Image(env: BitmapEnv, ids: set<RecordId>): Leaves {
    RoutesApart();
    map id | id in ids :: Route(ChunkOf(id)) := LeafHash(env, Container(ChunkOf(id), Part(ids, ChunkOf(id))))
  }

  lemma {:induction false} ImageAt(env: BitmapEnv, ids: set<RecordId>, c: Chunk)
    ensures Get(Image(env, ids), Route(c)) == if Part(ids, c) == {} then None
              else Some(LeafHash(env, Container(c, Part(ids, c))))
  {
    RoutesApart();
    if o :| o in Part(ids, c) {
      PartHas(ids, c, o);
      assert ChunkOf(Join(c, o)) == c;
      assert Route(ChunkOf(Join(c, o))) in Image(env, ids);
    }
    assert forall id :: id in ids && ChunkOf(id) == c ==> OffsetOf(id) in Part(ids, c);
  }

  lemma {:induction false} ImageKey(env: BitmapEnv, ids: set<RecordId>, p: Path) returns (c: Chunk)
    requires p in Image(env, ids)
    ensures p == Route(c) && Part(ids, c) != {} && Image(env, ids)[p] == LeafHash(env, Container(c, Part(ids, c)))
  {
    var id :| id in ids && Route(ChunkOf(id)) == p;
    c := ChunkOf(id);
    assert OffsetOf(id) in Part(ids, c);
    ImageAt(env, ids, c);
  }

  /** Every container has its row. */
  ghost predicate Contained(env: BitmapEnv, containers: Rows, ids: set<RecordId>) {
    forall c: Chunk :: Part(ids, c) != {} ==>
      Get(containers, LeafHash(env, Container(c, Part(ids, c)))) == Some(env.pack(Container(c, Part(ids, c))))
  }

  /** The row of a container in play. */
  ghost predicate ContainerRow(env: BitmapEnv, h: Hash, b: Bytes) {
    exists c :: c in env.play.containers && LeafHash(env, c) == h && env.pack(c) == b
  }

  /** Every container row is that of a container in play. */
  ghost predicate Addressed(env: BitmapEnv, containers: Rows) {
    forall h :: h in containers ==> ContainerRow(env, h, containers[h])
  }

  /** Every row of the two tables is of content in play. */
  ghost predicate Filed(env: BitmapEnv, rows: Rows, containers: Rows) {
    Addressed(env, containers) && RowsFrom(env.trie, rows, env.play.nodes)
  }

  /** The containers of these record IDs are in play. */
  ghost predicate ChunksInPlay(env: BitmapEnv, ids: set<RecordId>) {
    forall c: Chunk :: Part(ids, c) != {} ==> Container(c, Part(ids, c)) in env.play.containers
  }

  /** Every digest these record IDs give rise to is in play. */
  ghost predicate IdsInPlay(env: BitmapEnv, ids: set<RecordId>) {
    ChunksInPlay(env, ids) && MapIn(env.trie, Image(env, ids), env.play.nodes)
  }

  /** This root holds exactly these record IDs. */
  ghost predicate Stores(env: BitmapEnv, rows: Rows, containers: Rows, root: RootRef, ids: set<RecordId>) {
    IsTrie(env.trie, rows, root, Image(env, ids)) && Contained(env, containers, ids) && IdsInPlay(env, ids)
  }

  function RootRow(env: BitmapEnv, root: RootRef): Option<Hash> {
    if root == Empty then None else Some(RootHash(env.empty, root))
  }

  /** The term's row holds exactly these record IDs; no row, none. */
  ghost predicate HoldsIds(env: BitmapEnv, rows: Rows, containers: Rows, row: Option<Hash>, ids: set<RecordId>) {
    exists root :: Stores(env, rows, containers, root, ids) && row == RootRow(env, root)
  }

  /** The row these record IDs always have: the digest of the root of their canonical trie. */
  ghost predicate CanonicalRow(env: BitmapEnv, row: Option<Hash>, ids: set<RecordId>) {
    var w := env.trie.width;
    exists t :: Canonical(w, t, []) && Holds(w, t, Image(env, ids)) && row == RootRow(env, RootOf(env.trie, t))
  }

  lemma {:induction false} HeldIsCanonical(env: BitmapEnv, rows: Rows, containers: Rows, row: Option<Hash>,
                                           ids: set<RecordId>)
    requires HoldsIds(env, rows, containers, row, ids)
    ensures CanonicalRow(env, row, ids) && IdsInPlay(env, ids)
  {
    var root :| Stores(env, rows, containers, root, ids) && row == RootRow(env, root);
    var t := TreeOf(env.trie, rows, root, Image(env, ids));
    assert root == RootOf(env.trie, t);
  }

  /** Later rows do not disturb held postings. */
  lemma {:induction false} HoldsGrows(env: BitmapEnv, rows: Rows, containers: Rows, rows': Rows, containers': Rows,
                                      row: Option<Hash>, ids: set<RecordId>)
    requires HoldsIds(env, rows, containers, row, ids) && Grows(rows, rows') && Grows(containers, containers')
    ensures HoldsIds(env, rows', containers', row, ids)
  {
    var root :| Stores(env, rows, containers, root, ids) && row == RootRow(env, root);
    RetainedRoot(env.trie, rows, rows', root, Image(env, ids));
    assert Stores(env, rows', containers', root, ids);
  }

  lemma {:induction false} EmptyMeansNone(env: BitmapEnv, rows: Rows, containers: Rows, root: RootRef,
                                          ids: set<RecordId>)
    requires Stores(env, rows, containers, root, ids)
    ensures root == Empty <==> ids == {}
  {
    var m := Image(env, ids);
    assert ids == {} <==> m == map[] by {
      if id :| id in ids {
        assert Route(ChunkOf(id)) in m;
      }
    }
    var t := TreeOf(env.trie, rows, root, m);
    if m == map[] {
      EmptyIsTrie(env.trie, rows);
      SameMapSameRoot(env.trie, rows, root, rows, Empty, map[]);
    } else {
      var p :| p in m;
      assert Lookup(t, p, 0) == Get(m, p);
    }
  }

  /** No row means no postings, and a row means some. */
  lemma {:induction false} RowMeansSome(env: BitmapEnv, rows: Rows, containers: Rows, row: Option<Hash>,
                                        ids: set<RecordId>)
    requires Sound(env) && HoldsIds(env, rows, containers, row, ids)
    ensures row == None <==> ids == {}
    ensures row.Some? ==> row.value != env.empty
  {
    var root :| Stores(env, rows, containers, root, ids) && row == RootRow(env, root);
    EmptyMeansNone(env, rows, containers, root, ids);
    if root.Leaf? {
      var _ := SoleLeaf(env, rows, containers, root, ids);
    } else if root.Branch? {
      RootIsBranch(env.trie, rows, root, Image(env, ids), env.play.nodes);
    }
  }

  /** A singleton root is its only container's digest. */
  lemma {:induction false} SoleLeaf(env: BitmapEnv, rows: Rows, containers: Rows, root: RootRef, ids: set<RecordId>)
    returns (c: Chunk)
    requires Sound(env) && Stores(env, rows, containers, root, ids) && root.Leaf?
    ensures root.path == Route(c) && Part(ids, c) != {} && root.hash == LeafHash(env, Container(c, Part(ids, c)))
    ensures forall d: Chunk :: d != c ==> Part(ids, d) == {}
  {
    var t := TreeOf(env.trie, rows, root, Image(env, ids));
    assert t == Tip(root.path, root.hash);
    assert Lookup(t, root.path, 0) == Get(Image(env, ids), root.path);
    c := ImageKey(env, ids, root.path);
    forall d: Chunk | d != c
      ensures Part(ids, d) == {}
    {
      RouteOrder(c, d);
      ImageAt(env, ids, d);
      assert Lookup(t, Route(d), 0) == Get(Image(env, ids), Route(d));
    }
  }

  /** Replacing one chunk is one edit of the trie. */
  lemma {:induction false} Replaced(env: BitmapEnv, ids: set<RecordId>, ids': set<RecordId>, c: Chunk)
    requires forall d: Chunk :: d != c ==> Part(ids', d) == Part(ids, d)
    ensures Image(env, ids') ==
            SetPath(Image(env, ids),
                    (Route(c), if Part(ids', c) == {} then None else Some(LeafHash(env, Container(c, Part(ids', c))))))
  {
    var edited := SetPath(Image(env, ids),
                          (Route(c), if Part(ids', c) == {} then None
                             else Some(LeafHash(env, Container(c, Part(ids', c))))));
    forall p: Path
      ensures Get(Image(env, ids'), p) == Get(edited, p)
    {
      if d: Chunk :| Route(d) == p {
        RouteOrder(c, d);
        ImageAt(env, ids, d);
        ImageAt(env, ids', d);
      } else {
        NoChunk(env, ids, p);
        NoChunk(env, ids', p);
      }
    }
    SameAnswers(Image(env, ids'), edited);
  }

  /** Only chunk routes are leaves. */
  lemma {:induction false} NoChunk(env: BitmapEnv, ids: set<RecordId>, p: Path)
    requires forall d: Chunk :: Route(d) != p
    ensures p !in Image(env, ids)
  {
    assert forall id :: id in ids ==> Route(ChunkOf(id)) != p;
  }

  // ---- Reading ----

  method DecodeContainer(env: BitmapEnv, hash: Hash, bytes: Bytes) returns (r: Result<Container, IndexError>)
    ensures r == if env.digest(bytes) != hash then Err(ContainerMismatch)
                 else if env.unpack(bytes).None? then Err(BadContainer) else Ok(env.unpack(bytes).value)
  {
    if env.digest(bytes) != hash {
      return Err(ContainerMismatch);
    }
    var c := env.unpack(bytes);
    r := if c.None? then Err(BadContainer) else Ok(c.value);
  }

  /** Read the container behind a leaf. */
  method LoadContainer(env: BitmapEnv, containers: Table, path: Path, hash: Hash, ghost ids: set<RecordId>,
                       ghost c: Chunk)
    returns (r: Result<Container, IndexError>)
    requires Sound(env) && Contained(env, containers.rows, ids)
    requires path == Route(c) && Part(ids, c) != {} && hash == LeafHash(env, Container(c, Part(ids, c)))
    ensures r == Ok(Container(c, Part(ids, c))) || (r.Err? && Failure(r.error))
  {
    var row := containers.Get(hash);
    if row.Err? {
      return Err(Merkle(row.error));
    }
    if row.value.None? {
      return Err(MissingContainer);
    }
    r := DecodeContainer(env, hash, row.value.value);
    if r.Ok? && Route(r.value.chunk) != path {
      return Err(WrongChunk);
    }
  }

  method AsSingleton(env: BitmapEnv, hash: Hash, bytes: Bytes)
    returns (r: Result<(RootRef, Option<Container>), IndexError>)
    ensures env.digest(bytes) == hash && env.unpack(bytes).Some? ==>
              r == Ok((Leaf(Route(env.unpack(bytes).value.chunk), hash), env.unpack(bytes)))
    ensures r.Ok? ==> env.digest(bytes) == hash && env.unpack(bytes).Some?
  {
    var c := DecodeContainer(env, hash, bytes);
    if c.Err? {
      return Err(c.error);
    }
    r := Ok((Leaf(Route(c.value.chunk), hash), Some(c.value)));
  }

  /** The root behind a term's row; a singleton's container comes with it. */
  method Reopen(env: BitmapEnv, trie: Table, containers: Table, hash: Hash, ghost root: RootRef,
                ghost ids: set<RecordId>)
    returns (r: Result<(RootRef, Option<Container>), IndexError>)
    requires Sound(env) && Addressed(env, containers.rows)
    requires Stores(env, trie.rows, containers.rows, root, ids) && RootRow(env, root) == Some(hash)
    ensures r.Ok? ==> r.value.0 == root && Cached(env, root, ids, r.value.1)
    ensures r.Err? ==> Failure(r.error)
  {
    RowIsClear(env, trie.rows, containers.rows, root, ids);
    if hash == env.empty {
      return Err(EmptyRoot);
    }
    var row := containers.Get(hash);
    if row.Err? {
      return Err(Merkle(row.error));
    }
    if row.value.Some? {
      r := AsSingleton(env, hash, row.value.value);
      return;
    }
    var node := Load(env.trie, trie, hash, []);
    if node.Err? {
      return Err(Merkle(node.error));
    }
    r := Ok((Branch(hash), None));
  }

  /** A remembered container is the singleton's. */
  ghost predicate Cached(env: BitmapEnv, root: RootRef, ids: set<RecordId>, cached: Option<Container>) {
    cached.Some? ==>
      root.Leaf? && root.path == Route(cached.value.chunk) && cached.value.offsets == Part(ids, cached.value.chunk)
  }

  /** A held root says by itself which of the two tables it belongs to. */
  lemma {:induction false} RowIsClear(env: BitmapEnv, rows: Rows, containers: Rows, root: RootRef, ids: set<RecordId>)
    requires Sound(env) && Addressed(env, containers) && Stores(env, rows, containers, root, ids) && root != Empty
    ensures root.hash != env.empty
    ensures root.Branch? ==> root.hash !in containers && LoadSpec(env.trie, rows, root.hash, []).Ok?
    ensures root.Leaf? ==>
              && root.hash in containers && env.digest(containers[root.hash]) == root.hash
              && env.unpack(containers[root.hash]).Some?
              && root.path == Route(env.unpack(containers[root.hash]).value.chunk)
              && Cached(env, root, ids, env.unpack(containers[root.hash]))
  {
    if root.Branch? {
      BranchNotContainer(env, rows, containers, root, ids);
    } else {
      var c := SoleLeaf(env, rows, containers, root, ids);
    }
  }

  lemma {:induction false} BranchNotContainer(env: BitmapEnv, rows: Rows, containers: Rows, root: RootRef,
                                              ids: set<RecordId>)
    requires Sound(env) && Addressed(env, containers) && Stores(env, rows, containers, root, ids) && root.Branch?
    ensures root.hash !in containers && root.hash != env.empty && LoadSpec(env.trie, rows, root.hash, []).Ok?
  {
    LoadsFork(env.trie, rows, root, TreeOf(env.trie, rows, root, Image(env, ids)), []);
    RootIsBranch(env.trie, rows, root, Image(env, ids), env.play.nodes);
  }

  /** The working container for a chunk: read, remembered, or empty. */
  method OpenChunk(env: BitmapEnv, trie: Table, containers: Table, root: RootRef, cached: Option<Container>, c: Chunk,
                   ghost ids: set<RecordId>)
    returns (r: Result<set<Offset>, IndexError>, kept: Option<Container>)
    requires Sound(env) && Stores(env, trie.rows, containers.rows, root, ids) && Cached(env, root, ids, cached)
    ensures r.Ok? ==> r.value == Part(ids, c)
    ensures Cached(env, root, ids, kept)
    ensures r.Err? ==> Failure(r.error)
  {
    kept := cached;
    var found, _ := TrieRead.Find(env.trie, trie, root, Route(c));
    ImageAt(env, ids, c);
    if found.Err? {
      return Err(Merkle(found.error)), kept;
    }
    if found.value.None? {
      return Ok({}), kept;
    }
    if cached.Some? {
      kept := None;
      RouteOrder(c, cached.value.chunk);
      ghost var sole := SoleLeaf(env, trie.rows, containers.rows, root, ids);
      RouteOrder(sole, cached.value.chunk);
      return Ok(cached.value.offsets), kept;
    }
    var container := LoadContainer(env, containers, Route(c), found.value.value, ids, c);
    r := if container.Ok? then Ok(container.value.offsets) else Err(container.error);
  }

  // ---- Writing ----

  function Post(ids: set<RecordId>, change: (RecordId, bool)): set<RecordId> {
    if change.1 then ids + {change.0} else ids - {change.0}
  }

  /** The postings after each change in turn. */
  function Posted(ids: set<RecordId>, changes: seq<(RecordId, bool)>): set<RecordId> {
    if changes == [] then ids else Post(Posted(ids, changes[..|changes| - 1]), changes[|changes| - 1])
  }

  /** The last change of a record decides. */
  lemma {:induction false} PostedLast(ids: set<RecordId>, changes: seq<(RecordId, bool)>, id: RecordId)
    ensures id in Posted(ids, changes) <==> if Last(changes, id).Some? then Last(changes, id).value else id in ids
    decreases |changes|
  {
    if changes != [] {
      PostedLast(ids, changes[..|changes| - 1], id);
    }
  }

  /** One posting change touches one offset of one chunk. */
  lemma {:induction false} PartPost(ids: set<RecordId>, change: (RecordId, bool), c: Chunk)
    ensures Part(Post(ids, change), c) ==
            if c != ChunkOf(change.0) then Part(ids, c)
            else if change.1 then Part(ids, c) + {OffsetOf(change.0)} else Part(ids, c) - {OffsetOf(change.0)}
  {
    assert change.0 == Join(ChunkOf(change.0), OffsetOf(change.0));
    forall o: Offset
      ensures o in Part(Post(ids, change), c) <==>
              o in if c != ChunkOf(change.0) then Part(ids, c)
                   else if change.1 then Part(ids, c) + {OffsetOf(change.0)} else Part(ids, c) - {OffsetOf(change.0)}
    {
      PartHas(Post(ids, change), c, o);
      PartHas(ids, c, o);
    }
  }

  lemma {:induction false} Untouched(ids: set<RecordId>, changes: seq<(RecordId, bool)>, c: Chunk)
    requires forall i :: 0 <= i < |changes| ==> ChunkOf(changes[i].0) != c
    ensures Part(Posted(ids, changes), c) == Part(ids, c)
    decreases |changes|
  {
    if changes != [] {
      Untouched(ids, changes[..|changes| - 1], c);
      PartPost(Posted(ids, changes[..|changes| - 1]), changes[|changes| - 1], c);
    }
  }

  /** All consecutive changes of the chunk at `i`. */
  method EditChunk(changes: seq<(RecordId, bool)>, i: nat, start: set<Offset>, ghost ids: set<RecordId>)
    returns (offsets: set<Offset>, changed: bool, j: nat)
    requires i < |changes| && start == Part(Posted(ids, changes[..i]), ChunkOf(changes[i].0))
    ensures i < j <= |changes|
    ensures forall k :: i <= k < j ==> ChunkOf(changes[k].0) == ChunkOf(changes[i].0)
    ensures j < |changes| ==> ChunkOf(changes[j].0) != ChunkOf(changes[i].0)
    ensures offsets == Part(Posted(ids, changes[..j]), ChunkOf(changes[i].0))
    ensures forall d: Chunk :: d != ChunkOf(changes[i].0) ==>
              Part(Posted(ids, changes[..j]), d) == Part(Posted(ids, changes[..i]), d)
    ensures !changed ==> offsets == start
  {
    var c := ChunkOf(changes[i].0);
    offsets, changed, j := start, false, i;
    while j < |changes| && ChunkOf(changes[j].0) == c
      invariant i <= j <= |changes|
      invariant forall k :: i <= k < j ==> ChunkOf(changes[k].0) == c
      invariant offsets == Part(Posted(ids, changes[..j]), c)
      invariant forall d: Chunk :: d != c ==> Part(Posted(ids, changes[..j]), d) == Part(Posted(ids, changes[..i]), d)
      invariant !changed ==> offsets == start
    {
      var o := OffsetOf(changes[j].0);
      assert changes[..j + 1][..j] == changes[..j];
      forall d: Chunk
        ensures Part(Posted(ids, changes[..j + 1]), d) ==
                if d != c then Part(Posted(ids, changes[..j]), d) else if changes[j].1 then offsets + {o}
                  else offsets - {o}
      {
        PartPost(Posted(ids, changes[..j]), changes[j], d);
      }
      if changes[j].1 {
        changed := changed || o !in offsets;
        offsets := offsets + {o};
      } else {
        changed := changed || o in offsets;
        offsets := offsets - {o};
      }
      j := j + 1;
    }
  }

  /** The container's row, written or already there. */
  method StoreContainer(env: BitmapEnv, containers: Table, c: Container) returns (r: Result<Hash, IndexError>)
    requires Addressed(env, containers.rows) && c in env.play.containers
    modifies containers
    ensures Grows(old(containers.rows), containers.rows) && Addressed(env, containers.rows)
    ensures r.Ok? ==> r.value == LeafHash(env, c) && Get(containers.rows, r.value) == Some(env.pack(c))
    ensures r.Err? ==> Excuse(env, r.error)
  {
    var bytes := env.pack(c);
    var hash := env.digest(bytes);
    assert ContainerRow(env, hash, bytes);
    var inserted := containers.Insert(hash, bytes);
    if inserted.Err? {
      return Err(Merkle(inserted.error));
    }
    if !inserted.value {
      var row := containers.Get(hash);
      if row.Err? {
        return Err(Merkle(row.error));
      }
      if row.value != Some(bytes) {
        assert ContainerRow(env, hash, containers.rows[hash]);
        return Err(ConflictingContent);
      }
    }
    r := Ok(hash);
  }

  /** The edit that replaces one chunk: its new container's leaf, or none. */
  method StoreChunk(env: BitmapEnv, containers: Table, c: Chunk, offsets: set<Offset>)
    returns (r: Result<Edit, IndexError>)
    requires Addressed(env, containers.rows)
    requires offsets != {} ==> Container(c, offsets) in env.play.containers
    modifies containers
    ensures Grows(old(containers.rows), containers.rows) && Addressed(env, containers.rows)
    ensures r.Ok? ==> r.value == (Route(c), if offsets == {} then None else Some(LeafHash(env, Container(c, offsets))))
    ensures r.Ok? && offsets != {} ==> Get(containers.rows, r.value.1.value) == Some(env.pack(Container(c, offsets)))
    ensures r.Err? ==> Excuse(env, r.error)
  {
    if offsets == {} {
      return Ok((Route(c), None));
    }
    var hash := StoreContainer(env, containers, Container(c, offsets));
    r := if hash.Err? then Err(hash.error) else Ok((Route(c), Some(hash.value)));
  }

  /** The changes of a chunk end at `j`. */
  predicate EndsChunk(changes: seq<(RecordId, bool)>, j: nat) {
    0 < j <= |changes| && (j == |changes| || ChunkOf(changes[j].0) != ChunkOf(changes[j - 1].0))
  }

  /** Whenever a chunk's changes are done, the containers they leave are in play, and so is all that
      the last of them leaves. */
  ghost predicate StagesInPlay(env: BitmapEnv, ids: set<RecordId>, changes: seq<(RecordId, bool)>) {
    && (forall j: nat :: EndsChunk(changes, j) ==> ChunksInPlay(env, Posted(ids, changes[..j])))
    && IdsInPlay(env, Posted(ids, changes))
  }

  lemma {:induction false} PostedConcat(ids: set<RecordId>, a: seq<(RecordId, bool)>, b: seq<(RecordId, bool)>)
    ensures Posted(ids, a + b) == Posted(Posted(ids, a), b)
    decreases |b|
  {
    if b == [] {
      assert a + b == a;
    } else {
      assert (a + b)[..|a + b| - 1] == a + b[..|b| - 1];
      PostedConcat(ids, a, b[..|b| - 1]);
    }
  }

  lemma {:induction false} ByChunkOrder(changes: seq<(RecordId, bool)>, i: nat, j: nat)
    requires ByChunk(changes) && i <= j < |changes|
    ensures ChunkOf(changes[i].0) <= ChunkOf(changes[j].0)
    decreases j - i
  {
    if i < j {
      ByChunkOrder(changes, i, j - 1);
      assert ChunkOf(changes[j - 1].0) <= ChunkOf(changes[j].0);
    }
  }

  /** In chunk order, a finished chunk is as the whole batch leaves it, and the others are as before. */
  lemma {:induction false} FinishedPart(ids: set<RecordId>, changes: seq<(RecordId, bool)>, j: nat, c: Chunk)
    requires ByChunk(changes) && EndsChunk(changes, j)
    ensures Part(Posted(ids, changes[..j]), c) in {Part(ids, c), Part(Posted(ids, changes), c)}
  {
    var a, b := changes[..j], changes[j..];
    assert changes == a + b;
    PostedConcat(ids, a, b);
    if i :| 0 <= i < j && ChunkOf(changes[i].0) == c {
      forall k | 0 <= k < |b|
        ensures ChunkOf(b[k].0) != c
      {
        ByChunkOrder(changes, i, j - 1);
        ByChunkOrder(changes, j, j + k);
        ByChunkOrder(changes, j - 1, j);
      }
      Untouched(Posted(ids, a), b, c);
    } else {
      Untouched(ids, a, c);
    }
  }

  /** Changes in chunk order stay in play if their two ends are. */
  lemma {:induction false} SortedInPlay(env: BitmapEnv, ids: set<RecordId>, changes: seq<(RecordId, bool)>)
    requires ByChunk(changes) && IdsInPlay(env, ids) && IdsInPlay(env, Posted(ids, changes))
    ensures StagesInPlay(env, ids, changes)
  {
    forall j: nat | EndsChunk(changes, j)
      ensures ChunksInPlay(env, Posted(ids, changes[..j]))
    {
      forall c: Chunk | Part(Posted(ids, changes[..j]), c) != {}
        ensures Container(c, Part(Posted(ids, changes[..j]), c)) in env.play.containers
      {
        FinishedPart(ids, changes, j, c);
      }
    }
  }

  /** The edits so far stand for the changes so far, and every container they need is stored. */
  ghost predicate Staged(env: BitmapEnv, containers: Rows, ids: set<RecordId>, edits: seq<Edit>, now: set<RecordId>) {
    && Addressed(env, containers) && Contained(env, containers, ids) && Contained(env, containers, now)
    && (forall i :: 0 <= i < |edits| ==> |edits[i].0| == 12)
    && ApplyEdits(Image(env, ids), edits) == Image(env, now)
  }

  /** One chunk more. */
  lemma {:induction false} StagedNext(env: BitmapEnv, before: Rows, after: Rows, ids: set<RecordId>, edits: seq<Edit>,
                                      now: set<RecordId>, next: set<RecordId>, c: Chunk, e: Edit)
    requires Staged(env, before, ids, edits, now) && Grows(before, after) && Addressed(env, after)
    requires forall d: Chunk :: d != c ==> Part(next, d) == Part(now, d)
    requires e == (Route(c), if Part(next, c) == {} then None else Some(LeafHash(env, Container(c, Part(next, c)))))
    requires Part(next, c) != {} ==> Get(after, e.1.value) == Some(env.pack(Container(c, Part(next, c))))
    ensures Staged(env, after, ids, edits + [e], next)
  {
    Replaced(env, now, next, c);
    assert (edits + [e])[..|edits|] == edits;
  }

  lemma {:induction false} SameParts(ids: set<RecordId>, ids': set<RecordId>)
    requires forall c: Chunk :: Part(ids, c) == Part(ids', c)
    ensures ids == ids'
  {
    forall id: RecordId
      ensures id in ids <==> id in ids'
    {
      PartHas(ids, ChunkOf(id), OffsetOf(id));
      PartHas(ids', ChunkOf(id), OffsetOf(id));
    }
  }

  /** One container's worth of changes, as at most one edit of the trie. */
  method ApplyChunk(env: BitmapEnv, trie: Table, containers: Table, root: RootRef, cached: Option<Container>,
                    changes: seq<(RecordId, bool)>, i: nat, edits: seq<Edit>, ghost ids: set<RecordId>)
    returns (r: Result<seq<Edit>, IndexError>, kept: Option<Container>, j: nat)
    requires Sound(env) && trie != containers && i < |changes|
    requires Stores(env, trie.rows, containers.rows, root, ids) && Cached(env, root, ids, cached)
    requires Staged(env, containers.rows, ids, edits, Posted(ids, changes[..i]))
    requires forall k :: 0 <= k < i ==> ChunkOf(changes[k].0) != ChunkOf(changes[i].0)
    requires StagesInPlay(env, ids, changes)
    modifies containers
    ensures Grows(old(containers.rows), containers.rows) && Addressed(env, containers.rows)
    ensures r.Ok? ==> EndsGroup(changes, i, j)
    ensures r.Ok? ==>
              Staged(env, containers.rows, ids, r.value, Posted(ids, changes[..j])) && Cached(env, root, ids, kept)
    ensures r.Err? ==> Excuse(env, r.error)
  {
    var c := ChunkOf(changes[i].0);
    var start;
    j := i;
    start, kept := OpenChunk(env, trie, containers, root, cached, c, ids);
    if start.Err? {
      return Err(start.error), kept, j;
    }
    Untouched(ids, changes[..i], c);
    r, j := EditAndStage(env, containers, changes, i, start.value, edits, ids);
  }

  /** The consecutive changes of one container, and its edit unless they cancel out. */
  method EditAndStage(env: BitmapEnv, containers: Table, changes: seq<(RecordId, bool)>, i: nat, start: set<Offset>,
                      edits: seq<Edit>, ghost ids: set<RecordId>)
    returns (r: Result<seq<Edit>, IndexError>, j: nat)
    requires i < |changes| && start == Part(Posted(ids, changes[..i]), ChunkOf(changes[i].0))
    requires Staged(env, containers.rows, ids, edits, Posted(ids, changes[..i])) && StagesInPlay(env, ids, changes)
    modifies containers
    ensures Grows(old(containers.rows), containers.rows) && Addressed(env, containers.rows) && EndsGroup(changes, i, j)
    ensures r.Ok? ==> Staged(env, containers.rows, ids, r.value, Posted(ids, changes[..j]))
    ensures r.Err? ==> Excuse(env, r.error)
  {
    ghost var now := Posted(ids, changes[..i]);
    var offsets, changed;
    offsets, changed, j := EditChunk(changes, i, start, ids);
    ghost var next := Posted(ids, changes[..j]);
    if !changed {
      SameParts(now, next);
      return Ok(edits), j;
    }
    assert EndsChunk(changes, j);
    r := StageOne(env, containers, ChunkOf(changes[i].0), offsets, edits, ids, now, next);
  }

  /** The changes from `i` to `j` are one container's, and the next is another's. */
  predicate EndsGroup(changes: seq<(RecordId, bool)>, i: nat, j: nat)
    requires i < |changes|
  {
    && i < j <= |changes|
    && (forall k :: i <= k < j ==> ChunkOf(changes[k].0) == ChunkOf(changes[i].0))
    && (j < |changes| ==> ChunkOf(changes[j].0) != ChunkOf(changes[i].0))
  }

  /** The edit of one changed container, with its row. */
  method StageOne(env: BitmapEnv, containers: Table, c: Chunk, offsets: set<Offset>, edits: seq<Edit>,
                  ghost ids: set<RecordId>, ghost now: set<RecordId>, ghost next: set<RecordId>)
    returns (r: Result<seq<Edit>, IndexError>)
    requires Staged(env, containers.rows, ids, edits, now) && offsets == Part(next, c) && ChunksInPlay(env, next)
    requires forall d: Chunk :: d != c ==> Part(next, d) == Part(now, d)
    modifies containers
    ensures Grows(old(containers.rows), containers.rows) && Addressed(env, containers.rows)
    ensures r.Ok? ==> Staged(env, containers.rows, ids, r.value, next)
    ensures r.Err? ==> Excuse(env, r.error)
  {
    var e := StoreChunk(env, containers, c, offsets);
    if e.Err? {
      return Err(e.error);
    }
    StagedNext(env, old(containers.rows), containers.rows, ids, edits, now, next, c, e.value);
    r := Ok(edits + [e.value]);
  }

  /** Changes grouped by ascending chunk. */
  ghost predicate ByChunk(changes: seq<(RecordId, bool)>) {
    forall k :: 0 < k < |changes| ==> ChunkOf(changes[k - 1].0) <= ChunkOf(changes[k].0)
  }

  method OpenRow(env: BitmapEnv, trie: Table, containers: Table, before: Option<Hash>, ghost root: RootRef,
                 ghost ids: set<RecordId>)
    returns (r: Result<(RootRef, Option<Container>), IndexError>)
    requires Sound(env) && Addressed(env, containers.rows)
    requires Stores(env, trie.rows, containers.rows, root, ids) && before == RootRow(env, root)
    ensures r.Ok? ==> r.value.0 == root && Cached(env, root, ids, r.value.1)
    ensures r.Err? ==> Failure(r.error)
  {
    if before.None? {
      return Ok((Empty, None));
    }
    r := Reopen(env, trie, containers, before.value, root, ids);
  }

  /** Visit each container once. */
  method StageChunks(env: BitmapEnv, trie: Table, containers: Table, root: RootRef, remembered: Option<Container>,
                     changes: seq<(RecordId, bool)>, ghost ids: set<RecordId>)
    returns (r: Result<seq<Edit>, IndexError>)
    requires Sound(env) && trie != containers && Addressed(env, containers.rows)
    requires Stores(env, trie.rows, containers.rows, root, ids) && Cached(env, root, ids, remembered)
    requires StagesInPlay(env, ids, changes)
    modifies containers
    ensures Grows(old(containers.rows), containers.rows) && Addressed(env, containers.rows)
    ensures r.Ok? ==> Staged(env, containers.rows, ids, r.value, Posted(ids, changes))
    ensures r.Err? ==> Excuse(env, r.error) || (r.error == Unsorted && !ByChunk(changes))
  {
    var edits: seq<Edit> := [];
    var cached := remembered;
    var previous: Option<Chunk> := None;
    var i := 0;
    while i < |changes|
      invariant i <= |changes|
      invariant Grows(old(containers.rows), containers.rows) && Cached(env, root, ids, cached)
      invariant Staged(env, containers.rows, ids, edits, Posted(ids, changes[..i]))
      invariant Seen(changes, i, previous)
      decreases |changes| - i
    {
      var c := ChunkOf(changes[i].0);
      SeenBefore(changes, i, previous);
      if previous.Some? && previous.value >= c {
        return Err(Unsorted);
      }
      var staged, j;
      staged, cached, j := ApplyChunk(env, trie, containers, root, cached, changes, i, edits, ids);
      if staged.Err? {
        return Err(staged.error);
      }
      SeenMore(changes, i, j, previous);
      previous, edits, i := Some(c), staged.value, j;
    }
    PostedAll(ids, changes);
    r := Ok(edits);
  }

  lemma {:induction false} PostedAll(ids: set<RecordId>, changes: seq<(RecordId, bool)>)
    ensures Posted(ids, changes[..|changes|]) == Posted(ids, changes)
  {
    assert changes[..|changes|] == changes;
  }

  /** A chunk that does not rise above the ones before shows the changes are not grouped. */
  lemma {:induction false} SeenBefore(changes: seq<(RecordId, bool)>, i: nat, previous: Option<Chunk>)
    requires i < |changes| && Seen(changes, i, previous)
    ensures previous.Some? && previous.value >= ChunkOf(changes[i].0) ==> !ByChunk(changes)
    ensures !(previous.Some? && previous.value >= ChunkOf(changes[i].0)) ==>
              forall k :: 0 <= k < i ==> ChunkOf(changes[k].0) != ChunkOf(changes[i].0)
  {
  }

  lemma {:induction false} SeenMore(changes: seq<(RecordId, bool)>, i: nat, j: nat, previous: Option<Chunk>)
    requires i < |changes| && Seen(changes, i, previous)
    requires !(previous.Some? && previous.value >= ChunkOf(changes[i].0))
    requires EndsGroup(changes, i, j)
    ensures Seen(changes, j, Some(ChunkOf(changes[i].0)))
  {
  }

  /** Apply posting changes to one term: the new row holds exactly the record IDs the changes leave. */
  method Apply(env: BitmapEnv, trie: Table, containers: Table, before: Option<Hash>, changes: seq<(RecordId, bool)>,
               ghost ids: set<RecordId>)
    returns (r: Result<Option<Hash>, IndexError>)
    requires Sound(env) && trie != containers && Filed(env, trie.rows, containers.rows)
    requires HoldsIds(env, trie.rows, containers.rows, before, ids) && StagesInPlay(env, ids, changes)
    modifies trie, containers
    ensures Grows(old(trie.rows), trie.rows) && Grows(old(containers.rows), containers.rows)
    ensures Filed(env, trie.rows, containers.rows)
    ensures r.Ok? ==> HoldsIds(env, trie.rows, containers.rows, r.value, Posted(ids, changes))
    ensures r.Err? ==>
              || Expects(env, r.error)
              || (r.error == Unsorted && !ByChunk(changes))
  {
    ghost var held :| Stores(env, trie.rows, containers.rows, held, ids) && before == RootRow(env, held);
    var root := OpenRow(env, trie, containers, before, held, ids);
    if root.Err? {
      return Err(root.error);
    }
    var edits := StageChunks(env, trie, containers, root.value.0, root.value.1, changes, ids);
    if edits.Err? {
      return Err(edits.error);
    }
    var updated := Trie.Apply(env.trie, trie, root.value.0, edits.value, Image(env, ids), env.play.nodes);
    if updated.Err? {
      return Err(Merkle(updated.error));
    }
    assert Stores(env, trie.rows, containers.rows, updated.value, Posted(ids, changes));
    r := Ok(RootRow(env, updated.value));
  }

  /** Every chunk handled so far is at most the previous one, and the next change leaves it. */
  ghost predicate Seen(changes: seq<(RecordId, bool)>, i: nat, previous: Option<Chunk>)
    requires i <= |changes|
  {
    if i == 0 then previous == None
    else
      && previous == Some(ChunkOf(changes[i - 1].0))
      && (forall k :: 0 <= k < i ==> ChunkOf(changes[k].0) <= previous.value)
      && (i < |changes| ==> ChunkOf(changes[i].0) != previous.value)
  }

  // ---- Materializing ----

  function Ids(c: Container): set<RecordId> {
    set o | o in c.offsets :: Join(c.chunk, o)
  }

  ghost predicate InOne(cs: seq<Container>, id: RecordId) {
    exists k :: 0 <= k < |cs| && id in Ids(cs[k])
  }

  /** The leaves are those of the record IDs, ascending. */
  ghost predicate Lists(env: BitmapEnv, ids: set<RecordId>, leaves: seq<TrieWalk.LeafEntry>) {
    && Ascending(PathLess, leaves)
    && forall e: TrieWalk.LeafEntry :: e in leaves <==> Get(Image(env, ids), e.0) == Some(e.1)
  }

  method Leaves(env: BitmapEnv, trie: Table, containers: Table, root: RootRef, ghost ids: set<RecordId>)
    returns (r: Result<seq<TrieWalk.LeafEntry>, IndexError>)
    requires Sound(env) && Stores(env, trie.rows, containers.rows, root, ids)
    ensures r.Ok? ==> Lists(env, ids, r.value)
    ensures r.Err? ==> Failure(r.error)
  {
    ghost var t := TreeOf(env.trie, trie.rows, root, Image(env, ids));
    var leaves, error := TrieWalk.WalkAll(env.trie, trie, root);
    r := if error.Some? then Err(Merkle(error.value)) else Ok(leaves);
  }

  /** All containers below a branch root, in path order. */
  method Collect(env: BitmapEnv, trie: Table, containers: Table, root: RootRef, ghost ids: set<RecordId>)
    returns (r: Result<seq<Container>, IndexError>)
    requires Sound(env) && Stores(env, trie.rows, containers.rows, root, ids)
    ensures r.Ok? ==> Assembles(r.value, ids)
    ensures r.Err? ==> Failure(r.error)
  {
    var walked := Leaves(env, trie, containers, root, ids);
    if walked.Err? {
      return Err(walked.error);
    }
    var leaves := walked.value;
    var out: seq<Container> := [];
    for i := 0 to |leaves|
      invariant |out| == i && Matched(ids, leaves, out)
    {
      assert leaves[i] in leaves;
      ghost var c := ImageKey(env, ids, leaves[i].0);
      var loaded := LoadContainer(env, containers, leaves[i].0, leaves[i].1, ids, c);
      if loaded.Err? {
        return Err(loaded.error);
      }
      MatchedMore(ids, leaves, out, loaded.value);
      out := out + [loaded.value];
    }
    LeavesAssemble(env, ids, leaves, out);
    r := Ok(out);
  }

  /** Containers loaded for the first leaves, one each. */
  ghost predicate Matched(ids: set<RecordId>, leaves: seq<TrieWalk.LeafEntry>, cs: seq<Container>) {
    |cs| <= |leaves| && forall k :: 0 <= k < |cs| ==> MatchedAt(ids, leaves[k].0, cs[k])
  }

  ghost predicate MatchedAt(ids: set<RecordId>, p: Path, c: Container) {
    p == Route(c.chunk) && c.offsets == Part(ids, c.chunk)
  }

  lemma {:induction false} MatchedMore(ids: set<RecordId>, leaves: seq<TrieWalk.LeafEntry>, cs: seq<Container>,
                                       c: Container)
    requires Matched(ids, leaves, cs) && |cs| < |leaves| && MatchedAt(ids, leaves[|cs|].0, c)
    ensures Matched(ids, leaves, cs + [c])
  {
  }

  /** The containers of a set of record IDs: ascending, none missing, each complete. */
  ghost predicate Assembles(cs: seq<Container>, ids: set<RecordId>) {
    && (forall i, j :: 0 <= i < j < |cs| ==> cs[i].chunk < cs[j].chunk)
    && (forall i :: 0 <= i < |cs| ==> cs[i].offsets == Part(ids, cs[i].chunk))
    && (forall c: Chunk :: Part(ids, c) != {} ==> exists i :: 0 <= i < |cs| && cs[i].chunk == c)
  }

  lemma {:induction false} LeavesAssemble(env: BitmapEnv, ids: set<RecordId>, leaves: seq<TrieWalk.LeafEntry>,
                                          cs: seq<Container>)
    requires Lists(env, ids, leaves) && |cs| == |leaves| && Matched(ids, leaves, cs)
    ensures Assembles(cs, ids)
  {
    assert forall k :: 0 <= k < |cs| ==> MatchedAt(ids, leaves[k].0, cs[k]);
    forall i, j | 0 <= i < j < |cs|
      ensures cs[i].chunk < cs[j].chunk
    {
      RouteOrder(cs[i].chunk, cs[j].chunk);
    }
    forall c: Chunk | Part(ids, c) != {}
      ensures exists i :: 0 <= i < |cs| && cs[i].chunk == c
    {
      ImageAt(env, ids, c);
      var e: TrieWalk.LeafEntry := (Route(c), Image(env, ids)[Route(c)]);
      var i :| 0 <= i < |leaves| && leaves[i] == e;
      RouteOrder(cs[i].chunk, c);
    }
  }

  /** Assemble chunks in strictly increasing order. */
  method FromContainers(cs: seq<Container>) returns (r: Result<set<RecordId>, IndexError>)
    ensures r.Ok? <==> forall k :: 0 < k < |cs| ==> cs[k - 1].chunk < cs[k].chunk
    ensures r.Ok? ==> forall id :: id in r.value <==> InOne(cs, id)
    ensures r.Err? ==> r.error == Unsorted
  {
    var ids: set<RecordId> := {};
    for i := 0 to |cs|
      invariant forall k :: 0 < k < i ==> cs[k - 1].chunk < cs[k].chunk
      invariant forall id :: id in ids <==> exists k :: 0 <= k < i && id in Ids(cs[k])
    {
      if i > 0 && cs[i].chunk <= cs[i - 1].chunk {
        return Err(Unsorted);
      }
      ids := ids + Ids(cs[i]);
    }
    r := Ok(ids);
  }

  lemma {:induction false} AssembledIds(cs: seq<Container>, ids: set<RecordId>, r: Result<set<RecordId>, IndexError>)
    requires Assembles(cs, ids) && (r.Ok? <==> forall k :: 0 < k < |cs| ==> cs[k - 1].chunk < cs[k].chunk)
    requires r.Ok? ==> forall id :: id in r.value <==> InOne(cs, id)
    ensures r == Ok(ids)
  {
    forall id: RecordId
      ensures id in ids <==> InOne(cs, id)
    {
      var c, o := ChunkOf(id), OffsetOf(id);
      assert id == Join(c, o);
      PartHas(ids, c, o);
      if k :| 0 <= k < |cs| && id in Ids(cs[k]) {
        var p :| p in cs[k].offsets && Join(cs[k].chunk, p) == id;
        assert ChunkOf(id) == cs[k].chunk && OffsetOf(id) == p;
      }
      if id in ids {
        var k :| 0 <= k < |cs| && cs[k].chunk == c;
        assert o in cs[k].offsets;
      }
    }
    assert forall k :: 0 < k < |cs| ==> cs[k - 1].chunk < cs[k].chunk;
    assert r.value == ids;
  }

  /** A term's row materializes to exactly the record IDs it holds. */
  method Materialize(env: BitmapEnv, trie: Table, containers: Table, hash: Hash, ghost ids: set<RecordId>)
    returns (r: Result<set<RecordId>, IndexError>)
    requires Sound(env) && Addressed(env, containers.rows)
    requires HoldsIds(env, trie.rows, containers.rows, Some(hash), ids)
    ensures r == Ok(ids) || (r.Err? && Failure(r.error))
  {
    ghost var held :| Stores(env, trie.rows, containers.rows, held, ids) && Some(hash) == RootRow(env, held);
    var root := Reopen(env, trie, containers, hash, held, ids);
    if root.Err? {
      return Err(root.error);
    }
    var cs := Gather(env, trie, containers, root.value.0, root.value.1, ids);
    if cs.Err? {
      return Err(cs.error);
    }
    r := FromContainers(cs.value);
    AssembledIds(cs.value, ids, r);
  }

  method Gather(env: BitmapEnv, trie: Table, containers: Table, root: RootRef, cached: Option<Container>,
                ghost ids: set<RecordId>)
    returns (r: Result<seq<Container>, IndexError>)
    requires Sound(env) && Stores(env, trie.rows, containers.rows, root, ids) && Cached(env, root, ids, cached)
    ensures r.Ok? ==> Assembles(r.value, ids)
    ensures r.Err? ==> Failure(r.error)
  {
    if cached.Some? {
      SoleAssembles(env, trie.rows, containers.rows, root, ids, cached.value);
      return Ok([cached.value]);
    }
    r := Collect(env, trie, containers, root, ids);
  }

  lemma {:induction false} SoleAssembles(env: BitmapEnv, rows: Rows, containers: Rows, root: RootRef,
                                         ids: set<RecordId>, c: Container)
    requires Sound(env) && Stores(env, rows, containers, root, ids) && Cached(env, root, ids, Some(c))
    ensures Assembles([c], ids)
  {
    var sole := SoleLeaf(env, rows, containers, root, ids);
    RouteOrder(sole, c.chunk);
    assert [c][0].chunk == sole;
  }
}
