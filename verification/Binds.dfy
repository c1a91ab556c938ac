/** What the roots of a head bind. Where digests do not collide on the content in play, tables with one
    root digest hold the same rows, a term's row one set of record IDs, and a head one state. */
module Binds {
  import opened Wrappers
  import opened Lex
  import Cursor
  import opened CellKeys
  import opened CellValues
  import opened Postings
  import opened TrieModel
  import opened TrieStore
  import opened Trie
  import opened TrieDigest
  import opened System
  import opened Seal
  import B = Bitmaps
  import C = Commitment
  import I = IndexStore
  import S = CellStore

  // ---- Flat tables ----

  /** The leaves of these rows. */
  ghost function Leafed(a: C.Auth, pairs: iset<Cursor.Entry>): iset<Place> {
    iset x | x in pairs :: (a.route(x.0), a.leaf(x.0, x.1))
  }

  /** Leaf digests tell rows, branch digests shapes, and neither is taken for the other. */
  ghost predicate TableBinds(a: C.Auth, nodes: iset<Node>, pairs: iset<Cursor.Entry>) {
    C.LeavesTell(a, pairs) && ShapesTell(a.env, nodes) && KindsTell(a.env, a.empty, nodes, Leafed(a, pairs))
  }

  /** The rows and the branches of this table are in play. */
  ghost predicate Within(a: C.Auth, nodes: iset<Node>, pairs: iset<Cursor.Entry>, flat: C.Flat) {
    C.Apart(a, flat.Keys) && C.RowsIn(flat, pairs) && MapIn(a.env, C.Image(a, flat), nodes)
  }

  lemma {:induction false} ImagePlaced(a: C.Auth, nodes: iset<Node>, pairs: iset<Cursor.Entry>, flat: C.Flat)
    requires Within(a, nodes, pairs, flat)
    ensures LeavesIn(C.Image(a, flat), Leafed(a, pairs))
  {
    forall p | p in C.Image(a, flat)
      ensures (p, C.Image(a, flat)[p]) in Leafed(a, pairs)
    {
      var k :| k in flat && a.route(k) == p;
      C.ImageAt(a, flat, flat.Keys, k);
      var x := (k, flat[k]);
      assert x in pairs;
    }
  }

  lemma {:induction false} TablePlaces(a: C.Auth, nodes: iset<Node>, pairs: iset<Cursor.Entry>)
    requires TableBinds(a, nodes, pairs)
    ensures Bound(a.env, a.empty, nodes, Leafed(a, pairs))
  {
    forall p, q | p in Leafed(a, pairs) && q in Leafed(a, pairs) && p.1 == q.1
      ensures p.0 == q.0
    {
      var x :| x in pairs && p == (a.route(x.0), a.leaf(x.0, x.1));
      var y :| y in pairs && q == (a.route(y.0), a.leaf(y.0, y.1));
    }
  }

  /** One root digest, one table: in any two stores, at any two points of any two histories. */
  lemma {:induction false} SameDigestSameRows(a: C.Auth, nodes: iset<Node>, pairs: iset<Cursor.Entry>, rows: Rows,
                                              root: RootRef, flat: C.Flat, rows': Rows, root': RootRef, flat': C.Flat)
    requires TableBinds(a, nodes, pairs) && Within(a, nodes, pairs, flat) && Within(a, nodes, pairs, flat')
    requires IsTrie(a.env, rows, root, C.Image(a, flat)) && IsTrie(a.env, rows', root', C.Image(a, flat'))
    requires RootHash(a.empty, root) == RootHash(a.empty, root')
    ensures flat == flat' && root == root'
  {
    TablePlaces(a, nodes, pairs);
    ImagePlaced(a, nodes, pairs, flat);
    ImagePlaced(a, nodes, pairs, flat');
    SameDigestSameMap(a.env, a.empty, nodes, Leafed(a, pairs), rows, root, C.Image(a, flat), rows', root',
                      C.Image(a, flat'));
    C.SameImageSameRows(a, flat, flat', pairs);
  }

  // ---- Postings of a term ----

  /** Containers with one digest are one container. */
  ghost predicate ContainersTell(env: B.BitmapEnv, cs: iset<B.Container>) {
    forall x, y :: x in cs && y in cs && B.LeafHash(env, x) == B.LeafHash(env, y) ==> x == y
  }

  ghost function Chunked(env: B.BitmapEnv, cs: iset<B.Container>): iset<Place> {
    iset c | c in cs :: (B.Route(c.chunk), B.LeafHash(env, c))
  }

  ghost predicate BitmapBinds(env: B.BitmapEnv, nodes: iset<Node>, cs: iset<B.Container>) {
    ContainersTell(env, cs) && ShapesTell(env.trie, nodes) && KindsTell(env.trie, env.empty, nodes, Chunked(env, cs))
  }

  /** The container of one chunk is in play. */
  ghost predicate ChunkIn(ids: set<RecordId>, c: B.Chunk, cs: iset<B.Container>) {
    B.Part(ids, c) != {} ==> B.Container(c, B.Part(ids, c)) in cs
  }

  /** The containers and the branches of these record IDs are in play. */
  ghost predicate IdsWithin(env: B.BitmapEnv, nodes: iset<Node>, cs: iset<B.Container>, ids: set<RecordId>) {
    (forall c: B.Chunk :: ChunkIn(ids, c, cs)) && MapIn(env.trie, B.Image(env, ids), nodes)
  }

  lemma {:induction false} IdsPlaced(env: B.BitmapEnv, nodes: iset<Node>, cs: iset<B.Container>, ids: set<RecordId>)
    requires IdsWithin(env, nodes, cs, ids)
    ensures LeavesIn(B.Image(env, ids), Chunked(env, cs))
  {
    forall p | p in B.Image(env, ids)
      ensures (p, B.Image(env, ids)[p]) in Chunked(env, cs)
    {
      var c := B.ImageKey(env, ids, p);
      assert ChunkIn(ids, c, cs);
      var held := B.Container(c, B.Part(ids, c));
      assert held in cs;
    }
  }

  lemma {:induction false} ChunkPlaces(env: B.BitmapEnv, nodes: iset<Node>, cs: iset<B.Container>)
    requires BitmapBinds(env, nodes, cs)
    ensures Bound(env.trie, env.empty, nodes, Chunked(env, cs))
  {
    forall p, q | p in Chunked(env, cs) && q in Chunked(env, cs) && p.1 == q.1
      ensures p.0 == q.0
    {
      var x :| x in cs && p == (B.Route(x.chunk), B.LeafHash(env, x));
      var y :| y in cs && q == (B.Route(y.chunk), B.LeafHash(env, y));
    }
  }

  /** One term row, one set of record IDs, in any two stores. */
  lemma {:induction false} SameRowSameIds(env: B.BitmapEnv, nodes: iset<Node>, cs: iset<B.Container>, rows: Rows,
                                          containers: Rows, ids: set<RecordId>, rows': Rows, containers': Rows,
                                          ids': set<RecordId>, row: Option<Hash>)
    requires BitmapBinds(env, nodes, cs) && IdsWithin(env, nodes, cs, ids) && IdsWithin(env, nodes, cs, ids')
    requires B.HoldsIds(env, rows, containers, row, ids) && B.HoldsIds(env, rows', containers', row, ids')
    ensures ids == ids'
  {
    var root :| B.Stores(env, rows, containers, root, ids) && row == B.RootRow(env, root);
    var root' :| B.Stores(env, rows', containers', root', ids') && row == B.RootRow(env, root');
    ChunkPlaces(env, nodes, cs);
    IdsPlaced(env, nodes, cs, ids);
    IdsPlaced(env, nodes, cs, ids');
    SameDigestSameMap(env.trie, env.empty, nodes, Chunked(env, cs), rows, root, B.Image(env, ids), rows', root',
                      B.Image(env, ids'));
    SameImageSameIds(env, cs, ids, ids');
  }

  lemma {:induction false} SameImageSameIds(env: B.BitmapEnv, cs: iset<B.Container>, ids: set<RecordId>,
                                            ids': set<RecordId>)
    requires ContainersTell(env, cs) && B.Image(env, ids) == B.Image(env, ids')
    requires forall c: B.Chunk :: ChunkIn(ids, c, cs) && ChunkIn(ids', c, cs)
    ensures ids == ids'
  {
    forall id: RecordId
      ensures id in ids <==> id in ids'
    {
      var c, o := B.ChunkOf(id), B.OffsetOf(id);
      SamePart(env, cs, ids, ids', c);
      B.PartHas(ids, c, o);
      B.PartHas(ids', c, o);
      assert B.Join(c, o) == id;
    }
  }

  lemma {:induction false} SamePart(env: B.BitmapEnv, cs: iset<B.Container>, ids: set<RecordId>, ids': set<RecordId>,
                                    c: B.Chunk)
    requires ContainersTell(env, cs) && B.Image(env, ids) == B.Image(env, ids')
    requires ChunkIn(ids, c, cs) && ChunkIn(ids', c, cs)
    ensures B.Part(ids, c) == B.Part(ids', c)
  {
    B.ImageAt(env, ids, c);
    B.ImageAt(env, ids', c);
    if B.Part(ids, c) != {} {
      var x, y := B.Container(c, B.Part(ids, c)), B.Container(c, B.Part(ids', c));
      assert x in cs && y in cs && B.LeafHash(env, x) == B.LeafHash(env, y);
    }
  }

  // ---- Heads ----

  /** What is in play: the rows of the two flat tables, the containers, and the branches of the three tries. */
  datatype Content = Content(
    cellNodes: iset<Node>,
    cells: iset<Cursor.Entry>,
    termNodes: iset<Node>,
    terms: iset<Cursor.Entry>,
    chunkNodes: iset<Node>,
    containers: iset<B.Container>)

  ghost predicate SetupBinds(u: Setup, c: Content) {
    && TableBinds(u.cells, c.cellNodes, c.cells) && TableBinds(u.index.terms, c.termNodes, c.terms)
    && BitmapBinds(u.index.bitmaps, c.chunkNodes, c.containers)
  }

  ghost predicate CellsWithin(u: Setup, c: Content, cells: CellMap) {
    LawfulCodec(u.codec) && Within(u.cells, c.cellNodes, c.cells, S.FlatOf(u.codec, cells))
  }

  ghost predicate IndexWithin(u: Setup, c: Content, index: FlatIndex) {
    && (forall t: Bytes :: IdsWithin(u.index.bitmaps, c.chunkNodes, c.containers, PostingsOf(index, t)))
    && forall flat :: I.TermRows(u.index, flat, index) ==> Within(u.index.terms, c.termNodes, c.terms, flat)
  }

  /** A state root binds every cell. */
  lemma {:induction false} StateTells(u: Setup, c: Content, s: Snapshot, head: Head, cells: CellMap, play: Play,
                                      s': Snapshot, head': Head, cells': CellMap, play': Play)
    requires SetupBinds(u, c) && CellsWithin(u, c, cells) && CellsWithin(u, c, cells')
    requires HasCells(u, s.cellTrie, s.cells, head, cells, play)
    requires HasCells(u, s'.cellTrie, s'.cells, head', cells', play')
    requires head.state == head'.state
    ensures cells == cells' && s.cells == s'.cells
  {
    var root :| CellsAt(u, s.cellTrie, s.cells, head, cells, play, root);
    var root' :| CellsAt(u, s'.cellTrie, s'.cells, head', cells', play', root');
    SameDigestSameRows(u.cells, c.cellNodes, c.cells, s.cellTrie, root, s.cells, s'.cellTrie, root', s'.cells);
    SameFlatSameCells(u.codec, cells, cells');
  }

  lemma {:induction false} SameFlatSameCells(c: Codec, cells: CellMap, cells': CellMap)
    requires LawfulCodec(c) && S.FlatOf(c, cells) == S.FlatOf(c, cells') && S.CellsOk(c, cells) && S.CellsOk(c, cells')
    ensures cells == cells'
  {
    forall k: CellKey
      ensures Get(cells, k) == Get(cells', k)
    {
      S.FlatAt(c, cells, k);
      S.FlatAt(c, cells', k);
      assert k in cells ==> c.parse(c.value(cells[k])) == Some(cells[k]);
      assert k in cells' ==> c.parse(c.value(cells'[k])) == Some(cells'[k]);
    }
    SameAnswers(cells, cells');
  }

  /** An index root binds every term's row. */
  lemma {:induction false} TermRowsTell(u: Setup, c: Content, x: IndexRows, root: RootRef, index: FlatIndex,
                                        keys: set<Bytes>, x': IndexRows, root': RootRef, index': FlatIndex,
                                        keys': set<Bytes>)
    requires SetupBinds(u, c) && IndexWithin(u, c, index) && IndexWithin(u, c, index')
    requires I.Ready(u.index, x.bitmaps, x.containers, x.trie, x.terms, root, index, keys)
    requires I.Ready(u.index, x'.bitmaps, x'.containers, x'.trie, x'.terms, root', index', keys')
    requires RootHash(u.index.terms.empty, root) == RootHash(u.index.terms.empty, root')
    ensures x.terms == x'.terms
  {
    I.HeldRows(u.index, x.bitmaps, x.containers, x.terms, index);
    I.HeldRows(u.index, x'.bitmaps, x'.containers, x'.terms, index');
    SameDigestSameRows(u.index.terms, c.termNodes, c.terms, x.trie, root, x.terms, x'.trie, root', x'.terms);
  }

  /** An index root binds every posting. */
  lemma {:induction false} IndexTells(u: Setup, c: Content, x: IndexRows, root: RootRef, index: FlatIndex,
                                      keys: set<Bytes>, x': IndexRows, root': RootRef, index': FlatIndex,
                                      keys': set<Bytes>, t: Bytes)
    requires SetupBinds(u, c) && IndexWithin(u, c, index) && IndexWithin(u, c, index')
    requires I.Ready(u.index, x.bitmaps, x.containers, x.trie, x.terms, root, index, keys)
    requires I.Ready(u.index, x'.bitmaps, x'.containers, x'.trie, x'.terms, root', index', keys')
    requires RootHash(u.index.terms.empty, root) == RootHash(u.index.terms.empty, root')
    ensures PostingsOf(index, t) == PostingsOf(index', t)
  {
    TermRowsTell(u, c, x, root, index, keys, x', root', index', keys');
    TermTells(u, c, x, index, x', index', t);
  }

  lemma {:induction false} TermTells(u: Setup, c: Content, x: IndexRows, index: FlatIndex, x': IndexRows,
                                     index': FlatIndex, t: Bytes)
    requires SetupBinds(u, c) && IndexWithin(u, c, index) && IndexWithin(u, c, index')
    requires I.HoldsAll(u.index, x.bitmaps, x.containers, x.terms, index)
    requires I.HoldsAll(u.index, x'.bitmaps, x'.containers, x'.terms, index') && x.terms == x'.terms
    ensures PostingsOf(index, t) == PostingsOf(index', t)
  {
    var row := Get(x.terms, t);
    assert I.RowHolds(u.index, x.bitmaps, x.containers, row, PostingsOf(index, t));
    assert I.RowHolds(u.index, x'.bitmaps, x'.containers, Get(x'.terms, t), PostingsOf(index', t));
    SameRowSameIds(u.index.bitmaps, c.chunkNodes, c.containers, x.bitmaps, x.containers, PostingsOf(index, t),
                   x'.bitmaps, x'.containers, PostingsOf(index', t), if row.None? then None else Some(row.value));
  }

  /** Heads with one index root stand for the same postings. */
  lemma {:induction false} PostingsTell(u: Setup, c: Content, x: IndexRows, head: Head, cells: CellMap, play: Play,
                                        x': IndexRows, head': Head, cells': CellMap, play': Play, t: Bytes)
    requires SetupBinds(u, c)
    requires forall index :: IsIndex(index, cells) || IsIndex(index, cells') ==> IndexWithin(u, c, index)
    requires HasIndex(u, x, head, cells, play) && HasIndex(u, x', head', cells', play') && head.index == head'.index
    ensures Rebuilt(cells, t) == Rebuilt(cells', t)
  {
    var root, index :| IndexAt(u, x, head, cells, play, root, index);
    var root', index' :| IndexAt(u, x', head', cells', play', root', index');
    IndexTells(u, c, x, root, index, play.terms, x', root', index', play'.terms, t);
    Listed(index, cells, t);
    Listed(index', cells', t);
  }

  lemma {:induction false} Listed(index: FlatIndex, cells: CellMap, t: Bytes)
    requires IsIndex(index, cells)
    ensures PostingsOf(index, t) == Rebuilt(cells, t)
  {
  }

  /** Heads with one state root stand for the same cells, heads with one index root for the same postings:
      in any two stores, whatever led to them. */
  lemma {:induction false} HeadsTell(u: Setup, c: Content, s: Snapshot, head: Head, cells: CellMap, play: Play,
                                     s': Snapshot, head': Head, cells': CellMap, play': Play)
    requires SetupBinds(u, c) && CellsWithin(u, c, cells) && CellsWithin(u, c, cells')
    requires forall index :: IsIndex(index, cells) || IsIndex(index, cells') ==> IndexWithin(u, c, index)
    requires Coherent(u, s, head, cells, play) && Coherent(u, s', head', cells', play')
    ensures head.state == head'.state ==> cells == cells'
    ensures head.index == head'.index ==> forall t :: Rebuilt(cells, t) == Rebuilt(cells', t)
  {
    if head.state == head'.state {
      StateTells(u, c, s, head, cells, play, s', head', cells', play');
    }
    if head.index == head'.index {
      forall t
        ensures Rebuilt(cells, t) == Rebuilt(cells', t)
      {
        PostingsTell(u, c, s.index, head, cells, play, s'.index, head', cells', play', t);
      }
    }
  }
}
