/** The two-tier index: a flat table from terms to bitmap roots, the trie committing to it, and the
    bitmaps below. */
module IndexStore {
  import opened Wrappers
  import opened Lex
  import Terms
  import opened Batch
  import opened CellKeys
  import opened Postings
  import opened TrieStore
  import Trie
  import B = Bitmaps
  import C = Commitment

  datatype IndexEnv = IndexEnv(bitmaps: B.BitmapEnv, terms: C.Auth)

  /** The tables of the index inside one transaction. */
  datatype Tables = Tables(bitmaps: Table, containers: Table, trie: Table, terms: C.FlatTable)

  datatype IndexFailure =
    | Bitmap(bitmap: B.IndexError)
    | Term(term: C.CommitError)
    | BadRoot
    | BadTerm(error: Terms.TermError)

  type Row = Option<Bytes>

  ghost predicate Sound(env: IndexEnv) {
    B.Sound(env.bitmaps) && C.Sound(env.terms) && env.bitmaps.empty == env.terms.empty
  }

  predicate Distinct(tb: Tables) {
    tb.bitmaps != tb.containers && tb.bitmaps != tb.trie && tb.containers != tb.trie
  }

  // ---- What the tables hold ----

  /** A term's row holds exactly these record IDs. */
  ghost predicate RowHolds(env: IndexEnv, bitmaps: TrieStore.Rows, containers: TrieStore.Rows, row: Row,
                           ids: set<RecordId>) {
    if row.None? then B.HoldsIds(env.bitmaps, bitmaps, containers, None, ids)
    else |row.value| == 32 && B.HoldsIds(env.bitmaps, bitmaps, containers, Some(row.value), ids)
  }

  /** Every term's row holds its postings, and no row stands for none. */
  ghost predicate HoldsAll(env: IndexEnv, bitmaps: TrieStore.Rows, containers: TrieStore.Rows, flat: C.Flat,
                           index: FlatIndex) {
    forall t: Bytes {:trigger RowHolds(env, bitmaps, containers, Get(flat, t), PostingsOf(index, t))} ::
      RowHolds(env, bitmaps, containers, Get(flat, t), PostingsOf(index, t))
  }

  /** The root, the tables and the keys in play, for an index with these postings. */
  ghost predicate Ready(env: IndexEnv, bitmaps: TrieStore.Rows, containers: TrieStore.Rows, rows: TrieStore.Rows,
                        flat: C.Flat,
                        root: RootRef, index: FlatIndex, keys: set<Bytes>) {
    && C.Commits(env.terms, rows, root, flat) && flat.Keys == index.Keys
    && C.Apart(env.terms, keys) && flat.Keys <= keys
    && B.Filed(env.bitmaps, bitmaps, containers)
    && HoldsAll(env, bitmaps, containers, flat, index)
  }

  /** Every digest but that of nothing makes a row of a term in play. */
  ghost predicate Admits(env: IndexEnv, keys: set<Bytes>) {
    forall t, h: Hash :: t in keys && h != env.bitmaps.empty ==> env.terms.wellFormed(t, h)
  }

  /** The rows an index always has. */
  ghost predicate TermRows(env: IndexEnv, flat: C.Flat, index: FlatIndex) {
    && flat.Keys == index.Keys
    && forall t :: t in flat ==> |flat[t]| == 32 && B.CanonicalRow(env.bitmaps, Some(flat[t]), index[t])
  }

  /** Every digest these postings give rise to, in the bitmaps and in the term trie, is in play. */
  ghost predicate IndexInPlay(env: IndexEnv, index: FlatIndex) {
    && (forall t: Bytes :: B.IdsInPlay(env.bitmaps, PostingsOf(index, t)))
    && forall flat :: TermRows(env, flat, index) ==> C.InPlay(env.terms, flat)
  }

  lemma {:induction false} HeldRows(env: IndexEnv, b: TrieStore.Rows, c: TrieStore.Rows, flat: C.Flat, index: FlatIndex)
    requires HoldsAll(env, b, c, flat, index) && flat.Keys == index.Keys
    ensures TermRows(env, flat, index)
  {
    forall t | t in flat
      ensures |flat[t]| == 32 && B.CanonicalRow(env.bitmaps, Some(flat[t]), index[t])
    {
      assert RowHolds(env, b, c, Get(flat, t), PostingsOf(index, t));
      B.HeldIsCanonical(env.bitmaps, b, c, Some(flat[t]), index[t]);
    }
  }

  lemma {:induction false} RowGrows(env: IndexEnv, b: TrieStore.Rows, c: TrieStore.Rows, b': TrieStore.Rows,
                                    c': TrieStore.Rows, row: Row, ids: set<RecordId>)
    requires RowHolds(env, b, c, row, ids) && Grows(b, b') && Grows(c, c')
    ensures RowHolds(env, b', c', row, ids)
  {
    if row.None? {
      B.HoldsGrows(env.bitmaps, b, c, b', c', None, ids);
    } else {
      B.HoldsGrows(env.bitmaps, b, c, b', c', Some(row.value), ids);
    }
  }

  /** A row is there exactly when there are postings. */
  lemma {:induction false} RowMeansSome(env: IndexEnv, b: TrieStore.Rows, c: TrieStore.Rows, row: Row,
                                        ids: set<RecordId>)
    requires Sound(env) && RowHolds(env, b, c, row, ids)
    ensures row.None? <==> ids == {}
    ensures row.Some? ==> row.value != env.bitmaps.empty
  {
    if row.None? {
      B.RowMeansSome(env.bitmaps, b, c, None, ids);
    } else {
      B.RowMeansSome(env.bitmaps, b, c, Some(row.value), ids);
    }
  }

  // ---- Posting changes by term ----

  type Move = (Posting, bool)

  predicate PostingLess(a: Posting, b: Posting) {
    Less(a.0, b.0) || (a.0 == b.0 && a.1 < b.1)
  }

  lemma {:induction false} PostingOrder()
    ensures TotalOrder(PostingLess)
  {
    forall a: Posting, b: Posting, c: Posting
      ensures !PostingLess(a, a) && (PostingLess(a, b) && PostingLess(b, c) ==> PostingLess(a, c))
      ensures (a == b || PostingLess(a, b) || PostingLess(b, a))
    {
      Irreflexive(a.0);
      Trichotomy(a.0, b.0);
      if Less(a.0, b.0) && Less(b.0, c.0) {
        Transitive(a.0, b.0, c.0);
      }
    }
  }

  /** A term's postings after posting changes. */
  ghost function After(index: FlatIndex, moves: seq<Move>, t: Bytes): set<RecordId> {
    var ids := PostingsOf(index, t) + (set i | 0 <= i < |moves| :: moves[i].0.1);
    set id | id in ids && Settled(moves, (t, id), id in PostingsOf(index, t))
  }

  lemma {:induction false} AfterAt(index: FlatIndex, moves: seq<Move>, t: Bytes, id: RecordId)
    ensures id in After(index, moves, t) <==> Settled(moves, (t, id), id in PostingsOf(index, t))
  {
    if Last(moves, (t, id)).Some? {
      LastIn(moves, (t, id));
      var i :| 0 <= i < |moves| && moves[i] == ((t, id), Last(moves, (t, id)).value);
      assert moves[i].0.1 == id;
    }
  }

  /** The changes of one term's slice, by record. */
  function Group(net: seq<Move>, i: nat, j: nat): (g: seq<(RecordId, bool)>)
    requires i <= j <= |net|
    ensures |g| == j - i && forall k :: 0 <= k < |g| ==> g[k] == (net[i + k].0.1, net[i + k].1)
  {
    seq(j - i, k requires 0 <= k < j - i => (net[i + k].0.1, net[i + k].1))
  }

  /** Inside one term, the last change of a record is the last change of the posting. */
  lemma {:induction false} GroupLast(net: seq<Move>, i: nat, j: nat, t: Bytes, id: RecordId)
    requires i <= j <= |net| && forall k :: i <= k < j ==> net[k].0.0 == t
    ensures Last(Group(net, i, j), id) == Last(net[i..j], (t, id))
    decreases j
  {
    if i < j {
      GroupLast(net, i, j - 1, t, id);
      assert Group(net, i, j)[..j - 1 - i] == Group(net, i, j - 1);
      assert net[i..j][..j - 1 - i] == net[i..j - 1];
    }
  }

  /** `[i, j)` is the whole run of one term. */
  ghost predicate IsRun(net: seq<Move>, i: nat, j: nat, t: Bytes) {
    && i < j <= |net|
    && (forall k :: i <= k < j ==> net[k].0.0 == t)
    && (forall k :: 0 <= k < i ==> net[k].0.0 != t)
  }

  /** A run leaves its own term as its changes say and every other term alone. */
  lemma {:induction false} RunApplies(index: FlatIndex, net: seq<Move>, i: nat, j: nat, t: Bytes)
    requires IsRun(net, i, j, t)
    ensures B.Posted(PostingsOf(index, t), Group(net, i, j)) == After(index, net[..j], t)
    ensures After(index, net[..i], t) == PostingsOf(index, t)
  {
    forall id: RecordId
      ensures id in B.Posted(PostingsOf(index, t), Group(net, i, j)) <==> id in After(index, net[..j], t)
      ensures id in After(index, net[..i], t) <==> id in PostingsOf(index, t)
    {
      B.PostedLast(PostingsOf(index, t), Group(net, i, j), id);
      GroupLast(net, i, j, t, id);
      AfterAt(index, net[..j], t, id);
      AfterAt(index, net[..i], t, id);
      LastNone(net[..i], (t, id));
      assert net[..j] == net[..i] + net[i..j];
      LastConcat(net[..i], net[i..j], (t, id));
    }
  }

  lemma {:induction false} RunSkips(index: FlatIndex, net: seq<Move>, i: nat, j: nat, t: Bytes, other: Bytes)
    requires IsRun(net, i, j, t) && other != t
    ensures After(index, net[..j], other) == After(index, net[..i], other)
  {
    forall id: RecordId
      ensures id in After(index, net[..j], other) <==> id in After(index, net[..i], other)
    {
      AfterAt(index, net[..j], other, id);
      AfterAt(index, net[..i], other, id);
      LastNone(net[i..j], (other, id));
      assert net[..j] == net[..i] + net[i..j];
      LastConcat(net[..i], net[i..j], (other, id));
    }
  }

  /** After its run a term is as the whole batch leaves it. */
  lemma {:induction false} RunFinal(index: FlatIndex, net: seq<Move>, j: nat, t: Bytes)
    requires j <= |net| && forall k :: j <= k < |net| ==> net[k].0.0 != t
    ensures After(index, net[..j], t) == After(index, net, t)
  {
    forall id: RecordId
      ensures id in After(index, net[..j], t) <==> id in After(index, net, t)
    {
      AfterAt(index, net[..j], t, id);
      AfterAt(index, net, t, id);
      LastNone(net[j..], (t, id));
      assert net == net[..j] + net[j..];
      LastConcat(net[..j], net[j..], (t, id));
    }
  }

  method RunEnd(net: seq<Move>, i: nat) returns (j: nat)
    requires i < |net|
    ensures i < j <= |net| && (forall k :: i <= k < j ==> net[k].0.0 == net[i].0.0)
    ensures j < |net| ==> net[j].0.0 != net[i].0.0
  {
    j := i + 1;
    while j < |net| && net[j].0.0 == net[i].0.0
      invariant i < j <= |net| && forall k :: i <= k < j ==> net[k].0.0 == net[i].0.0
    {
      j := j + 1;
    }
  }

  /** In a sorted batch a term does not come back, and its records ascend. */
  lemma {:induction false} RunsAscend(net: seq<Move>, i: nat, j: nat)
    requires Ascending(PostingLess, net) && i < j <= |net| && forall k :: i <= k < j ==> net[k].0.0 == net[i].0.0
    requires i > 0 ==> net[i - 1].0.0 != net[i].0.0
    requires j < |net| ==> net[j].0.0 != net[i].0.0
    ensures IsRun(net, i, j, net[i].0.0) && B.ByChunk(Group(net, i, j))
    ensures forall k :: j <= k < |net| ==> Less(net[i].0.0, net[k].0.0)
  {
    PostingOrder();
    forall k | 0 <= k < i
      ensures net[k].0.0 != net[i].0.0
    {
      Irreflexive(net[i].0.0);
      assert PostingLess(net[k].0, net[i].0) && PostingLess(net[i - 1].0, net[i].0);
      if k < i - 1 && net[k].0.0 == net[i].0.0 {
        assert PostingLess(net[k].0, net[i - 1].0);
        Transitive(net[k].0.0, net[i - 1].0.0, net[i].0.0);
      }
    }
    forall k | j <= k < |net|
      ensures Less(net[i].0.0, net[k].0.0)
    {
      assert PostingLess(net[i].0, net[j].0);
      if k > j {
        assert PostingLess(net[j].0, net[k].0);
        if net[j].0.0 != net[k].0.0 {
          Transitive(net[i].0.0, net[j].0.0, net[k].0.0);
        }
      }
    }
    forall k | 0 < k < j - i
      ensures B.ChunkOf(Group(net, i, j)[k - 1].0) <= B.ChunkOf(Group(net, i, j)[k].0)
    {
      Irreflexive(net[i].0.0);
      assert PostingLess(net[i + k - 1].0, net[i + k].0);
    }
  }

  // ---- Applying a batch ----

  lemma {:induction false} ReadyGrows(env: IndexEnv, b: TrieStore.Rows, c: TrieStore.Rows, b': TrieStore.Rows,
                                      c': TrieStore.Rows,
                                      rows: TrieStore.Rows, flat: C.Flat, root: RootRef, index: FlatIndex,
                                      keys: set<Bytes>)
    requires Ready(env, b, c, rows, flat, root, index, keys) && Grows(b, b') && Grows(c, c')
    requires B.Filed(env.bitmaps, b', c')
    ensures Ready(env, b', c', rows, flat, root, index, keys)
  {
    forall t: Bytes
      ensures RowHolds(env, b', c', Get(flat, t), PostingsOf(index, t))
    {
      RowGrows(env, b, c, b', c', Get(flat, t), PostingsOf(index, t));
    }
  }

  /** A term's bitmap root from its row. */
  method ReadRoot(env: IndexEnv, tb: Tables, term: Bytes, ghost ids: set<RecordId>)
    returns (r: Result<Option<Hash>, IndexFailure>)
    requires Sound(env) && RowHolds(env, tb.bitmaps.rows, tb.containers.rows, Get(tb.terms.rows, term), ids)
    ensures r.Ok? ==>
              && r.value == Get(tb.terms.rows, term)
              && B.HoldsIds(env.bitmaps, tb.bitmaps.rows, tb.containers.rows, r.value, ids)
    ensures r.Err? ==> r.error.Term? && C.Failure(r.error.term)
  {
    RowMeansSome(env, tb.bitmaps.rows, tb.containers.rows, Get(tb.terms.rows, term), ids);
    var row := tb.terms.Get(term);
    if row.Err? {
      return Err(Term(row.error));
    }
    if row.value.None? {
      return Ok(None);
    }
    if |row.value.value| != 32 || row.value.value == env.bitmaps.empty {
      return Err(BadRoot);
    }
    r := Ok(Some(row.value.value));
  }

  /** Storage failed where it may, and nothing else. */
  predicate StorageOnly(r: IndexFailure) {
    (r.Term? && C.Failure(r.term)) || (r.Bitmap? && B.Failure(r.bitmap))
  }

  /** What may stop an update: storage, or two contents in play under one digest. */
  ghost predicate Expects(env: IndexEnv, r: IndexFailure) {
    (r.Term? && C.Excuse(env.terms, r.term)) || (r.Bitmap? && B.Expects(env.bitmaps, r.bitmap))
  }

  lemma {:induction false} TermPasses(env: IndexEnv, b: TrieStore.Rows, c: TrieStore.Rows, rows: TrieStore.Rows,
                                      flat: C.Flat,
                                      root: RootRef, index: FlatIndex, keys: set<Bytes>, term: Bytes)
    returns (m: Trie.Leaves)
    requires Ready(env, b, c, rows, flat, root, index, keys) && term in keys
    ensures Trie.IsTrie(env.terms.env, rows, root, m)
    ensures Get(m, env.terms.route(term)) == C.Expected(env.terms, term, Get(flat, term))
  {
    C.RowPasses(env.terms, rows, root, flat, keys, term);
    m := C.Image(env.terms, flat);
  }

  /** A term's row holds these postings, and the root commits to it. */
  ghost predicate TermAt(env: IndexEnv, b: TrieStore.Rows, c: TrieStore.Rows, rows: TrieStore.Rows, row: Row,
                         root: RootRef, term: Bytes, ids: set<RecordId>, m: Trie.Leaves)
  {
    && RowHolds(env, b, c, row, ids) && B.Filed(env.bitmaps, b, c)
    && Trie.IsTrie(env.terms.env, rows, root, m)
    && Get(m, env.terms.route(term)) == C.Expected(env.terms, term, row)
  }

  lemma {:induction false} TermReady(env: IndexEnv, b: TrieStore.Rows, c: TrieStore.Rows, rows: TrieStore.Rows,
                                     flat: C.Flat, root: RootRef, index: FlatIndex, keys: set<Bytes>, term: Bytes)
    returns (m: Trie.Leaves)
    requires Ready(env, b, c, rows, flat, root, index, keys) && term in keys
    ensures TermAt(env, b, c, rows, Get(flat, term), root, term, PostingsOf(index, term), m)
  {
    assert RowHolds(env, b, c, Get(flat, term), PostingsOf(index, term));
    m := TermPasses(env, b, c, rows, flat, root, index, keys, term);
  }

  /** Read a term's root and check its commitment. */
  method CheckTerm(env: IndexEnv, tb: Tables, root: RootRef, term: Bytes, ghost ids: set<RecordId>,
                   ghost m: Trie.Leaves)
    returns (r: Result<Option<Hash>, IndexFailure>)
    requires Sound(env)
    requires TermAt(env, tb.bitmaps.rows, tb.containers.rows, tb.trie.rows, Get(tb.terms.rows, term), root, term, ids,
                    m)
    ensures r.Ok? ==>
              && r.value == Get(tb.terms.rows, term)
              && B.HoldsIds(env.bitmaps, tb.bitmaps.rows, tb.containers.rows, r.value, ids)
    ensures r.Err? ==> r.error.Term? && C.Failure(r.error.term)
  {
    r := ReadRoot(env, tb, term, ids);
    if r.Err? {
      return;
    }
    var checked := C.Check(env.terms, tb.trie, root, term, r.value);
    if checked.Err? {
      r := Err(Term(checked.error));
    }
  }

  /** One term's changes. */
  method ApplyRun(env: IndexEnv, tb: Tables, root: RootRef, term: Bytes, group: seq<(RecordId, bool)>,
                  ghost ids: set<RecordId>, ghost m: Trie.Leaves)
    returns (r: Result<(Option<Hash>, Option<Hash>), IndexFailure>)
    requires Sound(env) && Distinct(tb)
    requires TermAt(env, tb.bitmaps.rows, tb.containers.rows, tb.trie.rows, Get(tb.terms.rows, term), root, term, ids,
                    m)
    requires B.ByChunk(group) && B.IdsInPlay(env.bitmaps, B.Posted(ids, group))
    modifies tb.bitmaps, tb.containers
    ensures Grows(old(tb.bitmaps.rows), tb.bitmaps.rows) && Grows(old(tb.containers.rows), tb.containers.rows)
    ensures B.Filed(env.bitmaps, tb.bitmaps.rows, tb.containers.rows)
    ensures r.Ok? ==> r.value.0 == Get(tb.terms.rows, term)
    ensures r.Ok? ==> B.HoldsIds(env.bitmaps, tb.bitmaps.rows, tb.containers.rows, r.value.1, B.Posted(ids, group))
    ensures r.Err? ==> Expects(env, r.error)
  {
    var before := CheckTerm(env, tb, root, term, ids, m);
    if before.Err? {
      return Err(before.error);
    }
    r := PostRun(env, tb, before.value, group, ids);
  }

  /** A term's bitmap before and after a run of changes. */
  method PostRun(env: IndexEnv, tb: Tables, before: Option<Hash>, group: seq<(RecordId, bool)>,
                 ghost ids: set<RecordId>)
    returns (r: Result<(Option<Hash>, Option<Hash>), IndexFailure>)
    requires B.Sound(env.bitmaps) && Distinct(tb) && B.Filed(env.bitmaps, tb.bitmaps.rows, tb.containers.rows)
    requires B.HoldsIds(env.bitmaps, tb.bitmaps.rows, tb.containers.rows, before, ids)
    requires B.ByChunk(group) && B.IdsInPlay(env.bitmaps, B.Posted(ids, group))
    modifies tb.bitmaps, tb.containers
    ensures Grows(old(tb.bitmaps.rows), tb.bitmaps.rows) && Grows(old(tb.containers.rows), tb.containers.rows)
    ensures B.Filed(env.bitmaps, tb.bitmaps.rows, tb.containers.rows)
    ensures r.Ok? ==> r.value.0 == before
    ensures r.Ok? ==> B.HoldsIds(env.bitmaps, tb.bitmaps.rows, tb.containers.rows, r.value.1, B.Posted(ids, group))
    ensures r.Err? ==> Expects(env, r.error)
  {
    B.HeldIsCanonical(env.bitmaps, tb.bitmaps.rows, tb.containers.rows, before, ids);
    B.SortedInPlay(env.bitmaps, ids, group);
    var after := B.Apply(env.bitmaps, tb.bitmaps, tb.containers, before, group, ids);
    r := if after.Err? then Err(Bitmap(after.error)) else Ok((before, after.value));
  }

  /** The rows as the batch has them so far hold the postings after the changes so far. */
  ghost predicate Progress(env: IndexEnv, b: TrieStore.Rows, c: TrieStore.Rows, flat: C.Flat, writes: seq<C.Write>,
                           index: FlatIndex, moves: seq<Move>) {
    forall t: Bytes {:trigger RowHolds(env, b, c, Get(C.Written(flat, writes), t), After(index, moves, t))} ::
      RowHolds(env, b, c, Get(C.Written(flat, writes), t), After(index, moves, t))
  }

  /** Writes name terms already handled, and make rows that decode. */
  ghost predicate WritesOk(env: IndexEnv, writes: seq<C.Write>, net: seq<Move>, i: nat, keys: set<Bytes>)
    requires i <= |net|
  {
    && C.Fit(env.terms, writes, keys)
    && (forall k :: 0 <= k < |writes| ==> Handled(net, i, writes[k].0))
  }

  /** The term has a change among the first `i`. */
  ghost predicate Handled(net: seq<Move>, i: nat, term: Bytes)
    requires i <= |net|
  {
    exists n :: 0 <= n < i && net[n].0.0 == term
  }

  /** The row a finished term gets. */
  function TermRow(term: Bytes, before: Option<Hash>, after: Option<Hash>): seq<C.Write> {
    if before == after then [] else [(term, after)]
  }

  lemma {:induction false} RowWritten(flat: C.Flat, writes: seq<C.Write>, term: Bytes, before: Option<Hash>,
                                      after: Option<Hash>, t: Bytes)
    requires before == Get(flat, term) && forall k :: 0 <= k < |writes| ==> writes[k].0 != term
    ensures Get(C.Written(flat, writes + TermRow(term, before, after)), t) == if t == term then after
              else Get(C.Written(flat, writes), t)
  {
    C.LastWriteWins(flat, writes, term);
    LastNone(writes, term);
    if before == after {
      assert writes + TermRow(term, before, after) == writes;
    } else {
      assert (writes + TermRow(term, before, after))[..|writes|] == writes;
    }
  }

  /** One run more. */
  lemma {:induction false} ProgressNext(env: IndexEnv, b: TrieStore.Rows, c: TrieStore.Rows, b': TrieStore.Rows,
                                        c': TrieStore.Rows, flat: C.Flat,
                                        writes: seq<C.Write>, index: FlatIndex, net: seq<Move>, i: nat, j: nat,
                                        term: Bytes,
                                        before: Option<Hash>, after: Option<Hash>)
    requires IsRun(net, i, j, term) && Progress(env, b, c, flat, writes, index, net[..i]) && Grows(b, b')
    requires Grows(c, c')
    requires before == Get(flat, term) && forall k :: 0 <= k < |writes| ==> writes[k].0 != term
    requires B.HoldsIds(env.bitmaps, b', c', after, B.Posted(PostingsOf(index, term), Group(net, i, j)))
    ensures Progress(env, b', c', flat, writes + TermRow(term, before, after), index, net[..j])
  {
    RunApplies(index, net, i, j, term);
    forall t: Bytes
      ensures RowHolds(env, b', c', Get(C.Written(flat, writes + TermRow(term, before, after)), t),
                       After(index, net[..j], t))
    {
      RowWritten(flat, writes, term, before, after, t);
      if t != term {
        RunSkips(index, net, i, j, term, t);
        RowGrows(env, b, c, b', c', Get(C.Written(flat, writes), t), After(index, net[..i], t));
      }
    }
  }

  lemma {:induction false} TermRowOk(env: IndexEnv, b: TrieStore.Rows, c: TrieStore.Rows, keys: set<Bytes>,
                                     term: Bytes, before: Option<Hash>, after: Option<Hash>, ids: set<RecordId>)
    requires Sound(env) && Admits(env, keys) && term in keys && B.HoldsIds(env.bitmaps, b, c, after, ids)
    ensures after.Some? ==> env.terms.wellFormed(term, after.value)
  {
    B.RowMeansSome(env.bitmaps, b, c, after, ids);
  }

  lemma {:induction false} WritesNext(env: IndexEnv, writes: seq<C.Write>, net: seq<Move>, i: nat, j: nat,
                                      keys: set<Bytes>,
                                      term: Bytes, before: Option<Hash>, after: Option<Hash>)
    requires term in keys && (after.Some? ==> env.terms.wellFormed(term, after.value))
    requires IsRun(net, i, j, term) && WritesOk(env, writes, net, i, keys)
    ensures WritesOk(env, writes + TermRow(term, before, after), net, j, keys)
    ensures forall k :: 0 <= k < |writes| ==> writes[k].0 != term
  {
    assert net[i].0.0 == term && Handled(net, j, term);
    forall k | 0 <= k < |writes|
      ensures writes[k].0 != term && Handled(net, j, writes[k].0)
    {
      assert Handled(net, i, writes[k].0);
    }
  }

  /** A term whose root changed. */
  datatype TermChange = TermChange(term: Bytes, before: Option<Hash>, after: Option<Hash>)

  function ReportOf(term: Bytes, before: Option<Hash>, after: Option<Hash>): seq<TermChange> {
    if before == after then [] else [TermChange(term, before, after)]
  }

  /** The report so far: one entry per written row, with the root it replaces, in term order. */
  ghost predicate Reported(flat: C.Flat, writes: seq<C.Write>, changed: seq<TermChange>) {
    && |changed| == |writes|
    && (forall k :: 0 <= k < |writes| ==> writes[k] == (changed[k].term, changed[k].after))
    && (forall k :: 0 <= k < |changed| ==>
          changed[k].before == Get(flat, changed[k].term) && changed[k].before != changed[k].after)
    && (forall i, j :: 0 <= i < j < |changed| ==> Less(changed[i].term, changed[j].term))
  }

  lemma {:induction false} ReportNext(flat: C.Flat, writes: seq<C.Write>, changed: seq<TermChange>, term: Bytes,
                                      before: Option<Hash>,
                                      after: Option<Hash>)
    requires Reported(flat, writes, changed) && before == Get(flat, term)
    requires forall k :: 0 <= k < |writes| ==> Less(writes[k].0, term)
    ensures Reported(flat, writes + TermRow(term, before, after), changed + ReportOf(term, before, after))
  {
  }

  /** The report of a batch: every term whose row changed, once, in term order, with both roots. */
  ghost predicate Reports(flat: C.Flat, flat': C.Flat, changed: seq<TermChange>) {
    && (forall k :: 0 <= k < |changed| ==>
          && changed[k].before == Get(flat, changed[k].term) && changed[k].after == Get(flat', changed[k].term)
          && changed[k].before != changed[k].after)
    && (forall i, j :: 0 <= i < j < |changed| ==> Less(changed[i].term, changed[j].term))
    && (forall t :: Get(flat, t) != Get(flat', t) ==> exists k :: 0 <= k < |changed| && changed[k].term == t)
  }

  lemma {:induction false} ReportDone(flat: C.Flat, writes: seq<C.Write>, changed: seq<TermChange>)
    requires Reported(flat, writes, changed)
    ensures Reports(flat, C.Written(flat, writes), changed)
  {
    forall i, j | 0 <= i < j < |writes|
      ensures writes[i].0 != writes[j].0
    {
      Irreflexive(writes[i].0);
      assert Less(changed[i].term, changed[j].term);
    }
    forall k | 0 <= k < |changed|
      ensures changed[k].after == Get(C.Written(flat, writes), changed[k].term)
    {
      LastAt(writes, k);
      C.LastWriteWins(flat, writes, changed[k].term);
    }
    forall t | Get(flat, t) != Get(C.Written(flat, writes), t)
      ensures exists k :: 0 <= k < |changed| && changed[k].term == t
    {
      C.LastWriteWins(flat, writes, t);
      LastNone(writes, t);
      var k :| 0 <= k < |writes| && writes[k].0 == t;
      assert changed[k].term == t;
    }
  }

  /** The terms written so far come before the next one. */
  lemma {:induction false} WritesBehind(env: IndexEnv, writes: seq<C.Write>, net: seq<Move>, i: nat, keys: set<Bytes>)
    requires Ascending(PostingLess, net) && i < |net| && WritesOk(env, writes, net, i, keys)
    requires forall k :: 0 <= k < i ==> net[k].0.0 != net[i].0.0
    ensures forall k :: 0 <= k < |writes| ==> Less(writes[k].0, net[i].0.0)
  {
    forall k | 0 <= k < |writes|
      ensures Less(writes[k].0, net[i].0.0)
    {
      assert Handled(net, i, writes[k].0);
      var n :| 0 <= n < i && net[n].0.0 == writes[k].0;
      assert PostingLess(net[n].0, net[i].0);
    }
  }

  /** One run: its term's postings after it, its row and its report. */
  method NextRun(env: IndexEnv, tb: Tables, root: RootRef, net: seq<Move>, i: nat, j: nat, writes: seq<C.Write>,
                 changed: seq<TermChange>, ghost index: FlatIndex, ghost keys: set<Bytes>)
    returns (r: Result<(seq<C.Write>, seq<TermChange>), IndexFailure>)
    requires Sound(env) && Distinct(tb) && Admits(env, keys) && Ascending(PostingLess, net) && i < j <= |net|
    requires IsRun(net, i, j, net[i].0.0) && B.ByChunk(Group(net, i, j)) && net[i].0.0 in keys
    requires Ready(env, tb.bitmaps.rows, tb.containers.rows, tb.trie.rows, tb.terms.rows, root, index, keys)
    requires Progress(env, tb.bitmaps.rows, tb.containers.rows, tb.terms.rows, writes, index, net[..i])
    requires WritesOk(env, writes, net, i, keys) && Reported(tb.terms.rows, writes, changed)
    requires B.IdsInPlay(env.bitmaps, After(index, net[..j], net[i].0.0))
    modifies tb.bitmaps, tb.containers
    ensures r.Ok? ==> Ready(env, tb.bitmaps.rows, tb.containers.rows, tb.trie.rows, tb.terms.rows, root, index, keys)
    ensures r.Ok? ==> Progress(env, tb.bitmaps.rows, tb.containers.rows, tb.terms.rows, r.value.0, index, net[..j])
    ensures r.Ok? ==> WritesOk(env, r.value.0, net, j, keys) && Reported(tb.terms.rows, r.value.0, r.value.1)
    ensures r.Err? ==> Expects(env, r.error)
  {
    ghost var b, c := tb.bitmaps.rows, tb.containers.rows;
    var term := net[i].0.0;
    RunApplies(index, net, i, j, term);
    ghost var m := TermReady(env, b, c, tb.trie.rows, tb.terms.rows, root, index, keys, term);
    var roots := ApplyRun(env, tb, root, term, Group(net, i, j), PostingsOf(index, term), m);
    if roots.Err? {
      return Err(roots.error);
    }
    var (before, after) := roots.value;
    ghost var ids := After(index, net[..j], term);
    ReadyGrows(env, b, c, tb.bitmaps.rows, tb.containers.rows, tb.trie.rows, tb.terms.rows, root, index, keys);
    TermRowOk(env, tb.bitmaps.rows, tb.containers.rows, keys, term, before, after, ids);
    WritesBehind(env, writes, net, i, keys);
    WritesNext(env, writes, net, i, j, keys, term, before, after);
    ReportNext(tb.terms.rows, writes, changed, term, before, after);
    ProgressNext(env, b, c, tb.bitmaps.rows, tb.containers.rows, tb.terms.rows, writes, index, net, i, j, term,
                 before, after);
    r := Ok((writes + TermRow(term, before, after), changed + ReportOf(term, before, after)));
  }

  /** The batch after its first `i` changes, which end a run. */
  ghost predicate Underway(env: IndexEnv, tb: Tables, root: RootRef, index: FlatIndex, keys: set<Bytes>, net: seq<Move>,
                           i: nat, done: (seq<C.Write>, seq<TermChange>))
    reads tb.bitmaps, tb.containers, tb.trie, tb.terms
  {
    && i <= |net| && (0 < i < |net| ==> net[i - 1].0.0 != net[i].0.0)
    && Ready(env, tb.bitmaps.rows, tb.containers.rows, tb.trie.rows, tb.terms.rows, root, index, keys)
    && Progress(env, tb.bitmaps.rows, tb.containers.rows, tb.terms.rows, done.0, index, net[..i])
    && WritesOk(env, done.0, net, i, keys) && Reported(tb.terms.rows, done.0, done.1)
  }

  method TakeRun(env: IndexEnv, tb: Tables, root: RootRef, net: seq<Move>, i: nat, j: nat,
                 done: (seq<C.Write>, seq<TermChange>), ghost index: FlatIndex, ghost keys: set<Bytes>)
    returns (r: Result<(seq<C.Write>, seq<TermChange>), IndexFailure>)
    requires Sound(env) && Distinct(tb) && Admits(env, keys) && Ascending(PostingLess, net)
    requires i < j <= |net| && net[i].0.0 in keys && Underway(env, tb, root, index, keys, net, i, done)
    requires forall k :: i <= k < j ==> net[k].0.0 == net[i].0.0
    requires j < |net| ==> net[j].0.0 != net[i].0.0
    requires forall t: Bytes :: B.IdsInPlay(env.bitmaps, After(index, net, t))
    modifies tb.bitmaps, tb.containers
    ensures r.Ok? ==> Underway(env, tb, root, index, keys, net, j, r.value)
    ensures r.Err? ==> Expects(env, r.error)
  {
    RunReady(env, index, net, i, j);
    r := NextRun(env, tb, root, net, i, j, done.0, done.1, index, keys);
  }

  /** Every term's run, in term order. */
  method ApplyRuns(env: IndexEnv, tb: Tables, root: RootRef, net: seq<Move>, ghost index: FlatIndex,
                   ghost keys: set<Bytes>)
    returns (r: Result<(seq<C.Write>, seq<TermChange>), IndexFailure>)
    requires Sound(env) && Distinct(tb) && Admits(env, keys) && Ascending(PostingLess, net)
    requires Ready(env, tb.bitmaps.rows, tb.containers.rows, tb.trie.rows, tb.terms.rows, root, index, keys)
    requires forall i :: 0 <= i < |net| ==> net[i].0.0 in keys
    requires forall t: Bytes :: B.IdsInPlay(env.bitmaps, After(index, net, t))
    modifies tb.bitmaps, tb.containers
    ensures r.Ok? ==> Ready(env, tb.bitmaps.rows, tb.containers.rows, tb.trie.rows, tb.terms.rows, root, index, keys)
    ensures r.Ok? ==> Progress(env, tb.bitmaps.rows, tb.containers.rows, tb.terms.rows, r.value.0, index, net)
    ensures r.Ok? ==> WritesOk(env, r.value.0, net, |net|, keys) && Reported(tb.terms.rows, r.value.0, r.value.1)
    ensures r.Err? ==> Expects(env, r.error)
  {
    var done: (seq<C.Write>, seq<TermChange>) := ([], []);
    var i := 0;
    UnderwayStart(env, tb, root, index, keys, net);
    while i < |net|
      invariant i <= |net| && Underway(env, tb, root, index, keys, net, i, done)
      decreases |net| - i
    {
      var j := RunEnd(net, i);
      var next := TakeRun(env, tb, root, net, i, j, done, index, keys);
      if next.Err? {
        return Err(next.error);
      }
      done, i := next.value, j;
    }
    UnderwayEnd(env, tb, root, index, keys, net, done);
    r := Ok(done);
  }

  lemma {:induction false} UnderwayStart(env: IndexEnv, tb: Tables, root: RootRef, index: FlatIndex, keys: set<Bytes>,
                                         net: seq<Move>)
    requires Ready(env, tb.bitmaps.rows, tb.containers.rows, tb.trie.rows, tb.terms.rows, root, index, keys)
    ensures Underway(env, tb, root, index, keys, net, 0, ([], []))
  {
    NoMoves(env, tb.bitmaps.rows, tb.containers.rows, tb.terms.rows, index);
    assert net[..0] == [];
  }

  lemma {:induction false} UnderwayEnd(env: IndexEnv, tb: Tables, root: RootRef, index: FlatIndex, keys: set<Bytes>,
                                       net: seq<Move>, done: (seq<C.Write>, seq<TermChange>))
    requires Underway(env, tb, root, index, keys, net, |net|, done)
    ensures Ready(env, tb.bitmaps.rows, tb.containers.rows, tb.trie.rows, tb.terms.rows, root, index, keys)
    ensures Progress(env, tb.bitmaps.rows, tb.containers.rows, tb.terms.rows, done.0, index, net)
    ensures WritesOk(env, done.0, net, |net|, keys) && Reported(tb.terms.rows, done.0, done.1)
  {
    assert net[..|net|] == net;
  }

  /** A run is grouped, and leaves its term's postings as the whole batch does. */
  lemma {:induction false} RunReady(env: IndexEnv, index: FlatIndex, net: seq<Move>, i: nat, j: nat)
    requires Ascending(PostingLess, net) && i < j <= |net| && forall k :: i <= k < j ==> net[k].0.0 == net[i].0.0
    requires i > 0 ==> net[i - 1].0.0 != net[i].0.0
    requires j < |net| ==> net[j].0.0 != net[i].0.0
    requires forall t: Bytes :: B.IdsInPlay(env.bitmaps, After(index, net, t))
    ensures IsRun(net, i, j, net[i].0.0) && B.ByChunk(Group(net, i, j))
    ensures B.IdsInPlay(env.bitmaps, After(index, net[..j], net[i].0.0))
    ensures j < |net| ==> net[j - 1].0.0 != net[j].0.0
  {
    RunsAscend(net, i, j);
    Irreflexive(net[i].0.0);
    RunFinal(index, net, j, net[i].0.0);
  }

  lemma {:induction false} NoMoves(env: IndexEnv, b: TrieStore.Rows, c: TrieStore.Rows, flat: C.Flat, index: FlatIndex)
    requires HoldsAll(env, b, c, flat, index)
    ensures Progress(env, b, c, flat, [], index, [])
  {
    forall t: Bytes
      ensures After(index, [], t) == PostingsOf(index, t)
    {
      forall id: RecordId
        ensures id in After(index, [], t) <==> id in PostingsOf(index, t)
      {
        AfterAt(index, [], t, id);
      }
    }
    forall t: Bytes
      ensures RowHolds(env, b, c, Get(C.Written(flat, []), t), After(index, [], t))
    {
      assert RowHolds(env, b, c, Get(flat, t), PostingsOf(index, t));
    }
  }

  /** The index after posting changes: the terms that keep some posting. */
  ghost function MovedIndex(index: FlatIndex, moves: seq<Move>): FlatIndex {
    map t | t in index.Keys + (set i | 0 <= i < |moves| :: moves[i].0.0) && After(index, moves, t) != {} ::
      After(index, moves, t)
  }

  lemma {:induction false} MovedPostings(index: FlatIndex, moves: seq<Move>, t: Bytes)
    ensures PostingsOf(MovedIndex(index, moves), t) == After(index, moves, t)
    ensures t in MovedIndex(index, moves) <==> After(index, moves, t) != {}
  {
    if id :| id in After(index, moves, t) {
      AfterAt(index, moves, t, id);
      if Last(moves, (t, id)).Some? {
        LastIn(moves, (t, id));
        var i :| 0 <= i < |moves| && moves[i] == ((t, id), Last(moves, (t, id)).value);
        assert moves[i].0.0 == t;
      }
    }
  }

  lemma {:induction false} MovedIsMoved(index: FlatIndex, moves: seq<Move>)
    ensures Moved(index, MovedIndex(index, moves), moves)
  {
    forall t: Bytes, id: RecordId
      ensures id in PostingsOf(MovedIndex(index, moves), t) <==> Settled(moves, (t, id), id in PostingsOf(index, t))
    {
      MovedPostings(index, moves, t);
      AfterAt(index, moves, t, id);
    }
  }

  lemma {:induction false} NewIndexHolds(env: IndexEnv, b: TrieStore.Rows, c: TrieStore.Rows, flat: C.Flat,
                                         writes: seq<C.Write>,
                                         index: FlatIndex, net: seq<Move>, moves: seq<Move>)
    requires Sound(env) && Progress(env, b, c, flat, writes, index, net) && forall p :: Last(net, p) == Last(moves, p)
    ensures HoldsAll(env, b, c, C.Written(flat, writes), MovedIndex(index, moves))
    ensures C.Written(flat, writes).Keys == MovedIndex(index, moves).Keys
  {
    var flat' := C.Written(flat, writes);
    forall t: Bytes
      ensures RowHolds(env, b, c, Get(flat', t), PostingsOf(MovedIndex(index, moves), t))
      ensures (t in flat' <==> t in MovedIndex(index, moves))
    {
      assert RowHolds(env, b, c, Get(flat', t), After(index, net, t));
      SameAfter(index, net, moves, t);
      MovedPostings(index, moves, t);
      RowMeansSome(env, b, c, Get(flat', t), After(index, net, t));
    }
  }

  lemma {:induction false} SameAfter(index: FlatIndex, net: seq<Move>, moves: seq<Move>, t: Bytes)
    requires forall p :: Last(net, p) == Last(moves, p)
    ensures After(index, net, t) == After(index, moves, t)
  {
    forall id: RecordId
      ensures id in After(index, net, t) <==> id in After(index, moves, t)
    {
      AfterAt(index, net, t, id);
      AfterAt(index, moves, t, id);
    }
  }

  /** Each posting follows its last change. */
  ghost predicate Moved(index: FlatIndex, index': FlatIndex, moves: seq<Move>) {
    forall t: Bytes, id: RecordId ::
      id in PostingsOf(index', t) <==> Settled(moves, (t, id), id in PostingsOf(index, t))
  }

  /** One batched trie update for all changed terms, then their rows. */
  method WriteTerms(env: IndexEnv, tb: Tables, root: RootRef, writes: seq<C.Write>, ghost net: seq<Move>,
                    ghost moves: seq<Move>, ghost index: FlatIndex, ghost keys: set<Bytes>)
    returns (r: Result<RootRef, IndexFailure>)
    requires Sound(env) && Distinct(tb) && IndexInPlay(env, MovedIndex(index, moves))
    requires Ready(env, tb.bitmaps.rows, tb.containers.rows, tb.trie.rows, tb.terms.rows, root, index, keys)
    requires Progress(env, tb.bitmaps.rows, tb.containers.rows, tb.terms.rows, writes, index, net)
    requires forall p :: Last(net, p) == Last(moves, p)
    requires WritesOk(env, writes, net, |net|, keys)
    modifies tb.trie, tb.terms
    ensures r.Ok? ==>
              Ready(env, tb.bitmaps.rows, tb.containers.rows, tb.trie.rows, tb.terms.rows, r.value,
                    MovedIndex(index, moves), keys)
    ensures r.Ok? ==> tb.terms.rows == C.Written(old(tb.terms.rows), writes)
    ensures r.Err? ==> Expects(env, r.error)
  {
    NewIndexHolds(env, tb.bitmaps.rows, tb.containers.rows, tb.terms.rows, writes, index, net, moves);
    HeldRows(env, tb.bitmaps.rows, tb.containers.rows, C.Written(tb.terms.rows, writes), MovedIndex(index, moves));
    var updated := C.Update(env.terms, tb.trie, tb.terms, root, writes, keys);
    if updated.Err? {
      return Err(Term(updated.error));
    }
    r := Ok(updated.value);
  }

  /** What a batch leads to is in play, term by term. */
  lemma {:induction false} TermsInPlay(env: IndexEnv, index: FlatIndex, net: seq<Move>, moves: seq<Move>)
    requires IndexInPlay(env, MovedIndex(index, moves)) && forall p :: Last(net, p) == Last(moves, p)
    ensures forall t: Bytes :: B.IdsInPlay(env.bitmaps, After(index, net, t))
  {
    forall t: Bytes
      ensures B.IdsInPlay(env.bitmaps, After(index, net, t))
    {
      SameAfter(index, net, moves, t);
      MovedPostings(index, moves, t);
    }
  }

  /** A batch of posting changes, unsorted and with repeats: every term's postings follow the last
      change of each record, the rows, bitmaps and root stand for exactly that index, and the report
      lists the terms whose root changed. */
  method Apply(env: IndexEnv, tb: Tables, root: RootRef, moves: seq<Move>, ghost index: FlatIndex,
               ghost keys: set<Bytes>)
    returns (r: Result<(RootRef, seq<TermChange>), IndexFailure>)
    requires Sound(env) && Distinct(tb) && Admits(env, keys)
    requires Ready(env, tb.bitmaps.rows, tb.containers.rows, tb.trie.rows, tb.terms.rows, root, index, keys)
    requires forall i :: 0 <= i < |moves| ==> moves[i].0.0 in keys
    requires IndexInPlay(env, MovedIndex(index, moves))
    modifies tb.bitmaps, tb.containers, tb.trie, tb.terms
    ensures r.Ok? ==>
              Ready(env, tb.bitmaps.rows, tb.containers.rows, tb.trie.rows, tb.terms.rows, r.value.0,
                    MovedIndex(index, moves), keys)
    ensures r.Ok? ==> Moved(index, MovedIndex(index, moves), moves)
    ensures r.Ok? ==> Reports(old(tb.terms.rows), tb.terms.rows, r.value.1)
    ensures r.Err? ==> Expects(env, r.error)
  {
    PostingOrder();
    var net := Normalize(PostingLess, moves);
    NetKeys(moves, net, keys);
    MovedIsMoved(index, moves);
    r := ApplyNet(env, tb, root, net, moves, index, keys);
  }

  /** The sorted batch with one change per posting. */
  method ApplyNet(env: IndexEnv, tb: Tables, root: RootRef, net: seq<Move>, ghost moves: seq<Move>,
                  ghost index: FlatIndex,
                  ghost keys: set<Bytes>)
    returns (r: Result<(RootRef, seq<TermChange>), IndexFailure>)
    requires Sound(env) && Distinct(tb) && Admits(env, keys)
    requires Ready(env, tb.bitmaps.rows, tb.containers.rows, tb.trie.rows, tb.terms.rows, root, index, keys)
    requires Ascending(PostingLess, net) && forall i :: 0 <= i < |net| ==> net[i].0.0 in keys
    requires IndexInPlay(env, MovedIndex(index, moves)) && forall p :: Last(net, p) == Last(moves, p)
    modifies tb.bitmaps, tb.containers, tb.trie, tb.terms
    ensures r.Ok? ==>
              Ready(env, tb.bitmaps.rows, tb.containers.rows, tb.trie.rows, tb.terms.rows, r.value.0,
                    MovedIndex(index, moves), keys)
    ensures r.Ok? ==> Reports(old(tb.terms.rows), tb.terms.rows, r.value.1)
    ensures r.Err? ==> Expects(env, r.error)
  {
    TermsInPlay(env, index, net, moves);
    var done := ApplyRuns(env, tb, root, net, index, keys);
    if done.Err? {
      return Err(done.error);
    }
    ReportDone(tb.terms.rows, done.value.0, done.value.1);
    var updated := WriteTerms(env, tb, root, done.value.0, net, moves, index, keys);
    r := if updated.Ok? then Ok((updated.value, done.value.1)) else Err(updated.error);
  }

  lemma {:induction false} NetKeys(moves: seq<Move>, net: seq<Move>, keys: set<Bytes>)
    requires forall i :: 0 <= i < |moves| ==> moves[i].0.0 in keys
    requires Ascending(PostingLess, net) && forall p :: Last(net, p) == Last(moves, p)
    ensures forall i :: 0 <= i < |net| ==> net[i].0.0 in keys
  {
    forall i | 0 <= i < |net|
      ensures net[i].0.0 in keys
    {
      LastNone(net, net[i].0);
      LastIn(moves, net[i].0);
    }
  }
}
