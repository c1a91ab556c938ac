/** Sealing: a branch's net cell edits, the roots of the head it was opened over, and the index
    derived from the difference, staged over a copy of the committed tables. */
module Seal {
  import opened Wrappers
  import opened Lex
  import opened Words
  import opened Batch
  import opened CellKeys
  import opened Order
  import opened Terms
  import opened CellValues
  import opened Postings
  import opened TrieStore
  import opened Trie
  import opened System
  import C = Commitment
  import S = CellStore
  import I = IndexStore

  /** The two commitments over one hasher, and the cell row codec. */
  datatype Setup = Setup(cells: C.Auth, index: I.IndexEnv, codec: Codec, utf8: Bytes -> bool)

  /** The committed tables. */
  datatype Snapshot = Snapshot(cellTrie: TrieStore.Rows, cells: C.Flat, index: IndexRows)
  datatype IndexRows = IndexRows(bitmaps: TrieStore.Rows, containers: TrieStore.Rows, trie: TrieStore.Rows,
                                 terms: C.Flat)

  /** The tables of one staged transaction. */
  datatype Staged = Staged(cellTrie: Table, cells: C.FlatTable, index: I.Tables)

  datatype SealError =
    | CommitNumberExhausted
    | RootsCellExists
    | Cells(cells: C.CommitError)
    | Index(index: I.IndexFailure)
    | Term(term: TermError)

  /** The branch's edits, then the engine's own, which is last and wins. */
  function SealEdits(head: Head, overlay: seq<S.CellEdit>): seq<S.CellEdit> {
    overlay + [(RootsKey(head.commit), Some(RootsValue(head)))]
  }

  // ---- What the tables stand for ----

  /** One hasher, sound commitments, and rows that decode when written. */
  ghost predicate Sound(u: Setup, terms: set<Bytes>) {
    && C.Sound(u.cells) && I.Sound(u.index) && u.cells.empty == u.index.terms.empty
    && LawfulCodec(u.codec) && Fits(u.codec, u.utf8) && (forall head: Head :: u.codec.ok(RootsValue(head)))
    && S.Admits(u.cells, u.codec) && I.Admits(u.index, terms)
  }

  /** What a run may meet: cell keys and terms, and the committed states it may reach. */
  datatype Play = Play(keys: set<Bytes>, terms: set<Bytes>, states: iset<CellMap>)

  /** Every digest a state of the cells gives rise to, in either trie or in a bitmap, is in play. */
  ghost predicate StateInPlay(u: Setup, cells: CellMap)
    requires LawfulCodec(u.codec)
  {
    && C.InPlay(u.cells, S.FlatOf(u.codec, cells))
    && forall index :: IsIndex(index, cells) ==> I.IndexInPlay(u.index, index)
  }

  ghost predicate CellsAt(u: Setup, trie: TrieStore.Rows, flat: C.Flat, head: Head, cells: CellMap, play: Play,
                          root: RootRef) {
    && S.Ready(u.cells, u.codec, trie, flat, root, cells, play.keys)
    && head.state == RootHash(u.cells.empty, root)
  }

  ghost predicate IndexAt(u: Setup, x: IndexRows, head: Head, cells: CellMap, play: Play, root: RootRef,
                          index: FlatIndex) {
    && I.Ready(u.index, x.bitmaps, x.containers, x.trie, x.terms, root, index, play.terms)
    && head.index == RootHash(u.index.terms.empty, root)
    && IsIndex(index, cells)
  }

  /** Every attribute has a term. */
  ghost predicate Termed(cells: CellMap) {
    forall k :: k in cells ==> TermOf(k, Some(cells[k])).Ok?
  }

  /** The head's roots stand for these cells, and the index for its full rebuild. */
  ghost predicate Coherent(u: Setup, s: Snapshot, head: Head, cells: CellMap, play: Play) {
    && Termed(cells)
    && HasCells(u, s.cellTrie, s.cells, head, cells, play)
    && HasIndex(u, s.index, head, cells, play)
  }

  ghost predicate HasCells(u: Setup, trie: TrieStore.Rows, flat: C.Flat, head: Head, cells: CellMap, play: Play) {
    exists root :: CellsAt(u, trie, flat, head, cells, play, root)
  }

  ghost predicate HasIndex(u: Setup, x: IndexRows, head: Head, cells: CellMap, play: Play) {
    exists root, index :: IndexAt(u, x, head, cells, play, root, index)
  }

  predicate Distinct(st: Staged) {
    && I.Distinct(st.index)
    && st.cellTrie != st.index.bitmaps && st.cellTrie != st.index.containers && st.cellTrie != st.index.trie
    && st.cells != st.index.terms
  }

  ghost function Contents(st: Staged): Snapshot
    reads st.cellTrie, st.cells, st.index.bitmaps, st.index.containers, st.index.trie, st.index.terms
  {
    Snapshot(st.cellTrie.rows, st.cells.rows, IndexContents(st.index))
  }

  ghost function IndexContents(x: I.Tables): IndexRows
    reads x.bitmaps, x.containers, x.trie, x.terms
  {
    IndexRows(x.bitmaps.rows, x.containers.rows, x.trie.rows, x.terms.rows)
  }

  // ---- Posting changes of a diff ----

  lemma {:induction false} CodecValid(c: Codec, utf8: Bytes -> bool, cells: CellMap)
    requires Fits(c, utf8) && S.CellsOk(c, cells)
    ensures ValidCells(utf8, cells)
  {
    forall k | k in cells
      ensures Validate(utf8, cells[k].ty, cells[k].stored)
    {
      assert TypedAt(c, utf8, cells[k]);
    }
  }

  /** Each changed cell's terms exist when all moves do. */
  lemma {:induction false} MovesOk(changes: seq<Change>, i: nat)
    requires AllMoves(changes).Ok? && i < |changes|
    ensures TermOf(changes[i].key, changes[i].before).Ok? && TermOf(changes[i].key, changes[i].after).Ok?
    decreases |changes|
  {
    if i < |changes| - 1 {
      MovesOk(changes[..|changes| - 1], i);
    }
  }

  /** Where old and new cells have terms, so do all their differences. */
  lemma {:induction false} TermedMoves(cells: CellMap, cells': CellMap, changes: seq<Change>)
    requires Termed(cells) && Termed(cells')
    requires forall i :: 0 <= i < |changes| ==>
               changes[i].before == Get(cells, changes[i].key) && changes[i].after == Get(cells', changes[i].key)
    ensures AllMoves(changes).Ok?
    decreases |changes|
  {
    if changes != [] {
      TermedMoves(cells, cells', changes[..|changes| - 1]);
      var c := changes[|changes| - 1];
      assert TermOf(c.key, c.before).Ok? && TermOf(c.key, c.after).Ok?;
    }
  }

  /** Cells that changed have terms because the seal derived them; the others had them. */
  lemma {:induction false} StillTermed(cells: CellMap, cells': CellMap, changes: seq<Change>)
    requires Termed(cells) && IsDiff(cells, cells', changes) && AllMoves(changes).Ok?
    ensures Termed(cells')
  {
    forall k | k in cells'
      ensures TermOf(k, Some(cells'[k])).Ok?
    {
      assert Get(cells', k) == Some(cells'[k]);
      if Get(cells, k) != Get(cells', k) {
        var i :| 0 <= i < |changes| && changes[i].key == k;
        MovesOk(changes, i);
      } else {
        assert k in cells;
      }
    }
  }

  /** A moved posting is a term of a changed cell, old or new. */
  lemma {:induction false} MoveTerm(changes: seq<Change>, m: nat) returns (i: nat)
    requires AllMoves(changes).Ok? && m < |AllMoves(changes).value|
    ensures i < |changes|
    ensures TermOf(changes[i].key, changes[i].before) == Ok(Some(AllMoves(changes).value[m].0.0))
         || TermOf(changes[i].key, changes[i].after) == Ok(Some(AllMoves(changes).value[m].0.0))
    decreases |changes|
  {
    var n := |changes| - 1;
    var init := AllMoves(changes[..n]).value;
    if m < |init| {
      i := MoveTerm(changes[..n], m);
    } else {
      i := n;
    }
  }

  /** Terms of the new values are in play. */
  ghost predicate InPlay(overlay: seq<S.CellEdit>, play: Play) {
    forall i, t :: 0 <= i < |overlay| && TermOf(overlay[i].0, overlay[i].1) == Ok(Some(t)) ==> t in play.terms
  }

  /** A changed cell's new value is one of the edits. */
  lemma {:induction false} AfterIsEdit(cells: CellMap, edits: seq<S.CellEdit>, change: Change) returns (i: nat)
    requires change.before == Get(cells, change.key) && change.after == Get(S.Updated(cells, edits), change.key)
    requires change.before != change.after
    ensures i < |edits| && edits[i] == (change.key, change.after)
  {
    S.UpdatedLast(cells, edits, change.key);
    LastIn(edits, change.key);
    i :| 0 <= i < |edits| && edits[i] == (change.key, change.after);
  }

  /** The terms of the cells are in play. */
  ghost predicate TermsInPlay(cells: CellMap, play: Play) {
    forall k, t :: k in cells && TermOf(k, Some(cells[k])) == Ok(Some(t)) ==> t in play.terms
  }

  /** Held terms are in play. */
  lemma {:induction false} HeldInPlay(u: Setup, x: IndexRows, head: Head, cells: CellMap, play: Play, root: RootRef,
                                      index: FlatIndex)
    requires IndexAt(u, x, head, cells, play, root, index)
    ensures TermsInPlay(cells, play)
  {
    forall k, t | k in cells && TermOf(k, Some(cells[k])) == Ok(Some(t))
      ensures t in play.terms
    {
      assert k.id in Rebuilt(cells, t);
    }
  }

  lemma {:induction false} MovesInPlay(cells: CellMap, edits: seq<S.CellEdit>, play: Play, changes: seq<Change>)
    requires TermsInPlay(cells, play) && InPlay(edits, play)
    requires IsDiff(cells, S.Updated(cells, edits), changes) && AllMoves(changes).Ok?
    ensures forall m :: 0 <= m < |AllMoves(changes).value| ==> AllMoves(changes).value[m].0.0 in play.terms
  {
    forall m | 0 <= m < |AllMoves(changes).value|
      ensures AllMoves(changes).value[m].0.0 in play.terms
    {
      var i := MoveTerm(changes, m);
      ChangeInPlay(cells, edits, play, changes[i], AllMoves(changes).value[m].0.0);
    }
  }

  /** Either term of a change is in play. */
  lemma {:induction false} ChangeInPlay(cells: CellMap, edits: seq<S.CellEdit>, play: Play, ch: Change, t: Bytes)
    requires TermsInPlay(cells, play) && InPlay(edits, play)
    requires ch.before == Get(cells, ch.key) && ch.after == Get(S.Updated(cells, edits), ch.key)
    requires TermOf(ch.key, ch.before) == Ok(Some(t)) || TermOf(ch.key, ch.after) == Ok(Some(t))
    ensures t in play.terms
  {
    if TermOf(ch.key, ch.before) != Ok(Some(t)) {
      var e := AfterIsEdit(cells, edits, ch);
    }
  }

  /** Applying the moves of a diff to the index of the old cells gives the index of the new. */
  lemma {:induction false} MovedIsIndex(utf8: Bytes -> bool, cells: CellMap, cells': CellMap, changes: seq<Change>,
                                        index: FlatIndex, index': FlatIndex)
    requires ValidCells(utf8, cells) && ValidCells(utf8, cells') && IsDiff(cells, cells', changes)
    requires AllMoves(changes).Ok?
    requires IsIndex(index, cells) && I.Moved(index, index', AllMoves(changes).value)
    requires forall t :: t in index' ==> index'[t] != {}
    ensures IsIndex(index', cells')
  {
    forall t: Bytes
      ensures PostingsOf(index', t) == Rebuilt(cells', t)
    {
      forall id: RecordId
        ensures id in PostingsOf(index', t) <==> id in Rebuilt(cells', t)
      {
        IncrementalIsRebuilt(utf8, cells, cells', changes, t, id);
        assert PostingsOf(index, t) == Rebuilt(cells, t);
      }
    }
  }

  // ---- Computing a seal ----

  /** A failure of storage, or two contents in play under one digest. */
  ghost predicate Expected(u: Setup, e: SealError) {
    match e
    case Cells(c) => C.Excuse(u.cells, c)
    case Index(i) => I.Expects(u.index, i)
    case _ => true
  }

  ghost function CellRoot(u: Setup, trie: TrieStore.Rows, flat: C.Flat, head: Head, cells: CellMap,
                          play: Play): (root: RootRef)
    requires HasCells(u, trie, flat, head, cells, play)
    ensures CellsAt(u, trie, flat, head, cells, play, root)
    ensures C.Commits(u.cells, trie, root, flat) && RootHash(u.cells.empty, root) == head.state
  {
    var root :| CellsAt(u, trie, flat, head, cells, play, root);
    root
  }

  method OpenCells(u: Setup, st: Staged, head: Head, ghost cells: CellMap, ghost play: Play)
    returns (r: Result<RootRef, SealError>)
    requires Sound(u, play.terms) && HasCells(u, st.cellTrie.rows, st.cells.rows, head, cells, play)
    ensures r.Ok? ==> CellsAt(u, st.cellTrie.rows, st.cells.rows, head, cells, play, r.value)
    ensures r.Err? ==> r.error.Cells? && C.Failure(r.error.cells)
  {
    ghost var root := CellRoot(u, st.cellTrie.rows, st.cells.rows, head, cells, play);
    var found := C.Reopen(u.cells, st.cellTrie, st.cells, head.state);
    r := if found.Ok? then Ok(found.value) else Err(Cells(found.error));
  }

  method OpenIndex(u: Setup, st: Staged, head: Head, ghost cells: CellMap, ghost play: Play)
    returns (r: Result<RootRef, SealError>, ghost index: FlatIndex)
    requires Sound(u, play.terms) && HasIndex(u, IndexContents(st.index), head, cells, play)
    ensures r.Ok? ==> IndexAt(u, IndexContents(st.index), head, cells, play, r.value, index)
    ensures r.Err? ==> r.error.Index? && r.error.index.Term? && C.Failure(r.error.index.term)
  {
    ghost var root;
    root, index :| IndexAt(u, IndexContents(st.index), head, cells, play, root, index);
    var found := C.Reopen(u.index.terms, st.index.trie, st.index.terms, head.index);
    r := if found.Ok? then Ok(found.value) else Err(Index(I.Term(found.error)));
  }

  /** Whether the head's own roots are already stored. */
  method RootsStored(u: Setup, st: Staged, head: Head, ghost cells: CellMap, ghost play: Play, ghost root: RootRef)
    returns (r: Result<bool, SealError>)
    requires CellsAt(u, st.cellTrie.rows, st.cells.rows, head, cells, play, root)
    ensures r == Ok(RootsKey(head.commit) in cells) || (r.Err? && r.error.Cells? && C.Failure(r.error.cells))
  {
    S.FlatAt(u.codec, cells, RootsKey(head.commit));
    var row := st.cells.Get(u.codec.key(RootsKey(head.commit)));
    r := if row.Ok? then Ok(row.value.Some?) else Err(Cells(row.error));
  }

  /** The edits' keys are in play and their values decode. */
  ghost predicate EditsOk(u: Setup, edits: seq<S.CellEdit>, play: Play) {
    forall i :: 0 <= i < |edits| ==>
      u.codec.key(edits[i].0) in play.keys && (edits[i].1.Some? ==> u.codec.ok(edits[i].1.value))
  }

  method SealCells(u: Setup, st: Staged, root: RootRef, edits: seq<S.CellEdit>, ghost head: Head, ghost cells: CellMap,
                   ghost play: Play)
    returns (r: Result<(RootRef, seq<Change>), SealError>)
    requires Distinct(st) && Sound(u, play.terms) && EditsOk(u, edits, play)
    requires C.InPlay(u.cells, S.FlatOf(u.codec, S.Updated(cells, edits)))
    requires CellsAt(u, st.cellTrie.rows, st.cells.rows, head, cells, play, root)
    modifies st.cellTrie, st.cells
    ensures r.Ok? ==>
              S.Ready(u.cells, u.codec, st.cellTrie.rows, st.cells.rows, r.value.0, S.Updated(cells, edits), play.keys)
    ensures r.Ok? ==> IsDiff(cells, S.Updated(cells, edits), r.value.1)
    ensures r.Ok? && S.Updated(cells, edits) == cells ==>
              st.cellTrie.rows == old(st.cellTrie.rows) && st.cells.rows == old(st.cells.rows)
    ensures r.Err? ==>
              && r.error.Cells? && Expected(u, r.error)
              && (S.Updated(cells, edits) == cells ==> C.Failure(r.error.cells))
  {
    var applied := S.Apply(u.cells, u.codec, st.cellTrie, st.cells, root, edits, cells, play.keys);
    r := if applied.Ok? then Ok(applied.value) else Err(Cells(applied.error));
  }

  /** The index the posting changes lead to is the rebuild of the new cells. */
  lemma {:induction false} LedToRebuild(u: Setup, x: IndexRows, head: Head, cells: CellMap, cells': CellMap,
                                        changes: seq<Change>,
                                        play: Play, root: RootRef, index: FlatIndex)
    requires IndexAt(u, x, head, cells, play, root, index) && IsDiff(cells, cells', changes) && AllMoves(changes).Ok?
    requires ValidCells(u.utf8, cells) && ValidCells(u.utf8, cells')
    ensures IsIndex(I.MovedIndex(index, AllMoves(changes).value), cells')
  {
    var moves := AllMoves(changes).value;
    I.MovedIsMoved(index, moves);
    MovedIsIndex(u.utf8, cells, cells', changes, index, I.MovedIndex(index, moves));
  }

  /** Derive the posting changes of the diff and apply them. */
  method SealIndex(u: Setup, st: Staged, root: RootRef, changes: seq<Change>, ghost index: FlatIndex, ghost head: Head,
                   ghost cells: CellMap, ghost edits: seq<S.CellEdit>, ghost play: Play)
    returns (r: Result<RootRef, SealError>, ghost index': FlatIndex)
    requires Distinct(st) && Sound(u, play.terms) && InPlay(edits, play)
    requires IndexAt(u, IndexContents(st.index), head, cells, play, root, index)
    requires IsDiff(cells, S.Updated(cells, edits), changes) && StateInPlay(u, S.Updated(cells, edits))
    requires ValidCells(u.utf8, cells) && ValidCells(u.utf8, S.Updated(cells, edits))
    modifies st.index.bitmaps, st.index.containers, st.index.trie, st.index.terms
    ensures r.Ok? ==>
              I.Ready(u.index, st.index.bitmaps.rows, st.index.containers.rows, st.index.trie.rows,
                      st.index.terms.rows, r.value, index', play.terms)
    ensures r.Ok? ==> IsIndex(index', S.Updated(cells, edits)) && AllMoves(changes).Ok?
    ensures r.Err? ==> (r.error.Index? || r.error.Term?) && Expected(u, r.error)
    ensures r.Err? && Termed(cells) && Termed(S.Updated(cells, edits)) ==> !r.error.Term?
  {
    index' := index;
    var moves := Derive(changes);
    if Termed(cells) && Termed(S.Updated(cells, edits)) {
      TermedMoves(cells, S.Updated(cells, edits), changes);
    }
    if moves.Err? {
      return Err(Term(moves.error)), index';
    }
    HeldInPlay(u, IndexContents(st.index), head, cells, play, root, index);
    MovesInPlay(cells, edits, play, changes);
    LedToRebuild(u, IndexContents(st.index), head, cells, S.Updated(cells, edits), changes, play, root, index);
    index' := I.MovedIndex(index, moves.value);
    var applied := I.Apply(u.index, st.index, root, moves.value, index, play.terms);
    r := if applied.Ok? then Ok(applied.value.0) else Err(Index(applied.error));
  }

  lemma {:induction false} RootsEdit(u: Setup, head: Head, overlay: seq<S.CellEdit>, play: Play)
    requires Sound(u, play.terms) && EditsOk(u, overlay, play) && InPlay(overlay, play)
    requires u.codec.key(RootsKey(head.commit)) in play.keys
    ensures EditsOk(u, SealEdits(head, overlay), play) && InPlay(SealEdits(head, overlay), play)
  {
    var last := (RootsKey(head.commit), Some(RootsValue(head)));
    assert TermOf(last.0, last.1) == Ok(None);
    assert u.codec.ok(RootsValue(head));
  }

  /** Both roots reopened over the committed origin, and no roots stored yet for this head. */
  method OpenRoots(u: Setup, st: Staged, head: Head, ghost cells: CellMap, ghost play: Play)
    returns (r: Result<(RootRef, RootRef), SealError>, ghost index: FlatIndex)
    requires Sound(u, play.terms) && Coherent(u, Contents(st), head, cells, play)
    ensures r.Ok? ==> CellsAt(u, st.cellTrie.rows, st.cells.rows, head, cells, play, r.value.0)
    ensures r.Ok? ==> IndexAt(u, IndexContents(st.index), head, cells, play, r.value.1, index)
    ensures r.Ok? ==> RootsKey(head.commit) !in cells
    ensures r.Err? ==>
              && Expected(u, r.error) && r.error != CommitNumberExhausted && !r.error.Term?
              && (r.error == RootsCellExists ==> RootsKey(head.commit) in cells)
  {
    index := map[];
    var root := OpenCells(u, st, head, cells, play);
    if root.Err? {
      return Err(root.error), index;
    }
    var indexRoot;
    indexRoot, index := OpenIndex(u, st, head, cells, play);
    if indexRoot.Err? {
      return Err(indexRoot.error), index;
    }
    var stored := RootsStored(u, st, head, cells, play, root.value);
    if stored.Err? {
      return Err(stored.error), index;
    }
    if stored.value {
      return Err(RootsCellExists), index;
    }
    r := Ok((root.value, indexRoot.value));
  }

  /** The staged next state: the edits and the old head's roots applied, the index rebuilt, and a new
      head that commits to both. Reopening and checking never fail on a coherent store. */
  method Compute(u: Setup, st: Staged, head: Head, overlay: seq<S.CellEdit>, ghost cells: CellMap, ghost play: Play)
    returns (r: Result<Head, SealError>)
    requires Distinct(st) && Sound(u, play.terms) && head.commit < U64 && Coherent(u, Contents(st), head, cells, play)
    requires EditsOk(u, overlay, play) && InPlay(overlay, play) && u.codec.key(RootsKey(head.commit)) in play.keys
    requires StateInPlay(u, S.Updated(cells, SealEdits(head, overlay)))
    modifies st.cellTrie, st.cells, st.index.bitmaps, st.index.containers, st.index.trie, st.index.terms
    ensures r.Ok? ==> r.value.commit == head.commit + 1 < U64 && RootsKey(head.commit) !in cells
    ensures r.Ok? ==> Coherent(u, Contents(st), r.value, S.Updated(cells, SealEdits(head, overlay)), play)
    ensures r == Err(CommitNumberExhausted) <==> head.commit + 1 == U64
    ensures r == Err(RootsCellExists) ==> RootsKey(head.commit) in cells
    ensures r.Err? ==> Expected(u, r.error)
    ensures r.Err? && Termed(S.Updated(cells, SealEdits(head, overlay))) ==> !r.error.Term?
  {
    if head.commit + 1 == U64 {
      return Err(CommitNumberExhausted);
    }
    var roots;
    ghost var index;
    roots, index := OpenRoots(u, st, head, cells, play);
    if roots.Err? {
      return Err(roots.error);
    }
    RootsEdit(u, head, overlay, play);
    r := Stage(u, st, head, roots.value.0, roots.value.1, SealEdits(head, overlay), cells, index, play);
  }

  lemma {:induction false} NowCoherent(u: Setup, s: Snapshot, head: Head, cells: CellMap, play: Play, root: RootRef,
                                       indexRoot: RootRef, index: FlatIndex)
    requires S.Ready(u.cells, u.codec, s.cellTrie, s.cells, root, cells, play.keys)
    requires head.state == RootHash(u.cells.empty, root)
    requires I.Ready(u.index, s.index.bitmaps, s.index.containers, s.index.trie, s.index.terms, indexRoot, index,
                     play.terms)
    requires head.index == RootHash(u.index.terms.empty, indexRoot) && IsIndex(index, cells) && Termed(cells)
    ensures Coherent(u, s, head, cells, play)
  {
    assert CellsAt(u, s.cellTrie, s.cells, head, cells, play, root);
    assert IndexAt(u, s.index, head, cells, play, indexRoot, index);
  }

  lemma {:induction false} ReadyValid(u: Setup, rows: TrieStore.Rows, flat: C.Flat, root: RootRef, cells: CellMap,
                                      keys: set<Bytes>)
    requires Fits(u.codec, u.utf8) && S.Ready(u.cells, u.codec, rows, flat, root, cells, keys)
    ensures ValidCells(u.utf8, cells)
  {
    CodecValid(u.codec, u.utf8, cells);
  }

  /** Apply the edits and the derived posting changes. */
  method Stage(u: Setup, st: Staged, head: Head, root: RootRef, indexRoot: RootRef, edits: seq<S.CellEdit>,
               ghost cells: CellMap, ghost index: FlatIndex, ghost play: Play)
    returns (r: Result<Head, SealError>)
    requires Distinct(st) && Sound(u, play.terms) && EditsOk(u, edits, play) && InPlay(edits, play) && Termed(cells)
    requires CellsAt(u, st.cellTrie.rows, st.cells.rows, head, cells, play, root)
    requires IndexAt(u, IndexContents(st.index), head, cells, play, indexRoot, index)
    requires StateInPlay(u, S.Updated(cells, edits))
    modifies st.cellTrie, st.cells, st.index.bitmaps, st.index.containers, st.index.trie, st.index.terms
    ensures r.Ok? ==>
              r.value.commit == head.commit + 1 && Coherent(u, Contents(st), r.value, S.Updated(cells, edits), play)
    ensures r.Err? ==> Expected(u, r.error) && r.error != CommitNumberExhausted && r.error != RootsCellExists
    ensures r.Err? && Termed(S.Updated(cells, edits)) ==> !r.error.Term?
  {
    ReadyValid(u, st.cellTrie.rows, st.cells.rows, root, cells, play.keys);
    var sealed := SealCells(u, st, root, edits, head, cells, play);
    if sealed.Err? {
      return Err(sealed.error);
    }
    ReadyValid(u, st.cellTrie.rows, st.cells.rows, sealed.value.0, S.Updated(cells, edits), play.keys);
    var indexed;
    ghost var index';
    indexed, index' := SealIndex(u, st, indexRoot, sealed.value.1, index, head, cells, edits, play);
    if indexed.Err? {
      return Err(indexed.error);
    }
    StillTermed(cells, S.Updated(cells, edits), sealed.value.1);
    var next := Head(head.commit + 1, RootHash(u.cells.empty, sealed.value.0),
                     RootHash(u.index.terms.empty, indexed.value));
    NowCoherent(u, Contents(st), next, S.Updated(cells, edits), play, sealed.value.0, indexed.value, index');
    r := Ok(next);
  }
}
