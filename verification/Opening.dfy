/** Opening a store: writing genesis into empty tables, and validating a committed state on reopening. */
module Opening {
  import opened Wrappers
  import opened Lex
  import opened Words
  import opened Batch
  import opened CellKeys
  import opened Order
  import opened Terms
  import opened Postings
  import opened CellValues
  import opened TrieStore
  import opened Trie
  import opened System
  import opened Records
  import opened RecordView
  import opened RecordRuns
  import opened Genesis
  import opened Superblock
  import opened Seal
  import Cursor
  import Scan
  import C = Commitment
  import S = CellStore
  import I = IndexStore
  import B = Bitmaps

  /** What opening may answer: `Corrupt` for a wrong state, `Conflict` for other content under a
      branch digest, `Failed` for storage alone. */
  datatype OpenError =
    | NotInitialized
    | AlreadyInitialized
    | GenesisMismatch
    | Unsupported(meta: MetaError)
    | Corrupt
    | Conflict
    | Failed

  function FromCells(e: C.CommitError): OpenError {
    if e == C.Merkle(Storage) then Failed else if e == C.Merkle(ConflictingBranch) then Conflict else Corrupt
  }

  /** What may stop initialization: storage, or two cell branches in play under one digest. */
  ghost predicate Hindered(u: Setup, e: OpenError) {
    (FAULTS && e == Failed) || (e == Conflict && !Distinguishes(u.cells.env, u.cells.play.nodes))
  }

  lemma {:induction false} CellExcuse(u: Setup, e: C.CommitError)
    requires C.Excuse(u.cells, e)
    ensures Hindered(u, FromCells(e))
  {
  }

  function FromIndex(e: I.IndexFailure): OpenError {
    if e == I.Term(C.Merkle(Storage)) then Failed else Corrupt
  }

  function FromMeta(e: MetaError): OpenError {
    match e
    case Fault => Failed
    case Mismatch => GenesisMismatch
    case Missing => Corrupt
    case Malformed => Corrupt
    case BadHead => Corrupt
    case _ => Unsupported(e)
  }

  function EmptyIndexRows(): IndexRows {
    IndexRows(map[], map[], map[], map[])
  }

  function EmptySnapshot(): Snapshot {
    Snapshot(map[], map[], EmptyIndexRows())
  }

  // ---- Genesis ----

  lemma {:induction false} EmptyCells(u: Setup, play: Play)
    requires Sound(u, play.terms) && C.Apart(u.cells, play.keys)
    ensures S.Ready(u.cells, u.codec, map[], map[], Empty, map[], play.keys)
  {
    assert S.FlatOf(u.codec, map[]) == map[];
    assert C.Image(u.cells, map[]) == map[];
    EmptyIsTrie(u.cells.env, map[]);
    NoBranches(u.cells.env, u.cells.play.nodes);
  }

  lemma {:induction false} EmptyIndex(u: Setup, play: Play)
    requires Sound(u, play.terms) && C.Apart(u.index.terms, play.terms)
    ensures I.Ready(u.index, map[], map[], map[], map[], Empty, map[], play.terms)
  {
    assert C.Image(u.index.terms, map[]) == map[];
    EmptyIsTrie(u.index.terms.env, map[]);
    assert B.Image(u.index.bitmaps, {}) == map[];
    EmptyIsTrie(u.index.bitmaps.trie, map[]);
    NoBranches(u.index.terms.env, u.index.terms.play.nodes);
    NoBranches(u.index.bitmaps.trie, u.index.bitmaps.play.nodes);
    assert B.Stores(u.index.bitmaps, map[], map[], Empty, {});
    forall t: Bytes
      ensures I.RowHolds(u.index, map[], map[], None, PostingsOf(map[], t))
    {
      assert B.HoldsIds(u.index.bitmaps, map[], map[], None, {});
    }
  }

  /** Cells without attributes have an empty index. */
  lemma {:induction false} NothingIndexed(cells: CellMap)
    requires forall k :: k in cells ==> !cells[k].indexable
    ensures IsIndex(map[], cells) && Termed(cells)
  {
    forall t
      ensures Rebuilt(cells, t) == {}
    {
    }
  }

  /** The genesis edits are in play. */
  ghost predicate GenesisInPlay(u: Setup, limits: Limits, play: Play) {
    forall i :: 0 <= i < |InitialEdits(limits)| ==> u.codec.key(InitialEdits(limits)[i].0) in play.keys
  }

  lemma {:induction false} InitialEditsOk(u: Setup, limits: Limits, play: Play)
    requires GenesisInPlay(u, limits, play) && SystemOk(u.codec.ok)
    ensures EditsOk(u, InitialEdits(limits), play)
  {
    forall i | 0 <= i < |InitialEdits(limits)|
      ensures InitialEdits(limits)[i].1.Some? ==> u.codec.ok(InitialEdits(limits)[i].1.value)
    {
      if i < |LimitEdits(limits, 3)| {
        LimitEditOk(u.codec.ok, limits, 3, i);
      }
    }
  }

  lemma {:induction false} SystemEditOk(ok: CellValue -> bool, n: nat, i: nat)
    requires SystemOk(ok) && n <= 7 && i < |SystemEdits(n)|
    ensures SystemEdits(n)[i].1.Some? && ok(SystemEdits(n)[i].1.value)
    decreases n
  {
    if i < |SystemEdits(n - 1)| {
      SystemEditOk(ok, n - 1, i);
    } else {
      var (id, key) := Catalogue()[n - 1];
      assert ok(KeyValue(key)) && ok(IdValue(id));
    }
  }

  lemma {:induction false} LimitEditOk(ok: CellValue -> bool, limits: Limits, n: nat, i: nat)
    requires SystemOk(ok) && n <= 3 && i < |LimitEdits(limits, n)|
    ensures LimitEdits(limits, n)[i].1.Some? && ok(LimitEdits(limits, n)[i].1.value)
    decreases n
  {
    if n == 0 {
      SystemEditOk(ok, 7, i);
    } else if i < |LimitEdits(limits, n - 1)| {
      LimitEditOk(ok, limits, n - 1, i);
    }
  }

  lemma {:induction false} InitialPlain(limits: Limits)
    ensures forall k :: k in InitialCells(limits) ==> !InitialCells(limits)[k].indexable
  {
    InitialIs(limits);
    forall k | k in InitialCells(limits)
      ensures !InitialCells(limits)[k].indexable
    {
      InitialReserved(InitialCells(limits), limits, k);
    }
  }

  /** The genesis cells in their tables, beside an empty index, are coherent. */
  lemma {:induction false} GenesisCoherent(u: Setup, s: Snapshot, head: Head, limits: Limits, play: Play, root: RootRef)
    requires Sound(u, play.terms) && C.Apart(u.index.terms, play.terms) && s.index == EmptyIndexRows()
    requires S.Ready(u.cells, u.codec, s.cellTrie, s.cells, root, InitialCells(limits), play.keys)
    requires head.state == RootHash(u.cells.empty, root) && head.index == u.index.terms.empty
    ensures Coherent(u, s, head, InitialCells(limits), play)
  {
    EmptyIndex(u, play);
    InitialPlain(limits);
    NothingIndexed(InitialCells(limits));
    NowCoherent(u, s, head, InitialCells(limits), play, root, Empty, map[]);
  }

  /** What genesis asks of the setup: keys apart, and the genesis cells in play. */
  ghost predicate CanBegin(u: Setup, limits: Limits, play: Play) {
    && Sound(u, play.terms) && SystemOk(u.codec.ok)
    && C.Apart(u.cells, play.keys) && C.Apart(u.index.terms, play.terms)
    && GenesisInPlay(u, limits, play) && StateInPlay(u, InitialCells(limits))
  }

  /** Genesis over empty tables: a head at commit zero that commits to the genesis cells and to an
      empty index. */
  method WriteGenesis(u: Setup, st: Staged, limits: Limits, ghost play: Play) returns (r: Result<Head, OpenError>)
    requires Distinct(st) && CanBegin(u, limits, play) && Contents(st) == EmptySnapshot()
    modifies st.cellTrie, st.cells
    ensures r.Ok? ==> r.value.commit == 0 && r.value.index == u.index.terms.empty
    ensures r.Ok? ==> Coherent(u, Contents(st), r.value, InitialCells(limits), play)
    ensures r.Err? ==> Hindered(u, r.error)
  {
    var edits := BuildInitial(limits);
    InitialEditsOk(u, limits, play);
    EmptyCells(u, play);
    ghost var zero := Head(0, u.cells.empty, u.index.terms.empty);
    var sealed := SealCells(u, st, Empty, edits, zero, map[], play);
    if sealed.Err? {
      CellExcuse(u, sealed.error.cells);
      return Err(FromCells(sealed.error.cells));
    }
    var head := Head(0, RootHash(u.cells.empty, sealed.value.0), u.index.terms.empty);
    GenesisCoherent(u, Contents(st), head, limits, play, sealed.value.0);
    r := Ok(head);
  }

  // ---- Reopening ----

  /** A committed state of the record layer: invariants kept, and at commit zero nothing but genesis. */
  ghost predicate Reached(u: Setup, head: Head, cells: CellMap, past: seq<Head>, limits: Limits) {
    && Kept(u.codec.ok, cells, limits) && LimitsFit(limits)
    && |past| == head.commit < U64 && RootsChain(cells, past)
    && (head.commit == 0 ==> cells == InitialCells(limits) && head.index == u.index.terms.empty)
  }

  /** What reopening asks of the cells. */
  ghost predicate Passes(u: Setup, head: Head, cells: CellMap, limits: Limits) {
    && NextOf(cells).Some? && NextOf(cells).value >= FIRST_USER && !Occupied(cells, NextOf(cells).value)
    && Holds(cells, LimitEdits(limits, 3))
    && (if head.commit == 0 then
          cells == InitialCells(limits) && NextOf(cells) == Some(FIRST_USER) && head.index == u.index.terms.empty
        else HasRoots(cells, head.commit - 1))
  }

  ghost predicate HasRoots(cells: CellMap, commit: nat) {
    exists h: Head :: Get(cells, RootsKey(commit)) == Some(RootsValue(h))
  }

  /** Every committed state of the record layer meets it. */
  lemma {:induction false} ReachedPasses(u: Setup, head: Head, cells: CellMap, past: seq<Head>, limits: Limits)
    requires Reached(u, head, cells, past, limits)
    ensures Passes(u, head, cells, limits)
  {
    TargetFree(cells);
    LimitsHeld(cells, limits, 3);
    if head.commit == 0 {
      InitialIs(limits);
      InitialLinked(cells, limits);
    } else {
      assert Get(cells, RootsKey(head.commit - 1)) == Some(RootsValue(past[head.commit - 1]));
    }
  }

  /** The cells hold these very values. */
  ghost predicate Holds(cells: CellMap, edits: seq<S.CellEdit>) {
    forall i :: 0 <= i < |edits| ==> Get(cells, edits[i].0) == edits[i].1
  }

  lemma {:induction false} SystemHeld(cells: CellMap, limits: Limits, n: nat)
    requires Founded(cells, limits) && n <= 7
    ensures Holds(cells, SystemEdits(n))
    decreases n
  {
    if n > 0 {
      SystemHeld(cells, limits, n - 1);
      var (id, key) := Catalogue()[n - 1];
      assert KeyOf(cells, id) == Some(key) && BindingOf(cells, key) == Some(id);
      IdRoundTrip(id, cells[Binding(key)]);
    }
  }

  lemma {:induction false} LimitIs(v: CellValue, n: nat)
    requires AsLimit(Some(v)) == Some(n)
    ensures v == LimitValue(n)
  {
    ToFromBytes(v.stored);
  }

  lemma {:induction false} LimitsHeld(cells: CellMap, limits: Limits, n: nat)
    requires Founded(cells, limits) && n <= 3
    ensures Holds(cells, LimitEdits(limits, n))
    decreases n
  {
    if n == 0 {
      SystemHeld(cells, limits, 7);
    } else {
      LimitsHeld(cells, limits, n - 1);
      assert AsLimit(Get(cells, Limit(n - 1))) == Some(LimitAt(limits, n - 1));
      LimitIs(cells[Limit(n - 1)], LimitAt(limits, n - 1));
    }
  }

  lemma {:induction false} HoldsMore(cells: CellMap, edits: seq<S.CellEdit>, e: S.CellEdit)
    requires Get(cells, e.0) == e.1
    ensures Holds(cells, edits) ==> Holds(cells, edits + [e])
  {
  }

  lemma {:induction false} HoldsFewer(cells: CellMap, edits: seq<S.CellEdit>, e: S.CellEdit)
    ensures Holds(cells, edits + [e]) ==> Holds(cells, edits)
  {
    if Holds(cells, edits + [e]) {
      forall i | 0 <= i < |edits|
        ensures Get(cells, edits[i].0) == edits[i].1
      {
        assert (edits + [e])[i] == edits[i];
      }
    }
  }

  /** Writing the values already there changes nothing. */
  lemma {:induction false} HeldIsNoOp(cells: CellMap, edits: seq<S.CellEdit>)
    requires Holds(cells, edits)
    ensures S.Updated(cells, edits) == cells
    decreases |edits|
  {
    if edits != [] {
      HeldIsNoOp(cells, edits[..|edits| - 1]);
      S.SameCell(cells, edits[|edits| - 1]);
    }
  }

  /** The committed cells as rows of the staged tables. */
  ghost predicate Stored(u: Setup, flat: C.Flat, cells: CellMap) {
    LawfulCodec(u.codec) && flat == S.FlatOf(u.codec, cells) && S.CellsOk(u.codec, cells)
  }

  method ReadCell(u: Setup, table: C.FlatTable, k: CellKey, ghost cells: CellMap)
    returns (r: Result<Option<CellValue>, OpenError>)
    requires Stored(u, table.rows, cells)
    ensures r == Ok(Get(cells, k)) || (FAULTS && r == Err(Failed))
  {
    var v := S.ReadValue(u.codec, table, k, cells);
    r := if v.Ok? then Ok(v.value) else Err(FromCells(v.error));
  }

  method ReadAllocator(u: Setup, table: C.FlatTable, ghost cells: CellMap)
    returns (r: Result<(CellValue, RecordId), OpenError>)
    requires Stored(u, table.rows, cells)
    ensures r.Ok? ==> Get(cells, Allocator()) == Some(r.value.0) && NextOf(cells) == Some(r.value.1) &&
                      r.value.1 >= FIRST_USER
    ensures r.Err? ==>
              || (FAULTS && r.error == Failed)
              || (r.error == Corrupt && !(NextOf(cells).Some? && NextOf(cells).value >= FIRST_USER))
  {
    var v := ReadCell(u, table, Allocator(), cells);
    if v.Err? {
      return Err(v.error);
    }
    if v.value.None? || AsId(v.value).None? || AsId(v.value).value < FIRST_USER {
      return Err(Corrupt);
    }
    r := Ok((v.value.value, AsId(v.value).value));
  }

  /** A record's cells are the rows under its ID. */
  lemma {:induction false} RecordRows(u: Setup, flat: C.Flat, cells: CellMap, id: RecordId)
    requires Stored(u, flat, cells) && Fits(u.codec, u.utf8)
    ensures !Occupied(cells, id) <==> (set b | b in flat && ToBytes(id, 8) <= b) == {}
  {
    forall k: CellKey
      ensures ToBytes(id, 8) <= u.codec.key(k) <==> k.id == id
    {
      assert KeyedAt(u.codec, k);
      PrefixIsRecord(id, k);
    }
    var rows := set b | b in flat && ToBytes(id, 8) <= b;
    if k :| k in cells && k.id == id {
      assert u.codec.key(k) in rows;
    }
    if b :| b in rows {
      var k :| k in cells && u.codec.key(k) == b;
    }
  }

  /** The allocator's target record must have no cell. */
  method CheckTarget(u: Setup, table: C.FlatTable, id: RecordId, ghost cells: CellMap)
    returns (r: Result<(), OpenError>)
    requires Stored(u, table.rows, cells) && Fits(u.codec, u.utf8)
    ensures (FAULTS && r == Err(Failed)) || r == if Occupied(cells, id) then Err(Corrupt) else Ok(())
  {
    RecordRows(u, table.rows, cells, id);
    var scan := new Scan.Scan.Prefix(Some(table.rows), ToBytes(id, 8));
    assert scan.left == set b | b in table.rows && ToBytes(id, 8) <= b;
    var row := scan.Next();
    if row.None? {
      return Ok(());
    }
    r := if row.value.Err? then Err(Failed) else Err(Corrupt);
  }

  /** Every expected cell is there with its value. */
  method CheckExpected(u: Setup, table: C.FlatTable, edits: seq<S.CellEdit>, ghost cells: CellMap)
    returns (r: Result<(), OpenError>)
    requires Stored(u, table.rows, cells)
    ensures (FAULTS && r == Err(Failed)) || r == if Holds(cells, edits) then Ok(()) else Err(Corrupt)
  {
    for i := 0 to |edits|
      invariant forall j :: 0 <= j < i ==> Get(cells, edits[j].0) == edits[j].1
    {
      var v := ReadCell(u, table, edits[i].0, cells);
      if v.Err? {
        return Err(v.error);
      }
      if v.value != edits[i].1 {
        return Err(Corrupt);
      }
    }
    r := Ok(());
  }

  /** Step a cursor over exactly `n` rows. */
  method CountRows(table: C.FlatTable, n: nat) returns (r: Result<(), OpenError>)
    ensures (FAULTS && r == Err(Failed)) || r == if |table.rows| == n then Ok(()) else Err(Corrupt)
  {
    var cursor := new Cursor.MemoryCursor(Some(table.rows), []);
    assert Cursor.Reach(table.rows.Keys, cursor.position, true) == table.rows.Keys;
    var failed;
    for i := 0 to n
      invariant i <= |table.rows| && |Cursor.Reach(table.rows.Keys, cursor.position, true)| == |table.rows| - i
      invariant cursor.rows == Some(table.rows)
    {
      failed := Fails();
      if failed {
        return Err(Failed);
      }
      var stepped := Step(table.rows, cursor);
      if !stepped {
        return Err(Corrupt);
      }
    }
    failed := Fails();
    if failed {
      return Err(Failed);
    }
    var more := Step(table.rows, cursor);
    r := if more then Err(Corrupt) else Ok(());
  }

  method Step(rows: C.Flat, cursor: Cursor.MemoryCursor) returns (found: bool)
    requires cursor.rows == Some(rows)
    modifies cursor
    ensures found <==> old(Cursor.Reach(rows.Keys, cursor.position, true)) != {}
    ensures found ==>
              |Cursor.Reach(rows.Keys, cursor.position, true)| ==
              |old(Cursor.Reach(rows.Keys, cursor.position, true))| - 1
  {
    ghost var before := cursor.position;
    var row := cursor.Move(true);
    found := row.Some?;
    if found {
      Cursor.ReachAfter(rows.Keys, before, true, row.value.0);
    }
  }

  /** There are as many rows as cells. */
  lemma {:induction false} RowCount(u: Setup, flat: C.Flat, cells: CellMap)
    requires LawfulCodec(u.codec) && flat == S.FlatOf(u.codec, cells)
    ensures |flat| == |cells|
  {
    SameCount(u.codec, cells.Keys, flat.Keys);
    assert |flat| == |flat.Keys| && |cells| == |cells.Keys|;
  }

  lemma {:induction false} SameCount(c: Codec, keys: set<CellKey>, rows: set<Bytes>)
    requires LawfulCodec(c) && rows == set k | k in keys :: c.key(k)
    ensures |rows| == |keys|
    decreases keys
  {
    if keys != {} {
      var k :| k in keys;
      SameCount(c, keys - {k}, rows - {c.key(k)});
    } else {
      assert rows == {};
    }
  }

  /** The expected cells: genesis with the current allocator. */
  function Expects(limits: Limits, allocator: CellValue): seq<S.CellEdit> {
    LimitEdits(limits, 3) + [(Allocator(), Some(allocator))]
  }

  /** The allocator is a user ID without cells, unmoved at genesis, and the reserved cells are as deployed. */
  ghost predicate SystemAsExpected(cells: CellMap, head: Head, limits: Limits, allocator: CellValue) {
    && Holds(cells, Expects(limits, allocator)) && Holds(cells, LimitEdits(limits, 3))
    && Get(cells, Allocator()) == Some(allocator)
    && NextOf(cells).Some? && NextOf(cells).value >= FIRST_USER && !Occupied(cells, NextOf(cells).value)
    && (head.commit == 0 ==> NextOf(cells) == Some(FIRST_USER))
  }

  /** The allocator and the reserved cells. */
  method CheckSystem(u: Setup, table: C.FlatTable, head: Head, limits: Limits, ghost cells: CellMap)
    returns (r: Result<CellValue, OpenError>)
    requires Stored(u, table.rows, cells) && Fits(u.codec, u.utf8)
    ensures r.Ok? ==> SystemAsExpected(cells, head, limits, r.value)
    ensures r.Err? ==> (FAULTS && r.error == Failed) || (r.error == Corrupt && !Passes(u, head, cells, limits))
  {
    var allocator := ReadAllocator(u, table, cells);
    if allocator.Err? {
      return Err(allocator.error);
    }
    var (value, next) := allocator.value;
    if head.commit == 0 && next != FIRST_USER {
      return Err(Corrupt);
    }
    var free := CheckTarget(u, table, next, cells);
    if free.Err? {
      return Err(free.error);
    }
    HoldsMore(cells, LimitEdits(limits, 3), (Allocator(), Some(value)));
    HoldsFewer(cells, LimitEdits(limits, 3), (Allocator(), Some(value)));
    var held := CheckExpected(u, table, Expects(limits, value), cells);
    r := if held.Err? then Err(held.error) else Ok(value);
  }

  /** Holding every genesis cell and no more cells than genesis has is being genesis. */
  lemma {:induction false} GenesisCounted(cells: CellMap, head: Head, limits: Limits, allocator: CellValue)
    requires head.commit == 0 && SystemAsExpected(cells, head, limits, allocator)
    ensures |cells| == |InitialCells(limits)| <==> cells == InitialCells(limits)
  {
    var first := InitialCells(limits);
    IdRoundTrip(FIRST_USER, allocator);
    assert Expects(limits, allocator) == InitialEdits(limits);
    forall k | k in first
      ensures k in cells && cells[k] == first[k]
    {
      S.UpdatedLast(map[], InitialEdits(limits), k);
      LastIn(InitialEdits(limits), k);
    }
    if |cells| == |first| {
      SameSize(first.Keys, cells.Keys);
    }
  }

  /** A part as large as the whole is the whole. */
  lemma {:induction false} SameSize(part: set<CellKey>, whole: set<CellKey>)
    requires part <= whole && |part| == |whole|
    ensures part == whole
    decreases part
  {
    if k :| k in part {
      SameSize(part - {k}, whole - {k});
      assert part == part - {k} + {k} && whole == whole - {k} + {k};
    }
  }

  /** At genesis nothing but the expected rows, and nothing indexed. */
  method CheckGenesis(u: Setup, table: C.FlatTable, head: Head, limits: Limits, ghost allocator: CellValue,
                      ghost cells: CellMap)
    returns (r: Result<seq<S.CellEdit>, OpenError>)
    requires Stored(u, table.rows, cells) && head.commit == 0 && SystemAsExpected(cells, head, limits, allocator)
    ensures (FAULTS && r == Err(Failed)) || r == if Passes(u, head, cells, limits) then Ok([]) else Err(Corrupt)
  {
    RowCount(u, table.rows, cells);
    GenesisCounted(cells, head, limits, allocator);
    var counted := CountRows(table, |InitialCells(limits)|);
    if counted.Err? {
      return Err(counted.error);
    }
    r := if head.index != u.index.terms.empty then Err(Corrupt) else Ok([]);
  }

  /** A commit's roots are recorded exactly by a plain field of 64 bytes. */
  lemma {:induction false} RootsRow(cells: CellMap, commit: nat)
    ensures HasRoots(cells, commit) <==>
            var v := Get(cells, RootsKey(commit));
            v.Some? && !v.value.indexable && v.value.ty.RawBytes? && |v.value.stored| == 64
  {
    var v := Get(cells, RootsKey(commit));
    if v.Some? && !v.value.indexable && v.value.ty.RawBytes? && |v.value.stored| == 64 {
      var h := Head(commit, v.value.stored[..32], v.value.stored[32..]);
      assert v.value == RootsValue(h);
    }
  }

  /** At genesis nothing but the expected rows; later the roots of the commit before. */
  method CheckPrevious(u: Setup, table: C.FlatTable, head: Head, limits: Limits, ghost allocator: CellValue,
                       ghost cells: CellMap)
    returns (r: Result<seq<S.CellEdit>, OpenError>)
    requires Stored(u, table.rows, cells) && SystemAsExpected(cells, head, limits, allocator)
    ensures r.Ok? ==>
              && Passes(u, head, cells, limits) && Holds(cells, r.value)
              && (if head.commit == 0 then r.value == []
                    else |r.value| == 1 && r.value[0].0 == RootsKey(head.commit - 1))
    ensures r.Err? ==> (FAULTS && r.error == Failed) || (r.error == Corrupt && !Passes(u, head, cells, limits))
  {
    if head.commit == 0 {
      r := CheckGenesis(u, table, head, limits, allocator, cells);
      return;
    }
    var k := RootsKey(head.commit - 1);
    RootsRow(cells, head.commit - 1);
    var v := ReadCell(u, table, k, cells);
    if v.Err? {
      return Err(v.error);
    }
    if v.value.None? || v.value.value.indexable || !v.value.value.ty.RawBytes? || |v.value.value.stored| != 64 {
      return Err(Corrupt);
    }
    r := Ok([(k, v.value)]);
  }

  /** Both roots reopen. */
  method CheckRoots(u: Setup, st: Staged, head: Head, ghost cells: CellMap, ghost play: Play)
    returns (r: Result<RootRef, OpenError>)
    requires Sound(u, play.terms) && Coherent(u, Contents(st), head, cells, play)
    ensures r.Ok? ==>
              && CellsAt(u, st.cellTrie.rows, st.cells.rows, head, cells, play, r.value)
              && Stored(u, st.cells.rows, cells)
    ensures r.Err? ==> (FAULTS && r.error == Failed)
  {
    var root := OpenCells(u, st, head, cells, play);
    if root.Err? {
      return Err(FromCells(root.error.cells));
    }
    var indexed;
    ghost var index;
    indexed, index := OpenIndex(u, st, head, cells, play);
    if indexed.Err? {
      return Err(FromIndex(indexed.error.index));
    }
    r := Ok(root.value);
  }

  /** Check the expected cells against their committed paths by writing the values already there. */
  method CheckPaths(u: Setup, st: Staged, root: RootRef, edits: seq<S.CellEdit>, ghost head: Head,
                    ghost cells: CellMap, ghost play: Play)
    returns (r: Result<(), OpenError>)
    requires Distinct(st) && Sound(u, play.terms) && EditsOk(u, edits, play) && Holds(cells, edits)
    requires CellsAt(u, st.cellTrie.rows, st.cells.rows, head, cells, play, root)
    modifies st.cellTrie, st.cells
    ensures r.Ok? ==> st.cellTrie.rows == old(st.cellTrie.rows) && st.cells.rows == old(st.cells.rows)
    ensures r.Err? ==> (FAULTS && r.error == Failed)
  {
    HeldIsNoOp(cells, edits);
    var sealed := SealCells(u, st, root, edits, head, cells, play);
    r := if sealed.Err? then Err(FromCells(sealed.error.cells)) else Ok(());
  }

  lemma {:induction false} ExpectsOk(u: Setup, limits: Limits, play: Play, allocator: CellValue, more: seq<S.CellEdit>,
                                     cells: CellMap)
    requires GenesisInPlay(u, limits, play) && S.CellsOk(u.codec, cells)
    requires Holds(cells, Expects(limits, allocator)) && Holds(cells, more)
    requires |more| <= 1 && forall i :: 0 <= i < |more| ==> u.codec.key(more[i].0) in play.keys
    ensures Holds(cells, Expects(limits, allocator) + more) && EditsOk(u, Expects(limits, allocator) + more, play)
  {
    var edits := Expects(limits, allocator) + more;
    forall i | 0 <= i < |edits|
      ensures Get(cells, edits[i].0) == edits[i].1 && u.codec.key(edits[i].0) in play.keys
      ensures edits[i].1.Some? ==> u.codec.ok(edits[i].1.value)
    {
      var n := |LimitEdits(limits, 3)|;
      assert i <= n ==> edits[i] == Expects(limits, allocator)[i] && edits[i].0 == InitialEdits(limits)[i].0;
      assert i > n ==> edits[i] == more[i - n - 1];
      assert edits[i].1.Some? ==> edits[i].0 in cells && u.codec.ok(cells[edits[i].0]);
    }
  }

  /** Every cell reopening asks for is as expected. */
  method CheckCells(u: Setup, table: C.FlatTable, head: Head, limits: Limits, ghost cells: CellMap, ghost play: Play)
    returns (r: Result<seq<S.CellEdit>, OpenError>)
    requires Stored(u, table.rows, cells) && Fits(u.codec, u.utf8)
    requires GenesisInPlay(u, limits, play) && (head.commit > 0 ==> u.codec.key(RootsKey(head.commit - 1)) in play.keys)
    ensures r.Ok? ==> Passes(u, head, cells, limits) && Holds(cells, r.value) && EditsOk(u, r.value, play)
    ensures r.Err? ==> (FAULTS && r.error == Failed) || (r.error == Corrupt && !Passes(u, head, cells, limits))
  {
    var allocator := CheckSystem(u, table, head, limits, cells);
    if allocator.Err? {
      return Err(allocator.error);
    }
    var previous := CheckPrevious(u, table, head, limits, allocator.value, cells);
    if previous.Err? {
      return Err(previous.error);
    }
    ExpectsOk(u, limits, play, allocator.value, previous.value, cells);
    r := Ok(Expects(limits, allocator.value) + previous.value);
  }

  method CheckState(u: Setup, st: Staged, root: RootRef, head: Head, limits: Limits, ghost cells: CellMap,
                    ghost play: Play)
    returns (r: Result<(), OpenError>)
    requires Distinct(st) && Sound(u, play.terms)
    requires CellsAt(u, st.cellTrie.rows, st.cells.rows, head, cells, play, root) && Stored(u, st.cells.rows, cells)
    requires GenesisInPlay(u, limits, play) && (head.commit > 0 ==> u.codec.key(RootsKey(head.commit - 1)) in play.keys)
    modifies st.cellTrie, st.cells
    ensures r.Ok? ==> st.cellTrie.rows == old(st.cellTrie.rows) && st.cells.rows == old(st.cells.rows)
    ensures r.Ok? ==> Passes(u, head, cells, limits)
    ensures r.Err? ==> (FAULTS && r.error == Failed) || (r.error == Corrupt && !Passes(u, head, cells, limits))
  {
    var edits := CheckCells(u, st.cells, head, limits, cells, play);
    if edits.Err? {
      return Err(edits.error);
    }
    r := CheckPaths(u, st, root, edits.value, head, cells, play);
  }

  /** Reopening accepts exactly the states that meet its demands, finds any other corrupt, and writes nothing;
      only storage can stop it before. */
  method ValidateState(u: Setup, st: Staged, head: Head, limits: Limits, ghost cells: CellMap, ghost play: Play)
    returns (r: Result<(), OpenError>)
    requires Distinct(st) && Sound(u, play.terms) && Coherent(u, Contents(st), head, cells, play)
    requires GenesisInPlay(u, limits, play) && (head.commit > 0 ==> u.codec.key(RootsKey(head.commit - 1)) in play.keys)
    modifies st.cellTrie, st.cells
    ensures r.Ok? ==> st.cellTrie.rows == old(st.cellTrie.rows) && st.cells.rows == old(st.cells.rows)
    ensures r.Ok? ==> Passes(u, head, cells, limits)
    ensures r.Err? ==> (FAULTS && r.error == Failed) || (r.error == Corrupt && !Passes(u, head, cells, limits))
  {
    var root := CheckRoots(u, st, head, cells, play);
    if root.Err? {
      return Err(root.error);
    }
    r := CheckState(u, st, root.value, head, limits, cells, play);
  }

  // ---- Opening ----

  datatype OpenMode = CreateIfMissing | ExistingOnly | CreateNew

  datatype OpenInfo = OpenInfo(created: bool, head: Head, id: Hash)

  /** What a store holds: a deployment, its identity, and the committed state. */
  datatype Found = Found(deployment: Deployment, id: Hash, head: Head, cells: CellMap, past: seq<Head>)

  /** A store initialized for a deployment, at a state the record layer committed. */
  ghost predicate Established(u: Setup, hasher: Bytes -> Hash, s: Snapshot, meta: C.Flat, found: Found, play: Play) {
    && Describes(meta, found.deployment.hash, found.id, found.head) && IsIdentity(hasher, found.deployment, found.id)
    && Coherent(u, s, found.head, found.cells, play)
    && Reached(u, found.head, found.cells, found.past, found.deployment.limits)
    && (found.head.commit > 0 ==> u.codec.key(RootsKey(found.head.commit - 1)) in play.keys)
  }

  lemma {:induction false} HeadTells(a: Head, b: Head)
    requires a.commit < U64 && b.commit < U64 && EncodeHead(a) == EncodeHead(b)
    ensures a == b
  {
    HeadRoundTrip(a);
    HeadRoundTrip(b);
  }

  /** The superblock of an established store: accepted for its own deployment, a mismatch for others. */
  method CheckDeployment(hasher: Bytes -> Hash, meta: C.Flat, d: Deployment, ghost found: Found)
    returns (r: Result<(Head, Hash), OpenError>)
    requires Describes(meta, found.deployment.hash, found.id, found.head)
    requires IsIdentity(hasher, found.deployment, found.id)
    requires LimitsFit(d.limits) && LimitsFit(found.deployment.limits) && found.head.commit < U64
    requires NoCollision(hasher, found.deployment, d)
    ensures found.deployment == d ==> r == Ok((found.head, found.id)) || (FAULTS && r == Err(Failed))
    ensures found.deployment != d ==> r == Err(GenesisMismatch) || (FAULTS && r == Err(Failed))
  {
    var edits := BuildInitial(d.limits);
    var id := Identity(hasher, d, S.Updated(map[], edits));
    IdentityTells(hasher, found.deployment, found.id, d, id);
    var head := MetaHead(meta, d.hash, id, found);
    r := if head.Err? then Err(head.error) else Ok((head.value, id));
  }

  /** The head of a superblock, or the refusal of another deployment's. */
  method MetaHead(meta: C.Flat, hash: HashFunction, id: Hash, ghost found: Found) returns (r: Result<Head, OpenError>)
    requires Describes(meta, found.deployment.hash, found.id, found.head) && found.head.commit < U64
    ensures (hash, id) == (found.deployment.hash, found.id) ==> r == Ok(found.head) || (FAULTS && r == Err(Failed))
    ensures (hash, id) != (found.deployment.hash, found.id) ==>
              r == Err(GenesisMismatch) || (FAULTS && r == Err(Failed))
  {
    var table := new C.FlatTable(meta);
    var head := CheckMeta(table, hash, id);
    if head.Err? {
      return Err(FromMeta(head.error));
    }
    HeadTells(head.value, found.head);
    r := Ok(head.value);
  }

  // ---- Tables ----

  method LoadTable(rows: TrieStore.Rows) returns (t: Table)
    ensures fresh(t) && t.rows == rows
  {
    t := new Table();
    t.rows := rows;
  }

  /** A staged copy of committed tables. */
  method StageTables(s: Snapshot) returns (st: Staged)
    ensures Distinct(st) && Contents(st) == s
    ensures fresh(st.cellTrie) && fresh(st.cells) && fresh(st.index.bitmaps) && fresh(st.index.containers)
    ensures fresh(st.index.trie) && fresh(st.index.terms)
  {
    var a := LoadTable(s.cellTrie);
    var b := LoadTable(s.index.bitmaps);
    var c := LoadTable(s.index.containers);
    var d := LoadTable(s.index.trie);
    var cells := new C.FlatTable(s.cells);
    var terms := new C.FlatTable(s.index.terms);
    st := Staged(a, cells, I.Tables(b, c, d, terms));
  }

  method TakeTables(st: Staged) returns (s: Snapshot)
    ensures s == Contents(st)
  {
    s := Snapshot(st.cellTrie.rows, st.cells.rows,
                  IndexRows(st.index.bitmaps.rows, st.index.containers.rows, st.index.trie.rows, st.index.terms.rows));
  }

  /** Validate the state of an established store over a staged copy, which is then dropped. */
  method Revalidate(u: Setup, ghost hasher: Bytes -> Hash, s: Snapshot, ghost meta: C.Flat, head: Head, limits: Limits,
                    ghost found: Found, ghost play: Play)
    returns (r: Result<(), OpenError>)
    requires Sound(u, play.terms) && GenesisInPlay(u, limits, play) && Established(u, hasher, s, meta, found, play)
    requires head == found.head && limits == found.deployment.limits
    ensures r.Err? ==> (FAULTS && r.error == Failed)
  {
    ReachedPasses(u, head, found.cells, found.past, limits);
    var st := StageTables(s);
    r := ValidateState(u, st, head, limits, found.cells, play);
  }

  /** Reopen an initialized store: another deployment's is refused, its own is validated. */
  method OpenExisting(u: Setup, hasher: Bytes -> Hash, s: Snapshot, meta: C.Flat, d: Deployment, mode: OpenMode,
                      ghost found: Found, ghost play: Play)
    returns (r: Result<OpenInfo, OpenError>)
    requires Sound(u, play.terms) && LimitsFit(d.limits) && GenesisInPlay(u, d.limits, play)
    requires Established(u, hasher, s, meta, found, play) && NoCollision(hasher, found.deployment, d)
    ensures Reopened(r, d, mode, found)
  {
    var known := CheckDeployment(hasher, meta, d, found);
    if known.Err? {
      return Err(known.error);
    }
    var valid := Revalidate(u, hasher, s, meta, known.value.0, d.limits, found, play);
    if valid.Err? {
      return Err(valid.error);
    }
    r := if mode == CreateNew then Err(AlreadyInitialized) else Ok(OpenInfo(false, known.value.0, known.value.1));
  }

  /** The tables of the genesis state. */
  method GenesisTables(u: Setup, limits: Limits, ghost play: Play) returns (r: Result<Head, OpenError>, s: Snapshot)
    requires CanBegin(u, limits, play)
    ensures r.Ok? ==> r.value.commit == 0 && r.value.index == u.index.terms.empty
    ensures r.Ok? ==> Coherent(u, s, r.value, InitialCells(limits), play)
    ensures r.Err? ==> Hindered(u, r.error)
  {
    var st := StageTables(EmptySnapshot());
    r := WriteGenesis(u, st, limits, play);
    s := TakeTables(st);
  }

  /** The superblock around the genesis state, its head last. */
  method Initialize(u: Setup, hasher: Bytes -> Hash, d: Deployment, ghost play: Play)
    returns (r: Result<OpenInfo, OpenError>, s: Snapshot, meta: C.Flat)
    requires CanBegin(u, d.limits, play) && LimitsFit(d.limits)
    ensures r.Ok? ==> r.value.created && r.value.head.commit == 0 && r.value.head.index == u.index.terms.empty
    ensures r.Ok? ==> Coherent(u, s, r.value.head, InitialCells(d.limits), play)
    ensures r.Ok? ==> Describes(meta, d.hash, r.value.id, r.value.head) && IsIdentity(hasher, d, r.value.id)
    ensures r.Err? ==> Hindered(u, r.error)
  {
    s, meta := EmptySnapshot(), map[];
    var edits := BuildInitial(d.limits);
    var id := Identity(hasher, d, S.Updated(map[], edits));
    var table := new C.FlatTable(map[]);
    var founded := WriteMeta(table, d.hash, id);
    if founded.Err? {
      return Err(Failed), s, meta;
    }
    var head, tables := GenesisTables(u, d.limits, play);
    if head.Err? {
      return Err(head.error), s, meta;
    }
    var put := WriteHead(table, head.value);
    if put.Err? {
      return Err(Failed), s, meta;
    }
    FoundingDescribes(map[], d.hash, id, head.value);
    r, s, meta := Ok(OpenInfo(true, head.value, id)), tables, table.rows;
  }

  /** Genesis is established. */
  lemma {:induction false} NowEstablished(u: Setup, hasher: Bytes -> Hash, s: Snapshot, meta: C.Flat, d: Deployment,
                                          info: OpenInfo, play: Play)
    requires SystemOk(u.codec.ok) && LimitsFit(d.limits)
    requires info.head.commit == 0 && info.head.index == u.index.terms.empty
    requires Coherent(u, s, info.head, InitialCells(d.limits), play)
    requires Describes(meta, d.hash, info.id, info.head) && IsIdentity(hasher, d, info.id)
    ensures Established(u, hasher, s, meta, Found(d, info.id, info.head, InitialCells(d.limits), []), play)
  {
    InitialKept(u.codec.ok, d.limits);
  }

  /** Open a store: initialize an empty one, refuse one with rows but no head, and otherwise check its
      deployment and validate its state. Only initialization changes anything. */
  method OpenStore(u: Setup, hasher: Bytes -> Hash, s: Snapshot, meta: C.Flat, d: Deployment, mode: OpenMode,
                   ghost found: Found, ghost play: Play)
    returns (r: Result<OpenInfo, OpenError>, s': Snapshot, meta': C.Flat)
    requires CanBegin(u, d.limits, play) && LimitsFit(d.limits)
    requires HeadKey() in meta ==>
               Established(u, hasher, s, meta, found, play) && NoCollision(hasher, found.deployment, d)
    ensures HeadKey() in meta ==> Reopened(r, d, mode, found)
    ensures HeadKey() !in meta ==> Initialized(u, r, mode, s == EmptySnapshot() && meta == map[])
    ensures r.Ok? && r.value.created ==>
              Established(u, hasher, s', meta', Found(d, r.value.id, r.value.head, InitialCells(d.limits), []), play)
    ensures !(r.Ok? && r.value.created) ==> s' == s && meta' == meta
  {
    s', meta' := s, meta;
    var failed := Fails();
    if failed {
      return Err(Failed), s', meta';
    }
    if HeadKey() in meta {
      r := OpenExisting(u, hasher, s, meta, d, mode, found, play);
      return;
    }
    if s != EmptySnapshot() || meta != map[] {
      return Err(Corrupt), s', meta';
    }
    if mode == ExistingOnly {
      return Err(NotInitialized), s', meta';
    }
    var tables, rows;
    r, tables, rows := Initialize(u, hasher, d, play);
    if r.Ok? {
      NowEstablished(u, hasher, tables, rows, d, r.value, play);
      s', meta' := tables, rows;
    }
  }

  /** The answers over an established store. */
  predicate Reopened(r: Result<OpenInfo, OpenError>, d: Deployment, mode: OpenMode, found: Found) {
    || (FAULTS && r == Err(Failed))
    || r == if found.deployment != d then Err(GenesisMismatch)
            else if mode == CreateNew then Err(AlreadyInitialized)
            else Ok(OpenInfo(false, found.head, found.id))
  }

  /** The answers over a store without a head. */
  ghost predicate Initialized(u: Setup, r: Result<OpenInfo, OpenError>, mode: OpenMode, empty: bool) {
    || (FAULTS && r == Err(Failed))
    || (if !empty then r == Err(Corrupt)
        else if mode == ExistingOnly then r == Err(NotInitialized)
        else (r.Err? && Hindered(u, r.error)) || (r.Ok? && r.value.created && r.value.head.commit == 0))
  }
}
