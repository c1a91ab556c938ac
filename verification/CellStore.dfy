/** The cell table with its commitment: net batches, checked against the old root, written once. */
module CellStore {
  import opened Wrappers
  import opened Lex
  import opened Batch
  import opened CellKeys
  import opened Terms
  import opened CellValues
  import opened Postings
  import opened TrieStore
  import Trie
  import opened Commitment
  import C = Commitment

  type CellEdit = (CellKey, Option<CellValue>)

  // ---- Cells as rows ----

  /** The rows of a set of cells. */
  ghost function FlatOf(c: Codec, cells: CellMap): Flat
    requires LawfulCodec(c)
  {
    map k | k in cells :: c.key(k) := c.value(cells[k])
  }

  lemma {:induction false} FlatAt(c: Codec, cells: CellMap, k: CellKey)
    requires LawfulCodec(c)
    ensures Get(FlatOf(c, cells), c.key(k)) == if k in cells then Some(c.value(cells[k])) else None
  {
    assert k in cells ==> c.key(k) in FlatOf(c, cells);
  }

  /** Every stored value parses. */
  ghost predicate CellsOk(c: Codec, cells: CellMap) {
    forall k :: k in cells ==> c.ok(cells[k])
  }

  function Update(cells: CellMap, e: CellEdit): CellMap {
    if e.1.Some? then cells[e.0 := e.1.value] else cells - {e.0}
  }

  /** The cells after each edit in turn. */
  function Updated(cells: CellMap, edits: seq<CellEdit>): CellMap {
    if edits == [] then cells else Update(Updated(cells, edits[..|edits| - 1]), edits[|edits| - 1])
  }

  lemma {:induction false} UpdatedLast(cells: CellMap, edits: seq<CellEdit>, k: CellKey)
    ensures Get(Updated(cells, edits), k) == if Last(edits, k).Some? then Last(edits, k).value else Get(cells, k)
    decreases |edits|
  {
    if edits != [] {
      UpdatedLast(cells, edits[..|edits| - 1], k);
    }
  }

  /** Edit lists with the same last edits do the same. */
  lemma {:induction false} SameUpdate(cells: CellMap, a: seq<CellEdit>, b: seq<CellEdit>)
    requires forall k :: Last(a, k) == Last(b, k)
    ensures Updated(cells, a) == Updated(cells, b)
  {
    forall k
      ensures Get(Updated(cells, a), k) == Get(Updated(cells, b), k)
    {
      UpdatedLast(cells, a, k);
      UpdatedLast(cells, b, k);
    }
    SameAnswers(Updated(cells, a), Updated(cells, b));
  }

  lemma {:induction false} UpdatedOk(c: Codec, cells: CellMap, edits: seq<CellEdit>)
    requires CellsOk(c, cells) && forall i :: 0 <= i < |edits| && edits[i].1.Some? ==> c.ok(edits[i].1.value)
    ensures CellsOk(c, Updated(cells, edits))
    decreases |edits|
  {
    if edits != [] {
      UpdatedOk(c, cells, edits[..|edits| - 1]);
    }
  }

  function RowOf(c: Codec, k: CellKey, v: Option<CellValue>): Write {
    (c.key(k), if v.Some? then Some(c.value(v.value)) else None)
  }

  /** One cell edited is one row written. */
  lemma {:induction false} UpdateRow(c: Codec, cells: CellMap, e: CellEdit)
    requires LawfulCodec(c)
    ensures FlatOf(c, Update(cells, e)) == WriteRow(FlatOf(c, cells), RowOf(c, e.0, e.1))
  {
    var a, b := FlatOf(c, Update(cells, e)), WriteRow(FlatOf(c, cells), RowOf(c, e.0, e.1));
    forall x: Bytes
      ensures Get(a, x) == Get(b, x)
    {
      UpdateRowAt(c, cells, e, x);
    }
    SameAnswers(a, b);
  }

  lemma {:induction false} WriteAt(flat: Flat, w: Write, x: Bytes)
    ensures Get(WriteRow(flat, w), x) == if x == w.0 then w.1 else Get(flat, x)
  {
  }

  lemma {:induction false} UpdateAt(cells: CellMap, e: CellEdit, k: CellKey)
    ensures Get(Update(cells, e), k) == if k == e.0 then e.1 else Get(cells, k)
  {
  }

  lemma {:induction false} NoRow(c: Codec, cells: CellMap, x: Bytes)
    requires LawfulCodec(c) && forall k :: c.key(k) != x
    ensures x !in FlatOf(c, cells)
  {
  }

  lemma {:induction false} UpdateRowAt(c: Codec, cells: CellMap, e: CellEdit, x: Bytes)
    requires LawfulCodec(c)
    ensures Get(FlatOf(c, Update(cells, e)), x) == Get(WriteRow(FlatOf(c, cells), RowOf(c, e.0, e.1)), x)
  {
    WriteAt(FlatOf(c, cells), RowOf(c, e.0, e.1), x);
    if k :| c.key(k) == x {
      FlatAt(c, cells, k);
      FlatAt(c, Update(cells, e), k);
      UpdateAt(cells, e, k);
    } else {
      NoRow(c, cells, x);
      NoRow(c, Update(cells, e), x);
    }
  }

  // ---- The changes of a batch ----

  /** The actual changes of a net batch. */
  function Diff(cells: CellMap, net: seq<CellEdit>): seq<Change> {
    if net == [] then []
    else
      var e := net[|net| - 1];
      Diff(cells, net[..|net| - 1]) + OneDiff(cells, e)
  }

  function RowsOf(c: Codec, changes: seq<Change>): (writes: seq<Write>)
    ensures |writes| == |changes|
    ensures forall i :: 0 <= i < |writes| ==> writes[i] == RowOf(c, changes[i].key, changes[i].after)
  {
    seq(|changes|, i requires 0 <= i < |changes| => RowOf(c, changes[i].key, changes[i].after))
  }

  lemma {:induction false} KeyOrderTotal()
    ensures TotalOrder(KeyLess)
  {
    forall a: CellKey, b: CellKey, c: CellKey
      ensures !KeyLess(a, a) && (KeyLess(a, b) && KeyLess(b, c) ==> KeyLess(a, c))
      ensures (a == b || KeyLess(a, b) || KeyLess(b, a))
    {
      Irreflexive(a.name);
      Trichotomy(a.name, b.name);
      if Less(a.name, b.name) && Less(b.name, c.name) {
        Transitive(a.name, b.name, c.name);
      }
    }
  }

  /** A listed change is an edit of the batch, with the old value beside it. */
  ghost predicate FromNet(cells: CellMap, net: seq<CellEdit>, ch: Change) {
    (ch.key, ch.after) in net && ch.before == Get(cells, ch.key) && ch.before != ch.after
  }

  ghost predicate DiffOf(cells: CellMap, net: seq<CellEdit>, d: seq<Change>) {
    && (forall i :: 0 <= i < |d| ==> FromNet(cells, net, d[i]))
    && (forall i, j :: 0 <= i < j < |d| ==> KeyLess(d[i].key, d[j].key))
  }

  /** Every change comes from the batch, in its order. */
  lemma {:induction false} DiffFrom(cells: CellMap, net: seq<CellEdit>)
    requires Ascending(KeyLess, net)
    ensures DiffOf(cells, net, Diff(cells, net))
    decreases |net|
  {
    if net != [] {
      var n := |net| - 1;
      var init, d := net[..n], Diff(cells, net[..n]);
      DiffFrom(cells, init);
      assert net == init + [net[n]];
      forall i | 0 <= i < |d|
        ensures FromNet(cells, net, d[i]) && KeyLess(d[i].key, net[n].0)
      {
        assert FromNet(cells, init, d[i]);
        var j :| 0 <= j < n && init[j] == (d[i].key, d[i].after);
        assert net[j] == init[j];
      }
    }
  }

  /** Every real difference is listed. */
  lemma {:induction false} DiffHas(cells: CellMap, net: seq<CellEdit>, j: nat)
    requires j < |net| && Get(cells, net[j].0) != net[j].1
    ensures exists i :: 0 <= i < |Diff(cells, net)| && Diff(cells, net)[i].key == net[j].0
    decreases |net|
  {
    var n := |net| - 1;
    var d := Diff(cells, net[..n]);
    if j < n {
      DiffHas(cells, net[..n], j);
      var i :| 0 <= i < |d| && d[i].key == net[j].0;
      assert Diff(cells, net)[i] == d[i];
    } else {
      assert Diff(cells, net)[|d|].key == net[j].0;
    }
  }

  /** The listed changes are the difference between the old cells and the new. */
  lemma {:induction false} DiffIsDiff(cells: CellMap, net: seq<CellEdit>)
    requires Ascending(KeyLess, net)
    ensures IsDiff(cells, Updated(cells, net), Diff(cells, net))
  {
    var d, cells' := Diff(cells, net), Updated(cells, net);
    KeyOrderTotal();
    DiffFrom(cells, net);
    forall i | 0 <= i < |d|
      ensures d[i].after == Get(cells', d[i].key)
    {
      assert FromNet(cells, net, d[i]);
      var j :| 0 <= j < |net| && net[j] == (d[i].key, d[i].after);
      LastAt(net, j);
      UpdatedLast(cells, net, d[i].key);
    }
    forall k | Get(cells, k) != Get(cells', k)
      ensures exists i :: 0 <= i < |d| && d[i].key == k
    {
      UpdatedLast(cells, net, k);
      LastIn(net, k);
      var j :| 0 <= j < |net| && net[j] == (k, Last(net, k).value);
      DiffHas(cells, net, j);
    }
  }

  lemma {:induction false} WrittenMore(flat: Flat, writes: seq<Write>, w: Write)
    ensures Written(flat, writes + [w]) == WriteRow(Written(flat, writes), w)
  {
    assert (writes + [w])[..|writes|] == writes;
  }

  /** An edit that changes nothing is no change. */
  lemma {:induction false} SameCell(cells: CellMap, e: CellEdit)
    requires Get(cells, e.0) == e.1
    ensures Update(cells, e) == cells
  {
    SameAnswers(Update(cells, e), cells);
  }

  lemma {:induction false} DiffRowsStep(c: Codec, cells: CellMap, d: seq<Change>, mid: CellMap, e: CellEdit)
    requires LawfulCodec(c) && Written(FlatOf(c, cells), RowsOf(c, d)) == FlatOf(c, mid)
    requires Get(mid, e.0) == Get(cells, e.0)
    ensures Written(FlatOf(c, cells), RowsOf(c, d + OneDiff(cells, e))) == FlatOf(c, Update(mid, e))
  {
    if Get(cells, e.0) == e.1 {
      SameCell(mid, e);
      assert d + OneDiff(cells, e) == d;
    } else {
      UpdateRow(c, mid, e);
      WrittenMore(FlatOf(c, cells), RowsOf(c, d), RowOf(c, e.0, e.1));
      RowsMore(c, d, Change(e.0, Get(cells, e.0), e.1));
    }
  }

  lemma {:induction false} RowsMore(c: Codec, d: seq<Change>, ch: Change)
    ensures RowsOf(c, d + [ch]) == RowsOf(c, d) + [RowOf(c, ch.key, ch.after)]
  {
  }

  /** Writing the changed rows gives the rows of the new cells. */
  lemma {:induction false} DiffRows(c: Codec, cells: CellMap, net: seq<CellEdit>)
    requires LawfulCodec(c) && Ascending(KeyLess, net)
    ensures Written(FlatOf(c, cells), RowsOf(c, Diff(cells, net))) == FlatOf(c, Updated(cells, net))
    decreases |net|
  {
    if net == [] {
      assert RowsOf(c, Diff(cells, net)) == [];
    } else {
      var n := |net| - 1;
      DiffRows(c, cells, net[..n]);
      NewKey(cells, net);
      DiffRowsStep(c, cells, Diff(cells, net[..n]), Updated(cells, net[..n]), net[n]);
    }
  }

  /** The last edit's key is not edited before it. */
  lemma {:induction false} NewKey(cells: CellMap, net: seq<CellEdit>)
    requires Ascending(KeyLess, net) && net != []
    ensures Get(Updated(cells, net[..|net| - 1]), net[|net| - 1].0) == Get(cells, net[|net| - 1].0)
  {
    var init, k := net[..|net| - 1], net[|net| - 1].0;
    KeyOrderTotal();
    LastNone(init, k);
    UpdatedLast(cells, init, k);
  }

  // ---- Applying a batch ----

  /** The rows hold these cells and the root commits to them. */
  ghost predicate Keeps(a: Auth, c: Codec, rows: TrieStore.Rows, flat: Flat, root: RootRef, cells: CellMap) {
    && LawfulCodec(c) && flat == FlatOf(c, cells) && CellsOk(c, cells)
    && Commits(a, rows, root, flat)
  }

  /** Keys and values that encode decode: what reopening a singleton asks of a row. */
  ghost predicate Admits(a: Auth, c: Codec) {
    forall k: CellKey, v: CellValue :: c.ok(v) ==> a.wellFormed(c.key(k), c.value(v))
  }

  /** A table, its root and the keys in play. */
  ghost predicate Ready(a: Auth, c: Codec, rows: TrieStore.Rows, flat: Flat, root: RootRef, cells: CellMap,
                        keys: set<Bytes>) {
    && Commitment.Sound(a) && Keeps(a, c, rows, flat, root, cells)
    && Apart(a, keys) && flat.Keys <= keys
  }

  function OneDiff(cells: CellMap, e: CellEdit): seq<Change> {
    if Get(cells, e.0) == e.1 then [] else [Change(e.0, Get(cells, e.0), e.1)]
  }

  method ReadValue(c: Codec, table: FlatTable, k: CellKey, ghost cells: CellMap)
    returns (r: Result<Option<CellValue>, CommitError>)
    requires LawfulCodec(c) && table.rows == FlatOf(c, cells) && CellsOk(c, cells)
    ensures r == Ok(Get(cells, k)) || (r.Err? && Failure(r.error))
  {
    FlatAt(c, cells, k);
    var row := table.Get(c.key(k));
    if row.Err? {
      return Err(row.error);
    }
    if row.value.None? {
      return Ok(None);
    }
    var v := c.parse(row.value.value);
    r := if v.Some? then Ok(v) else Err(Malformed);
  }

  /** Read the old value of one key and check its commitment. */
  method CheckChange(a: Auth, c: Codec, trie: Table, table: FlatTable, root: RootRef, e: CellEdit,
                     ghost cells: CellMap, ghost keys: set<Bytes>)
    returns (r: Result<seq<Change>, CommitError>)
    requires Ready(a, c, trie.rows, table.rows, root, cells, keys) && c.key(e.0) in keys
    ensures r == Ok(OneDiff(cells, e)) || (r.Err? && Failure(r.error))
  {
    var before := ReadValue(c, table, e.0, cells);
    if before.Err? {
      return Err(before.error);
    }
    ghost var m := ValuePasses(a, c, trie.rows, table.rows, root, cells, keys, e.0);
    var checked := Check(a, trie, root, c.key(e.0), RowOf(c, e.0, before.value).1);
    if checked.Err? {
      return Err(checked.error);
    }
    r := Ok(if before.value == e.1 then [] else [Change(e.0, before.value, e.1)]);
  }

  lemma {:induction false} ValuePasses(a: Auth, c: Codec, rows: TrieStore.Rows, flat: Flat, root: RootRef,
                                       cells: CellMap, keys: set<Bytes>, k: CellKey)
    returns (m: Trie.Leaves)
    requires Ready(a, c, rows, flat, root, cells, keys) && c.key(k) in keys
    ensures Trie.IsTrie(a.env, rows, root, m)
    ensures Get(m, a.route(c.key(k))) == Expected(a, c.key(k), RowOf(c, k, Get(cells, k)).1)
  {
    FlatAt(c, cells, k);
    RowPasses(a, rows, root, flat, keys, c.key(k));
    m := Image(a, flat);
  }

  lemma {:induction false} DiffNext(cells: CellMap, net: seq<CellEdit>, i: nat)
    requires i < |net|
    ensures Diff(cells, net[..i + 1]) == Diff(cells, net[..i]) + OneDiff(cells, net[i])
  {
    assert net[..i + 1][..i] == net[..i];
  }

  lemma {:induction false} DiffAll(cells: CellMap, net: seq<CellEdit>)
    ensures Diff(cells, net[..|net|]) == Diff(cells, net)
  {
    assert net[..|net|] == net;
  }

  method CheckAll(a: Auth, c: Codec, trie: Table, table: FlatTable, root: RootRef, net: seq<CellEdit>,
                  ghost cells: CellMap, ghost keys: set<Bytes>)
    returns (r: Result<seq<Change>, CommitError>)
    requires Ready(a, c, trie.rows, table.rows, root, cells, keys)
    requires forall i :: 0 <= i < |net| ==> c.key(net[i].0) in keys
    ensures r == Ok(Diff(cells, net)) || (r.Err? && Failure(r.error))
  {
    var changes: seq<Change> := [];
    for i := 0 to |net|
      invariant changes == Diff(cells, net[..i])
    {
      var change := CheckChange(a, c, trie, table, root, net[i], cells, keys);
      if change.Err? {
        return Err(change.error);
      }
      DiffNext(cells, net, i);
      changes := changes + change.value;
    }
    DiffAll(cells, net);
    r := Ok(changes);
  }

  /** The keys of a batch's rows are in play, and its values decode. */
  lemma {:induction false} RowsAdmitted(a: Auth, c: Codec, cells: CellMap, edits: seq<CellEdit>, net: seq<CellEdit>,
                                        keys: set<Bytes>)
    requires Admits(a, c) && IsNet(edits, net) && EditsFit(c, edits, keys)
    ensures forall i :: 0 <= i < |net| ==> c.key(net[i].0) in keys
    ensures C.Fit(a, RowsOf(c, Diff(cells, net)), keys)
  {
    forall i | 0 <= i < |net|
      ensures c.key(net[i].0) in keys && (net[i].1.Some? ==> c.ok(net[i].1.value))
    {
      KeyOrderTotal();
      LastAt(net, i);
      LastIn(edits, net[i].0);
      assert net[i] in edits;
    }
    DiffFrom(cells, net);
    var d := Diff(cells, net);
    forall i | 0 <= i < |d|
      ensures c.key(d[i].key) in keys && (d[i].after.Some? ==> c.ok(d[i].after.value))
    {
      assert FromNet(cells, net, d[i]);
      var j :| 0 <= j < |net| && net[j] == (d[i].key, d[i].after);
    }
  }

  /** A batch that changes nothing has no changes. */
  lemma {:induction false} NoDiff(cells: CellMap, net: seq<CellEdit>)
    requires Ascending(KeyLess, net) && Updated(cells, net) == cells
    ensures Diff(cells, net) == []
  {
    var d := Diff(cells, net);
    DiffFrom(cells, net);
    DiffIsDiff(cells, net);
    assert |d| > 0 ==> FromNet(cells, net, d[0]);
  }

  /** The changes of a net batch: differences in key order, none when nothing changes. */
  ghost predicate Lists(cells: CellMap, cells': CellMap, d: seq<Change>) {
    && IsDiff(cells, cells', d)
    && (forall i, j :: 0 <= i < j < |d| ==> KeyLess(d[i].key, d[j].key))
    && (cells' == cells ==> d == [])
  }

  lemma {:induction false} NetLists(cells: CellMap, edits: seq<CellEdit>, net: seq<CellEdit>)
    requires Ascending(KeyLess, net) && forall k :: Last(net, k) == Last(edits, k)
    ensures Lists(cells, Updated(cells, edits), Diff(cells, net))
  {
    SameUpdate(cells, net, edits);
    DiffIsDiff(cells, net);
    DiffFrom(cells, net);
    if Updated(cells, net) == cells {
      NoDiff(cells, net);
    }
  }

  lemma {:induction false} NetRows(c: Codec, cells: CellMap, edits: seq<CellEdit>, net: seq<CellEdit>)
    requires LawfulCodec(c) && CellsOk(c, cells) && Ascending(KeyLess, net)
    requires forall k :: Last(net, k) == Last(edits, k)
    requires forall i :: 0 <= i < |edits| && edits[i].1.Some? ==> c.ok(edits[i].1.value)
    ensures Written(FlatOf(c, cells), RowsOf(c, Diff(cells, net))) == FlatOf(c, Updated(cells, edits))
    ensures CellsOk(c, Updated(cells, edits))
  {
    SameUpdate(cells, net, edits);
    DiffRows(c, cells, net);
    UpdatedOk(c, cells, edits);
  }

  /** A batch's edits are of keys in play, with values that parse. */
  ghost predicate EditsFit(c: Codec, edits: seq<CellEdit>, keys: set<Bytes>) {
    forall i :: 0 <= i < |edits| ==> c.key(edits[i].0) in keys && (edits[i].1.Some? ==> c.ok(edits[i].1.value))
  }

  /** A normalized batch of the edits. */
  ghost predicate IsNet(edits: seq<CellEdit>, net: seq<CellEdit>) {
    Ascending(KeyLess, net) && forall k :: Last(net, k) == Last(edits, k)
  }

  method NetOf(edits: seq<CellEdit>) returns (net: seq<CellEdit>)
    ensures IsNet(edits, net)
  {
    KeyOrderTotal();
    net := Normalize(KeyLess, edits);
  }

  /** Everything an update asks of the rows of a net batch. */
  lemma {:induction false} NetFits(a: Auth, c: Codec, flat: Flat, cells: CellMap, edits: seq<CellEdit>,
                                   net: seq<CellEdit>, writes: seq<Write>, keys: set<Bytes>)
    requires Admits(a, c) && EditsFit(c, edits, keys) && IsNet(edits, net)
    requires LawfulCodec(c) && flat == FlatOf(c, cells) && CellsOk(c, cells) && writes == RowsOf(c, Diff(cells, net))
    ensures C.Fit(a, writes, keys) && CellsOk(c, Updated(cells, edits))
    ensures Written(flat, writes) == FlatOf(c, Updated(cells, edits))
  {
    RowsAdmitted(a, c, cells, edits, net, keys);
    NetRows(c, cells, edits, net);
  }

  /** The trie and the rows follow the differences of a net batch. */
  method WriteDiff(a: Auth, c: Codec, trie: Table, table: FlatTable, root: RootRef, changes: seq<Change>,
                   ghost edits: seq<CellEdit>, ghost net: seq<CellEdit>, ghost cells: CellMap, ghost keys: set<Bytes>)
    returns (r: Result<RootRef, CommitError>)
    requires Admits(a, c) && Ready(a, c, trie.rows, table.rows, root, cells, keys)
    requires EditsFit(c, edits, keys) && IsNet(edits, net) && changes == Diff(cells, net)
    requires LawfulCodec(c) && InPlay(a, FlatOf(c, Updated(cells, edits)))
    modifies trie, table
    ensures Grows(old(trie.rows), trie.rows)
    ensures r.Ok? ==> Ready(a, c, trie.rows, table.rows, r.value, Updated(cells, edits), keys)
    ensures r.Ok? && changes == [] ==>
              r.value == root && trie.rows == old(trie.rows) && table.rows == old(table.rows)
    ensures r.Err? ==> Excuse(a, r.error)
    ensures r.Err? && changes == [] ==> Failure(r.error)
  {
    var writes := RowsOf(c, changes);
    NetFits(a, c, table.rows, cells, edits, net, writes, keys);
    r := C.Update(a, trie, table, root, writes, keys);
  }

  /** A batch of cell edits, unsorted and with repeats: the table and the root follow the last edit
      of each key, and the changes returned are exactly the differences, in key order. */
  method Apply(a: Auth, c: Codec, trie: Table, table: FlatTable, root: RootRef, edits: seq<CellEdit>,
               ghost cells: CellMap, ghost keys: set<Bytes>)
    returns (r: Result<(RootRef, seq<Change>), CommitError>)
    requires Admits(a, c) && Ready(a, c, trie.rows, table.rows, root, cells, keys) && EditsFit(c, edits, keys)
    requires LawfulCodec(c) && InPlay(a, FlatOf(c, Updated(cells, edits)))
    modifies trie, table
    ensures Grows(old(trie.rows), trie.rows)
    ensures r.Ok? ==> Ready(a, c, trie.rows, table.rows, r.value.0, Updated(cells, edits), keys)
    ensures r.Ok? ==> Lists(cells, Updated(cells, edits), r.value.1)
    ensures r.Ok? && r.value.1 == [] ==>
              r.value.0 == root && trie.rows == old(trie.rows) && table.rows == old(table.rows)
    ensures r.Err? ==> Excuse(a, r.error)
    ensures r.Err? && Updated(cells, edits) == cells ==> Failure(r.error)
  {
    var net := NetOf(edits);
    RowsAdmitted(a, c, cells, edits, net, keys);
    var changes := CheckAll(a, c, trie, table, root, net, cells, keys);
    if changes.Err? {
      return Err(changes.error);
    }
    NetLists(cells, edits, net);
    var updated := WriteDiff(a, c, trie, table, root, changes.value, edits, net, cells, keys);
    r := if updated.Err? then Err(updated.error) else Ok((updated.value, changes.value));
  }
}
