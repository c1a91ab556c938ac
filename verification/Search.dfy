/** Queries over the committed tables: terms and ranges read from the index, and the matching records
    materialized from the cells. */
module Search {
  import opened Wrappers
  import opened Lex
  import opened Words
  import opened Cursor
  import opened CellKeys
  import opened Terms
  import opened Postings
  import opened CellValues
  import opened TrieStore
  import opened Scan
  import opened TermRange
  import opened System
  import opened Records
  import opened Seal
  import opened Opening
  import opened Engine
  import Q = Query
  import B = Bitmaps
  import C = Commitment
  import S = CellStore
  import I = IndexStore

  type TermRow = (Bytes, Hash)

  ghost predicate IndexReady(u: Setup, tb: I.Tables, root: RootRef, index: FlatIndex, play: Play)
    reads tb.bitmaps, tb.containers, tb.trie, tb.terms
  {
    I.Sound(u.index) && I.Ready(u.index, tb.bitmaps.rows, tb.containers.rows, tb.trie.rows, tb.terms.rows, root, index,
                                play.terms)
  }

  // ---- Postings ----

  /** The postings under a row, as a scan yields it. */
  method BitmapAt(u: Setup, tb: I.Tables, hash: Hash, ghost ids: set<RecordId>)
    returns (r: Result<set<RecordId>, I.IndexFailure>)
    requires B.Sound(u.index.bitmaps) && B.Addressed(u.index.bitmaps, tb.containers.rows)
    requires B.HoldsIds(u.index.bitmaps, tb.bitmaps.rows, tb.containers.rows, Some(hash), ids)
    ensures r == Ok(ids) || (r.Err? && I.StorageOnly(r.error))
  {
    var found := B.Materialize(u.index.bitmaps, tb.bitmaps, tb.containers, hash, ids);
    r := if found.Ok? then Ok(found.value) else Err(I.Bitmap(found.error));
  }

  /** One term's postings; an absent term has none. */
  method TermPostings(u: Setup, tb: I.Tables, term: Bytes, ghost root: RootRef, ghost index: FlatIndex,
                      ghost play: Play)
    returns (r: Result<set<RecordId>, I.IndexFailure>)
    requires IndexReady(u, tb, root, index, play)
    ensures r == Ok(PostingsOf(index, term)) || (r.Err? && I.StorageOnly(r.error))
  {
    assert I.RowHolds(u.index, tb.bitmaps.rows, tb.containers.rows, Get(tb.terms.rows, term), PostingsOf(index, term));
    var row := I.ReadRoot(u.index, tb, term, PostingsOf(index, term));
    if row.Err? {
      return Err(row.error);
    }
    if row.value.None? {
      return Ok({});
    }
    r := BitmapAt(u, tb, row.value.value, PostingsOf(index, term));
  }

  /** The postings under a scanned row are its term's. */
  method RowPostings(u: Setup, tb: I.Tables, row: TermRow, ghost root: RootRef, ghost index: FlatIndex,
                     ghost play: Play)
    returns (r: Result<set<RecordId>, I.IndexFailure>)
    requires IndexReady(u, tb, root, index, play) && Get(tb.terms.rows, row.0) == Some(row.1)
    ensures r == Ok(PostingsOf(index, row.0)) || (r.Err? && I.StorageOnly(r.error))
  {
    assert I.RowHolds(u.index, tb.bitmaps.rows, tb.containers.rows, Get(tb.terms.rows, row.0),
                      PostingsOf(index, row.0));
    r := BitmapAt(u, tb, row.1, PostingsOf(index, row.0));
  }

  /** The rows of a range, in term order. */
  ghost predicate Lists(flat: C.Flat, lower: Bound, upper: Bound, rows: seq<TermRow>) {
    && (forall i :: 0 <= i < |rows| ==>
          Get(flat, rows[i].0) == Some(rows[i].1) && AboveLower(lower, rows[i].0) && BelowUpper(upper, rows[i].0))
    && (forall i, j :: 0 <= i < j < |rows| ==> Less(rows[i].0, rows[j].0))
    && (forall t :: t in flat && AboveLower(lower, t) && BelowUpper(upper, t) ==>
          exists i :: 0 <= i < |rows| && rows[i].0 == t)
  }

  /** Rows taken so far, with the keys still to come after them. */
  ghost predicate Taken(flat: C.Flat, all: set<Bytes>, left: set<Bytes>, rows: seq<TermRow>) {
    && left <= all <= flat.Keys
    && (forall i :: 0 <= i < |rows| ==> Get(flat, rows[i].0) == Some(rows[i].1) && rows[i].0 in all)
    && (forall i, j :: 0 <= i < j < |rows| ==> Less(rows[i].0, rows[j].0))
    && (forall i, t :: 0 <= i < |rows| && t in left ==> Less(rows[i].0, t))
    && (forall t :: t in all && t !in left ==> exists i :: 0 <= i < |rows| && rows[i].0 == t)
  }

  lemma {:induction false} TakeMore(flat: C.Flat, all: set<Bytes>, left: set<Bytes>, rows: seq<TermRow>, row: TermRow)
    requires Taken(flat, all, left, rows) && IsFirst(left, true, row.0) && Get(flat, row.0) == Some(row.1)
    ensures Taken(flat, all, left - {row.0}, rows + [row])
  {
    var rows' := rows + [row];
    forall t | t in all && t !in left - {row.0}
      ensures exists i :: 0 <= i < |rows'| && rows'[i].0 == t
    {
      if t == row.0 {
        assert rows'[|rows|].0 == t;
      } else {
        var i :| 0 <= i < |rows| && rows[i].0 == t;
        assert rows'[i].0 == t;
      }
    }
  }

  /** Once nothing is left, the rows are the range's. */
  lemma {:induction false} AllTaken(flat: C.Flat, lower: Bound, upper: Bound, all: set<Bytes>, rows: seq<TermRow>)
    requires Taken(flat, all, {}, rows) && all == set k | k in flat && AboveLower(lower, k) && BelowUpper(upper, k)
    ensures Lists(flat, lower, upper, rows)
  {
    forall t | t in flat && AboveLower(lower, t) && BelowUpper(upper, t)
      ensures exists i :: 0 <= i < |rows| && rows[i].0 == t
    {
      assert t in all;
    }
  }

  /** Every row of the term table is a 32-byte root. */
  ghost predicate RootRows(u: Setup, flat: C.Flat) {
    forall t :: t in flat ==> |flat[t]| == 32 && flat[t] != u.index.bitmaps.empty
  }

  /** Every key of the term table is a term. */
  ghost predicate TermKeys(u: Setup, terms: set<Bytes>) {
    forall t :: t in terms ==> Terms.Decode(u.utf8, t).Ok?
  }

  /** What the index of valid cells holds are terms. */
  lemma {:induction false} HeldTermsDecode(u: Setup, index: FlatIndex, cells: CellMap)
    requires IsIndex(index, cells) && ValidCells(u.utf8, cells)
    ensures TermKeys(u, index.Keys)
  {
    forall t | t in index
      ensures Terms.Decode(u.utf8, t).Ok?
    {
      assert index[t] == Rebuilt(cells, t) && index[t] != {};
      var id :| id in Rebuilt(cells, t);
      var k :| k in cells && TermOf(k, Some(cells[k])) == Ok(Some(t));
      CellTermDecodes(u, k, cells[k], t);
    }
  }

  lemma {:induction false} CellTermDecodes(u: Setup, k: CellKey, v: CellValue, t: Bytes)
    requires Validate(u.utf8, v.ty, v.stored) && TermOf(k, Some(v)) == Ok(Some(t))
    ensures Terms.Decode(u.utf8, t) == Ok((k.name, v.ty, v.stored))
  {
    DecodeComplete(u.utf8, k.name, v.ty, v.stored);
  }

  /** What is wrong with a row of the term table: a key that does not decode, or a value that is no root. */
  function Rejects(u: Setup, term: Bytes, value: Bytes): (r: Option<I.IndexFailure>)
    ensures r.None? <==> Terms.Decode(u.utf8, term).Ok? && |value| == 32 && value != u.index.bitmaps.empty
  {
    var parts := Terms.Decode(u.utf8, term);
    if parts.Err? then Some(I.BadTerm(parts.error))
    else if |value| != 32 || value == u.index.bitmaps.empty then Some(I.BadRoot)
    else None
  }

  function RejectedBy(bad: Option<I.IndexFailure>): Result<seq<TermRow>, I.IndexFailure> {
    if bad.Some? then Err(bad.value) else Ok([])
  }

  /** An ordered scan of one range of terms: every key must decode and every value be a root. */
  method ScanTerms(u: Setup, table: C.FlatTable, lower: Bound, upper: Bound)
    returns (r: Result<seq<TermRow>, I.IndexFailure>)
    requires !Reversed(lower, upper) && RootRows(u, table.rows) && TermKeys(u, table.rows.Keys)
    ensures r.Ok? ==> Lists(table.rows, lower, upper, r.value)
    ensures r.Err? ==> I.StorageOnly(r.error)
  {
    var started := Scan.Open(Some(table.rows), lower, upper);
    if started.Err? {
      return Err(I.Term(C.Merkle(Storage)));
    }
    ghost var all := started.value.left;
    r := TakeRows(u, started.value, table.rows);
    if r.Ok? {
      AllTaken(table.rows, lower, upper, all, r.value);
    }
  }

  /** Every row the scan has to give. */
  method TakeRows(u: Setup, scan: Scan, ghost flat: C.Flat) returns (r: Result<seq<TermRow>, I.IndexFailure>)
    requires scan.Valid() && scan.cursor.rows == Some(flat) && scan.left <= flat.Keys
    requires RootRows(u, flat) && TermKeys(u, flat.Keys)
    modifies scan, scan.cursor
    ensures r.Ok? ==> Taken(flat, old(scan.left), {}, r.value)
    ensures r.Err? ==> I.StorageOnly(r.error)
  {
    var rows: seq<TermRow> := [];
    while true
      invariant scan.Valid() && scan.cursor.rows == Some(flat) && Taken(flat, old(scan.left), scan.left, rows)
      decreases |scan.left|
    {
      ghost var left := scan.left;
      var next := scan.Next();
      if next.None? {
        return Ok(rows);
      }
      var taken := TakeRow(u, next.value, rows, flat, old(scan.left), left);
      if taken.Err? {
        return taken;
      }
      rows := taken.value;
    }
  }

  /** One more row of the range, checked. */
  method TakeRow(u: Setup, row: Result<Entry, ScanError>, rows: seq<TermRow>, ghost flat: C.Flat,
                 ghost all: set<Bytes>, ghost left: set<Bytes>)
    returns (r: Result<seq<TermRow>, I.IndexFailure>)
    requires RootRows(u, flat) && TermKeys(u, flat.Keys) && Taken(flat, all, left, rows)
    requires if row.Ok? then IsFirst(left, true, row.value.0) && Get(flat, row.value.0) == Some(row.value.1) else FAULTS
    ensures r.Ok? <==> row.Ok?
    ensures r.Ok? ==> Taken(flat, all, left - {row.value.0}, r.value)
    ensures r.Err? ==> I.StorageOnly(r.error)
  {
    if row.Err? {
      return Err(I.Term(C.Merkle(Storage)));
    }
    var (term, value) := row.value;
    var bad := Rejects(u, term, value);
    if bad.Some? {
      return RejectedBy(bad);
    }
    TakeMore(flat, all, left, rows, (term, value));
    r := Ok(rows + [(term, value)]);
  }

  /** A set of record IDs gathered from the postings of terms. */
  ghost predicate Gathered(index: FlatIndex, terms: seq<Bytes>, ids: set<RecordId>) {
    forall id: RecordId :: id in ids <==> Q.InSome(index, terms, id)
  }

  lemma {:induction false} GatherMore(index: FlatIndex, terms: seq<Bytes>, t: Bytes, ids: set<RecordId>)
    requires Gathered(index, terms, ids)
    ensures Gathered(index, terms + [t], ids + PostingsOf(index, t))
  {
    var terms' := terms + [t];
    forall id: RecordId
      ensures id in ids + PostingsOf(index, t) <==> Q.InSome(index, terms', id)
    {
      if Q.InSome(index, terms, id) {
        var k :| 0 <= k < |terms| && id in PostingsOf(index, terms[k]);
        assert terms'[k] == terms[k];
      }
      assert terms'[|terms|] == t;
      if Q.InSome(index, terms', id) {
        var k :| 0 <= k < |terms'| && id in PostingsOf(index, terms'[k]);
        assert k < |terms| ==> terms'[k] == terms[k];
      }
    }
  }

  function TermsOf(rows: seq<TermRow>): (terms: seq<Bytes>)
    ensures |terms| == |rows| && forall i :: 0 <= i < |rows| ==> terms[i] == rows[i].0
  {
    seq(|rows|, i requires 0 <= i < |rows| => rows[i].0)
  }

  // ---- The match set ----

  /** The postings of each term. */
  ghost predicate PostingSets(index: FlatIndex, terms: seq<Bytes>, sets: seq<set<RecordId>>) {
    |sets| == |terms| && forall i :: 0 <= i < |sets| ==> sets[i] == PostingsOf(index, terms[i])
  }

  /** Union of postings, one after another in the order given. */
  method Union(sets: seq<set<RecordId>>, ghost index: FlatIndex, ghost terms: seq<Bytes>) returns (ids: set<RecordId>)
    requires PostingSets(index, terms, sets)
    ensures Gathered(index, terms, ids)
  {
    ids := {};
    for i := 0 to |sets|
      invariant Gathered(index, terms[..i], ids)
    {
      assert terms[..i + 1] == terms[..i] + [terms[i]];
      GatherMore(index, terms[..i], terms[i], ids);
      ids := ids + sets[i];
    }
    assert terms[..|terms|] == terms;
  }

  lemma {:induction false} SetsMore(index: FlatIndex, terms: seq<Bytes>, i: nat, sets: seq<set<RecordId>>,
                                    found: set<RecordId>)
    requires i < |terms| && PostingSets(index, terms[..i], sets) && found == PostingsOf(index, terms[i])
    ensures PostingSets(index, terms[..i + 1], sets + [found])
  {
  }

  /** Terms read one after another. */
  method ReadTerms(u: Setup, tb: I.Tables, terms: seq<Bytes>, ghost root: RootRef, ghost index: FlatIndex,
                   ghost play: Play)
    returns (sets: seq<set<RecordId>>, failed: Option<I.IndexFailure>)
    requires IndexReady(u, tb, root, index, play)
    ensures failed.None? ==> PostingSets(index, terms[..|terms|], sets)
    ensures failed.Some? ==> I.StorageOnly(failed.value)
  {
    sets, failed := [], None;
    for i := 0 to |terms|
      invariant PostingSets(index, terms[..i], sets) && failed == None
    {
      var found := TermPostings(u, tb, terms[i], root, index, play);
      if found.Err? {
        return sets, Some(found.error);
      }
      SetsMore(index, terms, i, sets, found.value);
      sets := sets + [found.value];
    }
  }

  method UnionTerms(u: Setup, tb: I.Tables, terms: seq<Bytes>, ghost root: RootRef, ghost index: FlatIndex,
                    ghost play: Play)
    returns (r: Result<set<RecordId>, I.IndexFailure>)
    requires IndexReady(u, tb, root, index, play)
    ensures r.Ok? ==> Gathered(index, terms, r.value)
    ensures r.Err? ==> I.StorageOnly(r.error)
  {
    var sets, failed := ReadTerms(u, tb, terms, root, index, play);
    if failed.Some? {
      return Err(failed.value);
    }
    assert terms[..|terms|] == terms;
    var ids := Union(sets, index, terms);
    r := Ok(ids);
  }

  /** The rows are rows of the term table. */
  ghost predicate AreRows(flat: C.Flat, rows: seq<TermRow>) {
    forall i :: 0 <= i < |rows| ==> Get(flat, rows[i].0) == Some(rows[i].1)
  }

  /** The postings under each row of a scan. */
  method ReadRows(u: Setup, tb: I.Tables, rows: seq<TermRow>, ghost root: RootRef, ghost index: FlatIndex,
                  ghost play: Play)
    returns (sets: seq<set<RecordId>>, failed: Option<I.IndexFailure>)
    requires IndexReady(u, tb, root, index, play) && AreRows(tb.terms.rows, rows)
    ensures failed.None? ==> PostingSets(index, TermsOf(rows)[..|rows|], sets)
    ensures failed.Some? ==> I.StorageOnly(failed.value)
  {
    sets, failed := [], None;
    for i := 0 to |rows|
      invariant PostingSets(index, TermsOf(rows)[..i], sets) && failed == None
    {
      var found := RowPostings(u, tb, rows[i], root, index, play);
      if found.Err? {
        return sets, Some(found.error);
      }
      SetsMore(index, TermsOf(rows), i, sets, found.value);
      sets := sets + [found.value];
    }
  }

  method UnionRows(u: Setup, tb: I.Tables, rows: seq<TermRow>, ghost root: RootRef, ghost index: FlatIndex,
                   ghost play: Play)
    returns (r: Result<set<RecordId>, I.IndexFailure>)
    requires IndexReady(u, tb, root, index, play) && AreRows(tb.terms.rows, rows)
    ensures r.Ok? ==> Gathered(index, TermsOf(rows), r.value)
    ensures r.Err? ==> I.StorageOnly(r.error)
  {
    var sets, failed := ReadRows(u, tb, rows, root, index, play);
    if failed.Some? {
      return Err(failed.value);
    }
    assert TermsOf(rows)[..|rows|] == TermsOf(rows);
    var ids := Union(sets, index, TermsOf(rows));
    r := Ok(ids);
  }

  lemma {:induction false} RowsAreRoots(u: Setup, b: TrieStore.Rows, c: TrieStore.Rows, flat: C.Flat, index: FlatIndex)
    requires I.Sound(u.index) && I.HoldsAll(u.index, b, c, flat, index)
    ensures RootRows(u, flat)
  {
    forall t | t in flat
      ensures |flat[t]| == 32 && flat[t] != u.index.bitmaps.empty
    {
      assert I.RowHolds(u.index, b, c, Get(flat, t), PostingsOf(index, t));
      I.RowMeansSome(u.index, b, c, Get(flat, t), PostingsOf(index, t));
    }
  }

  /** The listed rows hold the range's postings. */
  lemma {:induction false} ListedIsScan(flat: C.Flat, index: FlatIndex, range: KeyRange, rows: seq<TermRow>,
                                        id: RecordId)
    requires flat.Keys == index.Keys && Lists(flat, range.0, range.1, rows)
    ensures Q.InSome(index, TermsOf(rows), id) <==> Q.InScan(index, range, id)
  {
    var terms := TermsOf(rows);
    assert Q.InSome(index, terms, id) <==> exists k :: 0 <= k < |rows| && id in PostingsOf(index, terms[k]);
    if k :| 0 <= k < |rows| && id in PostingsOf(index, rows[k].0) {
      assert rows[k].0 in flat && Q.Within(range, rows[k].0);
    }
    if Q.InScan(index, range, id) {
      var t :| t in index && Q.Within(range, t) && id in PostingsOf(index, t);
      var i :| 0 <= i < |rows| && rows[i].0 == t;
    }
  }

  method UnionRange(u: Setup, tb: I.Tables, range: KeyRange, ghost root: RootRef, ghost index: FlatIndex,
                    ghost play: Play)
    returns (r: Result<set<RecordId>, I.IndexFailure>)
    requires IndexReady(u, tb, root, index, play) && TermKeys(u, index.Keys) && !Reversed(range.0, range.1)
    ensures r.Ok? ==> forall id :: id in r.value <==> Q.InScan(index, range, id)
    ensures r.Err? ==> I.StorageOnly(r.error)
  {
    RowsAreRoots(u, tb.bitmaps.rows, tb.containers.rows, tb.terms.rows, index);
    var rows := ScanTerms(u, tb.terms, range.0, range.1);
    if rows.Err? {
      return Err(rows.error);
    }
    r := UnionRows(u, tb, rows.value, root, index, play);
    forall id: RecordId
      ensures Q.InSome(index, TermsOf(rows.value), id) <==> Q.InScan(index, range, id)
    {
      ListedIsScan(tb.terms.rows, index, range, rows.value, id);
    }
  }

  /** A plan's scan is never reversed. */
  ghost predicate Scannable(plan: Q.Plan) {
    plan.ScanTerms? ==> !Reversed(plan.range.0, plan.range.1)
  }

  method MatchSet(u: Setup, tb: I.Tables, plan: Q.Plan, ghost root: RootRef, ghost index: FlatIndex, ghost play: Play)
    returns (r: Result<set<RecordId>, I.IndexFailure>)
    requires IndexReady(u, tb, root, index, play) && TermKeys(u, index.Keys) && Scannable(plan)
    ensures r.Ok? ==> forall id :: id in r.value <==> Q.Selected(index, plan, id)
    ensures r.Err? ==> I.StorageOnly(r.error)
  {
    match plan
    case TermRead(t) => r := TermPostings(u, tb, t, root, index, play);
    case TermReads(ts) => r := UnionTerms(u, tb, ts, root, index, play);
    case ScanTerms(range) => r := UnionRange(u, tb, range, root, index, play);
    case NoMatch => r := Ok({});
  }

  // ---- Records ----

  /** A record's cells by name. */
  ghost function CellsOf(cells: CellMap, id: RecordId): map<Bytes, CellValue> {
    map k | k in cells && k.id == id :: k.name := cells[k]
  }

  /** The cells read so far are the record's cells whose rows are not still to come. */
  ghost predicate ReadSoFar(u: Setup, cells: CellMap, id: RecordId, left: set<Bytes>, values: map<Bytes, CellValue>) {
    forall name: Bytes :: Get(values, name) == if u.codec.key(CellKey(id, name)) in left then None
      else Get(cells, CellKey(id, name))
  }

  /** A record partly read: the rows still to come are its own. */
  ghost predicate Reading(u: Setup, flat: C.Flat, cells: CellMap, id: RecordId, left: set<Bytes>, values: map<Bytes,
                          CellValue>) {
    ReadSoFar(u, cells, id, left, values) && forall b :: b in left ==> RowOfRecord(u, flat, cells, id, b)
  }

  lemma {:induction false} ReadMore(u: Setup, flat: C.Flat, cells: CellMap, id: RecordId, left: set<Bytes>,
                                    values: map<Bytes, CellValue>, k: CellKey)
    requires LawfulCodec(u.codec) && Reading(u, flat, cells, id, left, values) && k in cells && k.id == id
    requires u.codec.key(k) in left
    ensures Reading(u, flat, cells, id, left - {u.codec.key(k)}, values[k.name := cells[k]])
  {
    assert k == CellKey(id, k.name);
  }

  lemma {:induction false} ReadAll(u: Setup, cells: CellMap, id: RecordId, values: map<Bytes, CellValue>)
    requires ReadSoFar(u, cells, id, {}, values)
    ensures values == CellsOf(cells, id)
  {
    forall name: Bytes
      ensures Get(values, name) == Get(CellsOf(cells, id), name)
    {
      if CellKey(id, name) in cells {
        assert name in CellsOf(cells, id);
      }
    }
    SameAnswers(values, CellsOf(cells, id));
  }

  /** Before reading, the rows to come are exactly the record's. */
  lemma {:induction false} NothingRead(u: Setup, flat: C.Flat, cells: CellMap, id: RecordId, left: set<Bytes>)
    requires Stored(u, flat, cells) && Fits(u.codec, u.utf8) && left == set b | b in flat && ToBytes(id, 8) <= b
    ensures Reading(u, flat, cells, id, left, map[])
  {
    forall name: Bytes
      ensures CellKey(id, name) in cells ==> u.codec.key(CellKey(id, name)) in left
    {
      assert KeyedAt(u.codec, CellKey(id, name));
      PrefixIsRecord(id, CellKey(id, name));
      assert CellKey(id, name) in cells ==> u.codec.key(CellKey(id, name)) in flat;
    }
    forall b | b in left
      ensures RowOfRecord(u, flat, cells, id, b)
    {
      var k :| k in cells && u.codec.key(k) == b;
      assert KeyedAt(u.codec, k);
      PrefixIsRecord(id, k);
      S.FlatAt(u.codec, cells, k);
    }
  }

  /** The row is a cell of the record. */
  ghost predicate RowOfRecord(u: Setup, flat: C.Flat, cells: CellMap, id: RecordId, b: Bytes) {
    exists k :: k in cells && k.id == id && u.codec.key(k) == b && Get(flat, b) == Some(u.codec.value(cells[k]))
  }

  /** The cells a projection keeps: the named ones that exist, or all without one. */
  ghost function Projected(cells: CellMap, id: RecordId, projection: Option<seq<Bytes>>): map<Bytes, CellValue> {
    if projection.None? then CellsOf(cells, id)
    else map name | name in projection.value && CellKey(id, name) in cells :: cells[CellKey(id, name)]
  }

  /** The named cells, one read each; a missing one is left out, a repeated one is read again. */
  method ReadNamed(u: Setup, table: C.FlatTable, id: RecordId, names: seq<Bytes>, ghost cells: CellMap)
    returns (r: Result<map<Bytes, CellValue>, OpenError>)
    requires Stored(u, table.rows, cells)
    ensures r == Ok(Projected(cells, id, Some(names))) || (FAULTS && r == Err(Failed))
  {
    var values: map<Bytes, CellValue> := map[];
    for i := 0 to |names|
      invariant values == Projected(cells, id, Some(names[..i]))
    {
      var next := ReadOne(u, table, id, names, i, values, cells);
      if next.Err? {
        return next;
      }
      values := next.value;
    }
    ProjectedAll(cells, id, names);
    r := Ok(values);
  }

  /** The cell under the next name, if there is one. */
  method ReadOne(u: Setup, table: C.FlatTable, id: RecordId, names: seq<Bytes>, i: nat, values: map<Bytes, CellValue>,
                 ghost cells: CellMap)
    returns (r: Result<map<Bytes, CellValue>, OpenError>)
    requires Stored(u, table.rows, cells) && i < |names| && values == Projected(cells, id, Some(names[..i]))
    ensures r == Ok(Projected(cells, id, Some(names[..i + 1]))) || (FAULTS && r == Err(Failed))
  {
    ProjectedMore(cells, id, names, i);
    var v := ReadCell(u, table, CellKey(id, names[i]), cells);
    if v.Err? {
      return Err(v.error);
    }
    r := Ok(if v.value.Some? then values[names[i] := v.value.value] else values);
  }

  lemma {:induction false} ProjectedMore(cells: CellMap, id: RecordId, names: seq<Bytes>, i: nat)
    requires i < |names|
    ensures Projected(cells, id, Some(names[..i + 1])) ==
              if CellKey(id, names[i]) in cells
              then Projected(cells, id, Some(names[..i]))[names[i] := cells[CellKey(id, names[i])]]
              else Projected(cells, id, Some(names[..i]))
  {
    assert names[..i + 1] == names[..i] + [names[i]];
  }

  lemma {:induction false} ProjectedAll(cells: CellMap, id: RecordId, names: seq<Bytes>)
    ensures Projected(cells, id, Some(names[..|names|])) == Projected(cells, id, Some(names))
  {
    assert names[..|names|] == names;
  }

  /** A record's cells, whole or projected. */
  method ReadCells(u: Setup, table: C.FlatTable, id: RecordId, projection: Option<seq<Bytes>>, ghost cells: CellMap)
    returns (r: Result<map<Bytes, CellValue>, OpenError>)
    requires Stored(u, table.rows, cells) && Fits(u.codec, u.utf8)
    ensures r == Ok(Projected(cells, id, projection)) || (FAULTS && r == Err(Failed))
  {
    if projection.Some? {
      r := ReadNamed(u, table, id, projection.value, cells);
    } else {
      r := ReadRecord(u, table, id, cells);
    }
  }

  /** All of a record's cells, in name order. */
  method ReadRecord(u: Setup, table: C.FlatTable, id: RecordId, ghost cells: CellMap)
    returns (r: Result<map<Bytes, CellValue>, OpenError>)
    requires Stored(u, table.rows, cells) && Fits(u.codec, u.utf8)
    ensures r == Ok(CellsOf(cells, id)) || (FAULTS && r == Err(Failed))
  {
    var scan := new Scan.Prefix(Some(table.rows), ToBytes(id, 8));
    NothingRead(u, table.rows, cells, id, scan.left);
    r := TakeCells(u, scan, cells, id, table.rows);
  }

  /** Every cell the scan has to give. */
  method TakeCells(u: Setup, scan: Scan, ghost cells: CellMap, ghost id: RecordId, ghost flat: C.Flat)
    returns (r: Result<map<Bytes, CellValue>, OpenError>)
    requires scan.Valid() && scan.cursor.rows == Some(flat) && Stored(u, flat, cells)
    requires Reading(u, flat, cells, id, scan.left, map[])
    modifies scan, scan.cursor
    ensures r == Ok(CellsOf(cells, id)) || (FAULTS && r == Err(Failed))
  {
    var values: map<Bytes, CellValue> := map[];
    while true
      invariant scan.Valid() && scan.cursor.rows == Some(flat) && Reading(u, flat, cells, id, scan.left, values)
      decreases |scan.left|
    {
      ghost var left := scan.left;
      var next := scan.Next();
      if next.None? {
        ReadAll(u, cells, id, values);
        return Ok(values);
      }
      var read := TakeCell(u, next.value, values, cells, id, flat, left);
      if read.Err? {
        return Err(read.error);
      }
      values := read.value;
    }
  }

  /** One more cell of the record. */
  method TakeCell(u: Setup, row: Result<Entry, ScanError>, values: map<Bytes, CellValue>, ghost cells: CellMap,
                  ghost id: RecordId,
                  ghost flat: C.Flat, ghost left: set<Bytes>)
    returns (r: Result<map<Bytes, CellValue>, OpenError>)
    requires Stored(u, flat, cells) && Reading(u, flat, cells, id, left, values)
    requires if row.Ok? then row.value.0 in left && Get(flat, row.value.0) == Some(row.value.1) else FAULTS
    ensures r.Ok? <==> row.Ok?
    ensures r.Ok? ==> Reading(u, flat, cells, id, left - {row.value.0}, r.value)
    ensures r.Err? ==> FAULTS && r.error == Failed
  {
    var decoded := DecodeCell(u, row, cells, id, flat, left, values);
    if decoded.Err? {
      return Err(decoded.error);
    }
    ReadMore(u, flat, cells, id, left, values, decoded.value.0);
    r := Ok(values[decoded.value.0.name := decoded.value.1]);
  }

  method DecodeCell(u: Setup, row: Result<Entry, ScanError>, ghost cells: CellMap, ghost id: RecordId,
                    ghost flat: C.Flat, ghost left: set<Bytes>,
                    ghost values: map<Bytes, CellValue>)
    returns (r: Result<(CellKey, CellValue), OpenError>)
    requires Stored(u, flat, cells) && Reading(u, flat, cells, id, left, values)
    requires if row.Ok? then row.value.0 in left && Get(flat, row.value.0) == Some(row.value.1) else FAULTS
    ensures r.Ok? <==> row.Ok?
    ensures r.Ok? ==>
              && r.value.0 in cells && r.value.0.id == id && u.codec.key(r.value.0) == row.value.0
              && r.value.1 == cells[r.value.0]
    ensures r.Err? ==> FAULTS && r.error == Failed
  {
    if row.Err? {
      return Err(Failed);
    }
    var (key, value) := row.value;
    assert RowOfRecord(u, flat, cells, id, key);
    ghost var k0 :| k0 in cells && k0.id == id && u.codec.key(k0) == key &&
                    Get(flat, key) == Some(u.codec.value(cells[k0]));
    var k, v := u.codec.unkey(key), u.codec.parse(value);
    assert k == Some(k0) && v == Some(cells[k0]);
    r := if k.None? || v.None? then Err(Corrupt) else Ok((k.value, v.value));
  }

  /** A record as a query returns it. */
  datatype Match = Match(id: RecordId, key: RecordKey, cells: map<Bytes, CellValue>)

  /** Read a record by ID; its key comes from its own `#key` cell. */
  method ReadById(u: Setup, table: C.FlatTable, id: RecordId, projection: Option<seq<Bytes>>, ghost cells: CellMap)
    returns (r: Result<Match, OpenError>)
    requires Stored(u, table.rows, cells) && Fits(u.codec, u.utf8) && KeyOf(cells, id).Some?
    ensures r == Ok(Match(id, KeyOf(cells, id).value, Projected(cells, id, projection))) || (FAULTS && r == Err(Failed))
  {
    var identity := ReadCell(u, table, Ident(id), cells);
    if identity.Err? {
      return Err(identity.error);
    }
    var key := AsKey(identity.value);
    if key.None? {
      return Err(Corrupt);
    }
    var values := ReadCells(u, table, id, projection, cells);
    r := if values.Ok? then Ok(Match(id, key.value, values.value)) else Err(values.error);
  }

  /** Every match has an identity. */
  lemma {:induction false} MatchIsRecord(ok: CellValue -> bool, cells: CellMap, limits: Limits, filter: Q.Filter,
                                         id: RecordId)
    requires Kept(ok, cells, limits) && Q.Matches(cells, filter, id)
    ensures KeyOf(cells, id).Some? && id >= FIRST_USER
  {
    var k := CellKey(id, filter.field);
    assert k in cells && cells[k].indexable;
    assert Owned(cells, k.id);
  }

  lemma {:induction false} Least(ids: set<RecordId>) returns (id: RecordId)
    requires ids != {}
    ensures id in ids && forall x :: x in ids ==> id <= x
    decreases ids
  {
    var a :| a in ids;
    assert forall x :: x in ids ==> x == a || x in ids - {a};
    if ids == {a} {
      id := a;
    } else {
      var least := Least(ids - {a});
      id := if least < a then least else a;
    }
  }

  /** The records of a match set, each once, by ascending ID, with its key and cells. */
  ghost predicate Page(cells: CellMap, projection: Option<seq<Bytes>>, ids: set<RecordId>, left: set<RecordId>,
                       page: seq<Match>)
  {
    && left <= ids
    && (forall i :: 0 <= i < |page| ==>
          && page[i].id in ids - left && KeyOf(cells, page[i].id) == Some(page[i].key)
          && page[i].cells == Projected(cells, page[i].id, projection))
    && (forall i, j :: 0 <= i < j < |page| ==> page[i].id < page[j].id)
    && (forall i, x :: 0 <= i < |page| && x in left ==> page[i].id < x)
    && (forall x :: x in ids - left ==> exists i :: 0 <= i < |page| && page[i].id == x)
  }

  lemma {:induction false} PageMore(cells: CellMap, projection: Option<seq<Bytes>>, ids: set<RecordId>,
                                    left: set<RecordId>, page: seq<Match>, f: Match)
    requires Page(cells, projection, ids, left, page) && f.id in left && (forall x :: x in left ==> f.id <= x)
    requires KeyOf(cells, f.id) == Some(f.key) && f.cells == Projected(cells, f.id, projection)
    ensures Page(cells, projection, ids, left - {f.id}, page + [f])
  {
    var page' := page + [f];
    forall x | x in ids - (left - {f.id})
      ensures exists i :: 0 <= i < |page'| && page'[i].id == x
    {
      if x == f.id {
        assert page'[|page|].id == x;
      } else {
        assert x in ids - left;
        var i :| 0 <= i < |page| && page[i].id == x;
        assert page'[i].id == x;
      }
    }
  }

  method ReadPage(u: Setup, table: C.FlatTable, ids: set<RecordId>, projection: Option<seq<Bytes>>,
                  ghost cells: CellMap)
    returns (r: Result<seq<Match>, OpenError>)
    requires Stored(u, table.rows, cells) && Fits(u.codec, u.utf8) && forall id :: id in ids ==> KeyOf(cells, id).Some?
    ensures r.Ok? ==> Page(cells, projection, ids, {}, r.value)
    ensures r.Err? ==> FAULTS && r.error == Failed
  {
    var page: seq<Match>, left := [], ids;
    while left != {}
      invariant Page(cells, projection, ids, left, page)
      decreases left
    {
      ghost var least := Least(left);
      var id :| id in left && forall x :: x in left ==> id <= x;
      var found := ReadById(u, table, id, projection, cells);
      if found.Err? {
        return Err(found.error);
      }
      PageMore(cells, projection, ids, left, page, found.value);
      page, left := page + [found.value], left - {id};
    }
    r := Ok(page);
  }

  // ---- Queries ----

  datatype SearchError = Rejected(error: Q.QueryError) | IndexFailed(index: I.IndexFailure) | ReadFailed

  lemma {:induction false} PlanScannable(filter: Q.Filter)
    requires Q.PlanOf(filter).Ok?
    ensures Scannable(Q.PlanOf(filter).value)
  {
    if filter.Range? && Q.PlanOf(filter).value.ScanTerms? {
      RangeAccepted(filter.field, filter.lower, filter.upper);
    }
  }

  lemma {:induction false} TermedIndexable(cells: CellMap)
    requires Termed(cells)
    ensures Q.Indexable(cells)
  {
    forall k | k in cells && cells[k].indexable
      ensures FromCellName(k.name, cells[k]).Ok?
    {
      assert TermOf(k, Some(cells[k])).Ok?;
    }
  }

  /** The match set of an admitted filter is the matching records. */
  lemma {:induction false} SetMatches(u: Setup, cells: CellMap, index: FlatIndex, filter: Q.Filter, ids: set<RecordId>)
    requires ValidCells(u.utf8, cells) && Termed(cells) && IsIndex(index, cells) && Q.ValidFilter(u.utf8, filter)
    requires Q.PlanOf(filter).Ok?
    requires forall id :: id in ids <==> Q.Selected(index, Q.PlanOf(filter).value, id)
    ensures forall id :: id in ids <==> Q.Matches(cells, filter, id)
  {
    TermedIndexable(cells);
    forall id: RecordId
      ensures id in ids <==> Q.Matches(cells, filter, id)
    {
      Q.PlanMatches(u.utf8, index, cells, filter, id);
    }
  }

  /** Evaluate an admitted filter over the index tables of a committed state. */
  method MatchesOf(u: Setup, tb: I.Tables, filter: Q.Filter, ghost head: Head, ghost cells: CellMap, ghost play: Play)
    returns (r: Result<set<RecordId>, SearchError>)
    requires I.Sound(u.index) && HasIndex(u, IndexContents(tb), head, cells, play)
    requires ValidCells(u.utf8, cells) && Termed(cells) && Q.ValidFilter(u.utf8, filter)
    ensures !Q.Admissible(filter) ==> r == Err(Rejected(Q.Refusal(filter)))
    ensures r.Ok? ==> forall id :: id in r.value <==> Q.Matches(cells, filter, id)
    ensures r.Err? && Q.Admissible(filter) ==> r.error.IndexFailed? && I.StorageOnly(r.error.index)
  {
    Q.AdmissionExact(filter);
    var plan := Q.PlanOf(filter);
    if plan.Err? {
      return Err(Rejected(plan.error));
    }
    PlanScannable(filter);
    ghost var root, index :| IndexAt(u, IndexContents(tb), head, cells, play, root, index);
    HeldTermsDecode(u, index, cells);
    var ids := MatchSet(u, tb, plan.value, root, index, play);
    if ids.Err? {
      return Err(IndexFailed(ids.error));
    }
    SetMatches(u, cells, index, filter, ids.value);
    r := Ok(ids.value);
  }

  /** Evaluate a filter over the tables of a state, and materialize its matches. */
  method FindIn(u: Setup, tables: Snapshot, limits: Limits, filter: Q.Filter, projection: Option<seq<Bytes>>,
                ghost head: Head, ghost cells: CellMap, ghost play: Play)
    returns (r: Result<seq<Match>, SearchError>, ghost ids: set<RecordId>)
    requires Readable(u, tables, head, cells, limits, play) && Q.ValidFilter(u.utf8, filter)
    ensures !Q.Admissible(filter) ==> r == Err(Rejected(Q.Refusal(filter)))
    ensures r.Ok? ==>
              Page(cells, projection, ids, {}, r.value) && forall id :: id in ids <==> Q.Matches(cells, filter, id)
    ensures r.Err? && Q.Admissible(filter) ==>
              (FAULTS && r.error == ReadFailed) || (r.error.IndexFailed? && I.StorageOnly(r.error.index))
  {
    ids := {};
    var st := StageTables(tables);
    var matched := MatchesOf(u, st.index, filter, head, cells, play);
    if matched.Err? {
      return Err(matched.error), ids;
    }
    ids := matched.value;
    forall id | id in ids
      ensures KeyOf(cells, id).Some?
    {
      MatchIsRecord(u.codec.ok, cells, limits, filter, id);
    }
    var page := ReadPage(u, st.cells, matched.value, projection, cells);
    r := if page.Ok? then Ok(page.value) else Err(ReadFailed);
  }

  /** A state whose tables can be read. */
  ghost predicate Readable(u: Setup, s: Snapshot, head: Head, cells: CellMap, limits: Limits, play: Play) {
    && I.Sound(u.index) && Fits(u.codec, u.utf8) && Stored(u, s.cells, cells) && HasIndex(u, s.index, head, cells, play)
    && ValidCells(u.utf8, cells) && Termed(cells) && Kept(u.codec.ok, cells, limits)
  }

  /** A standing state is ready to be read. */
  lemma {:induction false} StandingReads(site: Site, c: Committed, play: Play)
    requires Given(site, play) && Standing(site, c, play)
    ensures Readable(site.u, c.tables, c.head, c.cells, site.deployment.limits, play)
  {
    assert GivenFor(site.u, site.deployment, play) && StandsFor(site, c, Holding(site, c), play);
    var root := CellRoot(site.u, c.tables.cellTrie, c.tables.cells, c.head, c.cells, play);
    CodecValid(site.u.codec, site.u.utf8, c.cells);
  }

  /** A query over any committed state that stands: exactly the records with a matching attribute,
      each once, by ascending ID, with its key and projected cells; and none fails to materialize. An
      admissible filter ends in such a page or a storage failure, any other in its refusal. */
  method Find(site: Site, c: Committed, filter: Q.Filter, projection: Option<seq<Bytes>>, ghost play: Play)
    returns (r: Result<seq<Match>, SearchError>, ghost ids: set<RecordId>)
    requires Given(site, play) && Standing(site, c, play) && Q.ValidFilter(site.u.utf8, filter)
    ensures !Q.Admissible(filter) ==> r == Err(Rejected(Q.Refusal(filter)))
    ensures r.Ok? ==>
              && Page(c.cells, projection, ids, {}, r.value)
              && forall id :: id in ids <==> Q.Matches(c.cells, filter, id)
    ensures r.Err? && Q.Admissible(filter) ==>
              (FAULTS && r.error == ReadFailed) || (r.error.IndexFailed? && I.StorageOnly(r.error.index))
  {
    StandingReads(site, c, play);
    r, ids := FindIn(site.u, c.tables, site.deployment.limits, filter, projection, c.head, c.cells, play);
  }
}
