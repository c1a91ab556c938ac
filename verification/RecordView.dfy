/** Create, patch and delete as they run: one group of journalled writes over the origin's rows, read
    through the staged cells and undone when the operation fails. */
module RecordView {
  import opened Wrappers
  import opened Lex
  import opened Words
  import opened CellKeys
  import opened Terms
  import opened Postings
  import opened CellValues
  import opened System
  import opened Records
  import opened RecordRuns
  import O = Overlay
  import X = CellScan
  import opened Batch
  import Scan
  import Cursor
  import C = Commitment
  import S = CellStore

  lemma {:induction false} UpdatedMore(cells: CellMap, edits: seq<S.CellEdit>, e: S.CellEdit)
    ensures S.Updated(cells, edits + [e]) == S.Update(S.Updated(cells, edits), e)
  {
    assert (edits + [e])[..|edits|] == edits;
  }

  // ---- Staged cells over their origin ----

  function Shown(origin: CellMap, entries: O.Entries, k: CellKey): Option<CellValue> {
    if k in entries then entries[k] else Get(origin, k)
  }

  /** The origin's cells with the staged ones in their place. */
  ghost function Over(origin: CellMap, entries: O.Entries): CellMap {
    map k | k in origin.Keys + entries.Keys && Shown(origin, entries, k).Some? :: Shown(origin, entries, k).value
  }

  lemma {:induction false} OverAt(origin: CellMap, entries: O.Entries, k: CellKey)
    ensures Get(Over(origin, entries), k) == Shown(origin, entries, k)
  {
  }

  lemma {:induction false} OverWrite(origin: CellMap, entries: O.Entries, w: O.Write)
    ensures Over(origin, entries[w.0 := w.1]) == S.Update(Over(origin, entries), w)
  {
    forall k
      ensures Get(Over(origin, entries[w.0 := w.1]), k) == Get(S.Update(Over(origin, entries), w), k)
    {
      OverAt(origin, entries, k);
      OverAt(origin, entries[w.0 := w.1], k);
    }
    SameAnswers(Over(origin, entries[w.0 := w.1]), S.Update(Over(origin, entries), w));
  }

  /** The cells behind each of the journal's states. */
  ghost function Behind(origin: CellMap, open: seq<O.Entries>): (cells: seq<CellMap>)
    ensures |cells| == |open| && forall i :: 0 <= i < |open| ==> cells[i] == Over(origin, open[i])
  {
    seq(|open|, i requires 0 <= i < |open| => Over(origin, open[i]))
  }

  ghost function Stacked(origin: CellMap, f: O.Frames): Stack {
    Stack(Over(origin, f.current), Behind(origin, f.open), f.idle)
  }

  lemma {:induction false} StackedStart(origin: CellMap)
    ensures Stacked(origin, O.FRESH) == Fresh(origin)
  {
    SameAnswers(Over(origin, map[]), origin);
  }

  lemma {:induction false} StackedFrames(origin: CellMap, f: O.Frames)
    ensures Stacked(origin, O.OpenFrame(f)) == Save(Stacked(origin, f))
    ensures O.RollbackFrame(f).Some? ==> Restore(Stacked(origin, f)) == Some(Stacked(origin, O.RollbackFrame(f).value))
    ensures O.RollbackFrame(f).None? ==> Restore(Stacked(origin, f)) == None
  {
    assert Behind(origin, f.open + [f.current]) == Behind(origin, f.open) + [Over(origin, f.current)];
    if f.open != [] {
      assert Behind(origin, f.open[..|f.open| - 1]) == Behind(origin, f.open)[..|f.open| - 1];
    }
  }

  /** A group of writes shows its edits, and reopens a consumed frame unless it is empty. */
  lemma {:induction false} StackedWrites(origin: CellMap, f: O.Frames, ws: seq<O.Write>)
    ensures Stacked(origin, O.WriteAll(f, ws)) ==
              Wrote(Stacked(origin, f), S.Updated(Over(origin, f.current), ws), ws != [])
    decreases |ws|
  {
    if ws != [] {
      var init, w := ws[..|ws| - 1], ws[|ws| - 1];
      StackedWrites(origin, f, init);
      var g := O.WriteAll(f, init);
      StackedFrames(origin, g);
      OverWrite(origin, g.current, w);
    }
  }

  /** Undoing what the journal gained restores the earlier entries. */
  ghost predicate Undoable(entries: O.Entries, undo: seq<O.Undo>, before: O.Entries, log: seq<O.Undo>) {
    log <= undo && O.UndoTo(entries, undo, |log|) == before
  }

  lemma {:induction false} UndoableOn(entries: O.Entries, undo: seq<O.Undo>, mid: O.Entries, midLog: seq<O.Undo>,
                                      before: O.Entries, log: seq<O.Undo>)
    requires Undoable(entries, undo, mid, midLog) && Undoable(mid, midLog, before, log)
    ensures Undoable(entries, undo, before, log)
  {
    O.UndoInStages(entries, undo, |midLog|, |log|);
    assert undo[..|midLog|] == midLog;
  }

  // ---- The origin's rows ----

  /** The rows are the origin's cells, which all parse. */
  ghost predicate Backed(c: Codec, rows: C.Flat, origin: CellMap) {
    LawfulCodec(c) && Keyed(c) && rows == S.FlatOf(c, origin) && S.CellsOk(c, origin)
  }

  /** What a scan shows of the rows and staged cells is what the branch shows. */
  lemma {:induction false} ScanShows(c: Codec, rows: C.Flat, origin: CellMap, entries: O.Entries, k: CellKey)
    requires Backed(c, rows, origin)
    ensures Encode(k) in X.Visible(rows, X.Encoded(entries)) <==> k in Over(origin, entries)
    ensures X.CellAt(c.parse, rows, X.Encoded(entries), Encode(k)) == Get(Over(origin, entries), k)
  {
    RowParses(c, rows, origin, k);
    RowShows(c.parse, rows, origin, entries, k);
  }

  /** A cell's row parses back to it; a missing cell has no row. */
  lemma {:induction false} RowParses(c: Codec, rows: C.Flat, origin: CellMap, k: CellKey)
    requires Backed(c, rows, origin)
    ensures RowOf(c.parse, rows, origin, k)
  {
    assert KeyedAt(c, k);
    S.FlatAt(c, origin, k);
  }

  ghost predicate RowOf(parse: X.Parser, rows: C.Flat, origin: CellMap, k: CellKey) {
    if k in origin then Encode(k) in rows && parse(rows[Encode(k)]) == Some(origin[k]) else Encode(k) !in rows
  }

  lemma {:induction false} RowShows(parse: X.Parser, rows: C.Flat, origin: CellMap, entries: O.Entries, k: CellKey)
    requires RowOf(parse, rows, origin, k)
    ensures Encode(k) in X.Visible(rows, X.Encoded(entries)) <==> k in Over(origin, entries)
    ensures X.CellAt(parse, rows, X.Encoded(entries), Encode(k)) == Get(Over(origin, entries), k)
  {
    X.EncodedAt(entries, k);
    OverAt(origin, entries, k);
  }

  /** Rows of cells never end a scan. */
  lemma {:induction false} OnlyFaults(c: Codec, rows: C.Flat, origin: CellMap, entries: O.Entries, all: set<Bytes>,
                                      e: Scan.ScanError)
    requires Backed(c, rows, origin) && X.Excused(c.parse, rows, X.Encoded(entries), all, e)
    ensures FAULTS && e == Scan.Fault
  {
    forall b | b in rows
      ensures |b| >= 8 && c.parse(rows[b]).Some?
    {
      var k :| k in origin && c.key(k) == b;
      assert KeyedAt(c, k);
      S.FlatAt(c, origin, k);
    }
  }

  /** The listed cells of a record are all it shows. */
  lemma {:induction false} ListsRecord(c: Codec, rows: C.Flat, origin: CellMap, entries: O.Entries, id: RecordId,
                                       cells: seq<(CellKey, CellValue)>, k: CellKey)
    requires Backed(c, rows, origin) && X.Lists(cells, c.parse, rows, X.Encoded(entries), ToBytes(id, 8), true)
    ensures (exists v :: (k, v) in cells) <==> k in Over(origin, entries) && k.id == id
  {
    PrefixIsRecord(id, k);
    ScanShows(c, rows, origin, entries, k);
    if k in Over(origin, entries) && k.id == id {
      var x :| x in cells && Encode(x.0) == Encode(k);
      CellKeys.DecodeEncode(x.0);
      CellKeys.DecodeEncode(k);
      assert x == (k, x.1);
    }
  }

  /** A scan of a record that has nothing to come shows an unoccupied one. */
  lemma {:induction false} NoneLeft(c: Codec, rows: C.Flat, origin: CellMap, entries: O.Entries, id: RecordId,
                                    left: set<Bytes>)
    requires Backed(c, rows, origin)
    requires left == set b | b in X.Visible(rows, X.Encoded(entries)) && ToBytes(id, 8) <= b
    ensures left != {} <==> Occupied(Over(origin, entries), id)
  {
    if b :| b in left {
      CellKeys.EncodeDecode(b);
      var k := CellKeys.Decode(b).value;
      PrefixIsRecord(id, k);
      ScanShows(c, rows, origin, entries, k);
    }
    if k :| k in Over(origin, entries) && k.id == id {
      PrefixIsRecord(id, k);
      ScanShows(c, rows, origin, entries, k);
      assert Encode(k) in left;
    }
  }

  /** Every name and value is admitted. */
  method CheckAll(limits: Limits, changes: seq<NamedPatch>) returns (admitted: bool)
    ensures admitted == AllAdmitted(limits, changes)
  {
    for i := 0 to |changes|
      invariant forall k :: 0 <= k < i ==> AdmitPatch(limits, changes[k])
    {
      if !AdmitPatch(limits, changes[i]) {
        return false;
      }
    }
    admitted := true;
  }

  /** A branch's journalled cells over the rows of its origin. */
  class View {
    const codec: Codec
    const rows: C.Flat
    const overlay: O.CellOverlay
    ghost const origin: CellMap

    ghost predicate Valid()
      reads this, overlay
    {
      overlay.Valid() && Backed(codec, rows, origin)
    }

    /** What the branch shows. */
    ghost function Cells(): CellMap
      reads this, overlay
    {
      Over(origin, overlay.entries)
    }

    /** What the branch shows and can return to. */
    ghost function Frames(): (f: Stack)
      requires overlay.Valid()
      reads this, overlay
      ensures f.view == Cells()
    {
      Stacked(origin, overlay.Model())
    }

    constructor (codec: Codec, rows: C.Flat, ghost origin: CellMap)
      requires Backed(codec, rows, origin)
      ensures Valid() && fresh(overlay) && this.codec == codec && this.origin == origin && Frames() == Fresh(origin)
    {
      this.codec, this.rows, this.origin := codec, rows, origin;
      overlay := new O.CellOverlay();
      new;
      StackedStart(origin);
    }

    // ---- Reading ----

    /** A staged cell, or the origin's. */
    method Read(k: CellKey) returns (r: Result<Option<CellValue>, RecordError>)
      requires Valid()
      ensures r == Ok(Get(Cells(), k)) || (FAULTS && r == Err(StorageFault))
    {
      OverAt(origin, overlay.entries, k);
      if k in overlay.entries {
        return Ok(overlay.entries[k]);
      }
      var failed := Fails();
      if failed {
        return Err(StorageFault);
      }
      S.FlatAt(codec, origin, k);
      var b := codec.key(k);
      if b !in rows {
        return Ok(None);
      }
      var v := codec.parse(rows[b]);
      r := if v.None? then Err(CorruptState) else Ok(v);
    }

    /** The record a key is bound to, checked against the record's own `#key`. */
    method Lookup(key: RecordKey) returns (r: Result<Option<RecordId>, RecordError>)
      requires Valid()
      ensures r == Resolve(Cells(), key) || (FAULTS && r == Err(StorageFault))
    {
      var bound := Read(Binding(key));
      if bound.Err? {
        return Err(bound.error);
      }
      if bound.value.None? {
        return if ByKey(key).Some? then Err(CorruptState) else Ok(None);
      }
      var id := AsId(bound.value);
      if id.None? || (ByKey(key).Some? && ByKey(key) != id) || (ByKey(key).None? && id.value < FIRST_USER) {
        return Err(CorruptState);
      }
      var identity := Read(Ident(id.value));
      if identity.Err? {
        return Err(identity.error);
      }
      r := if AsKey(identity.value) != Some(key) then Err(CorruptState) else Ok(id);
    }

    method LimitsOf() returns (r: Result<Limits, RecordError>)
      requires Valid()
      ensures r == ReadLimits(Cells()) || (FAULTS && r == Err(StorageFault))
    {
      var found: seq<nat> := [];
      for i := 0 to 3
        invariant |found| == i
        invariant forall j :: 0 <= j < i ==> AsLimit(Get(Cells(), Limit(j))) == Some(found[j])
      {
        var v := Read(Limit(i));
        if v.Err? {
          return Err(v.error);
        }
        if AsLimit(v.value).None? {
          return Err(CorruptState);
        }
        found := found + [AsLimit(v.value).value];
      }
      r := Ok(Limits(found[0], found[1], found[2]));
    }

    /** The allocator's target, which must hold no cell. */
    method FreeTarget() returns (r: Result<(RecordId, RecordId), RecordError>)
      requires Valid()
      ensures (FAULTS && r == Err(StorageFault)) ||
              r == if NextId(Cells()).Err? then NextId(Cells())
                else if Occupied(Cells(), NextId(Cells()).value.0) then Err(CorruptState) else NextId(Cells())
    {
      var v := Read(Allocator());
      if v.Err? {
        return Err(v.error);
      }
      var id := AsId(v.value);
      if id.None? || id.value < FIRST_USER {
        return Err(CorruptState);
      }
      if id.value + 1 >= U64 {
        return Err(RecordIdExhausted);
      }
      var occupied := IsOccupied(id.value);
      if occupied.Err? {
        return Err(occupied.error);
      }
      r := if occupied.value then Err(CorruptState) else Ok((id.value, id.value + 1));
    }

    /** Whether the branch shows any cell of a record: one step of a scan. */
    method IsOccupied(id: RecordId) returns (r: Result<bool, RecordError>)
      requires Valid()
      ensures r == Ok(Occupied(Cells(), id)) || (FAULTS && r == Err(StorageFault))
    {
      var scan := new X.CellScan(Some(rows), overlay.entries, codec.parse, ToBytes(id, 8));
      ghost var all := scan.Left();
      NoneLeft(codec, rows, origin, overlay.entries, id, all);
      var first := scan.Next();
      if first.Some? && first.value.Err? {
        assert scan.Excuses(all, first.value.error);
        OnlyFaults(codec, rows, origin, overlay.entries, all, first.value.error);
        return if first.value.error == Scan.Fault then Err(StorageFault) else Err(CorruptState);
      }
      r := Ok(first.Some?);
    }

    /** The addresses of one record, by encoded prefix. */
    method Addresses(id: RecordId) returns (r: Result<seq<CellKey>, RecordError>)
      requires Valid()
      ensures r.Ok? ==> forall k :: k in r.value <==> k in Cells() && k.id == id
      ensures r.Err? ==> (FAULTS && r.error == StorageFault)
    {
      var cells, error := X.ScanAll(Some(rows), overlay.entries, codec.parse, ToBytes(id, 8));
      if error.Some? {
        OnlyFaults(codec, rows, origin, overlay.entries, X.Visible(rows, X.Encoded(overlay.entries)), error.value);
        return if error.value == Scan.Fault then Err(StorageFault) else Err(CorruptState);
      }
      var found := KeysOf(cells);
      forall k
        ensures k in found <==> k in Cells() && k.id == id
      {
        ListsRecord(codec, rows, origin, overlay.entries, id, cells, k);
      }
      r := Ok(found);
    }

    // ---- Writing ----

    /** Everything a creation checks, in order. */
    method PlanCreate(key: RecordKey, values: seq<NamedValue>) returns (r: Result<(RecordId, RecordId), RecordError>)
      requires Valid()
      ensures r == CreatePlan(Cells(), key, values) || (FAULTS && r == Err(StorageFault))
    {
      if ByKey(key).Some? {
        return Err(Reserved);
      }
      var limits := LimitsOf();
      if limits.Err? {
        return Err(limits.error);
      }
      var admitted := CheckAll(limits.value, Puts(values));
      if !admitted {
        return Err(InvalidArgument);
      }
      var bound := Lookup(key);
      if bound.Err? {
        return Err(bound.error);
      }
      if bound.value.Some? {
        return Err(AlreadyExists);
      }
      r := FreeTarget();
    }

    method Create(key: RecordKey, values: seq<NamedValue>) returns (r: Result<RecordKey, RecordError>)
      requires Valid()
      modifies overlay
      ensures Valid() && overlay.frames == old(overlay.frames)
      ensures Undoable(overlay.entries, overlay.undo, old(overlay.entries), old(overlay.undo))
      ensures r.Ok? ==>
                && r.value == key && DoCreate(old(Cells()), key, values) == Ok(Cells())
                && Frames() == Wrote(old(Frames()), Cells(), true)
      ensures r.Err? ==> (FAULTS && r.error == StorageFault) || DoCreate(old(Cells()), key, values) == Err(r.error)
    {
      var plan := PlanCreate(key, values);
      if plan.Err? {
        return Err(plan.error);
      }
      var (id, next) := plan.value;
      var edits := CreateEdits(id, next, key, values);
      StackedWrites(origin, overlay.Model(), edits);
      overlay.WriteEach(edits);
      r := Ok(key);
    }

    /** What a patch needs before it writes: the record, and every change admitted. */
    method PlanPatch(key: RecordKey, changes: seq<NamedPatch>) returns (r: Result<RecordId, RecordError>)
      requires Valid()
      ensures r.Ok? ==> Resolve(Cells(), key) == Ok(Some(r.value))
      ensures r.Ok? ==> DoPatch(Cells(), key, changes) == Ok(S.Updated(Cells(), Within(r.value, changes)))
      ensures r.Err? ==> (FAULTS && r.error == StorageFault) || DoPatch(Cells(), key, changes) == Err(r.error)
    {
      if ByKey(key).Some? {
        return Err(Reserved);
      }
      var bound := Lookup(key);
      if bound.Err? {
        return Err(bound.error);
      }
      if bound.value.None? {
        return Err(NotFound);
      }
      var limits := LimitsOf();
      if limits.Err? {
        return Err(limits.error);
      }
      var admitted := CheckAll(limits.value, changes);
      r := if admitted then Ok(bound.value.value) else Err(InvalidArgument);
    }

    /** Set or remove one cell unless that changes nothing. */
    method StageOne(w: O.Write) returns (ok: bool, wrote: bool)
      requires Valid()
      modifies overlay
      ensures Valid() && overlay.frames == old(overlay.frames)
      ensures Undoable(overlay.entries, overlay.undo, old(overlay.entries), old(overlay.undo))
      ensures !ok ==> FAULTS
      ensures ok ==> (wrote <==> Get(old(Cells()), w.0) != w.1)
      ensures ok ==> Frames() == Wrote(old(Frames()), S.Update(old(Cells()), w), wrote)
    {
      var current := Read(w.0);
      if current.Err? {
        return false, false;
      }
      S.UpdatedLast(Cells(), [], w.0);
      wrote := current.value != w.1;
      if wrote {
        StackedWrites(origin, overlay.Model(), [w]);
        assert [w][..0] == [];
        overlay.Record(w);
      } else {
        S.SameCell(Cells(), w);
      }
      ok := true;
    }

    /** Where a patch stands after its first `i` edits. */
    ghost predicate Patching(list: seq<S.CellEdit>, i: nat, first: Stack, before: O.Entries, log: seq<O.Undo>)
      reads this, overlay
    {
      && Valid() && Halfway(first, Frames(), list, i)
      && Undoable(overlay.entries, overlay.undo, before, log)
    }

    method StageNext(list: seq<S.CellEdit>, i: nat, ghost first: Stack, ghost before: O.Entries, ghost log: seq<O.Undo>)
      returns (ok: bool)
      requires i < |list| && Patching(list, i, first, before, log)
      modifies overlay
      ensures overlay.frames == old(overlay.frames) && (ok ==> Patching(list, i + 1, first, before, log))
      ensures !ok ==> FAULTS && Valid() && Undoable(overlay.entries, overlay.undo, before, log)
    {
      ghost var frames, entries, undo := Frames(), overlay.entries, overlay.undo;
      var changed;
      ok, changed := StageOne(list[i]);
      UndoableOn(overlay.entries, overlay.undo, entries, undo, before, log);
      if ok {
        HalfwayOn(first, frames, list, i, changed);
      }
    }

    /** Set or remove each cell, skipping what would change nothing. A failed read ends it. */
    method StagePatch(list: seq<S.CellEdit>) returns (ok: bool)
      requires Valid()
      modifies overlay
      ensures Valid() && overlay.frames == old(overlay.frames)
      ensures Undoable(overlay.entries, overlay.undo, old(overlay.entries), old(overlay.undo))
      ensures !ok ==> FAULTS
      ensures ok ==> Frames() == Wrote(old(Frames()), S.Updated(old(Cells()), list), SomeChange(old(Cells()), list))
    {
      ghost var first, before, log := Frames(), overlay.entries, overlay.undo;
      HalfwayStart(first, list);
      for i := 0 to |list|
        invariant overlay.frames == old(overlay.frames) && Patching(list, i, first, before, log)
      {
        ok := StageNext(list, i, first, before, log);
        if !ok {
          return;
        }
      }
      HalfwayEnd(first, Frames(), list);
      ok := true;
    }

    method Patch(key: RecordKey, changes: seq<NamedPatch>) returns (r: Result<(), RecordError>)
      requires Valid()
      modifies overlay
      ensures Valid() && overlay.frames == old(overlay.frames)
      ensures Undoable(overlay.entries, overlay.undo, old(overlay.entries), old(overlay.undo))
      ensures r.Ok? ==>
                && DoPatch(old(Cells()), key, changes) == Ok(Cells())
                && Frames() == Wrote(old(Frames()), Cells(), Writes(old(Cells()), RecordOp.Patch(key, changes)))
      ensures r.Err? ==> (FAULTS && r.error == StorageFault) || DoPatch(old(Cells()), key, changes) == Err(r.error)
    {
      var id := PlanPatch(key, changes);
      if id.Err? {
        return Err(id.error);
      }
      var staged := StagePatch(Within(id.value, changes));
      r := if staged then Ok(()) else Err(StorageFault);
    }

    method Delete(key: RecordKey) returns (r: Result<(), RecordError>)
      requires Valid()
      modifies overlay
      ensures Valid() && overlay.frames == old(overlay.frames)
      ensures Undoable(overlay.entries, overlay.undo, old(overlay.entries), old(overlay.undo))
      ensures r.Ok? ==> DoDelete(old(Cells()), key) == Ok(Cells()) && Frames() == Wrote(old(Frames()), Cells(), true)
      ensures r.Err? ==> (FAULTS && r.error == StorageFault) || DoDelete(old(Cells()), key) == Err(r.error)
    {
      if ByKey(key).Some? {
        return Err(Reserved);
      }
      var bound := Lookup(key);
      if bound.Err? {
        return Err(bound.error);
      }
      if bound.value.None? {
        return Err(NotFound);
      }
      var addresses := Addresses(bound.value.value);
      if addresses.Err? {
        return Err(addresses.error);
      }
      var edits := Deletions(addresses.value) + [(Binding(key), None)];
      RemovedBy(Cells(), bound.value.value, key, addresses.value);
      StackedWrites(origin, overlay.Model(), edits);
      overlay.WriteEach(edits);
      r := Ok(());
    }

    /** The writes of one operation, before anything is undone. */
    method Operate(op: RecordOp) returns (r: Option<RecordError>)
      requires Valid()
      modifies overlay
      ensures Valid() && overlay.frames == old(overlay.frames)
      ensures Undoable(overlay.entries, overlay.undo, old(overlay.entries), old(overlay.undo))
      ensures r.None? ==>
                && Do(old(Cells()), op) == Ok(Cells())
                && Frames() == Wrote(old(Frames()), Cells(), Writes(old(Cells()), op))
      ensures r.Some? ==> (FAULTS && r.value == StorageFault) || Do(old(Cells()), op) == Err(r.value)
    {
      match op
      case Create(key, values) =>
        var done := Create(key, values);
        r := if done.Ok? then None else Some(done.error);
      case Patch(key, changes) =>
        var done := Patch(key, changes);
        r := if done.Ok? then None else Some(done.error);
      case Delete(key) =>
        var done := Delete(key);
        r := if done.Ok? then None else Some(done.error);
    }

    /** One atomic group: an operation does what its specification says, or everything is as before. */
    method Apply(op: RecordOp) returns (r: Option<RecordError>)
      requires Valid()
      modifies overlay
      ensures Valid()
      ensures r.None? ==> Do(old(Cells()), op).Ok? && Frames() == Perform(old(Frames()), op)
      ensures r.Some? ==> overlay.entries == old(overlay.entries) && overlay.Model() == old(overlay.Model())
      ensures r.Some? ==> (FAULTS && r.value == StorageFault) || Do(old(Cells()), op) == Err(r.value)
    {
      var mark := overlay.Mark();
      r := Operate(op);
      if r.Some? {
        overlay.Rewind(mark);
        assert overlay.undo == old(overlay.undo);
        assert overlay.Starts() == old(overlay.Starts());
      }
    }

    method Checkpoint()
      requires Valid()
      modifies overlay
      ensures Valid() && Frames() == Save(old(Frames()))
    {
      StackedFrames(origin, overlay.Model());
      overlay.CheckpointFrame();
    }

    method Rollback() returns (ok: bool)
      requires Valid()
      modifies overlay
      ensures Valid() && ok == Restore(old(Frames())).Some?
      ensures Frames() == if ok then Restore(old(Frames())).value else old(Frames())
    {
      StackedFrames(origin, overlay.Model());
      ok := overlay.RollbackLast();
    }

    // ---- Sealing ----

    /** The staged cells, one change each, in key order. */
    method Changes() returns (edits: seq<S.CellEdit>)
      requires Valid()
      ensures S.Updated(origin, edits) == Cells()
      ensures forall i, j :: 0 <= i < j < |edits| ==> KeyLess(edits[i].0, edits[j].0)
      ensures forall i :: 0 <= i < |edits| ==>
                edits[i].0 in overlay.entries && overlay.entries[edits[i].0] == edits[i].1
    {
      var entries := overlay.entries;
      edits := [];
      var rest := entries.Keys;
      while rest != {}
        invariant rest <= entries.Keys && Listed(entries, edits, rest)
        decreases rest
      {
        var k := LeastKey(rest);
        ListedMore(entries, edits, rest, k);
        edits := edits + [(k, entries[k])];
        rest := rest - {k};
      }
      ListedAll(origin, entries, edits);
    }
  }

  // ---- Lists of edits ----

  method KeysOf(cells: seq<(CellKey, CellValue)>) returns (keys: seq<CellKey>)
    ensures forall k :: k in keys <==> exists v :: (k, v) in cells
  {
    keys := seq(|cells|, i requires 0 <= i < |cells| => cells[i].0);
    forall k
      ensures k in keys <==> exists v :: (k, v) in cells
    {
      if v :| (k, v) in cells {
        var i :| 0 <= i < |cells| && cells[i] == (k, v);
        assert keys[i] == k;
      }
      if k in keys {
        var i :| 0 <= i < |keys| && keys[i] == k;
        assert (k, cells[i].1) in cells;
      }
    }
  }

  /** The branch after the first `i` edits of a patch, each staged only where it changes a cell. */
  ghost predicate Halfway(first: Stack, f: Stack, list: seq<S.CellEdit>, i: nat) {
    && i <= |list| && f == Wrote(first, S.Updated(first.view, list[..i]), SomeChange(first.view, list[..i]))
    && (!SomeChange(first.view, list[..i]) ==> f.view == first.view)
  }

  lemma {:induction false} HalfwayStart(f: Stack, list: seq<S.CellEdit>)
    ensures Halfway(f, f, list, 0)
  {
  }

  lemma {:induction false} HalfwayEnd(first: Stack, f: Stack, list: seq<S.CellEdit>)
    requires Halfway(first, f, list, |list|)
    ensures f == Wrote(first, S.Updated(first.view, list), SomeChange(first.view, list))
  {
    assert list[..|list|] == list;
  }

  lemma {:induction false} HalfwayOn(first: Stack, f: Stack, list: seq<S.CellEdit>, i: nat, changed: bool)
    requires i < |list| && Halfway(first, f, list, i) && (changed <==> Get(f.view, list[i].0) != list[i].1)
    ensures Halfway(first, Wrote(f, S.Update(f.view, list[i]), changed), list, i + 1)
  {
    NextChange(first.view, list, i);
    if !changed {
      S.SameCell(f.view, list[i]);
    }
  }

  lemma {:induction false} NextChange(cells: CellMap, list: seq<S.CellEdit>, i: nat)
    requires i < |list|
    ensures SomeChange(cells, list[..i + 1]) <==>
              SomeChange(cells, list[..i]) || Get(S.Updated(cells, list[..i]), list[i].0) != list[i].1
    ensures S.Updated(cells, list[..i + 1]) == S.Update(S.Updated(cells, list[..i]), list[i])
  {
    var upto := list[..i + 1];
    assert upto == list[..i] + [list[i]];
    UpdatedMore(cells, list[..i], list[i]);
    assert forall j :: 0 <= j <= i ==> upto[..j] == list[..j];
    assert forall j :: 0 <= j < i ==> list[..i][..j] == list[..j] && list[..i][j] == upto[j];
    if Get(S.Updated(cells, list[..i]), list[i].0) != list[i].1 {
      assert upto[i] == list[i];
    }
  }

  function Deletions(addresses: seq<CellKey>): (edits: seq<S.CellEdit>)
    ensures |edits| == |addresses| && forall i :: 0 <= i < |edits| ==> edits[i] == (addresses[i], None)
  {
    seq(|addresses|, i requires 0 <= i < |addresses| => (addresses[i], None))
  }

  lemma {:induction false} DeletedAll(cells: CellMap, addresses: seq<CellKey>)
    ensures S.Updated(cells, Deletions(addresses)) == map k | k in cells && k !in addresses :: cells[k]
    decreases |addresses|
  {
    if addresses != [] {
      var init := addresses[..|addresses| - 1];
      DeletedAll(cells, init);
      assert Deletions(addresses) == Deletions(init) + [(addresses[|addresses| - 1], None)];
      UpdatedMore(cells, Deletions(init), (addresses[|addresses| - 1], None));
      assert addresses == init + [addresses[|addresses| - 1]];
    }
  }

  /** Deleting every address of a record and its binding removes the record. */
  lemma {:induction false} RemovedBy(cells: CellMap, id: RecordId, key: RecordKey, addresses: seq<CellKey>)
    requires forall k :: k in addresses <==> k in cells && k.id == id
    ensures S.Updated(cells, Deletions(addresses) + [(Binding(key), None)]) == Removed(cells, id, key)
  {
    DeletedAll(cells, addresses);
    UpdatedMore(cells, Deletions(addresses), (Binding(key), None));
  }

  method LeastKey(keys: set<CellKey>) returns (k: CellKey)
    requires keys != {}
    ensures k in keys && forall x :: x in keys ==> x == k || KeyLess(k, x)
  {
    var encoded := set x | x in keys :: Encode(x);
    var some :| some in keys;
    assert Encode(some) in encoded;
    var b := Cursor.FirstIn(encoded, true);
    k :| k in keys && Encode(k) == b.value;
    forall x | x in keys
      ensures x == k || KeyLess(k, x)
    {
      assert Encode(x) in encoded;
      KeyOrder(k, x);
      CellKeys.DecodeEncode(k);
      CellKeys.DecodeEncode(x);
    }
  }

  /** The entries outside `rest`, in order, before all those in it. */
  ghost predicate Listed(entries: O.Entries, edits: seq<S.CellEdit>, rest: set<CellKey>) {
    && (forall i, j :: 0 <= i < j < |edits| ==> KeyLess(edits[i].0, edits[j].0))
    && (forall i :: 0 <= i < |edits| ==> edits[i].0 in entries && entries[edits[i].0] == edits[i].1)
    && (forall i, k :: 0 <= i < |edits| && k in rest ==> KeyLess(edits[i].0, k))
    && (forall k :: k in entries && k !in rest ==> (k, entries[k]) in edits)
  }

  lemma {:induction false} ListedMore(entries: O.Entries, edits: seq<S.CellEdit>, rest: set<CellKey>, k: CellKey)
    requires Listed(entries, edits, rest) && k in rest && k in entries
    requires forall x :: x in rest ==> x == k || KeyLess(k, x)
    ensures Listed(entries, edits + [(k, entries[k])], rest - {k})
  {
  }

  lemma {:induction false} ListedAll(origin: CellMap, entries: O.Entries, edits: seq<S.CellEdit>)
    requires Listed(entries, edits, {})
    ensures S.Updated(origin, edits) == Over(origin, entries)
  {
    forall k
      ensures Get(S.Updated(origin, edits), k) == Get(Over(origin, entries), k)
    {
      S.UpdatedLast(origin, edits, k);
      OverAt(origin, entries, k);
      if k in entries {
        LastNone(edits, k);
        LastIn(edits, k);
      } else {
        LastNone(edits, k);
      }
    }
    SameAnswers(S.Updated(origin, edits), Over(origin, entries));
  }
}
