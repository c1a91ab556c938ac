/** From cell diffs to posting changes: the incremental index is the rebuilt index. */
module Postings {
  import opened Wrappers
  import opened Lex
  import opened Batch
  import opened CellKeys
  import opened Order
  import opened Terms

  type CellMap = map<CellKey, CellValue>

  /** A record's place in a term's postings. */
  type Posting = (Bytes, RecordId)

  /** An actual change of one cell. */
  datatype Change = Change(key: CellKey, before: Option<CellValue>, after: Option<CellValue>)

  /** The term a cell is indexed under; fields, and absent cells, have none. */
  function TermOf(key: CellKey, v: Option<CellValue>): Result<Option<Bytes>, TermError> {
    if v.None? || !v.value.indexable then Ok(None)
    else
      var t := FromCellName(key.name, v.value);
      if t.Err? then Err(t.error) else Ok(Some(t.value))
  }

  /** Every stored value is valid for its type. */
  ghost predicate ValidCells(utf8: Bytes -> bool, cells: CellMap) {
    forall k :: k in cells ==> Validate(utf8, cells[k].ty, cells[k].stored)
  }

  /** The records whose indexable cell encodes to `term`. */
  ghost function Rebuilt(cells: CellMap, term: Bytes): set<RecordId> {
    set k | k in cells && TermOf(k, Some(cells[k])) == Ok(Some(term)) :: k.id
  }

  /** Postings by term; an absent term has none, and no term is held with none. */
  type FlatIndex = map<Bytes, set<RecordId>>

  ghost predicate IsIndex(index: FlatIndex, cells: CellMap) {
    forall t :: if t in index then index[t] == Rebuilt(cells, t) && index[t] != {} else Rebuilt(cells, t) == {}
  }

  function PostingsOf(index: FlatIndex, term: Bytes): set<RecordId> {
    if term in index then index[term] else {}
  }

  /** The changes of a batch: each key once, every difference listed. */
  ghost predicate IsDiff(cells: CellMap, cells': CellMap, changes: seq<Change>) {
    && (forall i, j :: 0 <= i < j < |changes| ==> changes[i].key != changes[j].key)
    && (forall i :: 0 <= i < |changes| ==>
          && changes[i].before == Get(cells, changes[i].key) && changes[i].after == Get(cells', changes[i].key))
    && (forall k :: Get(cells, k) != Get(cells', k) ==> exists i :: 0 <= i < |changes| && changes[i].key == k)
  }

  /** The posting changes of one cell change: one removal under the old term, one addition under the new. */
  function Moves(c: Change): Result<seq<(Posting, bool)>, TermError> {
    var before, after := TermOf(c.key, c.before), TermOf(c.key, c.after);
    if before.Err? then Err(before.error)
    else if after.Err? then Err(after.error)
    else if before.value == after.value then Ok([])
    else Ok((if before.value.Some? then [((before.value.value, c.key.id), false)] else []) +
            (if after.value.Some? then [((after.value.value, c.key.id), true)] else []))
  }

  function AllMoves(changes: seq<Change>): Result<seq<(Posting, bool)>, TermError> {
    if changes == [] then Ok([])
    else
      var init, last := AllMoves(changes[..|changes| - 1]), Moves(changes[|changes| - 1]);
      if init.Err? then init else if last.Err? then last else Ok(init.value + last.value)
  }

  /** One pass over the changed cells. */
  method Derive(changes: seq<Change>) returns (r: Result<seq<(Posting, bool)>, TermError>)
    ensures r == AllMoves(changes)
  {
    var postings: seq<(Posting, bool)> := [];
    for i := 0 to |changes|
      invariant AllMoves(changes[..i]) == Ok(postings)
    {
      var c := changes[i];
      assert changes[..i + 1][..i] == changes[..i];
      var before, after := TermOf(c.key, c.before), TermOf(c.key, c.after);
      if before.Err? || after.Err? {
        r := Err(if before.Err? then before.error else after.error);
        FirstError(changes, i + 1);
        return;
      }
      ghost var held := postings;
      if before.value != after.value {
        if before.value.Some? {
          postings := postings + [((before.value.value, c.key.id), false)];
        }
        if after.value.Some? {
          postings := postings + [((after.value.value, c.key.id), true)];
        }
      }
      assert postings == held + Moves(c).value;
      assert AllMoves(changes[..i + 1]) == Ok(postings);
    }
    assert changes[..|changes|] == changes;
    r := Ok(postings);
  }

  /** An error among the first changes is the error of them all. */
  lemma {:induction false} FirstError(changes: seq<Change>, n: nat)
    requires n <= |changes| && AllMoves(changes[..n]).Err?
    ensures AllMoves(changes) == AllMoves(changes[..n])
    decreases |changes|
  {
    if n < |changes| {
      var init := changes[..|changes| - 1];
      assert init[..n] == changes[..n];
      FirstError(init, n);
    } else {
      assert changes[..n] == changes;
    }
  }

  // ---- What the postings become ----

  /** The last posting change for a term and record decides. */
  function Settled(moves: seq<(Posting, bool)>, p: Posting, held: bool): bool {
    if Last(moves, p).Some? then Last(moves, p).value else held
  }

  /** A move names a term of the changed cell. */
  lemma {:induction false} MoveIs(c: Change, p: Posting)
    requires Moves(c).Ok?
    ensures Last(Moves(c).value, p) ==
            if p.1 != c.key.id || TermOf(c.key, c.before) == TermOf(c.key, c.after) then None
            else if TermOf(c.key, c.after) == Ok(Some(p.0)) then Some(true)
            else if TermOf(c.key, c.before) == Ok(Some(p.0)) then Some(false)
            else None
  {
    var before, after := TermOf(c.key, c.before).value, TermOf(c.key, c.after).value;
    if before != after {
      var out: seq<(Posting, bool)> := if before.Some? then [((before.value, c.key.id), false)] else [];
      var in_: seq<(Posting, bool)> := if after.Some? then [((after.value, c.key.id), true)] else [];
      LastConcat(out, in_, p);
      assert out != [] ==> out[..0] == [];
      assert in_ != [] ==> in_[..0] == [];
    }
  }

  /** Only one cell of a record can carry a given term. */
  lemma {:induction false} TermNamesCell(utf8: Bytes -> bool, a: CellKey, v: CellValue, b: CellKey, w: CellValue,
                                         term: Bytes)
    requires Validate(utf8, v.ty, v.stored) && Validate(utf8, w.ty, w.stored)
    requires TermOf(a, Some(v)) == Ok(Some(term)) && TermOf(b, Some(w)) == Ok(Some(term))
    ensures a.name == b.name && v.ty == w.ty && v.stored == w.stored
  {
    TermInjective(utf8, a.name, v.ty, v.stored, b.name, w.ty, w.stored);
  }

  /** No changed cell of the record but `k` carries the posting's term. */
  ghost predicate OnlyAt(changes: seq<Change>, p: Posting, k: CellKey) {
    && p.1 == k.id
    && (forall i, j :: 0 <= i < j < |changes| ==> changes[i].key != changes[j].key)
    && (forall i :: 0 <= i < |changes| && changes[i].key != k ==> !Concerns(changes[i], p))
  }

  /** The change touches this posting: same record, and the term before or after. */
  ghost predicate Concerns(c: Change, p: Posting) {
    c.key.id == p.1 && (TermOf(c.key, c.before) == Ok(Some(p.0)) || TermOf(c.key, c.after) == Ok(Some(p.0)))
  }

  /** A change that does not concern a posting leaves it alone. */
  lemma {:induction false} Unconcerned(c: Change, p: Posting)
    requires Moves(c).Ok? && !Concerns(c, p)
    ensures Last(Moves(c).value, p) == None
  {
    MoveIs(c, p);
  }

  /** The key a change list has for a posting decides. */
  lemma {:induction false} MovesSettle(changes: seq<Change>, p: Posting, k: CellKey)
    requires AllMoves(changes).Ok? && OnlyAt(changes, p, k)
    ensures (forall i :: 0 <= i < |changes| ==> changes[i].key != k) ==> Last(AllMoves(changes).value, p) == None
    ensures forall i :: 0 <= i < |changes| && changes[i].key == k ==>
              Moves(changes[i]).Ok? && Last(AllMoves(changes).value, p) == Last(Moves(changes[i]).value, p)
    decreases |changes|
  {
    if changes != [] {
      var n := |changes| - 1;
      var init, c := changes[..n], changes[n];
      assert OnlyAt(init, p, k);
      MovesSettle(init, p, k);
      LastConcat(AllMoves(init).value, Moves(c).value, p);
      assert forall i :: 0 <= i < n ==> changes[i] == init[i];
      if c.key != k {
        Unconcerned(c, p);
      }
    }
  }

  /** After the posting changes of a diff, each term holds exactly the records the new cells give it. */
  lemma {:induction false} IncrementalIsRebuilt(utf8: Bytes -> bool, cells: CellMap, cells': CellMap,
                                                changes: seq<Change>, term: Bytes, id: RecordId)
    requires ValidCells(utf8, cells) && ValidCells(utf8, cells') && IsDiff(cells, cells', changes)
    requires AllMoves(changes).Ok?
    ensures Settled(AllMoves(changes).value, (term, id), id in Rebuilt(cells, term)) <==> id in Rebuilt(cells', term)
  {
    var k := CarrierOf(cells, cells', term, id);
    forall i | 0 <= i < |changes| && changes[i].key != k
      ensures !Concerns(changes[i], (term, id))
    {
      if changes[i].key.id == id {
        OnlyCarrier(utf8, cells, cells', term, id, k, changes[i].key);
      }
    }
    MovesSettle(changes, (term, id), k);
    RebuiltAt(utf8, cells, cells', term, id, k);
    if Get(cells, k) != Get(cells', k) {
      var i :| 0 <= i < |changes| && changes[i].key == k;
      MoveIs(changes[i], (term, id));
    } else if i :| 0 <= i < |changes| && changes[i].key == k {
      MoveIs(changes[i], (term, id));
    }
  }

  /** A cell carries the term, before or after. */
  ghost predicate Carries(cells: CellMap, k: CellKey, term: Bytes) {
    TermOf(k, Get(cells, k)) == Ok(Some(term))
  }

  /** The record's cell that carries the term in either state, if any does. */
  ghost function CarrierOf(cells: CellMap, cells': CellMap, term: Bytes, id: RecordId): (k: CellKey)
    ensures k.id == id
    ensures (exists x: CellKey :: x.id == id && (Carries(cells, x, term) || Carries(cells', x, term))) ==>
              Carries(cells, k, term) || Carries(cells', k, term)
  {
    if exists x: CellKey :: x.id == id && (Carries(cells, x, term) || Carries(cells', x, term)) then
      var x: CellKey :| x.id == id && (Carries(cells, x, term) || Carries(cells', x, term)); x
    else CellKey(id, [])
  }

  lemma {:induction false} OnlyCarrier(utf8: Bytes -> bool, cells: CellMap, cells': CellMap, term: Bytes, id: RecordId,
                                       k: CellKey, x: CellKey)
    requires ValidCells(utf8, cells) && ValidCells(utf8, cells') && k == CarrierOf(cells, cells', term, id)
    requires x.id == id && x != k
    ensures !Carries(cells, x, term) && !Carries(cells', x, term)
  {
    if Carries(cells, x, term) || Carries(cells', x, term) {
      var v := if Carries(cells, x, term) then cells[x] else cells'[x];
      var w := if Carries(cells, k, term) then cells[k] else cells'[k];
      TermNamesCell(utf8, x, v, k, w, term);
    }
  }

  lemma {:induction false} RebuiltAt(utf8: Bytes -> bool, cells: CellMap, cells': CellMap, term: Bytes, id: RecordId,
                                     k: CellKey)
    requires ValidCells(utf8, cells) && ValidCells(utf8, cells') && k == CarrierOf(cells, cells', term, id)
    ensures id in Rebuilt(cells, term) <==> Carries(cells, k, term)
    ensures id in Rebuilt(cells', term) <==> Carries(cells', k, term)
  {
    if x :| x in cells && Carries(cells, x, term) && x.id == id && x != k {
      OnlyCarrier(utf8, cells, cells', term, id, k, x);
    }
    if x :| x in cells' && Carries(cells', x, term) && x.id == id && x != k {
      OnlyCarrier(utf8, cells, cells', term, id, k, x);
    }
  }
}
