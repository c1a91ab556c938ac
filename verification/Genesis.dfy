/** The cells of commit zero: identities and bindings of the reserved records, the limits, and the
    allocator at the first user ID. */
module Genesis {
  import opened Wrappers
  import opened Lex
  import opened Words
  import opened CellKeys
  import opened Order
  import opened Terms
  import opened Postings
  import opened CellValues
  import opened System
  import opened Records
  import opened RecordView
  import opened RecordRuns
  import S = CellStore

  function SystemEdits(n: nat): seq<S.CellEdit>
    requires n <= 7
  {
    if n == 0 then []
    else
      var (id, key) := Catalogue()[n - 1];
      SystemEdits(n - 1) + [(Ident(id), Some(KeyValue(key)))] + [(Binding(key), Some(IdValue(id)))]
  }

  function LimitEdits(limits: Limits, n: nat): seq<S.CellEdit>
    requires n <= 3
  {
    if n == 0 then SystemEdits(7)
      else LimitEdits(limits, n - 1) + [(Limit(n - 1), Some(LimitValue(LimitAt(limits, n - 1))))]
  }

  function InitialEdits(limits: Limits): seq<S.CellEdit> {
    LimitEdits(limits, 3) + [(Allocator(), Some(IdValue(FIRST_USER)))]
  }

  function InitialCells(limits: Limits): CellMap {
    S.Updated(map[], InitialEdits(limits))
  }

  /** The catalogue's cells, as inserted one record after another. */
  method BuildInitial(limits: Limits) returns (edits: seq<S.CellEdit>)
    ensures edits == InitialEdits(limits)
  {
    edits := [];
    for i := 0 to 7
      invariant edits == SystemEdits(i)
    {
      var (id, key) := Catalogue()[i];
      edits := edits + [(Ident(id), Some(KeyValue(key)))];
      edits := edits + [(Binding(key), Some(IdValue(id)))];
    }
    for i := 0 to 3
      invariant edits == LimitEdits(limits, i)
    {
      edits := edits + [(Limit(i), Some(LimitValue(LimitAt(limits, i))))];
    }
    edits := edits + [(Allocator(), Some(IdValue(FIRST_USER)))];
  }

  // ---- What the cells are ----

  ghost predicate SystemCell(k: CellKey, n: nat)
    requires n <= 7
  {
    exists i :: 0 <= i < n && (k == Ident(Catalogue()[i].0) || k == Binding(Catalogue()[i].1))
  }

  /** The first `n` reserved records, and nothing else. */
  ghost predicate HoldsSystem(cells: CellMap, n: nat)
    requires n <= 7
  {
    && (forall i :: 0 <= i < n ==> Get(cells, Ident(Catalogue()[i].0)) == Some(KeyValue(Catalogue()[i].1)))
    && (forall i :: 0 <= i < n ==> Get(cells, Binding(Catalogue()[i].1)) == Some(IdValue(Catalogue()[i].0)))
  }

  ghost predicate OnlySystem(cells: CellMap, n: nat)
    requires n <= 7
  {
    forall k :: k in cells ==> SystemCell(k, n)
  }

  lemma {:induction false} SystemHolds(n: nat)
    requires n <= 7
    ensures HoldsSystem(S.Updated(map[], SystemEdits(n)), n) && OnlySystem(S.Updated(map[], SystemEdits(n)), n)
    decreases n
  {
    if n > 0 {
      SystemHolds(n - 1);
      SystemNext(n, S.Updated(map[], SystemEdits(n - 1)));
      var (id, key) := Catalogue()[n - 1];
      UpdatedMore(map[], SystemEdits(n - 1), (Ident(id), Some(KeyValue(key))));
      UpdatedMore(map[], SystemEdits(n - 1) + [(Ident(id), Some(KeyValue(key)))], (Binding(key), Some(IdValue(id))));
    }
  }

  lemma {:induction false} SystemNext(n: nat, cells: CellMap)
    requires 0 < n <= 7 && HoldsSystem(cells, n - 1) && OnlySystem(cells, n - 1)
    ensures var (id, key) := Catalogue()[n - 1];
            var cells' := cells[Ident(id) := KeyValue(key)][Binding(key) := IdValue(id)];
            HoldsSystem(cells', n) && OnlySystem(cells', n)
  {
    var (id, key) := Catalogue()[n - 1];
    var cells' := cells[Ident(id) := KeyValue(key)][Binding(key) := IdValue(id)];
    forall i | 0 <= i < n
      ensures Get(cells', Ident(Catalogue()[i].0)) == Some(KeyValue(Catalogue()[i].1))
      ensures Get(cells', Binding(Catalogue()[i].1)) == Some(IdValue(Catalogue()[i].0))
    {
      CatalogueDistinct(i, n - 1);
      assert |Ident(Catalogue()[i].0).name| != |Binding(key).name|;
      assert |Ident(id).name| != |Binding(Catalogue()[i].1).name|;
    }
    forall k | k in cells'
      ensures SystemCell(k, n)
    {
      if k != Ident(id) && k != Binding(key) {
        assert SystemCell(k, n - 1);
      }
    }
  }

  /** A limit or the allocator is none of the catalogue's cells. */
  lemma {:induction false} OtherCell(k: CellKey)
    requires |k.name| in {13, 15, 10, 12}
    ensures !SystemCell(k, 7)
  {
    forall i | 0 <= i < 7
      ensures k != Ident(Catalogue()[i].0) && k != Binding(Catalogue()[i].1)
    {
      assert |Ident(Catalogue()[i].0).name| == 4 && |Binding(Catalogue()[i].1).name| == 32;
    }
  }

  /** Exactly the genesis cells. */
  ghost predicate IsInitial(cells: CellMap, limits: Limits) {
    && HoldsSystem(cells, 7)
    && (forall i :: 0 <= i < 3 ==> Get(cells, Limit(i)) == Some(LimitValue(LimitAt(limits, i))))
    && Get(cells, Allocator()) == Some(IdValue(FIRST_USER))
    && (forall k :: k in cells ==>
          SystemCell(k, 7) || k == Allocator() || k == Limit(0) || k == Limit(1) || k == Limit(2))
  }

  lemma {:induction false} InitialUnfolds(limits: Limits)
    ensures InitialCells(limits) ==
            S.Updated(map[], SystemEdits(7))[Limit(0) := LimitValue(limits.name)][Limit(1) := LimitValue(limits.str)]
              [Limit(2) := LimitValue(limits.bytes)][Allocator() := IdValue(FIRST_USER)]
  {
    UpdatedMore(map[], LimitEdits(limits, 0), (Limit(0), Some(LimitValue(LimitAt(limits, 0)))));
    UpdatedMore(map[], LimitEdits(limits, 1), (Limit(1), Some(LimitValue(LimitAt(limits, 1)))));
    UpdatedMore(map[], LimitEdits(limits, 2), (Limit(2), Some(LimitValue(LimitAt(limits, 2)))));
    UpdatedMore(map[], LimitEdits(limits, 3), (Allocator(), Some(IdValue(FIRST_USER))));
  }

  lemma {:induction false} InitialIs(limits: Limits)
    ensures IsInitial(InitialCells(limits), limits)
  {
    InitialUnfolds(limits);
    SystemHolds(7);
    OtherCell(Limit(0));
    OtherCell(Limit(1));
    OtherCell(Limit(2));
    OtherCell(Allocator());
    AddOthers(S.Updated(map[], SystemEdits(7)), InitialCells(limits), limits);
  }

  lemma {:induction false} AddOthers(system: CellMap, cells: CellMap, limits: Limits)
    requires HoldsSystem(system, 7) && OnlySystem(system, 7)
    requires !SystemCell(Limit(0), 7) && !SystemCell(Limit(1), 7) && !SystemCell(Limit(2), 7)
    requires !SystemCell(Allocator(), 7)
    requires cells == system[Limit(0) := LimitValue(limits.name)][Limit(1) := LimitValue(limits.str)]
               [Limit(2) := LimitValue(limits.bytes)][Allocator() := IdValue(FIRST_USER)]
    ensures IsInitial(cells, limits)
  {
    OthersApart();
    forall i | 0 <= i < 7
      ensures Get(cells, Ident(Catalogue()[i].0)) == Get(system, Ident(Catalogue()[i].0))
      ensures Get(cells, Binding(Catalogue()[i].1)) == Get(system, Binding(Catalogue()[i].1))
    {
      var a, b := Ident(Catalogue()[i].0), Binding(Catalogue()[i].1);
      assert |a.name| == 4 && |b.name| == 32;
    }
  }

  lemma {:induction false} OthersApart()
    ensures |Limit(0).name| == 15 && |Limit(1).name| == 10 && |Limit(2).name| == 12 && |Allocator().name| == 13
  {
  }

  /** A genesis cell belongs to a reserved record. */
  lemma {:induction false} InitialReserved(cells: CellMap, limits: Limits, k: CellKey)
    requires IsInitial(cells, limits) && k in cells
    ensures k.id < FIRST_USER && Small(k, cells[k]) && |k.name| != 8
  {
    if SystemCell(k, 7) {
      var i :| 0 <= i < 7 && (k == Ident(Catalogue()[i].0) || k == Binding(Catalogue()[i].1));
      CatalogueDistinct(i, i);
    }
  }

  lemma {:induction false} InitialLinked(cells: CellMap, limits: Limits)
    requires IsInitial(cells, limits)
    ensures Linked(cells) && NextOf(cells) == Some(FIRST_USER)
  {
    IdRoundTrip(FIRST_USER, IdValue(FIRST_USER));
    forall k | k in cells
      ensures k.id < FIRST_USER
    {
      InitialReserved(cells, limits, k);
    }
    forall key: RecordKey | Binding(key) in cells
      ensures ByKey(key).Some?
    {
      var k := Binding(key);
      assert SystemCell(k, 7);
      var i :| 0 <= i < 7 && (k == Ident(Catalogue()[i].0) || k == Binding(Catalogue()[i].1));
      assert |Ident(Catalogue()[i].0).name| != |k.name|;
      SearchFinds(i, 0);
    }
  }

  predicate LimitsFit(limits: Limits) {
    limits.name < 0x1_0000_0000 && limits.str < 0x1_0000_0000 && limits.bytes < 0x1_0000_0000
  }

  lemma {:induction false} InitialFounded(cells: CellMap, limits: Limits)
    requires IsInitial(cells, limits) && LimitsFit(limits)
    ensures Founded(cells, limits)
  {
    forall i | 0 <= i < 7
      ensures KeyOf(cells, Catalogue()[i].0) == Some(Catalogue()[i].1)
      ensures BindingOf(cells, Catalogue()[i].1) == Some(Catalogue()[i].0)
    {
      IdRoundTrip(Catalogue()[i].0, IdValue(Catalogue()[i].0));
    }
    forall i | 0 <= i < 3
      ensures AsLimit(Get(cells, Limit(i))) == Some(LimitAt(limits, i))
    {
      LimitRoundTrip(LimitAt(limits, i));
    }
  }

  /** Every genesis cell is a system value. */
  lemma {:induction false} InitialValue(ok: CellValue -> bool, cells: CellMap, limits: Limits, k: CellKey)
    requires SystemOk(ok) && IsInitial(cells, limits) && k in cells
    ensures ok(cells[k])
  {
    if SystemCell(k, 7) {
      var i :| 0 <= i < 7 && (k == Ident(Catalogue()[i].0) || k == Binding(Catalogue()[i].1));
      assert ok(KeyValue(Catalogue()[i].1)) && ok(IdValue(Catalogue()[i].0));
    }
  }

  /** Genesis keeps every invariant of the record layer. */
  lemma {:induction false} InitialKept(ok: CellValue -> bool, limits: Limits)
    requires SystemOk(ok) && LimitsFit(limits)
    ensures Kept(ok, InitialCells(limits), limits) && RootsChain(InitialCells(limits), [])
  {
    var cells := InitialCells(limits);
    InitialIs(limits);
    InitialLinked(cells, limits);
    InitialFounded(cells, limits);
    forall k | k in cells
      ensures ok(cells[k]) && k.id < FIRST_USER && Small(k, cells[k]) && |k.name| != 8
    {
      InitialReserved(cells, limits, k);
      InitialValue(ok, cells, limits, k);
    }
  }

  /** So every run from genesis keeps them. */
  lemma {:induction false} GenesisInv(ok: CellValue -> bool, limits: Limits, head: Head)
    requires SystemOk(ok) && LimitsFit(limits) && head.commit == 0
    ensures Inv(ok, limits, State(head, InitialCells(limits), [], map[], map[]))
  {
    InitialKept(ok, limits);
    var cells := InitialCells(limits);
    InitialIs(limits);
    forall id: RecordId | id >= FIRST_USER
      ensures KeyOf(cells, id).None?
    {
      if Ident(id) in cells {
        InitialReserved(cells, limits, Ident(id));
      }
    }
  }

  /** The engine's values are well formed. */
  lemma {:induction false} EngineValues(utf8: Bytes -> bool)
    ensures SystemOk(CodecOf(utf8).ok)
  {
    var ok := CodecOf(utf8).ok;
    forall n: RecordId
      ensures ok(IdValue(n))
    {
      assert ValueOk(utf8, IdValue(n));
    }
    forall key: RecordKey
      ensures ok(KeyValue(key))
    {
      assert ValueOk(utf8, KeyValue(key));
    }
    forall head: Head
      ensures ok(RootsValue(head))
    {
      assert ValueOk(utf8, RootsValue(head));
    }
    forall n: nat
      ensures ok(LimitValue(n))
    {
      assert ValueOk(utf8, LimitValue(n));
    }
  }
}
