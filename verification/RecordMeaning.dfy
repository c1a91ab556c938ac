/** What create, patch and delete mean for a caller: which cells a record holds afterwards, what stays
    as it was, and exactly which requests are refused. */
module RecordMeaning {
  import opened Wrappers
  import opened Lex
  import opened Words
  import opened Batch
  import opened CellKeys
  import opened Terms
  import opened Postings
  import opened System
  import opened Records
  import S = CellStore

  // ---- Admission, from the grammar and the limits ----

  /** A user name of at most the configured length: a word, with or without a leading `$`. */
  ghost predicate NameFits(limits: Limits, name: Bytes) {
    |name| <= limits.name && Spelled(name)
  }

  /** Text and raw bytes are capped; every other type has its own width. */
  predicate ValueFits(limits: Limits, v: CellValue) {
    && (v.ty == Order.Str ==> |v.stored| <= limits.str)
    && (v.ty == Order.RawBytes ==> |v.stored| <= limits.bytes)
  }

  ghost predicate CellFits(limits: Limits, name: Bytes, v: CellValue) {
    NameFits(limits, name) && ValueFits(limits, v)
  }

  /** Admission is the grammar and the limits, for a set and for a removal. */
  lemma {:induction false} AdmissionExact(limits: Limits, p: NamedPatch)
    ensures AdmitPatch(limits, p) <==> NameFits(limits, p.0) && (p.1.Some? ==> ValueFits(limits, p.1.value))
  {
    NameExact(p.0);
  }

  // ---- Create ----

  /** Value `i` is the last one given under its name. */
  predicate LastOf<T>(given: seq<(Bytes, T)>, i: nat) {
    i < |given| && forall j :: i < j < |given| ==> given[j].0 != given[i].0
  }

  lemma {:induction false} LastIs<T>(given: seq<(Bytes, T)>, i: nat)
    requires LastOf(given, i)
    ensures Last(given, given[i].0) == Some(given[i].1)
    decreases |given|
  {
    if i < |given| - 1 {
      LastIs(given[..|given| - 1], i);
    }
  }

  /** The cells of a new record: every given value, the last of each name, and its identity. */
  ghost predicate HoldsRecord(cells: CellMap, id: RecordId, key: RecordKey, values: seq<NamedValue>) {
    && (forall i: nat :: LastOf(values, i) ==> Get(cells, CellKey(id, values[i].0)) == Some(values[i].1))
    && KeyOf(cells, id) == Some(key)
    && (forall k :: k in cells && k.id == id ==> k.name == KeyName() || Given(values, k.name))
  }

  ghost predicate Given(values: seq<NamedValue>, name: Bytes) {
    exists i :: 0 <= i < |values| && values[i].0 == name
  }

  /** A successful creation puts the record at the allocator's ID with exactly the given cells and its
      identity, binds the key, advances the allocator by one, and touches nothing else. */
  lemma {:induction false} CreateMeans(ok: CellValue -> bool, cells: CellMap, limits: Limits, key: RecordKey,
                                       values: seq<NamedValue>)
    requires Kept(ok, cells, limits) && DoCreate(cells, key, values).Ok?
    ensures HoldsRecord(DoCreate(cells, key, values).value, NextOf(cells).value, key, values)
    ensures BindingOf(DoCreate(cells, key, values).value, key) == NextOf(cells)
    ensures NextOf(DoCreate(cells, key, values).value) == Some(NextOf(cells).value + 1)
    ensures forall k: CellKey :: k.id != NextOf(cells).value && k != Binding(key) && k != Allocator() ==>
              Get(DoCreate(cells, key, values).value, k) == Get(cells, k)
  {
    CreateChecks(cells, limits, key, values);
    var (id, next) := CreatePlan(cells, key, values).value;
    TargetFree(cells);
    CreatedIs(cells, id, next, key, values);
    var cells' := Created(cells, id, next, key, values);
    CreatedSystem(cells, cells', id, next, key, values);
    CreatedHolds(cells, cells', limits, id, next, key, values);
    CreatedElsewhere(cells, cells', id, next, key, values);
  }

  lemma {:induction false} CreatedIs(cells: CellMap, id: RecordId, next: RecordId, key: RecordKey,
                                     values: seq<NamedValue>)
    requires id >= FIRST_USER
    ensures IsCreated(cells, Created(cells, id, next, key, values), id, next, key, values)
  {
    forall k: CellKey
      ensures Get(Created(cells, id, next, key, values), k) == CreatedCell(cells, id, next, key, values, k)
    {
      CreatedAt(cells, id, next, key, values, k);
    }
  }

  lemma {:induction false} CreatedElsewhere(cells: CellMap, cells': CellMap, id: RecordId, next: RecordId,
                                            key: RecordKey, values: seq<NamedValue>)
    requires id >= FIRST_USER && next == id + 1 && IsCreated(cells, cells', id, next, key, values)
    ensures forall k: CellKey :: k.id != id && k != Binding(key) && k != Allocator() ==> Get(cells', k) == Get(cells, k)
  {
    forall k: CellKey | k.id != id && k != Binding(key) && k != Allocator()
      ensures Get(cells', k) == Get(cells, k)
    {
      assert Get(cells', k) == CreatedCell(cells, id, next, key, values, k);
    }
  }

  /** Cell by cell, the new record holds what was given. */
  lemma {:induction false} CreatedHolds(cells: CellMap, cells': CellMap, limits: Limits, id: RecordId,
                                        next: RecordId, key: RecordKey, values: seq<NamedValue>)
    requires id >= FIRST_USER && next == id + 1 && IsCreated(cells, cells', id, next, key, values)
    requires !Occupied(cells, id) && AllAdmitted(limits, Puts(values)) && KeyOf(cells', id) == Some(key)
    ensures HoldsRecord(cells', id, key, values)
  {
    forall i: nat | LastOf(values, i)
      ensures Get(cells', CellKey(id, values[i].0)) == Some(values[i].1)
    {
      GivenCell(limits, values, i);
      var k := CellKey(id, values[i].0);
      assert Get(cells', k) == CreatedCell(cells, id, next, key, values, k);
    }
    forall k | k in cells' && k.id == id
      ensures k.name == KeyName() || Given(values, k.name)
    {
      assert Get(cells', k) == CreatedCell(cells, id, next, key, values, k);
      if k.name != KeyName() {
        LastIn(Puts(values), k.name);
        var i :| 0 <= i < |values| && Puts(values)[i] == (k.name, Last(Puts(values), k.name).value);
        assert values[i].0 == k.name;
      }
    }
  }

  /** An admitted value given last under its name is the last edit of that name, and not the identity. */
  lemma {:induction false} GivenCell(limits: Limits, values: seq<NamedValue>, i: nat)
    requires LastOf(values, i) && AllAdmitted(limits, Puts(values))
    ensures Last(Puts(values), values[i].0) == Some(Some(values[i].1)) && values[i].0 != KeyName()
  {
    assert LastOf(Puts(values), i);
    LastIs(Puts(values), i);
    assert AdmitPatch(limits, Puts(values)[i]);
    UserName(values[i].0);
  }

  ghost predicate AllFit(limits: Limits, values: seq<NamedValue>) {
    forall i :: 0 <= i < |values| ==> CellFits(limits, values[i].0, values[i].1)
  }

  lemma {:induction false} PutsAdmitted(limits: Limits, values: seq<NamedValue>)
    ensures AllAdmitted(limits, Puts(values)) <==> AllFit(limits, values)
  {
    forall i | 0 <= i < |values|
      ensures AdmitPatch(limits, Puts(values)[i]) <==> CellFits(limits, values[i].0, values[i].1)
    {
      AdmissionExact(limits, Puts(values)[i]);
    }
  }

  /** Creation is refused for exactly these reasons, the first that applies; otherwise it succeeds. */
  lemma {:induction false} CreateRefuses(cells: CellMap, limits: Limits, key: RecordKey, values: seq<NamedValue>)
    requires Linked(cells) && Founded(cells, limits)
    ensures DoCreate(cells, key, values) == Err(Reserved) <==> ReservedKey(key)
    ensures DoCreate(cells, key, values) == Err(InvalidArgument) <==> !ReservedKey(key) && !AllFit(limits, values)
    ensures DoCreate(cells, key, values) == Err(AlreadyExists) <==>
              !ReservedKey(key) && AllFit(limits, values) && Binding(key) in cells
    ensures DoCreate(cells, key, values) == Err(RecordIdExhausted) <==>
              !ReservedKey(key) && AllFit(limits, values) && Binding(key) !in cells && NextOf(cells).value + 1 == U64
    ensures DoCreate(cells, key, values).Ok? <==>
              !ReservedKey(key) && AllFit(limits, values) && Binding(key) !in cells && NextOf(cells).value + 1 < U64
  {
    CreateChecks(cells, limits, key, values);
    PutsAdmitted(limits, values);
    ReservedExact(key);
  }

  /** A key of the catalogue. */
  ghost predicate ReservedKey(key: RecordKey) {
    exists i :: 0 <= i < 7 && Catalogue()[i].1 == key
  }

  lemma {:induction false} ReservedExact(key: RecordKey)
    ensures ByKey(key).Some? <==> ReservedKey(key)
  {
    if ByKey(key).Some? {
      var i := SearchFound(key, 0);
    }
    if i :| 0 <= i < 7 && Catalogue()[i].1 == key {
      SearchFinds(i, 0);
    }
  }

  // ---- Patch ----

  ghost predicate ChangesName(changes: seq<NamedPatch>, name: Bytes) {
    exists i :: 0 <= i < |changes| && changes[i].0 == name
  }

  /** A successful patch leaves each named cell of the record as its last change says, and every other
      cell of the store as it was. */
  lemma {:induction false} PatchMeans(ok: CellValue -> bool, cells: CellMap, limits: Limits, key: RecordKey,
                                      changes: seq<NamedPatch>)
    requires Kept(ok, cells, limits) && DoPatch(cells, key, changes).Ok?
    ensures BindingOf(cells, key).Some?
    ensures forall i: nat :: LastOf(changes, i) ==>
              Get(DoPatch(cells, key, changes).value, CellKey(BindingOf(cells, key).value, changes[i].0)) ==
              changes[i].1
    ensures forall k: CellKey :: k.id != BindingOf(cells, key).value || !ChangesName(changes, k.name) ==>
              Get(DoPatch(cells, key, changes).value, k) == Get(cells, k)
  {
    PatchChecks(cells, limits, key, changes);
    var id := BindingOf(cells, key).value;
    forall i: nat | LastOf(changes, i)
      ensures Get(DoPatch(cells, key, changes).value, CellKey(id, changes[i].0)) == changes[i].1
    {
      LastIs(changes, i);
      WithinAt(cells, id, changes, CellKey(id, changes[i].0));
    }
    forall k: CellKey | k.id != id || !ChangesName(changes, k.name)
      ensures Get(DoPatch(cells, key, changes).value, k) == Get(cells, k)
    {
      WithinAt(cells, id, changes, k);
      LastNone(changes, k.name);
    }
  }

  ghost predicate ChangesFit(limits: Limits, changes: seq<NamedPatch>) {
    forall i :: 0 <= i < |changes| ==>
      NameFits(limits, changes[i].0) && (changes[i].1.Some? ==> ValueFits(limits, changes[i].1.value))
  }

  /** Patching is refused for exactly these reasons, the first that applies; otherwise it succeeds. */
  lemma {:induction false} PatchRefuses(cells: CellMap, limits: Limits, key: RecordKey, changes: seq<NamedPatch>)
    requires Linked(cells) && Founded(cells, limits)
    ensures DoPatch(cells, key, changes) == Err(Reserved) <==> ReservedKey(key)
    ensures DoPatch(cells, key, changes) == Err(NotFound) <==> !ReservedKey(key) && Binding(key) !in cells
    ensures DoPatch(cells, key, changes) == Err(InvalidArgument) <==>
              !ReservedKey(key) && Binding(key) in cells && !ChangesFit(limits, changes)
    ensures DoPatch(cells, key, changes).Ok? <==>
              !ReservedKey(key) && Binding(key) in cells && ChangesFit(limits, changes)
  {
    PatchChecks(cells, limits, key, changes);
    ReservedExact(key);
    if ByKey(key).None? {
      BoundExact(cells, key);
    }
    forall i | 0 <= i < |changes|
      ensures AdmitPatch(limits, changes[i]) <==>
                NameFits(limits, changes[i].0) && (changes[i].1.Some? ==> ValueFits(limits, changes[i].1.value))
    {
      AdmissionExact(limits, changes[i]);
    }
  }

  lemma {:induction false} BoundExact(cells: CellMap, key: RecordKey)
    requires Linked(cells) && ByKey(key).None?
    ensures BindingOf(cells, key).Some? <==> Binding(key) in cells
  {
    assert Binding(key) in cells ==> Bound(cells, key);
  }

  // ---- Delete ----

  /** A successful deletion leaves no cell of the record and no binding, and every other cell as it was. */
  lemma {:induction false} DeleteMeans(cells: CellMap, key: RecordKey)
    requires Linked(cells) && DoDelete(cells, key).Ok?
    ensures BindingOf(cells, key).Some? && Binding(key) !in DoDelete(cells, key).value
    ensures !Occupied(DoDelete(cells, key).value, BindingOf(cells, key).value)
    ensures forall k: CellKey :: k.id != BindingOf(cells, key).value && k != Binding(key) ==>
              Get(DoDelete(cells, key).value, k) == Get(cells, k)
  {
    DeleteChecks(cells, key);
  }

  lemma {:induction false} DeleteRefuses(cells: CellMap, key: RecordKey)
    requires Linked(cells)
    ensures DoDelete(cells, key) == Err(Reserved) <==> ReservedKey(key)
    ensures DoDelete(cells, key) == Err(NotFound) <==> !ReservedKey(key) && Binding(key) !in cells
    ensures DoDelete(cells, key).Ok? <==> !ReservedKey(key) && Binding(key) in cells
  {
    DeleteChecks(cells, key);
    ReservedExact(key);
    if ByKey(key).None? {
      BoundExact(cells, key);
    }
  }
}
