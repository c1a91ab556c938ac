/** Records over cells: identities, bindings, allocation, and what create, patch and delete keep. */
module Records {
  import opened Wrappers
  import opened Lex
  import opened Words
  import opened Batch
  import opened CellKeys
  import opened Terms
  import opened Postings
  import opened System
  import S = CellStore

  datatype RecordError =
    | NotFound
    | AlreadyExists
    | Reserved
    | InvalidArgument
    | CorruptState
    | RecordIdExhausted
    | StorageFault

  /** Deployment limits in bytes. */
  datatype Limits = Limits(name: nat, str: nat, bytes: nat)

  type NamedValue = (Bytes, CellValue)
  type NamedPatch = (Bytes, Option<CellValue>)

  datatype RecordOp =
    | Create(key: RecordKey, values: seq<NamedValue>)
    | Patch(key: RecordKey, changes: seq<NamedPatch>)
    | Delete(key: RecordKey)

  // ---- Reading the system cells ----

  function NextOf(cells: CellMap): Option<RecordId> {
    AsId(Get(cells, Allocator()))
  }

  function KeyOf(cells: CellMap, id: RecordId): Option<RecordKey> {
    AsKey(Get(cells, Ident(id)))
  }

  function BindingOf(cells: CellMap, key: RecordKey): Option<RecordId> {
    AsId(Get(cells, Binding(key)))
  }

  function LimitAt(limits: Limits, i: nat): nat
    requires i < 3
  {
    if i == 0 then limits.name else if i == 1 then limits.str else limits.bytes
  }

  /** The record a key is bound to, after checking the binding and the record's own `#key`. */
  function Resolve(cells: CellMap, key: RecordKey): Result<Option<RecordId>, RecordError> {
    if Binding(key) !in cells then
      if ByKey(key).Some? then Err(CorruptState) else Ok(None)
    else
      var id := BindingOf(cells, key);
      if id.None? then Err(CorruptState)
      else if ByKey(key).Some? && ByKey(key) != id then Err(CorruptState)
      else if ByKey(key).None? && id.value < FIRST_USER then Err(CorruptState)
      else if KeyOf(cells, id.value) != Some(key) then Err(CorruptState)
      else Ok(id)
  }

  function ReadLimits(cells: CellMap): Result<Limits, RecordError> {
    var a, b, c := AsLimit(Get(cells, Limit(0))), AsLimit(Get(cells, Limit(1))), AsLimit(Get(cells, Limit(2)));
    if a.None? || b.None? || c.None? then Err(CorruptState) else Ok(Limits(a.value, b.value, c.value))
  }

  /** The ID to hand out and the one after it. */
  function NextId(cells: CellMap): Result<(RecordId, RecordId), RecordError> {
    var id := NextOf(cells);
    if id.None? || id.value < FIRST_USER then Err(CorruptState)
    else if id.value + 1 >= U64 then Err(RecordIdExhausted)
    else Ok((id.value, id.value + 1))
  }

  // ---- Admission ----

  predicate AdmitName(limits: Limits, name: Bytes) {
    |name| <= limits.name && ValidName(name)
  }

  predicate AdmitValue(limits: Limits, v: CellValue) {
    match v.ty
    case Str => |v.stored| <= limits.str
    case RawBytes => |v.stored| <= limits.bytes
    case _ => true
  }

  predicate AdmitPatch(limits: Limits, p: NamedPatch) {
    AdmitName(limits, p.0) && (p.1.Some? ==> AdmitValue(limits, p.1.value))
  }

  predicate AllAdmitted(limits: Limits, changes: seq<NamedPatch>) {
    forall i :: 0 <= i < |changes| ==> AdmitPatch(limits, changes[i])
  }

  // ---- What each operation does ----

  function Put(v: NamedValue): NamedPatch {
    (v.0, Some(v.1))
  }

  function Puts(values: seq<NamedValue>): (out: seq<NamedPatch>)
    ensures |out| == |values| && forall i :: 0 <= i < |out| ==> out[i] == Put(values[i])
  {
    seq(|values|, i requires 0 <= i < |values| => Put(values[i]))
  }

  /** Edits of one record's cells. */
  function Within(id: RecordId, changes: seq<NamedPatch>): (edits: seq<S.CellEdit>)
    ensures |edits| == |changes|
    ensures forall i :: 0 <= i < |edits| ==> edits[i] == (CellKey(id, changes[i].0), changes[i].1)
  {
    seq(|changes|, i requires 0 <= i < |changes| => (CellKey(id, changes[i].0), changes[i].1))
  }

  /** The user cells, the identity, the binding, and the allocator past the new ID. */
  function CreateEdits(id: RecordId, next: RecordId, key: RecordKey, values: seq<NamedValue>): seq<S.CellEdit> {
    Within(id, Puts(values)) + [(Ident(id), Some(KeyValue(key))), (Binding(key), Some(IdValue(id))),
                                (Allocator(), Some(IdValue(next)))]
  }

  /** Everything of the record is gone, and its binding. */
  function Removed(cells: CellMap, id: RecordId, key: RecordKey): CellMap {
    map k | k in cells && k.id != id && k != Binding(key) :: cells[k]
  }

  predicate Occupied(cells: CellMap, id: RecordId) {
    exists k :: k in cells && k.id == id
  }

  /** The ID to create under and the allocator's next value, if the creation is admitted. */
  function CreatePlan(cells: CellMap, key: RecordKey, values: seq<NamedValue>): Result<(RecordId, RecordId),
                      RecordError> {
    if ByKey(key).Some? then Err(Reserved)
    else
      var limits := ReadLimits(cells);
      if limits.Err? then Err(limits.error)
      else if !AllAdmitted(limits.value, Puts(values)) then Err(InvalidArgument)
      else
        var bound := Resolve(cells, key);
        if bound.Err? then Err(bound.error)
        else if bound.value.Some? then Err(AlreadyExists)
        else
          var next := NextId(cells);
          if next.Err? then next
          else if Occupied(cells, next.value.0) then Err(CorruptState)
          else next
  }

  function Created(cells: CellMap, id: RecordId, next: RecordId, key: RecordKey, values: seq<NamedValue>): CellMap {
    S.Updated(cells, CreateEdits(id, next, key, values))
  }

  function DoCreate(cells: CellMap, key: RecordKey, values: seq<NamedValue>): Result<CellMap, RecordError> {
    var plan := CreatePlan(cells, key, values);
    if plan.Err? then Err(plan.error) else Ok(Created(cells, plan.value.0, plan.value.1, key, values))
  }

  function DoPatch(cells: CellMap, key: RecordKey, changes: seq<NamedPatch>): Result<CellMap, RecordError> {
    if ByKey(key).Some? then Err(Reserved)
    else
      var bound := Resolve(cells, key);
      if bound.Err? then Err(bound.error)
      else if bound.value.None? then Err(NotFound)
      else
        var limits := ReadLimits(cells);
        if limits.Err? then Err(limits.error)
        else if !AllAdmitted(limits.value, changes) then Err(InvalidArgument)
        else Ok(S.Updated(cells, Within(bound.value.value, changes)))
  }

  function DoDelete(cells: CellMap, key: RecordKey): Result<CellMap, RecordError> {
    if ByKey(key).Some? then Err(Reserved)
    else
      var bound := Resolve(cells, key);
      if bound.Err? then Err(bound.error)
      else if bound.value.None? then Err(NotFound)
      else Ok(Removed(cells, bound.value.value, key))
  }

  /** One mutation through the record layer. */
  function Do(cells: CellMap, op: RecordOp): Result<CellMap, RecordError> {
    match op
    case Create(key, values) => DoCreate(cells, key, values)
    case Patch(key, changes) => DoPatch(cells, key, changes)
    case Delete(key) => DoDelete(cells, key)
  }

  // ---- What every state keeps ----

  /** A record's `#key` names a user key that is bound to it. */
  ghost predicate Owned(cells: CellMap, id: RecordId) {
    var key := KeyOf(cells, id);
    key.Some? && ByKey(key.value).None? && BindingOf(cells, key.value) == Some(id)
  }

  /** A user key is bound to a user record that names it. */
  ghost predicate Bound(cells: CellMap, key: RecordKey) {
    var id := BindingOf(cells, key);
    id.Some? && id.value >= FIRST_USER && KeyOf(cells, id.value) == Some(key)
  }

  /** Bindings and identities of user records are inverse, and all lie below the allocator. */
  ghost predicate Linked(cells: CellMap) {
    && NextOf(cells).Some? && NextOf(cells).value >= FIRST_USER
    && (forall k :: k in cells && k.id >= FIRST_USER ==> k.id < NextOf(cells).value && Owned(cells, k.id))
    && (forall key: RecordKey :: Binding(key) in cells && ByKey(key).None? ==> Bound(cells, key))
  }

  /** The reserved records and the parameters are as genesis wrote them. */
  ghost predicate Founded(cells: CellMap, limits: Limits) {
    && (forall i :: 0 <= i < 7 ==>
          && KeyOf(cells, Catalogue()[i].0) == Some(Catalogue()[i].1)
          && BindingOf(cells, Catalogue()[i].1) == Some(Catalogue()[i].0))
    && (forall i :: 0 <= i < 3 ==> AsLimit(Get(cells, Limit(i))) == Some(LimitAt(limits, i)))
  }

  /** A system cell: a field under a short name. */
  predicate Small(k: CellKey, v: CellValue) {
    !v.indexable && |k.name| <= 32 && |v.stored| <= 64
  }

  /** Values are well formed, system cells are small fields, and user cells were admitted. */
  ghost predicate Admitted(ok: CellValue -> bool, cells: CellMap, limits: Limits) {
    && (forall k :: k in cells ==> ok(cells[k]))
    && (forall k :: k in cells && (k.id < FIRST_USER || k.name == KeyName()) ==> Small(k, cells[k]))
    && (forall k :: k in cells && k.id >= FIRST_USER && k.name != KeyName() ==>
          AdmitPatch(limits, (k.name, Some(cells[k]))))
  }

  ghost predicate Kept(ok: CellValue -> bool, cells: CellMap, limits: Limits) {
    Linked(cells) && Founded(cells, limits) && Admitted(ok, cells, limits)
  }

  /** The engine's own values are well formed. */
  ghost predicate SystemOk(ok: CellValue -> bool) {
    && (forall n: RecordId :: ok(IdValue(n)))
    && (forall key: RecordKey :: ok(KeyValue(key)))
    && (forall head: Head :: ok(RootsValue(head)))
    && (forall n :: ok(LimitValue(n)))
  }

  /** The operation carries well-formed values. */
  ghost predicate OpOk(ok: CellValue -> bool, op: RecordOp) {
    match op
    case Create(_, values) => forall i :: 0 <= i < |values| ==> ok(values[i].1)
    case Patch(_, changes) => forall i :: 0 <= i < |changes| && changes[i].1.Some? ==> ok(changes[i].1.value)
    case Delete(_) => true
  }

  // ---- One record's edits ----

  lemma {:induction false} WithinLast(id: RecordId, changes: seq<NamedPatch>, k: CellKey)
    ensures Last(Within(id, changes), k) == if k.id == id then Last(changes, k.name) else None
    decreases |changes|
  {
    if changes != [] {
      var n := |changes| - 1;
      assert Within(id, changes)[..n] == Within(id, changes[..n]);
      WithinLast(id, changes[..n], k);
    }
  }

  /** Editing a record's cells leaves every other cell alone. */
  lemma {:induction false} WithinAt(cells: CellMap, id: RecordId, changes: seq<NamedPatch>, k: CellKey)
    ensures Get(S.Updated(cells, Within(id, changes)), k) ==
            if k.id == id && Last(changes, k.name).Some? then Last(changes, k.name).value else Get(cells, k)
  {
    WithinLast(id, changes, k);
    S.UpdatedLast(cells, Within(id, changes), k);
  }

  /** The last patch of a name is one of the patches. */
  lemma {:induction false} PatchedValue(limits: Limits, ok: CellValue -> bool, changes: seq<NamedPatch>, name: Bytes)
    requires forall i :: 0 <= i < |changes| ==> AdmitPatch(limits, changes[i])
    requires forall i :: 0 <= i < |changes| && changes[i].1.Some? ==> ok(changes[i].1.value)
    requires Last(changes, name).Some?
    ensures AdmitPatch(limits, (name, Last(changes, name).value))
    ensures (Last(changes, name).value.Some? ==> ok(Last(changes, name).value.value))
    ensures name != KeyName()
  {
    LastIn(changes, name);
    var i :| 0 <= i < |changes| && changes[i] == (name, Last(changes, name).value);
    UserName(name);
  }

  // ---- Patch ----

  lemma {:induction false} PatchLinked(cells: CellMap, id: RecordId, changes: seq<NamedPatch>)
    requires Linked(cells) && id >= FIRST_USER && Ident(id) in cells && Last(changes, KeyName()).None?
    ensures Linked(S.Updated(cells, Within(id, changes)))
    ensures NextOf(S.Updated(cells, Within(id, changes))) == NextOf(cells)
  {
    var cells' := S.Updated(cells, Within(id, changes));
    SameSystem(cells, id, changes);
    forall k | k in cells' && k.id >= FIRST_USER
      ensures k.id < NextOf(cells').value && Owned(cells', k.id)
    {
      WithinAt(cells, id, changes, k);
      assert k.id == id || k in cells;
      assert Ident(id) in cells && Owned(cells, id);
      assert Owned(cells, k.id);
    }
    forall key: RecordKey | Binding(key) in cells' && ByKey(key).None?
      ensures Bound(cells', key)
    {
      assert Get(cells', Binding(key)) == Get(cells, Binding(key));
      assert Bound(cells, key);
    }
  }

  /** Patching user cells touches no identity, binding or system cell. */
  lemma {:induction false} SameSystem(cells: CellMap, id: RecordId, changes: seq<NamedPatch>)
    requires id >= FIRST_USER && Last(changes, KeyName()).None?
    ensures forall k: CellKey :: k.id < FIRST_USER || k.name == KeyName() ==>
              Get(S.Updated(cells, Within(id, changes)), k) == Get(cells, k)
  {
    forall k: CellKey | k.id < FIRST_USER || k.name == KeyName()
      ensures Get(S.Updated(cells, Within(id, changes)), k) == Get(cells, k)
    {
      WithinAt(cells, id, changes, k);
    }
  }

  lemma {:induction false} SameFounded(cells: CellMap, cells': CellMap, limits: Limits)
    requires Founded(cells, limits)
    requires forall i :: 0 <= i < 7 ==> Get(cells', Ident(Catalogue()[i].0)) == Get(cells, Ident(Catalogue()[i].0))
    requires forall i :: 0 <= i < 7 ==> Get(cells', Binding(Catalogue()[i].1)) == Get(cells, Binding(Catalogue()[i].1))
    requires forall i :: 0 <= i < 3 ==> Get(cells', Limit(i)) == Get(cells, Limit(i))
    ensures Founded(cells', limits)
  {
  }

  lemma {:induction false} PatchAdmitted(ok: CellValue -> bool, cells: CellMap, limits: Limits, id: RecordId,
                                         changes: seq<NamedPatch>)
    requires Admitted(ok, cells, limits) && id >= FIRST_USER
    requires forall i :: 0 <= i < |changes| ==> AdmitPatch(limits, changes[i])
    requires forall i :: 0 <= i < |changes| && changes[i].1.Some? ==> ok(changes[i].1.value)
    ensures Admitted(ok, S.Updated(cells, Within(id, changes)), limits)
  {
    var cells' := S.Updated(cells, Within(id, changes));
    forall k | k in cells'
      ensures ok(cells'[k])
      ensures k.id < FIRST_USER || k.name == KeyName() ==> Small(k, cells'[k])
      ensures k.id >= FIRST_USER && k.name != KeyName() ==> AdmitPatch(limits, (k.name, Some(cells'[k])))
    {
      WithinAt(cells, id, changes, k);
      if k.id == id && Last(changes, k.name).Some? {
        PatchedValue(limits, ok, changes, k.name);
      }
    }
  }

  lemma {:induction false} NoKeyPatch(limits: Limits, changes: seq<NamedPatch>)
    requires forall i :: 0 <= i < |changes| ==> AdmitPatch(limits, changes[i])
    ensures Last(changes, KeyName()).None?
  {
    LastNone(changes, KeyName());
    forall i | 0 <= i < |changes|
      ensures changes[i].0 != KeyName()
    {
      UserName(changes[i].0);
    }
  }

  lemma {:induction false} PatchKeeps(ok: CellValue -> bool, cells: CellMap, limits: Limits, id: RecordId,
                                      changes: seq<NamedPatch>)
    requires Kept(ok, cells, limits) && id >= FIRST_USER && Ident(id) in cells
    requires forall i :: 0 <= i < |changes| ==> AdmitPatch(limits, changes[i])
    requires forall i :: 0 <= i < |changes| && changes[i].1.Some? ==> ok(changes[i].1.value)
    ensures Kept(ok, S.Updated(cells, Within(id, changes)), limits)
    ensures NextOf(S.Updated(cells, Within(id, changes))) == NextOf(cells)
  {
    NoKeyPatch(limits, changes);
    PatchLinked(cells, id, changes);
    SameSystem(cells, id, changes);
    SameFounded(cells, S.Updated(cells, Within(id, changes)), limits);
    PatchAdmitted(ok, cells, limits, id, changes);
  }

  // ---- Create ----

  /** A cell after creation: the three system cells, the new record's cells, and all else as before. */
  ghost function CreatedCell(cells: CellMap, id: RecordId, next: RecordId, key: RecordKey, values: seq<NamedValue>,
                             k: CellKey): Option<CellValue> {
    if k == Allocator() then Some(IdValue(next))
    else if k == Binding(key) then Some(IdValue(id))
    else if k == Ident(id) then Some(KeyValue(key))
    else if k.id == id && Last(Puts(values), k.name).Some? then Last(Puts(values), k.name).value
    else Get(cells, k)
  }

  lemma {:induction false} CreatedAt(cells: CellMap, id: RecordId, next: RecordId, key: RecordKey,
                                     values: seq<NamedValue>, k: CellKey)
    requires id >= FIRST_USER
    ensures Get(S.Updated(cells, CreateEdits(id, next, key, values)), k) == CreatedCell(cells, id, next, key, values, k)
  {
    var a := Within(id, Puts(values));
    var tail: seq<S.CellEdit> := [(Ident(id), Some(KeyValue(key))), (Binding(key), Some(IdValue(id))),
                                  (Allocator(), Some(IdValue(next)))];
    assert CreateEdits(id, next, key, values) == a + tail;
    S.UpdatedLast(cells, a + tail, k);
    LastConcat(a, tail, k);
    WithinLast(id, Puts(values), k);
    TailLast(id, next, key, k);
  }

  lemma {:induction false} TailLast(id: RecordId, next: RecordId, key: RecordKey, k: CellKey)
    requires id >= FIRST_USER
    ensures Last([(Ident(id), Some(KeyValue(key))), (Binding(key), Some(IdValue(id))),
                  (Allocator(), Some(IdValue(next)))], k) ==
            if k == Allocator() then Some(Some(IdValue(next)))
            else if k == Binding(key) then Some(Some(IdValue(id)))
            else if k == Ident(id) then Some(Some(KeyValue(key)))
            else None
  {
    var x: S.CellEdit, y: S.CellEdit, z: S.CellEdit :=
      (Ident(id), Some(KeyValue(key))), (Binding(key), Some(IdValue(id))), (Allocator(), Some(IdValue(next)));
    assert [x, y, z] == [x] + [y] + [z];
    LastConcat([x] + [y], [z], k);
    LastConcat([x], [y], k);
    assert [x][..0] == [] && [y][..0] == [] && [z][..0] == [];
  }

  /** The state after creation, cell by cell. */
  ghost predicate IsCreated(cells: CellMap, cells': CellMap, id: RecordId, next: RecordId, key: RecordKey,
                            values: seq<NamedValue>) {
    forall k: CellKey :: Get(cells', k) == CreatedCell(cells, id, next, key, values, k)
  }

  /** What a creation may assume: a free key, and the allocator's own ID. */
  ghost predicate Creates(cells: CellMap, id: RecordId, next: RecordId, key: RecordKey) {
    Linked(cells) && ByKey(key).None? && Binding(key) !in cells && NextOf(cells) == Some(id) && next == id + 1
  }

  lemma {:induction false} CreatedSystem(cells: CellMap, cells': CellMap, id: RecordId, next: RecordId, key: RecordKey,
                                         values: seq<NamedValue>)
    requires Creates(cells, id, next, key) && IsCreated(cells, cells', id, next, key, values)
    ensures NextOf(cells') == Some(next) && KeyOf(cells', id) == Some(key) && BindingOf(cells', key) == Some(id)
    ensures forall x: RecordId :: x != id ==> KeyOf(cells', x) == KeyOf(cells, x)
    ensures forall x: RecordKey :: x != key ==> Get(cells', Binding(x)) == Get(cells, Binding(x))
  {
    IdRoundTrip(next, IdValue(next));
    IdRoundTrip(id, IdValue(id));
    assert Get(cells', Allocator()) == Some(IdValue(next));
    assert Get(cells', Binding(key)) == Some(IdValue(id));
    assert Get(cells', Ident(id)) == Some(KeyValue(key));
    forall x: RecordId | x != id
      ensures KeyOf(cells', x) == KeyOf(cells, x)
    {
      assert Get(cells', Ident(x)) == Get(cells, Ident(x));
    }
    forall x: RecordKey | x != key
      ensures Get(cells', Binding(x)) == Get(cells, Binding(x))
    {
      assert Binding(x) != Binding(key);
    }
  }

  lemma {:induction false} CreateLinked(cells: CellMap, cells': CellMap, id: RecordId, next: RecordId, key: RecordKey,
                                        values: seq<NamedValue>)
    requires Creates(cells, id, next, key) && IsCreated(cells, cells', id, next, key, values)
    ensures Linked(cells')
  {
    CreatedSystem(cells, cells', id, next, key, values);
    forall k | k in cells' && k.id >= FIRST_USER
      ensures k.id < next && Owned(cells', k.id)
    {
      assert Get(cells', k) == CreatedCell(cells, id, next, key, values, k);
      if k.id != id {
        assert k in cells && Owned(cells, k.id);
        var q := KeyOf(cells, k.id).value;
        assert Binding(q) in cells && q != key;
      }
    }
    forall q: RecordKey | Binding(q) in cells' && ByKey(q).None?
      ensures Bound(cells', q)
    {
      if q != key {
        assert Get(cells', Binding(q)) == Get(cells, Binding(q));
        assert Bound(cells, q);
        assert Ident(BindingOf(cells, q).value) in cells;
      }
    }
  }

  lemma {:induction false} CreateFounded(cells: CellMap, cells': CellMap, limits: Limits, id: RecordId, next: RecordId,
                                         key: RecordKey, values: seq<NamedValue>)
    requires Founded(cells, limits) && Creates(cells, id, next, key) && IsCreated(cells, cells', id, next, key, values)
    ensures Founded(cells', limits)
  {
    CreatedSystem(cells, cells', id, next, key, values);
    forall i | 0 <= i < 7
      ensures Get(cells', Ident(Catalogue()[i].0)) == Get(cells, Ident(Catalogue()[i].0))
      ensures Get(cells', Binding(Catalogue()[i].1)) == Get(cells, Binding(Catalogue()[i].1))
    {
      CatalogueDistinct(i, i);
      SearchFinds(i, 0);
      assert Ident(Catalogue()[i].0) != Allocator();
    }
    forall i | 0 <= i < 3
      ensures Get(cells', Limit(i)) == Get(cells, Limit(i))
    {
      assert Limit(i).id == PARAMS;
    }
    SameFounded(cells, cells', limits);
  }

  lemma {:induction false} CreateAdmitted(ok: CellValue -> bool, cells: CellMap, cells': CellMap, limits: Limits,
                                          id: RecordId, next: RecordId, key: RecordKey, values: seq<NamedValue>)
    requires SystemOk(ok) && Admitted(ok, cells, limits) && id >= FIRST_USER
    requires IsCreated(cells, cells', id, next, key, values)
    requires forall i :: 0 <= i < |values| ==> AdmitPatch(limits, Put(values[i])) && ok(values[i].1)
    ensures Admitted(ok, cells', limits)
  {
    forall k | k in cells'
      ensures ok(cells'[k])
      ensures k.id < FIRST_USER || k.name == KeyName() ==> Small(k, cells'[k])
      ensures k.id >= FIRST_USER && k.name != KeyName() ==> AdmitPatch(limits, (k.name, Some(cells'[k])))
    {
      assert Get(cells', k) == CreatedCell(cells, id, next, key, values, k);
      if k.id == id && Last(Puts(values), k.name).Some? {
        PatchedValue(limits, ok, Puts(values), k.name);
      }
    }
  }

  lemma {:induction false} CreateKeeps(ok: CellValue -> bool, cells: CellMap, limits: Limits, id: RecordId,
                                       next: RecordId, key: RecordKey, values: seq<NamedValue>)
    requires SystemOk(ok) && Kept(ok, cells, limits) && Creates(cells, id, next, key)
    requires AllAdmitted(limits, Puts(values)) && forall i :: 0 <= i < |values| ==> ok(values[i].1)
    ensures Kept(ok, Created(cells, id, next, key, values), limits)
    ensures Onward(cells, Created(cells, id, next, key, values))
  {
    var cells' := Created(cells, id, next, key, values);
    assert forall i :: 0 <= i < |values| ==> Puts(values)[i] == Put(values[i]);
    forall k: CellKey
      ensures Get(cells', k) == CreatedCell(cells, id, next, key, values, k)
    {
      CreatedAt(cells, id, next, key, values, k);
    }
    CreateOnward(cells, cells', id, next, key, values);
    CreateLinked(cells, cells', id, next, key, values);
    CreateFounded(cells, cells', limits, id, next, key, values);
    CreateAdmitted(ok, cells, cells', limits, id, next, key, values);
  }

  // ---- Delete ----

  lemma {:induction false} DeleteLinked(cells: CellMap, id: RecordId, key: RecordKey)
    requires Linked(cells) && id >= FIRST_USER && BindingOf(cells, key) == Some(id) && KeyOf(cells, id) == Some(key)
    ensures Linked(Removed(cells, id, key)) && NextOf(Removed(cells, id, key)) == NextOf(cells)
  {
    var cells' := Removed(cells, id, key);
    assert Get(cells', Allocator()) == Get(cells, Allocator());
    forall k | k in cells' && k.id >= FIRST_USER
      ensures k.id < NextOf(cells').value && Owned(cells', k.id)
    {
      assert Owned(cells, k.id);
      var q := KeyOf(cells, k.id).value;
      assert Get(cells', Ident(k.id)) == Get(cells, Ident(k.id));
      assert Get(cells', Binding(q)) == Get(cells, Binding(q));
    }
    forall q: RecordKey | Binding(q) in cells' && ByKey(q).None?
      ensures Bound(cells', q)
    {
      assert Bound(cells, q) && q != key;
      var x := BindingOf(cells, q).value;
      assert Get(cells', Ident(x)) == Get(cells, Ident(x));
    }
  }

  lemma {:induction false} DeleteKeeps(ok: CellValue -> bool, cells: CellMap, limits: Limits, id: RecordId,
                                       key: RecordKey)
    requires Kept(ok, cells, limits) && id >= FIRST_USER && ByKey(key).None? && BindingOf(cells, key) == Some(id)
    requires KeyOf(cells, id) == Some(key)
    ensures Kept(ok, Removed(cells, id, key), limits) && NextOf(Removed(cells, id, key)) == NextOf(cells)
  {
    DeleteLinked(cells, id, key);
    DeleteFounded(cells, limits, id, key);
  }

  lemma {:induction false} DeleteFounded(cells: CellMap, limits: Limits, id: RecordId, key: RecordKey)
    requires Founded(cells, limits) && id >= FIRST_USER && ByKey(key).None?
    ensures Founded(Removed(cells, id, key), limits)
  {
    var cells' := Removed(cells, id, key);
    forall i | 0 <= i < 7
      ensures Get(cells', Ident(Catalogue()[i].0)) == Get(cells, Ident(Catalogue()[i].0))
      ensures Get(cells', Binding(Catalogue()[i].1)) == Get(cells, Binding(Catalogue()[i].1))
    {
      CatalogueDistinct(i, i);
      SearchFinds(i, 0);
    }
    forall i | 0 <= i < 3
      ensures Get(cells', Limit(i)) == Get(cells, Limit(i))
    {
      assert Limit(i).id == PARAMS;
    }
    SameFounded(cells, cells', limits);
  }

  // ---- Every operation ----

  /** On a kept state a user key resolves to its binding, and no check fails. */
  lemma {:induction false} ResolveKept(cells: CellMap, key: RecordKey)
    requires Linked(cells) && ByKey(key).None?
    ensures Resolve(cells, key) == Ok(BindingOf(cells, key))
    ensures BindingOf(cells, key).Some? ==> Bound(cells, key)
    ensures BindingOf(cells, key).None? ==> Binding(key) !in cells
  {
    if Binding(key) in cells {
      assert Bound(cells, key);
    }
  }

  lemma {:induction false} LimitsKept(cells: CellMap, limits: Limits)
    requires Founded(cells, limits)
    ensures ReadLimits(cells) == Ok(limits)
  {
    assert AsLimit(Get(cells, Limit(0))) == Some(LimitAt(limits, 0));
    assert AsLimit(Get(cells, Limit(1))) == Some(LimitAt(limits, 1));
    assert AsLimit(Get(cells, Limit(2))) == Some(LimitAt(limits, 2));
  }

  /** The allocator's target is never occupied. */
  lemma {:induction false} TargetFree(cells: CellMap)
    requires Linked(cells)
    ensures !Occupied(cells, NextOf(cells).value)
  {
  }

  /** Cells outside user records and the three kinds of system cell an operation writes. */
  predicate Untouchable(k: CellKey) {
    k.id < FIRST_USER && k.id != RECORD_KEYS && k != Allocator()
  }

  /** The allocator never goes back, and no ID below it is given to another key or brought back. */
  ghost predicate IdsOnward(cells: CellMap, cells': CellMap) {
    && NextOf(cells).Some? && NextOf(cells').Some? && NextOf(cells).value <= NextOf(cells').value
    && (forall id: RecordId :: FIRST_USER <= id < NextOf(cells).value && KeyOf(cells', id).Some? ==>
          KeyOf(cells', id) == KeyOf(cells, id))
  }

  /** What an operation leaves of the past: IDs only move on, and the other system cells stay. */
  ghost predicate Onward(cells: CellMap, cells': CellMap) {
    && IdsOnward(cells, cells')
    && (forall k: CellKey :: Untouchable(k) ==> Get(cells', k) == Get(cells, k))
  }

  lemma {:induction false} OnwardOn(a: CellMap, b: CellMap, c: CellMap)
    requires Onward(a, b) && Onward(b, c)
    ensures Onward(a, c)
  {
  }

  lemma {:induction false} CreateOnward(cells: CellMap, cells': CellMap, id: RecordId, next: RecordId, key: RecordKey,
                                        values: seq<NamedValue>)
    requires Creates(cells, id, next, key) && IsCreated(cells, cells', id, next, key, values)
    ensures Onward(cells, cells')
  {
    CreatedSystem(cells, cells', id, next, key, values);
  }

  lemma {:induction false} PatchOnward(cells: CellMap, id: RecordId, changes: seq<NamedPatch>)
    requires Linked(cells) && id >= FIRST_USER && Last(changes, KeyName()).None?
    ensures Onward(cells, S.Updated(cells, Within(id, changes)))
  {
    SameSystem(cells, id, changes);
  }

  lemma {:induction false} DeleteOnward(cells: CellMap, id: RecordId, key: RecordKey)
    requires Linked(cells) && id >= FIRST_USER
    ensures Onward(cells, Removed(cells, id, key))
  {
    assert Get(Removed(cells, id, key), Allocator()) == Get(cells, Allocator());
  }

  /** What a creation finds on a kept state: limits, the key free or taken, and a free target. */
  lemma {:induction false} CreateChecks(cells: CellMap, limits: Limits, key: RecordKey, values: seq<NamedValue>)
    requires Linked(cells) && Founded(cells, limits)
    ensures CreatePlan(cells, key, values) ==
            if ByKey(key).Some? then Err(Reserved)
            else if !AllAdmitted(limits, Puts(values)) then Err(InvalidArgument)
            else if Binding(key) in cells then Err(AlreadyExists)
            else if NextOf(cells).value + 1 >= U64 then Err(RecordIdExhausted)
            else Ok((NextOf(cells).value, NextOf(cells).value + 1))
  {
    LimitsKept(cells, limits);
    if ByKey(key).None? {
      ResolveKept(cells, key);
    }
    TargetFree(cells);
  }

  lemma {:induction false} CreateDone(ok: CellValue -> bool, cells: CellMap, limits: Limits, key: RecordKey,
                                      values: seq<NamedValue>)
    requires SystemOk(ok) && Kept(ok, cells, limits) && forall i :: 0 <= i < |values| ==> ok(values[i].1)
    ensures DoCreate(cells, key, values) != Err(CorruptState)
    ensures DoCreate(cells, key, values).Ok? ==>
              Kept(ok, DoCreate(cells, key, values).value, limits) && Onward(cells, DoCreate(cells, key, values).value)
  {
    CreateChecks(cells, limits, key, values);
    var plan := CreatePlan(cells, key, values);
    if plan.Ok? {
      CreateKeeps(ok, cells, limits, plan.value.0, plan.value.1, key, values);
      assert DoCreate(cells, key, values) == Ok(Created(cells, plan.value.0, plan.value.1, key, values));
    }
  }

  /** Patching succeeds exactly on a bound user key with admitted cells. */
  lemma {:induction false} PatchChecks(cells: CellMap, limits: Limits, key: RecordKey, changes: seq<NamedPatch>)
    requires Linked(cells) && Founded(cells, limits)
    ensures DoPatch(cells, key, changes) ==
            if ByKey(key).Some? then Err(Reserved)
            else if BindingOf(cells, key).None? then Err(NotFound)
            else if !AllAdmitted(limits, changes) then Err(InvalidArgument)
            else Ok(S.Updated(cells, Within(BindingOf(cells, key).value, changes)))
    ensures ByKey(key).None? && BindingOf(cells, key).Some? ==> Bound(cells, key)
  {
    LimitsKept(cells, limits);
    if ByKey(key).None? {
      ResolveKept(cells, key);
    }
  }

  lemma {:induction false} PatchDone(ok: CellValue -> bool, cells: CellMap, limits: Limits, key: RecordKey,
                                     changes: seq<NamedPatch>)
    requires Kept(ok, cells, limits) && forall i :: 0 <= i < |changes| && changes[i].1.Some? ==> ok(changes[i].1.value)
    ensures DoPatch(cells, key, changes) != Err(CorruptState)
    ensures DoPatch(cells, key, changes).Ok? ==>
              Kept(ok, DoPatch(cells, key, changes).value, limits) && Onward(cells, DoPatch(cells, key, changes).value)
  {
    PatchChecks(cells, limits, key, changes);
    if DoPatch(cells, key, changes).Ok? {
      var id := BindingOf(cells, key).value;
      PatchKeeps(ok, cells, limits, id, changes);
      NoKeyPatch(limits, changes);
      PatchOnward(cells, id, changes);
    }
  }

  /** Deleting succeeds exactly on a bound user key. */
  lemma {:induction false} DeleteChecks(cells: CellMap, key: RecordKey)
    requires Linked(cells)
    ensures DoDelete(cells, key) ==
            if ByKey(key).Some? then Err(Reserved)
            else if BindingOf(cells, key).None? then Err(NotFound)
            else Ok(Removed(cells, BindingOf(cells, key).value, key))
    ensures ByKey(key).None? && BindingOf(cells, key).Some? ==> Bound(cells, key)
  {
    if ByKey(key).None? {
      ResolveKept(cells, key);
    }
  }

  lemma {:induction false} DeleteDone(ok: CellValue -> bool, cells: CellMap, limits: Limits, key: RecordKey)
    requires Kept(ok, cells, limits)
    ensures DoDelete(cells, key) != Err(CorruptState)
    ensures DoDelete(cells, key).Ok? ==>
              Kept(ok, DoDelete(cells, key).value, limits) && Onward(cells, DoDelete(cells, key).value)
  {
    DeleteChecks(cells, key);
    if DoDelete(cells, key).Ok? {
      DeleteKeeps(ok, cells, limits, BindingOf(cells, key).value, key);
      DeleteOnward(cells, BindingOf(cells, key).value, key);
    }
  }

  /** Every operation keeps the invariant and never finds a kept state corrupt. */
  lemma {:induction false} DoKeeps(ok: CellValue -> bool, cells: CellMap, limits: Limits, op: RecordOp)
    requires SystemOk(ok) && Kept(ok, cells, limits) && OpOk(ok, op)
    ensures Do(cells, op) != Err(CorruptState)
    ensures Do(cells, op).Ok? ==> Kept(ok, Do(cells, op).value, limits) && Onward(cells, Do(cells, op).value)
  {
    match op
    case Create(key, values) => CreateDone(ok, cells, limits, key, values);
    case Patch(key, changes) => PatchDone(ok, cells, limits, key, changes);
    case Delete(key) => DeleteDone(ok, cells, limits, key);
  }
}
