/** Every run of the record layer: branches over a moving head, operations, checkpoints, rollbacks
    and commits, and what they keep of identities, allocation and past roots. */
module RecordRuns {
  import opened Wrappers
  import opened Lex
  import opened Words
  import opened CellKeys
  import opened Terms
  import opened Postings
  import opened System
  import opened Records
  import S = CellStore

  // ---- A branch's frames ----

  /** The cells a branch shows, the state each open frame started from, and whether the last frame
      was consumed by a rollback and not reopened since. */
  datatype Stack = Stack(view: CellMap, saved: seq<CellMap>, idle: bool)

  /** A branch begins inside its first frame. */
  function Fresh(cells: CellMap): Stack {
    Stack(cells, [cells], false)
  }

  function Save(f: Stack): Stack {
    Stack(f.view, f.saved + [f.view], false)
  }

  /** Return to the start of the last open frame and consume it; `None` when there is none. */
  function Restore(f: Stack): Option<Stack> {
    if f.saved == [] then None else Some(Stack(f.saved[|f.saved| - 1], f.saved[..|f.saved| - 1], true))
  }

  /** Some edit, when its turn comes, changes a cell. */
  predicate SomeChange(cells: CellMap, edits: seq<S.CellEdit>) {
    exists i :: 0 <= i < |edits| && Get(S.Updated(cells, edits[..i]), edits[i].0) != edits[i].1
  }

  /** Creations and deletions always write; a patch only what differs. */
  predicate Writes(cells: CellMap, op: RecordOp) {
    op.Patch? ==>
      var bound := Resolve(cells, op.key);
      bound.Ok? && bound.value.Some? && SomeChange(cells, Within(bound.value.value, op.changes))
  }

  /** An operation on the branch: a failed one changes nothing, and one that writes reopens a consumed
      frame. */
  function Perform(f: Stack, op: RecordOp): Stack {
    var r := Do(f.view, op);
    if r.Err? then f
    else Wrote(f, r.value, Writes(f.view, op))
  }

  /** The branch showing new cells, with a consumed frame reopened when something was written. */
  function Wrote(f: Stack, view: CellMap, wrote: bool): Stack {
    Stack(view, if f.idle && wrote then f.saved + [f.view] else f.saved, f.idle && !wrote)
  }

  function PerformAll(f: Stack, ops: seq<RecordOp>): Stack {
    if ops == [] then f else Perform(PerformAll(f, ops[..|ops| - 1]), ops[|ops| - 1])
  }

  lemma {:induction false} FramesStay(f: Stack, ops: seq<RecordOp>)
    requires !f.idle
    ensures PerformAll(f, ops).saved == f.saved && !PerformAll(f, ops).idle
    decreases |ops|
  {
    if ops != [] {
      FramesStay(f, ops[..|ops| - 1]);
    }
  }

  /** Whatever operations follow, one rollback returns to the last checkpoint, or without one to the
      branch's start. */
  lemma {:induction false} RollbackReturns(f: Stack, ops: seq<RecordOp>)
    requires !f.idle && f.saved != []
    ensures Restore(PerformAll(f, ops)) == Restore(f)
    ensures Restore(PerformAll(Save(f), ops)) == Some(Stack(f.view, f.saved, true))
  {
    FramesStay(f, ops);
    FramesStay(Save(f), ops);
    assert (f.saved + [f.view])[..|f.saved|] == f.saved;
  }

  // ---- The system ----

  /** A branch: the commit it was opened over, and its frames. */
  datatype Work = Work(origin: nat, frames: Stack)

  /** The committed cells with their head, the heads before it, the branches, and every record ID
      that was ever committed with its key. */
  datatype State = State(head: Head, cells: CellMap, past: seq<Head>, branches: map<nat, Work>,
                         owners: map<RecordId, RecordKey>)

  datatype Action =
    | Begin(id: nat)
    | Write(id: nat, op: RecordOp)
    | Checkpoint(id: nat)
    | Rollback(id: nat)
    | Commit(id: nat, state: Hash, index: Hash)
    | Discard(id: nat)

  /** The branch is open over the current head. */
  predicate Live(s: State, id: nat) {
    id in s.branches && s.branches[id].origin == s.head.commit
  }

  function SetWork(s: State, id: nat, w: Work): State {
    s.(branches := s.branches[id := w])
  }

  /** The cells a commit publishes: the branch's, and the roots of the head it replaces. */
  function Publish(head: Head, view: CellMap): CellMap {
    view[RootsKey(head.commit) := RootsValue(head)]
  }

  function SetFrames(s: State, id: nat, f: Stack): State
    requires id in s.branches
  {
    SetWork(s, id, s.branches[id].(frames := f))
  }

  /** User IDs with the key each record names. */
  function Identities(cells: CellMap): map<RecordId, RecordKey> {
    map k | k in cells && k.id >= FIRST_USER && KeyOf(cells, k.id).Some? :: k.id := KeyOf(cells, k.id).value
  }

  function Step(s: State, a: Action): State {
    match a
    case Begin(id) => if id in s.branches then s else SetWork(s, id, Work(s.head.commit, Fresh(s.cells)))
    case Write(id, op) => if !Live(s, id) then s else SetFrames(s, id, Perform(s.branches[id].frames, op))
    case Checkpoint(id) => if !Live(s, id) then s else SetFrames(s, id, Save(s.branches[id].frames))
    case Rollback(id) =>
      if !Live(s, id) || Restore(s.branches[id].frames).None? then s
      else SetFrames(s, id, Restore(s.branches[id].frames).value)
    case Commit(id, state, index) =>
      if !Live(s, id) || s.head.commit + 1 >= U64 then s
      else
        Committed(s, id, s.branches[id].frames.view, state, index)
    case Discard(id) => s.(branches := s.branches - {id})
  }

  /** The roots of every commit before the head, and no others. */
  ghost predicate RootsChain(cells: CellMap, past: seq<Head>) {
    && (forall c :: 0 <= c < |past| ==> Get(cells, RootsKey(c)) == Some(RootsValue(past[c])))
    && (forall c :: |past| <= c < U64 ==> RootsKey(c) !in cells)
  }

  /** A branch state that continues the committed one. */
  ghost predicate Continues(ok: CellValue -> bool, limits: Limits, cells: CellMap, view: CellMap) {
    Kept(ok, view, limits) && Onward(cells, view)
  }

  ghost predicate WorkOk(ok: CellValue -> bool, limits: Limits, s: State, w: Work) {
    && w.origin <= s.head.commit
    && (w.origin == s.head.commit ==>
          FramesOk(ok, limits, s.cells, w.frames))
  }

  /** Every state the branch shows or can return to continues the committed one. */
  ghost predicate FramesOk(ok: CellValue -> bool, limits: Limits, cells: CellMap, f: Stack) {
    && Continues(ok, limits, cells, f.view)
    && forall i :: 0 <= i < |f.saved| ==> Continues(ok, limits, cells, f.saved[i])
  }

  /** Committed IDs lie below the allocator and keep the key they were committed with. */
  ghost predicate OwnersOk(cells: CellMap, owners: map<RecordId, RecordKey>) {
    && NextOf(cells).Some?
    && (forall id :: id in owners ==> FIRST_USER <= id < NextOf(cells).value)
    && (forall id: RecordId :: id >= FIRST_USER && KeyOf(cells, id).Some? ==> Get(owners, id) == KeyOf(cells, id))
  }

  ghost predicate Inv(ok: CellValue -> bool, limits: Limits, s: State) {
    && Kept(ok, s.cells, limits)
    && |s.past| == s.head.commit < U64 && RootsChain(s.cells, s.past)
    && (forall c :: 0 <= c < |s.past| ==> s.past[c].commit == c)
    && OwnersOk(s.cells, s.owners)
    && (forall id :: id in s.branches ==> WorkOk(ok, limits, s, s.branches[id]))
  }

  /** Nothing committed is taken back: roots, keys of IDs, the allocator; and an ID whose record was
      deleted never returns. */
  ghost predicate Later(s: State, s': State) {
    && s.head.commit <= s'.head.commit && s.past <= s'.past
    && (forall id :: id in s.owners ==> Get(s'.owners, id) == Some(s.owners[id]))
    && NextOf(s.cells).Some? && NextOf(s'.cells).Some? && NextOf(s.cells).value <= NextOf(s'.cells).value
    && (forall id :: id in s.owners && KeyOf(s.cells, id).None? ==> KeyOf(s'.cells, id).None?)
  }

  lemma {:induction false} ContinuesSelf(ok: CellValue -> bool, limits: Limits, cells: CellMap)
    requires Kept(ok, cells, limits)
    ensures Continues(ok, limits, cells, cells)
  {
  }

  /** A branch step keeps the branch's states continuing the committed one. */
  lemma {:induction false} WriteKeeps(ok: CellValue -> bool, limits: Limits, cells: CellMap, view: CellMap,
                                      op: RecordOp)
    requires SystemOk(ok) && OpOk(ok, op) && Continues(ok, limits, cells, view) && Do(view, op).Ok?
    ensures Continues(ok, limits, cells, Do(view, op).value)
  {
    DoKeeps(ok, view, limits, op);
    OnwardOn(cells, view, Do(view, op).value);
  }

  lemma {:induction false} SetKeeps(ok: CellValue -> bool, limits: Limits, s: State, id: nat, w: Work)
    requires Inv(ok, limits, s) && WorkOk(ok, limits, s, w)
    ensures Inv(ok, limits, SetWork(s, id, w)) && Later(s, SetWork(s, id, w))
  {
    var s' := SetWork(s, id, w);
    forall x | x in s'.branches
      ensures WorkOk(ok, limits, s', s'.branches[x])
    {
      assert x != id ==> WorkOk(ok, limits, s, s.branches[x]);
    }
  }

  // ---- Commit ----

  /** The roots cell is none of the cells the record layer reads. */
  lemma {:induction false} PublishSystem(s: State, view: CellMap)
    ensures NextOf(Publish(s.head, view)) == NextOf(view)
    ensures forall id: RecordId :: KeyOf(Publish(s.head, view), id) == KeyOf(view, id)
    ensures forall key: RecordKey :: Get(Publish(s.head, view), Binding(key)) == Get(view, Binding(key))
    ensures forall i :: 0 <= i < 3 ==> Get(Publish(s.head, view), Limit(i)) == Get(view, Limit(i))
  {
    forall id: RecordId
      ensures KeyOf(Publish(s.head, view), id) == KeyOf(view, id)
    {
      assert |Ident(id).name| != |RootsKey(s.head.commit).name|;
    }
  }

  lemma {:induction false} PublishKept(ok: CellValue -> bool, limits: Limits, s: State, view: CellMap)
    requires SystemOk(ok) && Kept(ok, view, limits)
    ensures Kept(ok, Publish(s.head, view), limits)
  {
    var cells := Publish(s.head, view);
    PublishSystem(s, view);
    PublishLinked(s, view);
    forall i | 0 <= i < 7
      ensures Get(cells, Ident(Catalogue()[i].0)) == Get(view, Ident(Catalogue()[i].0))
    {
      assert |Ident(Catalogue()[i].0).name| != |RootsKey(s.head.commit).name|;
    }
    SameFounded(view, cells, limits);
    assert ok(RootsValue(s.head));
  }

  lemma {:induction false} PublishLinked(s: State, view: CellMap)
    requires Linked(view)
    ensures Linked(Publish(s.head, view))
  {
    var cells := Publish(s.head, view);
    PublishSystem(s, view);
    forall k | k in cells && k.id >= FIRST_USER
      ensures k.id < NextOf(cells).value && Owned(cells, k.id)
    {
      assert k in view && Owned(view, k.id);
    }
    forall key: RecordKey | Binding(key) in cells && ByKey(key).None?
      ensures Bound(cells, key)
    {
      assert Get(cells, Binding(key)) == Get(view, Binding(key));
      assert Bound(view, key);
    }
  }

  /** The published cells hold the roots of every commit up to the replaced head. */
  lemma {:induction false} PublishRoots(s: State, view: CellMap)
    requires |s.past| == s.head.commit && s.head.commit + 1 < U64 && RootsChain(s.cells, s.past)
    requires Onward(s.cells, view)
    ensures RootsKey(s.head.commit) !in view
    ensures RootsChain(Publish(s.head, view), s.past + [s.head])
  {
    var cells, past := Publish(s.head, view), s.past + [s.head];
    forall c | 0 <= c < U64
      ensures Untouchable(RootsKey(c)) && Get(view, RootsKey(c)) == Get(s.cells, RootsKey(c))
      ensures Get(cells, RootsKey(c)) == if c == s.head.commit then Some(RootsValue(s.head))
                else Get(s.cells, RootsKey(c))
    {
      assert Untouchable(RootsKey(c));
      if RootsKey(c) == RootsKey(s.head.commit) {
        RootsApart(c, s.head.commit);
      }
    }
    assert RootsKey(s.head.commit) !in s.cells;
    forall c | |past| <= c < U64
      ensures RootsKey(c) !in cells
    {
      assert Get(cells, RootsKey(c)) == Get(s.cells, RootsKey(c));
    }
  }

  /** Every occupied user ID has its identity listed. */
  lemma {:induction false} IdentitiesAt(cells: CellMap, id: RecordId)
    requires id >= FIRST_USER
    ensures Get(Identities(cells), id) == KeyOf(cells, id)
  {
    if KeyOf(cells, id).Some? {
      assert Ident(id) in cells;
    }
  }

  /** IDs committed before keep their keys; new IDs lie between the old allocator and the new. */
  lemma {:induction false} PublishOwners(s: State, cells: CellMap)
    requires OwnersOk(s.cells, s.owners) && Linked(cells) && IdsOnward(s.cells, cells)
    ensures OwnersOk(cells, s.owners + Identities(cells))
    ensures forall id :: id in s.owners ==> Get(s.owners + Identities(cells), id) == Some(s.owners[id])
    ensures forall id :: id in s.owners && KeyOf(s.cells, id).None? ==> KeyOf(cells, id).None?
  {
    forall id: RecordId
      ensures id in Identities(cells) ==> FIRST_USER <= id < NextOf(cells).value
      ensures id >= FIRST_USER && KeyOf(cells, id).Some? ==> Get(s.owners + Identities(cells), id) == KeyOf(cells, id)
    {
      if id >= FIRST_USER {
        IdentitiesAt(cells, id);
      }
    }
    forall id | id in s.owners
      ensures Get(s.owners + Identities(cells), id) == Some(s.owners[id])
      ensures KeyOf(s.cells, id).None? ==> KeyOf(cells, id).None?
    {
      IdentitiesAt(cells, id);
      if KeyOf(cells, id).Some? {
        assert KeyOf(cells, id) == KeyOf(s.cells, id);
      }
    }
  }

  lemma {:induction false} PublishOnward(s: State, view: CellMap)
    requires IdsOnward(s.cells, view)
    ensures IdsOnward(s.cells, Publish(s.head, view))
  {
    PublishSystem(s, view);
  }

  /** The state a commit of `view` leads to. */
  function Committed(s: State, id: nat, view: CellMap, state: Hash, index: Hash): State {
    var cells := Publish(s.head, view);
    State(Head(s.head.commit + 1, state, index), cells, s.past + [s.head], s.branches - {id},
          s.owners + Identities(cells))
  }

  lemma {:induction false} CommitInv(ok: CellValue -> bool, limits: Limits, s: State, id: nat, view: CellMap,
                                     state: Hash, index: Hash)
    requires SystemOk(ok) && Inv(ok, limits, s) && Continues(ok, limits, s.cells, view) && s.head.commit + 1 < U64
    ensures Inv(ok, limits, Committed(s, id, view, state, index))
  {
    PublishKept(ok, limits, s, view);
    PublishRoots(s, view);
    PublishOnward(s, view);
    PublishOwners(s, Publish(s.head, view));
    var s' := Committed(s, id, view, state, index);
    forall x | x in s'.branches
      ensures WorkOk(ok, limits, s', s'.branches[x])
    {
      assert WorkOk(ok, limits, s, s.branches[x]);
    }
  }

  lemma {:induction false} CommitLater(s: State, id: nat, view: CellMap, state: Hash, index: Hash)
    requires OwnersOk(s.cells, s.owners) && Linked(view) && IdsOnward(s.cells, view)
    ensures Later(s, Committed(s, id, view, state, index))
  {
    PublishOnward(s, view);
    PublishLinked(s, view);
    PublishOwners(s, Publish(s.head, view));
  }

  lemma {:induction false} CommitKeeps(ok: CellValue -> bool, limits: Limits, s: State, a: Action)
    requires SystemOk(ok) && Inv(ok, limits, s) && a.Commit? && Live(s, a.id) && s.head.commit + 1 < U64
    ensures Inv(ok, limits, Step(s, a)) && Later(s, Step(s, a))
  {
    var view := s.branches[a.id].frames.view;
    assert WorkOk(ok, limits, s, s.branches[a.id]);
    CommitInv(ok, limits, s, a.id, view, a.state, a.index);
    CommitLater(s, a.id, view, a.state, a.index);
    assert Step(s, a) == Committed(s, a.id, view, a.state, a.index);
  }

  // ---- Every run ----

  /** The operation of a write carries well-formed values. */
  ghost predicate ActionOk(ok: CellValue -> bool, a: Action) {
    a.Write? ==> OpOk(ok, a.op)
  }

  lemma {:induction false} StepKeeps(ok: CellValue -> bool, limits: Limits, s: State, a: Action)
    requires SystemOk(ok) && Inv(ok, limits, s) && ActionOk(ok, a)
    ensures Inv(ok, limits, Step(s, a)) && Later(s, Step(s, a))
  {
    if a.Begin? {
      if a.id !in s.branches {
        ContinuesSelf(ok, limits, s.cells);
        SetKeeps(ok, limits, s, a.id, Work(s.head.commit, Fresh(s.cells)));
      }
    } else if a.Discard? {
      DiscardKeeps(ok, limits, s, a.id);
    } else if a.Commit? {
      if Live(s, a.id) && s.head.commit + 1 < U64 {
        CommitKeeps(ok, limits, s, a);
      }
    } else if Live(s, a.id) {
      BranchKeeps(ok, limits, s, a);
    }
  }

  lemma {:induction false} DiscardKeeps(ok: CellValue -> bool, limits: Limits, s: State, id: nat)
    requires Inv(ok, limits, s)
    ensures Inv(ok, limits, s.(branches := s.branches - {id})) && Later(s, s.(branches := s.branches - {id}))
  {
    var s' := s.(branches := s.branches - {id});
    forall x | x in s'.branches
      ensures WorkOk(ok, limits, s', s'.branches[x])
    {
      assert WorkOk(ok, limits, s, s.branches[x]);
    }
  }

  lemma {:induction false} BranchKeeps(ok: CellValue -> bool, limits: Limits, s: State, a: Action)
    requires SystemOk(ok) && Inv(ok, limits, s) && ActionOk(ok, a) && (a.Write? || a.Checkpoint? || a.Rollback?)
    requires Live(s, a.id)
    ensures Inv(ok, limits, Step(s, a)) && Later(s, Step(s, a))
  {
    var w := s.branches[a.id];
    assert WorkOk(ok, limits, s, w);
    if a.Write? {
      PerformOk(ok, limits, s.cells, w.frames, a.op);
      SetKeeps(ok, limits, s, a.id, w.(frames := Perform(w.frames, a.op)));
    } else if a.Checkpoint? {
      SetKeeps(ok, limits, s, a.id, w.(frames := Save(w.frames)));
    } else if Restore(w.frames).Some? {
      SetKeeps(ok, limits, s, a.id, w.(frames := Restore(w.frames).value));
    }
  }

  lemma {:induction false} PerformOk(ok: CellValue -> bool, limits: Limits, cells: CellMap, f: Stack, op: RecordOp)
    requires SystemOk(ok) && OpOk(ok, op) && FramesOk(ok, limits, cells, f)
    ensures FramesOk(ok, limits, cells, Perform(f, op))
  {
    if Do(f.view, op).Ok? {
      WriteKeeps(ok, limits, cells, f.view, op);
      WroteOk(ok, limits, cells, f, Do(f.view, op).value, Writes(f.view, op));
    }
  }

  lemma {:induction false} WroteOk(ok: CellValue -> bool, limits: Limits, cells: CellMap, f: Stack, view: CellMap,
                                   wrote: bool)
    requires FramesOk(ok, limits, cells, f) && Continues(ok, limits, cells, view)
    ensures FramesOk(ok, limits, cells, Wrote(f, view, wrote))
  {
    var saved := Wrote(f, view, wrote).saved;
    forall i | 0 <= i < |saved|
      ensures Continues(ok, limits, cells, saved[i])
    {
      assert i < |f.saved| ==> saved[i] == f.saved[i];
    }
  }

  function Run(s: State, actions: seq<Action>): State {
    if actions == [] then s else Step(Run(s, actions[..|actions| - 1]), actions[|actions| - 1])
  }

  lemma {:induction false} LaterOn(a: State, b: State, c: State)
    requires Later(a, b) && Later(b, c)
    ensures Later(a, c)
  {
    forall id | id in a.owners
      ensures Get(c.owners, id) == Some(a.owners[id])
    {
      assert Get(b.owners, id) == Some(a.owners[id]);
    }
  }

  /** Whatever branches do, identities, allocation and roots stay in order, and nothing committed is
      taken back. */
  lemma {:induction false} RunKeeps(ok: CellValue -> bool, limits: Limits, s: State, actions: seq<Action>)
    requires SystemOk(ok) && Inv(ok, limits, s) && forall i :: 0 <= i < |actions| ==> ActionOk(ok, actions[i])
    ensures Inv(ok, limits, Run(s, actions)) && Later(s, Run(s, actions))
    decreases |actions|
  {
    if actions != [] {
      var init := actions[..|actions| - 1];
      RunKeeps(ok, limits, s, init);
      StepKeeps(ok, limits, Run(s, init), actions[|actions| - 1]);
      LaterOn(s, Run(s, init), Run(s, actions));
    }
  }

  /** A live branch never meets a corrupt state, and never finds its head's roots already stored. */
  lemma {:induction false} NeverCorrupt(ok: CellValue -> bool, limits: Limits, s: State, actions: seq<Action>, id: nat,
                                        op: RecordOp)
    requires SystemOk(ok) && Inv(ok, limits, s) && OpOk(ok, op)
    requires forall i :: 0 <= i < |actions| ==> ActionOk(ok, actions[i])
    requires Live(Run(s, actions), id)
    ensures Do(Run(s, actions).branches[id].frames.view, op) != Err(CorruptState)
    ensures RootsKey(Run(s, actions).head.commit) !in Run(s, actions).branches[id].frames.view
  {
    RunKeeps(ok, limits, s, actions);
    var s' := Run(s, actions);
    assert WorkOk(ok, limits, s', s'.branches[id]);
    DoKeeps(ok, s'.branches[id].frames.view, limits, op);
    var k := RootsKey(s'.head.commit);
    assert Untouchable(k) && k !in s'.cells;
    assert Get(s'.branches[id].frames.view, k) == Get(s'.cells, k);
  }

  /** A record created in any branch gets an ID that no commit so far has used. */
  lemma {:induction false} FreshId(ok: CellValue -> bool, limits: Limits, s: State, actions: seq<Action>, id: nat,
                                   key: RecordKey, values: seq<NamedValue>)
    requires SystemOk(ok) && Inv(ok, limits, s) && forall i :: 0 <= i < |actions| ==> ActionOk(ok, actions[i])
    requires Live(Run(s, actions), id) && CreatePlan(Run(s, actions).branches[id].frames.view, key, values).Ok?
    ensures CreatePlan(Run(s, actions).branches[id].frames.view, key, values).value.0 !in Run(s, actions).owners
  {
    RunKeeps(ok, limits, s, actions);
    var s' := Run(s, actions);
    assert WorkOk(ok, limits, s', s'.branches[id]);
    CreateChecks(s'.branches[id].frames.view, limits, key, values);
  }

  // ---- What a branch comes to ----

  /** A call on the branch itself: an operation, a checkpoint or a rollback. */
  predicate OwnCall(a: Action, id: nat) {
    a.id == id && (a.Write? || a.Checkpoint? || a.Rollback?)
  }

  /** A branch's frames after its own calls among these; a rollback without frames is refused. */
  ghost function Called(f: Stack, actions: seq<Action>, id: nat): Stack {
    if actions == [] then f
    else
      var g, a := Called(f, actions[..|actions| - 1], id), actions[|actions| - 1];
      if !OwnCall(a, id) then g
      else if a.Write? then PerformAll(g, [a.op])
      else if a.Checkpoint? then Stack(g.view, g.saved + [g.view], false)
      else if g.saved == [] then g
      else Stack(g.saved[|g.saved| - 1], g.saved[..|g.saved| - 1], true)
  }

  /** The actions leave the head and the branch's registration alone. */
  ghost predicate Quiet(actions: seq<Action>, id: nat) {
    forall i :: 0 <= i < |actions| ==> !actions[i].Commit? && !(actions[i].Discard? && actions[i].id == id)
  }

  /** Until some branch commits, a branch is what its own calls make of it, whatever the others do. */
  lemma {:induction false} BranchAlone(s: State, actions: seq<Action>, id: nat)
    requires Live(s, id) && Quiet(actions, id)
    ensures var s' := Run(s, actions);
            && s'.head == s.head && s'.cells == s.cells && s'.past == s.past && s'.owners == s.owners
            && id in s'.branches
            && s'.branches[id] == Work(s.branches[id].origin, Called(s.branches[id].frames, actions, id))
    decreases |actions|
  {
    if actions != [] {
      var init, a := actions[..|actions| - 1], actions[|actions| - 1];
      BranchAlone(s, init, id);
      if a.Write? {
        OneCall(Called(s.branches[id].frames, init, id), a);
      }
    }
  }

  lemma {:induction false} OneCall(f: Stack, a: Action)
    requires a.Write?
    ensures PerformAll(f, [a.op]) == Perform(f, a.op)
  {
    assert [a.op][..0] == [];
  }

  /** A branch opened, worked on beside any others and committed before them: the committed cells are what
      its calls make of the cells it was opened over, with the roots of the head it replaced. */
  lemma {:induction false} CommitPublishes(s: State, actions: seq<Action>, id: nat, state: Hash, index: Hash)
    requires id !in s.branches && Quiet(actions, id) && s.head.commit + 1 < U64
    ensures var s' := Step(Run(Step(s, Begin(id)), actions), Commit(id, state, index));
            && s'.head == Head(s.head.commit + 1, state, index) && s'.past == s.past + [s.head]
            && s'.cells == Publish(s.head, Called(Stack(s.cells, [s.cells], false), actions, id).view)
            && id !in s'.branches
  {
    BranchAlone(Step(s, Begin(id)), actions, id);
  }

  /** A branch discarded after any calls leaves nothing behind. */
  lemma {:induction false} DiscardForgets(s: State, actions: seq<Action>, id: nat)
    requires id !in s.branches && forall i :: 0 <= i < |actions| ==> OwnCall(actions[i], id)
    ensures Step(Run(Step(s, Begin(id)), actions), Discard(id)) == s
  {
    OthersStay(Step(s, Begin(id)), actions, id);
    BranchAlone(Step(s, Begin(id)), actions, id);
    assert Run(Step(s, Begin(id)), actions).branches - {id} == s.branches;
  }

  lemma {:induction false} OthersStay(s: State, actions: seq<Action>, id: nat)
    requires forall i :: 0 <= i < |actions| ==> OwnCall(actions[i], id)
    ensures Run(s, actions).branches - {id} == s.branches - {id}
    decreases |actions|
  {
    if actions != [] {
      OthersStay(s, actions[..|actions| - 1], id);
    }
  }

  /** Once another commit has replaced the head a branch was opened over, its calls and its commit do nothing. */
  lemma {:induction false} StaleIsInert(s: State, actions: seq<Action>, id: nat, a: Action)
    requires Stale(s, id) && (OwnCall(a, id) || (a.Commit? && a.id == id))
    requires forall i :: 0 <= i < |actions| ==> !(actions[i].Discard? && actions[i].id == id)
    ensures Stale(Run(s, actions), id) && Run(s, actions).branches[id] == s.branches[id]
    ensures Step(Run(s, actions), a) == Run(s, actions)
    decreases |actions|
  {
    if actions != [] {
      StaleIsInert(s, actions[..|actions| - 1], id, a);
      StaysStale(Run(s, actions[..|actions| - 1]), actions[|actions| - 1], id);
    }
  }

  /** The branch was opened over a head that has been replaced since. */
  predicate Stale(s: State, id: nat) {
    id in s.branches && s.branches[id].origin < s.head.commit
  }

  lemma {:induction false} StaysStale(s: State, a: Action, id: nat)
    requires Stale(s, id) && !(a.Discard? && a.id == id)
    ensures Stale(Step(s, a), id) && Step(s, a).branches[id] == s.branches[id]
  {
  }
}
