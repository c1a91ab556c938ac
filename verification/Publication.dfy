/** Branches over one store: admission, cached seals, and publication by a single writer. */
module Publication {
  import opened Wrappers
  import opened Lex
  import opened Words
  import opened Cursor
  import opened Buffered

  type Entries = Writes

  /** Sealing a branch over a head: the rows to write, or a failed seal. Deterministic. */
  type Seal = (nat, Rows, Entries) -> Option<Writes>

  datatype Slot = Live(origin: nat, overlay: Entries, sealed: Option<Writes>) | Consumed

  /** How far the call holding a branch's lock has come. */
  datatype Phase = Idle | Locked(commit: bool) | Admitted(snapshot: Rows, commit: bool) | Writing

  datatype Branch = Branch(manager: nat, slot: Slot, phase: Phase)

  /** One publication: which branch, the head it was opened over, the new head. */
  datatype Record = Record(id: nat, origin: nat, overlay: Entries, commit: nat)

  /** The shared store and counter, every manager's branches, and the past. */
  datatype State = State(
    head: nat,
    history: map<nat, Rows>,
    writer: Option<nat>,
    nextId: nat,
    branches: map<nat, Branch>,
    log: seq<Record>)

  /** One atomic step of one thread. Failures of storage are arguments. */
  datatype Action =
    | Begin(manager: nat, origin: nat)
    | Lock(manager: nat, id: nat, commit: bool)
    | Admit(id: nat, ok: bool)
    | Edit(id: nat, overlay: Entries)
    | SealBranch(id: nat, ok: bool)
    | Release(id: nat)
    | Discard(id: nat)
    | OpenWriter(id: nat)
    | Publish(id: nat, ok: bool)
    | External(newHead: nat, rows: Rows)

  datatype Reply = Done | Begun(id: nat) | Published(commit: nat) | HandleInvalid | Conflict | Sealed | Failed | Waiting

  const MAX: nat := U64 - 1

  function Committed(s: State): Rows {
    if s.head in s.history then s.history[s.head] else map[]
  }

  function SetBranch(s: State, id: nat, b: Branch): State {
    s.(branches := s.branches[id := b])
  }

  predicate IsLive(s: State, id: nat) {
    id in s.branches && s.branches[id].slot.Live?
  }

  /** A commit whose branch was admitted and sealed. */
  predicate CanWrite(b: Branch)
    requires b.slot.Live?
  {
    b.phase.Admitted? && b.phase.commit && b.slot.sealed.Some?
  }

  /** Every step, total: a step that is not possible changes nothing and says so. */
  function Do(seal: Seal, s: State, a: Action): (State, Reply) {
    match a
    case Begin(manager, origin) =>
      // The head was read before the branch is registered, and may have moved since.
      if s.nextId >= MAX || origin !in s.history then (s, Failed)
      else (SetBranch(s, s.nextId, Branch(manager, Live(origin, map[], None), Idle)).(nextId := s.nextId + 1),
            Begun(s.nextId))
    case Lock(manager, id, commit) =>
      if id !in s.branches || s.branches[id].manager != manager || s.branches[id].slot.Consumed? then (s, HandleInvalid)
      else if !s.branches[id].phase.Idle? then (s, Waiting)
      else (SetBranch(s, id, s.branches[id].(phase := Locked(commit))), Done)
    case Admit(id, ok) =>
      if !IsLive(s, id) || !s.branches[id].phase.Locked? then (s, HandleInvalid)
      else
        var b := s.branches[id];
        if !ok then (SetBranch(s, id, b.(phase := Idle)), Failed)
        else if s.head != b.slot.origin then
          (SetBranch(s, id, Branch(b.manager, Consumed, Idle)), if b.phase.commit then Conflict else HandleInvalid)
        else (SetBranch(s, id, b.(phase := Admitted(Committed(s), b.phase.commit))), Done)
    case Edit(id, overlay) =>
      if !IsLive(s, id) || !s.branches[id].phase.Admitted? then (s, HandleInvalid)
      else
        var b := s.branches[id];
        if b.slot.sealed.Some? then (SetBranch(s, id, b.(phase := Idle)), Sealed)
        else (SetBranch(s, id, b.(slot := b.slot.(overlay := overlay), phase := Idle)), Done)
    case SealBranch(id, ok) =>
      if !IsLive(s, id) || !s.branches[id].phase.Admitted? then (s, HandleInvalid)
      else
        var b := s.branches[id];
        if b.slot.sealed.Some? then (s, Done)
        else if !ok then (SetBranch(s, id, b.(phase := Idle)), Failed)
        else
          var computed := seal(b.slot.origin, b.phase.snapshot, b.slot.overlay);
          if computed.None? then (SetBranch(s, id, b.(phase := Idle)), Failed)
          else (SetBranch(s, id, b.(slot := b.slot.(sealed := computed))), Done)
    case Release(id) =>
      if !IsLive(s, id) || !s.branches[id].phase.Admitted? then (s, HandleInvalid)
      else (SetBranch(s, id, s.branches[id].(phase := Idle)), Done)
    case Discard(id) =>
      if !IsLive(s, id) || !s.branches[id].phase.Admitted? then (s, HandleInvalid)
      else (SetBranch(s, id, Branch(s.branches[id].manager, Consumed, Idle)), Done)
    case OpenWriter(id) =>
      if !IsLive(s, id) || !CanWrite(s.branches[id]) then (s, HandleInvalid)
      else if s.writer.Some? then (s, Waiting)
      else (SetBranch(s, id, s.branches[id].(phase := Writing)).(writer := Some(id)), Done)
    case Publish(id, ok) =>
      if !IsLive(s, id) || !s.branches[id].phase.Writing? || s.branches[id].slot.sealed.None? then (s, HandleInvalid)
      else
        var b := s.branches[id];
        // A failure while reading head, replaying rows or committing drops the writer; the seal is kept.
        if !ok then (SetBranch(s, id, b.(phase := Idle)).(writer := None), Failed)
        else if s.head != b.slot.origin then
          (SetBranch(s, id, Branch(b.manager, Consumed, Idle)).(writer := None), Conflict)
        else
          var next := s.head + 1;
          (SetBranch(s, id, Branch(b.manager, Consumed, Idle)).(
             writer := None,
             head := next,
             history := s.history[next := Merged(Committed(s), b.slot.sealed.value)],
             log := s.log + [Record(id, b.slot.origin, b.slot.overlay, next)]),
           Published(next))
    case External(newHead, rows) =>
      if s.writer.Some? then (s, Waiting)
      else if newHead <= s.head then (s, Failed)
      else (s.(head := newHead, history := s.history[newHead := rows]), Done)
  }

  // ---- What every step keeps ----

  ghost predicate BranchOk(seal: Seal, s: State, id: nat, b: Branch) {
    && id < s.nextId
    && (b.slot.Live? ==>
          && b.slot.origin in s.history
          && (b.slot.sealed.Some? ==> seal(b.slot.origin, s.history[b.slot.origin], b.slot.overlay) == b.slot.sealed)
          && (b.phase.Admitted? ==> b.phase.snapshot == s.history[b.slot.origin])
          && (b.phase.Writing? ==> s.writer == Some(id) && b.slot.sealed.Some?))
    && (b.slot.Consumed? ==> b.phase.Idle?)
  }

  /** A publication put the sealed state of its origin at the next head. */
  ghost predicate RecordOk(seal: Seal, s: State, r: Record) {
    && r.commit == r.origin + 1 && r.commit <= s.head
    && r.origin in s.history && r.commit in s.history
    && seal(r.origin, s.history[r.origin], r.overlay).Some?
    && s.history[r.commit] == Merged(s.history[r.origin], seal(r.origin, s.history[r.origin], r.overlay).value)
    && r.id in s.branches && s.branches[r.id].slot.Consumed?
  }

  ghost predicate Inv(seal: Seal, s: State) {
    && s.head in s.history
    && (forall h :: h in s.history ==> h <= s.head)
    && (forall id :: id in s.branches ==> BranchOk(seal, s, id, s.branches[id]))
    && (s.writer.Some? ==>
          && s.writer.value in s.branches && s.branches[s.writer.value].slot.Live?
          && s.branches[s.writer.value].phase.Writing?)
    && (forall i :: 0 <= i < |s.log| ==> RecordOk(seal, s, s.log[i]))
    && (forall i, j :: 0 <= i < j < |s.log| ==> s.log[i].commit < s.log[j].commit && s.log[i].id != s.log[j].id)
  }

  /** What can only grow: published states, consumed branches, the log, the counter. */
  ghost predicate Later(s: State, s': State) {
    && s.head <= s'.head && s.nextId <= s'.nextId
    && (forall h :: h in s.history ==> h in s'.history && s'.history[h] == s.history[h])
    && (forall id :: id in s.branches ==>
          && id in s'.branches && s'.branches[id].manager == s.branches[id].manager
          && (s.branches[id].slot.Consumed? ==> s'.branches[id] == s.branches[id])
          && (s'.branches[id].slot.Live? ==> s'.branches[id].slot.origin == s.branches[id].slot.origin))
    && s.log <= s'.log
  }

  /** What one step may do to the published state: nothing, unless it publishes or is an outside writer. */
  ghost predicate Publishes(s: State, a: Action, s': State, r: Reply) {
    && (r.Published? ==>
          && a.Publish? && a.ok && r.commit == s.head + 1 && s'.head == r.commit
          && |s'.log| == |s.log| + 1 && s'.log[|s.log|].id == a.id
          && s.writer == Some(a.id) && s'.writer == None)
    && (!r.Published? && !a.External? ==> s'.head == s.head && s'.history == s.history && s'.log == s.log)
  }

  /** Replacing one live branch, and with it the writer, keeps everything else. */
  lemma {:induction false} SetKeeps(seal: Seal, s: State, id: nat, b: Branch, writer: Option<nat>)
    requires Inv(seal, s) && IsLive(s, id) && BranchOk(seal, s.(writer := writer), id, b)
    requires b.manager == s.branches[id].manager && (b.slot.Live? ==> b.slot.origin == s.branches[id].slot.origin)
    requires writer.Some? ==> (if writer.value == id then b.slot.Live? && b.phase.Writing? else writer == s.writer)
    requires s.writer.Some? && s.writer.value != id ==> writer == s.writer
    ensures var s' := SetBranch(s, id, b).(writer := writer); Inv(seal, s') && Later(s, s')
  {
    var s' := SetBranch(s, id, b).(writer := writer);
    forall x | x in s'.branches
      ensures BranchOk(seal, s', x, s'.branches[x])
    {
      if x != id {
        assert BranchOk(seal, s, x, s.branches[x]);
      }
    }
    forall i | 0 <= i < |s.log|
      ensures RecordOk(seal, s', s.log[i])
    {
      assert RecordOk(seal, s, s.log[i]);
    }
  }

  ghost predicate Keeps(seal: Seal, s: State, a: Action) {
    var (s', r) := Do(seal, s, a);
    Inv(seal, s') && Later(s, s') && Publishes(s, a, s', r)
  }

  /** A step that replaces a live branch, and no more. */
  lemma {:induction false} LocalKeeps(seal: Seal, s: State, a: Action, id: nat, b: Branch, writer: Option<nat>,
                                      r: Reply)
    requires Inv(seal, s) && IsLive(s, id) && BranchOk(seal, s.(writer := writer), id, b)
    requires b.manager == s.branches[id].manager && (b.slot.Live? ==> b.slot.origin == s.branches[id].slot.origin)
    requires writer.Some? ==> (if writer.value == id then b.slot.Live? && b.phase.Writing? else writer == s.writer)
    requires s.writer.Some? && s.writer.value != id ==> writer == s.writer
    requires Do(seal, s, a) == (SetBranch(s, id, b).(writer := writer), r) && !r.Published?
    ensures Keeps(seal, s, a)
  {
    SetKeeps(seal, s, id, b, writer);
  }

  lemma {:induction false} IdleKeeps(seal: Seal, s: State, a: Action)
    requires Inv(seal, s) && Do(seal, s, a).0 == s && !Do(seal, s, a).1.Published?
    ensures Keeps(seal, s, a)
  {
  }

  lemma {:induction false} AdmitKeeps(seal: Seal, s: State, a: Action)
    requires Inv(seal, s) && (a.Lock? || a.Admit?)
    ensures Keeps(seal, s, a)
  {
    var (s', r) := Do(seal, s, a);
    if s' == s {
      IdleKeeps(seal, s, a);
    } else {
      assert BranchOk(seal, s, a.id, s.branches[a.id]);
      assert s' == SetBranch(s, a.id, s'.branches[a.id]);
      LocalKeeps(seal, s, a, a.id, s'.branches[a.id], s.writer, r);
    }
  }

  lemma {:induction false} EditKeeps(seal: Seal, s: State, a: Action)
    requires Inv(seal, s) && (a.Edit? || a.SealBranch?)
    ensures Keeps(seal, s, a)
  {
    var (s', r) := Do(seal, s, a);
    if s' == s {
      IdleKeeps(seal, s, a);
    } else {
      assert BranchOk(seal, s, a.id, s.branches[a.id]);
      assert s' == SetBranch(s, a.id, s'.branches[a.id]);
      LocalKeeps(seal, s, a, a.id, s'.branches[a.id], s.writer, r);
    }
  }

  lemma {:induction false} LeaveKeeps(seal: Seal, s: State, a: Action)
    requires Inv(seal, s) && (a.Release? || a.Discard? || a.OpenWriter?)
    ensures Keeps(seal, s, a)
  {
    var (s', r) := Do(seal, s, a);
    if s' == s {
      IdleKeeps(seal, s, a);
    } else {
      assert BranchOk(seal, s, a.id, s.branches[a.id]);
      LocalKeeps(seal, s, a, a.id, s'.branches[a.id], s'.writer, r);
    }
  }

  lemma {:induction false} BeginKeeps(seal: Seal, s: State, a: Action)
    requires Inv(seal, s) && a.Begin?
    ensures Keeps(seal, s, a)
  {
    var s' := Do(seal, s, a).0;
    assert forall x :: x in s.branches ==> BranchOk(seal, s, x, s.branches[x]) && x < s.nextId;
    forall x | x in s'.branches
      ensures BranchOk(seal, s', x, s'.branches[x])
    {
      if x in s.branches {
        assert BranchOk(seal, s, x, s.branches[x]);
      }
    }
    forall i | 0 <= i < |s.log|
      ensures RecordOk(seal, s', s.log[i])
    {
      assert RecordOk(seal, s, s.log[i]);
    }
  }

  /** A new head disturbs no branch and no earlier publication. */
  lemma {:induction false} HeadKeeps(seal: Seal, s: State, newHead: nat, rows: Rows)
    requires Inv(seal, s) && newHead > s.head
    ensures var s' := s.(head := newHead, history := s.history[newHead := rows]); Inv(seal, s') && Later(s, s')
  {
    var s' := s.(head := newHead, history := s.history[newHead := rows]);
    assert newHead !in s.history;
    forall x | x in s'.branches
      ensures BranchOk(seal, s', x, s'.branches[x])
    {
      assert BranchOk(seal, s, x, s.branches[x]);
    }
    forall i | 0 <= i < |s.log|
      ensures RecordOk(seal, s', s.log[i])
    {
      assert RecordOk(seal, s, s.log[i]);
    }
  }

  lemma {:induction false} PublishKeeps(seal: Seal, s: State, a: Action)
    requires Inv(seal, s) && a.Publish?
    ensures Keeps(seal, s, a)
  {
    if IsLive(s, a.id) && s.branches[a.id].phase.Writing? {
      var b := s.branches[a.id];
      assert BranchOk(seal, s, a.id, b);
      var (s', r) := Do(seal, s, a);
      if !r.Published? {
        SetKeeps(seal, s, a.id, s'.branches[a.id], None);
      } else {
        PublishedKeeps(seal, s, a);
      }
    }
  }

  /** The step that publishes: the branch is consumed, the head moves, the log grows. */
  lemma {:induction false} PublishedKeeps(seal: Seal, s: State, a: Action)
    requires Inv(seal, s) && a.Publish? && IsLive(s, a.id) && Do(seal, s, a).1.Published?
    ensures Keeps(seal, s, a)
  {
    var b, next := s.branches[a.id], s.head + 1;
    assert BranchOk(seal, s, a.id, b);
    var consumed := Branch(b.manager, Consumed, Idle);
    SetKeeps(seal, s, a.id, consumed, None);
    var s1 := SetBranch(s, a.id, consumed).(writer := None);
    var rows := Merged(Committed(s), b.slot.sealed.value);
    HeadKeeps(seal, s1, next, rows);
    var s2 := s1.(head := next, history := s1.history[next := rows]);
    assert forall i :: 0 <= i < |s.log| ==> RecordOk(seal, s, s.log[i]);
    LogKeeps(seal, s2, Record(a.id, b.slot.origin, b.slot.overlay, next));
    LaterTwice(s, s1, s2);
  }

  lemma {:induction false} LogKeeps(seal: Seal, s: State, r: Record)
    requires Inv(seal, s) && RecordOk(seal, s, r)
    requires forall i :: 0 <= i < |s.log| ==> s.log[i].commit < r.commit && s.log[i].id != r.id
    ensures Inv(seal, s.(log := s.log + [r]))
  {
    var s' := s.(log := s.log + [r]);
    forall x | x in s'.branches
      ensures BranchOk(seal, s', x, s'.branches[x])
    {
      assert BranchOk(seal, s, x, s.branches[x]);
    }
    forall i | 0 <= i < |s'.log|
      ensures RecordOk(seal, s', s'.log[i])
    {
      assert RecordOk(seal, s, s'.log[i]);
    }
  }

  lemma {:induction false} LaterTwice(a: State, b: State, c: State)
    requires Later(a, b) && Later(b, c)
    ensures Later(a, c)
  {
  }

  /** Every step of every thread keeps the invariant. */
  lemma {:induction false} StepKeeps(seal: Seal, s: State, a: Action)
    requires Inv(seal, s)
    ensures var (s', r) := Do(seal, s, a); Inv(seal, s') && Later(s, s') && Publishes(s, a, s', r)
  {
    match a
    case Begin(_, _) => BeginKeeps(seal, s, a);
    case Publish(_, _) => PublishKeeps(seal, s, a);
    case External(newHead, rows) =>
      if s.writer.None? && newHead > s.head {
        HeadKeeps(seal, s, newHead, rows);
      }
    case Lock(_, _, _) => AdmitKeeps(seal, s, a);
    case Admit(_, _) => AdmitKeeps(seal, s, a);
    case Edit(_, _) => EditKeeps(seal, s, a);
    case SealBranch(_, _) => EditKeeps(seal, s, a);
    case _ => LeaveKeeps(seal, s, a);
  }

  // ---- Whole runs ----

  function Init(genesis: Rows): State {
    State(0, map[0 := genesis], None, 0, map[], [])
  }

  /** The state after every step of a run, the initial one first. */
  function RunFrom(seal: Seal, s: State, actions: seq<Action>): State {
    if actions == [] then s else Do(seal, RunFrom(seal, s, actions[..|actions| - 1]), actions[|actions| - 1]).0
  }

  lemma {:induction false} RunKeeps(seal: Seal, s: State, actions: seq<Action>)
    requires Inv(seal, s)
    ensures Inv(seal, RunFrom(seal, s, actions)) && Later(s, RunFrom(seal, s, actions))
    decreases |actions|
  {
    if actions != [] {
      var init := actions[..|actions| - 1];
      RunKeeps(seal, s, init);
      StepKeeps(seal, RunFrom(seal, s, init), actions[|actions| - 1]);
      LaterTwice(s, RunFrom(seal, s, init), RunFrom(seal, s, actions));
    }
  }

  /** In every interleaving from genesis, each publication took the state at its branch's origin,
      with the branch sealed over it, to the next head; heads are published once, and branches
      publish at most once. */
  lemma {:induction false} EveryRunPublishesSeals(seal: Seal, genesis: Rows, actions: seq<Action>)
    ensures var s := RunFrom(seal, Init(genesis), actions);
            && (forall i :: 0 <= i < |s.log| ==> RecordOk(seal, s, s.log[i]))
            && (forall i, j :: 0 <= i < j < |s.log| ==> s.log[i].commit < s.log[j].commit && s.log[i].id != s.log[j].id)
            && Get(s.history, 0) == Some(genesis)
  {
    RunKeeps(seal, Init(genesis), actions);
  }

  /** A consumed branch never acts again: it stays consumed, and no step through its handle changes anything. */
  lemma {:induction false} ConsumedForever(seal: Seal, s: State, actions: seq<Action>, id: nat, a: Action)
    requires Inv(seal, s) && id in s.branches && s.branches[id].slot.Consumed?
    requires !a.Begin? && !a.External? && a.id == id
    ensures var s' := RunFrom(seal, s, actions);
            && id in s'.branches && s'.branches[id].slot.Consumed?
            && Do(seal, s', a) == (s', HandleInvalid)
  {
    RunKeeps(seal, s, actions);
  }

  /** A cached seal is what sealing again would compute, however long it is kept. */
  lemma {:induction false} CachedSealHolds(seal: Seal, s: State, actions: seq<Action>, id: nat)
    requires Inv(seal, s)
    ensures var s' := RunFrom(seal, s, actions);
            id in s'.branches && s'.branches[id].slot.Live? && s'.branches[id].slot.sealed.Some? ==>
              var slot := s'.branches[id].slot;
              && slot.origin in s'.history
              && seal(slot.origin, s'.history[slot.origin], slot.overlay) == slot.sealed
              && (slot.origin == s'.head ==> Committed(s') == s'.history[slot.origin])
  {
    RunKeeps(seal, s, actions);
    var s' := RunFrom(seal, s, actions);
    if id in s'.branches {
      assert BranchOk(seal, s', id, s'.branches[id]);
    }
  }

  // ---- What was written is what is published ----

  /** The overlay of the last edit of this branch that was answered with success; none, the empty one. */
  function LastAccepted(seal: Seal, s: State, actions: seq<Action>, id: nat): Entries {
    if actions == [] then map[]
    else
      var n := |actions| - 1;
      if Accepts(seal, RunFrom(seal, s, actions[..n]), actions[n], id) then actions[n].overlay
      else LastAccepted(seal, s, actions[..n], id)
  }

  /** The step is an edit of this branch, and succeeds. */
  predicate Accepts(seal: Seal, s: State, a: Action, id: nat) {
    a.Edit? && a.id == id && Do(seal, s, a).1 == Done
  }

  /** Every live branch and every publication has the overlay last written to it. */
  ghost predicate AsWritten(s: State, written: nat -> Entries) {
    && (forall id :: IsLive(s, id) ==> s.branches[id].slot.overlay == written(id))
    && (forall id: nat :: id !in s.branches ==> written(id) == map[])
    && (forall i :: 0 <= i < |s.log| ==> s.log[i].overlay == written(s.log[i].id))
  }

  lemma {:induction false} WrittenStep(seal: Seal, s: State, a: Action, before: nat -> Entries, after: nat -> Entries)
    requires Inv(seal, s) && AsWritten(s, before)
    requires forall id: nat :: after(id) == if Accepts(seal, s, a, id) then a.overlay else before(id)
    ensures AsWritten(Do(seal, s, a).0, after)
  {
    var s' := Do(seal, s, a).0;
    forall id | IsLive(s', id)
      ensures s'.branches[id].slot.overlay == after(id)
    {
      OverlayStep(seal, s, a, id);
    }
    forall id: nat | id !in s'.branches
      ensures after(id) == map[]
    {
      NotYet(seal, s, a, id);
    }
    forall i | 0 <= i < |s'.log|
      ensures s'.log[i].overlay == after(s'.log[i].id)
    {
      LogStep(seal, s, a, i);
    }
  }

  /** A live branch was live before, or is new and empty; and its overlay is the accepted edit's or as
      it was. */
  lemma {:induction false} OverlayStep(seal: Seal, s: State, a: Action, id: nat)
    requires Inv(seal, s) && IsLive(Do(seal, s, a).0, id)
    ensures id in s.branches ==> IsLive(s, id)
    ensures Do(seal, s, a).0.branches[id].slot.overlay ==
              if Accepts(seal, s, a, id) then a.overlay
              else if id in s.branches then s.branches[id].slot.overlay else map[]
  {
  }

  lemma {:induction false} NotYet(seal: Seal, s: State, a: Action, id: nat)
    requires Inv(seal, s) && id !in Do(seal, s, a).0.branches
    ensures id !in s.branches && !Accepts(seal, s, a, id)
  {
    StepKeeps(seal, s, a);
  }

  /** A publication takes the branch's overlay, and no edit of a published branch is accepted. */
  lemma {:induction false} LogStep(seal: Seal, s: State, a: Action, i: nat)
    requires Inv(seal, s) && i < |Do(seal, s, a).0.log|
    ensures var r := Do(seal, s, a).0.log[i];
            && !Accepts(seal, s, a, r.id)
            && (if i < |s.log| then r == s.log[i] else IsLive(s, r.id) && r.overlay == s.branches[r.id].slot.overlay)
  {
    StepKeeps(seal, s, a);
    if i < |s.log| {
      assert RecordOk(seal, s, s.log[i]);
      assert Do(seal, s, a).0.log[i] == s.log[i];
    }
  }

  /** In every interleaving, what a branch holds, and what a publication sealed, is the overlay of the
      last edit of that branch that was answered with success. */
  lemma {:induction false} EveryRunAsWritten(seal: Seal, genesis: Rows, actions: seq<Action>)
    ensures AsWritten(RunFrom(seal, Init(genesis), actions), id => LastAccepted(seal, Init(genesis), actions, id))
    decreases |actions|
  {
    if actions != [] {
      var n := |actions| - 1;
      EveryRunAsWritten(seal, genesis, actions[..n]);
      RunKeeps(seal, Init(genesis), actions[..n]);
      WrittenStep(seal, RunFrom(seal, Init(genesis), actions[..n]), actions[n],
                  id => LastAccepted(seal, Init(genesis), actions[..n], id),
                  id => LastAccepted(seal, Init(genesis), actions, id));
    }
  }

  // ---- What calls answer ----

  /** A branch over the current head that nobody is using. */
  ghost predicate Ready(s: State, id: nat) {
    IsLive(s, id) && s.branches[id].phase.Idle? && s.branches[id].slot.origin == s.head
  }

  /** A branch begun is new and empty over the head it was read from, and ready if that is still the head. */
  lemma {:induction false} BeginSucceeds(seal: Seal, s: State, manager: nat, origin: nat)
    requires Inv(seal, s) && s.nextId < MAX && origin in s.history
    ensures var (s', r) := Do(seal, s, Begin(manager, origin));
            && r == Begun(s.nextId) && s.nextId !in s.branches && (Ready(s', s.nextId) <==> origin == s.head)
            && s'.branches[s.nextId] == Branch(manager, Live(origin, map[], None), Idle)
  {
    assert s.nextId in s.branches ==> BranchOk(seal, s, s.nextId, s.branches[s.nextId]);
  }

  /** A handle serves only the manager that began its branch. */
  lemma {:induction false} ForeignHandle(seal: Seal, s: State, manager: nat, id: nat, commit: bool)
    requires id in s.branches ==> s.branches[id].manager != manager
    ensures Do(seal, s, Lock(manager, id, commit)) == (s, HandleInvalid)
  {
  }

  /** A failure of storage loses nothing: the branch stays live with its overlay and its seal. */
  lemma {:induction false} FailureKeeps(seal: Seal, s: State, a: Action)
    requires Inv(seal, s) && Do(seal, s, a).1 == Failed && (a.Admit? || a.SealBranch? || a.Publish?)
    ensures IsLive(s, a.id) && IsLive(Do(seal, s, a).0, a.id)
    ensures Do(seal, s, a).0.branches[a.id] == s.branches[a.id].(phase := Idle)
  {
  }

  /** A write over an unmoved head is accepted: lock, admission and edit all succeed, and nothing but the
      branch's overlay changes. */
  lemma {:induction false} WriteSucceeds(seal: Seal, s: State, id: nat, overlay: Entries)
    requires Inv(seal, s) && Ready(s, id) && s.branches[id].slot.sealed.None?
    ensures var m := s.branches[id].manager;
            var s1 := Do(seal, s, Lock(m, id, false));
            var s2 := Do(seal, s1.0, Admit(id, true));
            var s3 := Do(seal, s2.0, Edit(id, overlay));
            && s1.1 == Done && s2.1 == Done && s3.1 == Done
            && s3.0 == SetBranch(s, id, s.branches[id].(slot := s.branches[id].slot.(overlay := overlay)))
  {
    var b := s.branches[id];
    var s1 := Do(seal, s, Lock(b.manager, id, false)).0;
    assert s1 == SetBranch(s, id, b.(phase := Locked(false)));
    var s2 := Do(seal, s1, Admit(id, true)).0;
    assert s2 == SetBranch(s, id, b.(phase := Admitted(Committed(s), false)));
    assert Do(seal, s2, Edit(id, overlay)).0.branches ==
           s.branches[id := b.(slot := b.slot.(overlay := overlay))];
  }

  /** A branch admitted and released is as it was, and one admitted and discarded is gone for good: nothing
      else has changed. */
  lemma {:induction false} ReleaseOrDiscard(seal: Seal, s: State, id: nat)
    requires Inv(seal, s) && Ready(s, id)
    ensures var s2 := Do(seal, Do(seal, s, Lock(s.branches[id].manager, id, false)).0, Admit(id, true)).0;
            && Do(seal, s2, Release(id)) == (s, Done)
            && Do(seal, s2, Discard(id)) == (SetBranch(s, id, Branch(s.branches[id].manager, Consumed, Idle)), Done)
  {
    var b := s.branches[id];
    var s1 := Do(seal, s, Lock(b.manager, id, false)).0;
    assert s1 == SetBranch(s, id, b.(phase := Locked(false)));
    var s2 := Do(seal, s1, Admit(id, true)).0;
    assert s2 == SetBranch(s, id, b.(phase := Admitted(Committed(s), false)));
    assert s2.branches[id := b] == s.branches;
    assert s2.branches[id := Branch(b.manager, Consumed, Idle)] == s.branches[id := Branch(b.manager, Consumed, Idle)];
    assert SetBranch(s2, id, b) == s;
    assert SetBranch(s2, id, Branch(b.manager, Consumed, Idle)) == SetBranch(s, id, Branch(b.manager, Consumed, Idle));
  }

  /** Another process that moves the head makes every branch over the old one stale, whatever it holds. */
  lemma {:induction false} OutsideMoves(seal: Seal, s: State, newHead: nat, rows: Rows, id: nat)
    requires Inv(seal, s) && s.writer.None? && newHead > s.head && Ready(s, id)
    ensures var (s', r) := Do(seal, s, External(newHead, rows));
            && r == Done && s'.head == newHead && Committed(s') == rows && s'.log == s.log
            && !Ready(s', id) && s'.branches == s.branches
  {
  }

  /** A branch after its commit was admitted and sealed. */
  function SealedBranch(seal: Seal, s: State, id: nat): Branch
    requires IsLive(s, id)
  {
    var b := s.branches[id];
    b.(slot := b.slot.(sealed := seal(s.head, Committed(s), b.slot.overlay)), phase := Admitted(Committed(s), true))
  }

  lemma {:induction false} SealSucceeds(seal: Seal, s: State, id: nat)
    requires Inv(seal, s) && Ready(s, id) && seal(s.head, Committed(s), s.branches[id].slot.overlay).Some?
    ensures var s1 := Do(seal, s, Lock(s.branches[id].manager, id, true));
            var s2 := Do(seal, s1.0, Admit(id, true));
            var s3 := Do(seal, s2.0, SealBranch(id, true));
            && s1.1 == Done && s2.1 == Done && s3 == (SetBranch(s, id, SealedBranch(seal, s, id)), Done)
  {
    var b := s.branches[id];
    assert BranchOk(seal, s, id, b);
    var s1 := Do(seal, s, Lock(b.manager, id, true)).0;
    assert s1 == SetBranch(s, id, b.(phase := Locked(true)));
    var s2 := Do(seal, s1, Admit(id, true)).0;
    assert s2 == SetBranch(s, id, b.(phase := Admitted(Committed(s), true)));
    if b.slot.sealed.Some? {
      assert b.slot == b.slot.(sealed := seal(s.head, Committed(s), b.slot.overlay));
    }
    assert Do(seal, s2, SealBranch(id, true)).0 == SetBranch(s, id, SealedBranch(seal, s, id));
  }

  /** A commit over an unmoved head with the writer free publishes, unless sealing or storage fails: the
      rows are the head's with the branch's overlay sealed over them. */
  lemma {:induction false} CommitSucceeds(seal: Seal, s: State, id: nat)
    requires Inv(seal, s) && Ready(s, id) && s.writer.None?
    requires seal(s.head, Committed(s), s.branches[id].slot.overlay).Some?
    ensures var s1 := Do(seal, s, Lock(s.branches[id].manager, id, true)).0;
            var s3 := Do(seal, Do(seal, s1, Admit(id, true)).0, SealBranch(id, true)).0;
            var s4 := Do(seal, s3, OpenWriter(id));
            var (s5, r) := Do(seal, s4.0, Publish(id, true));
            && s4.1 == Done && r == Published(s.head + 1) && s5.head == s.head + 1
            && Committed(s5) == Merged(Committed(s), seal(s.head, Committed(s), s.branches[id].slot.overlay).value)
            && s5.log == s.log + [Record(id, s.head, s.branches[id].slot.overlay, s.head + 1)]
  {
    SealSucceeds(seal, s, id);
    SealedPublishes(seal, s, id, SealedBranch(seal, s, id));
  }

  lemma {:induction false} SealedPublishes(seal: Seal, s: State, id: nat, b: Branch)
    requires s.head in s.history && s.writer.None? && b.slot.Live? && b.slot.origin == s.head && CanWrite(b)
    ensures var s4 := Do(seal, SetBranch(s, id, b), OpenWriter(id));
            var (s5, r) := Do(seal, s4.0, Publish(id, true));
            && s4.1 == Done && r == Published(s.head + 1) && s5.head == s.head + 1
            && Committed(s5) == Merged(Committed(s), b.slot.sealed.value)
            && s5.log == s.log + [Record(id, s.head, b.slot.overlay, s.head + 1)]
  {
    var s3 := SetBranch(s, id, b);
    assert Do(seal, s3, OpenWriter(id)).0 == SetBranch(s, id, b.(phase := Writing)).(writer := Some(id));
  }

  /** Once the head has moved past a branch, admission consumes it: a commit is told of the conflict, any
      other call that its handle is gone; and nothing is published. */
  lemma {:induction false} StaleIsRefused(seal: Seal, s: State, id: nat, commit: bool)
    requires Inv(seal, s) && IsLive(s, id) && s.branches[id].phase.Idle? && s.branches[id].slot.origin != s.head
    ensures var s1 := Do(seal, s, Lock(s.branches[id].manager, id, commit));
            var (s', r) := Do(seal, s1.0, Admit(id, true));
            && s1.1 == Done && r == (if commit then Conflict else HandleInvalid)
            && s' == SetBranch(s, id, Branch(s.branches[id].manager, Consumed, Idle))
  {
    var b := s.branches[id];
    assert Do(seal, s, Lock(b.manager, id, commit)).0 == SetBranch(s, id, b.(phase := Locked(commit)));
  }

  // ---- Runs without outside writers ----

  /** The heads so far, each but the first put there by the publication logged for it. */
  ghost predicate Linear(s: State) {
    && s.head == |s.log| && (forall h :: h in s.history <==> 0 <= h <= s.head)
    && (forall i :: 0 <= i < |s.log| ==> s.log[i].commit == i + 1 && s.log[i].origin == i)
  }

  lemma {:induction false} LinearStep(seal: Seal, s: State, a: Action)
    requires Inv(seal, s) && Linear(s) && !a.External?
    ensures Linear(Do(seal, s, a).0)
  {
    StepKeeps(seal, s, a);
    var (s', r) := Do(seal, s, a);
    if r.Published? {
      assert s'.log[..|s.log|] == s.log;
    }
  }

  /** When branches are the only writers, head `n` is what the publications logged from 1 to `n` made of
      genesis, one after another: nothing else ever moves the head or writes a row. */
  lemma {:induction false} LinearHistory(seal: Seal, genesis: Rows, actions: seq<Action>)
    requires forall i :: 0 <= i < |actions| ==> !actions[i].External?
    ensures Inv(seal, RunFrom(seal, Init(genesis), actions)) && Linear(RunFrom(seal, Init(genesis), actions))
    decreases |actions|
  {
    RunKeeps(seal, Init(genesis), actions);
    if actions != [] {
      var init := actions[..|actions| - 1];
      LinearHistory(seal, genesis, init);
      LinearStep(seal, RunFrom(seal, Init(genesis), init), actions[|actions| - 1]);
    }
  }

  // ---- What the published states stand for ----

  /** Sealing keeps what rows stand for: over rows that stand for some cells, the sealed rows stand at
      the next head for those cells with the overlay applied. */
  ghost predicate SealKeeps<Cells(!new)>(seal: Seal, stands: (nat, Rows, Cells) -> bool,
                                         apply: (nat, Rows, Cells, Entries) -> Cells)
  {
    forall head: nat, rows, cells, overlay :: stands(head, rows, cells) && seal(head, rows, overlay).Some? ==>
      stands(head + 1, Merged(rows, seal(head, rows, overlay).value), apply(head, rows, cells, overlay))
  }

  /** Outside writers, if any, write rows that stand for something. */
  ghost predicate OutsideStands<Cells(!new)>(stands: (nat, Rows, Cells) -> bool, a: Action) {
    a.External? ==> exists cells :: stands(a.newHead, a.rows, cells)
  }

  /** Every published state stands for its cells, and those of a publication are its origin's with the
      branch's overlay applied. */
  ghost predicate StandFor<Cells(!new)>(s: State, stands: (nat, Rows, Cells) -> bool,
                                        apply: (nat, Rows, Cells, Entries) -> Cells, cells: map<nat, Cells>)
  {
    && (forall h :: h in s.history <==> h in cells)
    && (forall h :: h in s.history ==> stands(h, s.history[h], cells[h]))
    && (forall i :: 0 <= i < |s.log| ==> Applied(s, apply, cells, s.log[i]))
  }

  ghost predicate Applied<Cells(!new)>(s: State, apply: (nat, Rows, Cells, Entries) -> Cells, cells: map<nat, Cells>,
                                       r: Record)
  {
    && r.origin in s.history && r.origin in cells
    && Get(cells, r.commit) == Some(apply(r.origin, s.history[r.origin], cells[r.origin], r.overlay))
  }

  /** The state is the one before, with rows at a new head that stand for some cells. */
  lemma {:induction false} StandMore<Cells(!new)>(s: State, s': State, stands: (nat, Rows, Cells) -> bool,
                                                  apply: (nat, Rows, Cells, Entries) -> Cells, cells: map<nat, Cells>,
                                                  head: nat, rows: Rows, new': Cells)
    requires StandFor(s, stands, apply, cells) && head !in s.history && stands(head, rows, new')
    requires s'.history == s.history[head := rows] && s.log <= s'.log
    requires forall i :: |s.log| <= i < |s'.log| ==> Applied(s', apply, cells[head := new'], s'.log[i])
    ensures StandFor(s', stands, apply, cells[head := new'])
  {
    forall i | 0 <= i < |s'.log|
      ensures Applied(s', apply, cells[head := new'], s'.log[i])
    {
      if i < |s.log| {
        assert Applied(s, apply, cells, s.log[i]);
      }
    }
  }

  /** A publication stands for its origin's cells with the overlay applied. */
  lemma {:induction false} StandPublished<Cells(!new)>(seal: Seal, s: State, a: Action,
                                                       stands: (nat, Rows, Cells) -> bool,
                                                       apply: (nat, Rows, Cells, Entries) -> Cells,
                                                       cells: map<nat, Cells>)
    returns (cells': map<nat, Cells>)
    requires Inv(seal, s) && SealKeeps(seal, stands, apply) && StandFor(s, stands, apply, cells)
    requires Do(seal, s, a).1.Published?
    ensures StandFor(Do(seal, s, a).0, stands, apply, cells')
    ensures forall h :: h in cells ==> Get(cells', h) == Some(cells[h])
  {
    var s' := Do(seal, s, a).0;
    var slot := s.branches[a.id].slot;
    assert BranchOk(seal, s, a.id, s.branches[a.id]);
    var new' := apply(s.head, s.history[s.head], cells[s.head], slot.overlay);
    cells' := cells[s.head + 1 := new'];
    assert s'.log == s.log + [Record(a.id, s.head, slot.overlay, s.head + 1)];
    StandMore(s, s', stands, apply, cells, s.head + 1, s'.history[s.head + 1], new');
  }

  lemma {:induction false} StandStill<Cells(!new)>(s: State, s': State, stands: (nat, Rows, Cells) -> bool,
                                                   apply: (nat, Rows, Cells, Entries) -> Cells, cells: map<nat, Cells>)
    requires StandFor(s, stands, apply, cells) && s'.history == s.history && s'.log == s.log
    ensures StandFor(s', stands, apply, cells)
  {
    forall i | 0 <= i < |s.log|
      ensures Applied(s', apply, cells, s.log[i])
    {
      assert Applied(s, apply, cells, s.log[i]);
    }
  }

  lemma {:induction false} StandStep<Cells(!new)>(seal: Seal, s: State, a: Action, stands: (nat, Rows, Cells) -> bool,
                                                  apply: (nat, Rows, Cells, Entries) -> Cells, cells: map<nat, Cells>)
    returns (cells': map<nat, Cells>)
    requires Inv(seal, s) && SealKeeps(seal, stands, apply) && OutsideStands(stands, a)
    requires StandFor(s, stands, apply, cells)
    ensures StandFor(Do(seal, s, a).0, stands, apply, cells')
    ensures forall h :: h in cells ==> Get(cells', h) == Some(cells[h])
  {
    StepKeeps(seal, s, a);
    var (s', r) := Do(seal, s, a);
    cells' := cells;
    if r.Published? {
      cells' := StandPublished(seal, s, a, stands, apply, cells);
    } else if a.External? && r.Done? {
      var new' :| stands(a.newHead, a.rows, new');
      cells' := cells[a.newHead := new'];
      StandMore(s, s', stands, apply, cells, a.newHead, a.rows, new');
    } else {
      StandStill(s, s', stands, apply, cells);
    }
  }

  /** In every interleaving, every published state stands for cells, and each publication's cells are
      its origin's with its overlay applied, whatever sealing keeps. */
  lemma {:induction false} EveryRunStands<Cells(!new)>(seal: Seal, stands: (nat, Rows, Cells) -> bool,
                                                       apply: (nat, Rows, Cells, Entries) -> Cells, genesis: Rows,
                                                       first: Cells, actions: seq<Action>)
    returns (cells: map<nat, Cells>)
    requires SealKeeps(seal, stands, apply) && stands(0, genesis, first)
    requires forall i :: 0 <= i < |actions| ==> OutsideStands(stands, actions[i])
    ensures StandFor(RunFrom(seal, Init(genesis), actions), stands, apply, cells) && Get(cells, 0) == Some(first)
    decreases |actions|
  {
    if actions == [] {
      cells := map[0 := first];
    } else {
      var n := |actions| - 1;
      var before := EveryRunStands(seal, stands, apply, genesis, first, actions[..n]);
      RunKeeps(seal, Init(genesis), actions[..n]);
      cells := StandStep(seal, RunFrom(seal, Init(genesis), actions[..n]), actions[n], stands, apply, before);
    }
  }

  // ---- The storage writer ----

  datatype CommitError = LostRace | StorageFailed

  /** The committed head and rows behind the writer lock. */
  class Store {
    var head: nat
    var rows: Rows

    constructor (head: nat, rows: Rows)
      ensures this.head == head && this.rows == rows
    {
      this.head, this.rows := head, rows;
    }

    /** Compare the head under the writer lock, replay the sealed rows into a transaction, and advance
        the head: all of it or none. */
    method Persist(origin: nat, sealed: Writes) returns (r: Result<nat, CommitError>)
      modifies this
      ensures r.Ok? ==>
                old(head) == origin && r.value == origin + 1 && head == r.value && rows == Merged(old(rows), sealed)
      ensures r.Err? ==> head == old(head) && rows == old(rows)
      ensures r == Err(LostRace) ==> old(head) != origin
      ensures r == Err(StorageFailed) ==> FAULTS
      ensures old(head) != origin ==> r.Err?
    {
      var failed := Fails();
      if failed {
        return Err(StorageFailed);
      }
      if head != origin {
        return Err(LostRace);
      }
      var tx := rows;
      var keys: seq<Bytes>, rest := [], sealed.Keys;
      while rest != {}
        invariant rest <= sealed.Keys && forall k :: k in keys <==> k in sealed && k !in rest
        invariant head == old(head) && rows == old(rows) && tx == Replay(rows, sealed, keys)
        decreases rest
      {
        failed := Fails();
        if failed {
          return Err(StorageFailed);
        }
        var k :| k in rest;
        tx := if sealed[k].Some? then tx[k := sealed[k].value] else tx - {k};
        assert (keys + [k])[..|keys|] == keys;
        keys, rest := keys + [k], rest - {k};
      }
      ReplayAll(rows, sealed, keys);
      failed := Fails();
      if failed {
        return Err(StorageFailed);
      }
      head, rows := origin + 1, tx;
      r := Ok(head);
    }
  }

  /** The store holds the head and the rows of the state. */
  ghost predicate Behind(store: Store, s: State)
    reads store
  {
    store.head == s.head && store.rows == Committed(s)
  }

  /** The storage writer does what the publishing step says, fault for fault: the store stays behind
      the state, and the step's reply is the writer's. */
  method PublishThrough(store: Store, ghost seal: Seal, ghost s: State, id: nat, origin: nat, sealed: Writes)
    returns (r: Result<nat, CommitError>, ghost s': State)
    requires Inv(seal, s) && Behind(store, s) && IsLive(s, id) && s.branches[id].phase.Writing?
    requires s.branches[id].slot.origin == origin && s.branches[id].slot.sealed == Some(sealed)
    modifies store
    ensures s' == Do(seal, s, Publish(id, r != Err(StorageFailed))).0 && Behind(store, s')
    ensures Do(seal, s, Publish(id, r != Err(StorageFailed))).1 ==
              match r
              case Ok(commit) => Published(commit)
              case Err(LostRace) => Conflict
              case Err(StorageFailed) => Failed
  {
    PublishAnswers(seal, s, id, origin, sealed);
    r := store.Persist(origin, sealed);
    match r
    case Err(StorageFailed) =>
      s' := Do(seal, s, Publish(id, false)).0;
      assert store.head == s'.head;
    case Err(LostRace) =>
      s' := Do(seal, s, Publish(id, true)).0;
      assert store.head == s'.head;
    case Ok(_) =>
      s' := Do(seal, s, Publish(id, true)).0;
      assert store.head == s'.head;
  }

  ghost predicate Leads(step: (State, Reply), reply: Reply, head: nat, rows: Rows) {
    step.1 == reply && step.0.head == head && Committed(step.0) == rows
  }

  /** What the publishing step leaves behind, case by case. */
  lemma {:induction false} PublishAnswers(seal: Seal, s: State, id: nat, origin: nat, sealed: Writes)
    requires Inv(seal, s) && IsLive(s, id) && s.branches[id].phase.Writing?
    requires s.branches[id].slot.origin == origin && s.branches[id].slot.sealed == Some(sealed)
    ensures Leads(Do(seal, s, Publish(id, false)), Failed, s.head, Committed(s))
    ensures s.head != origin ==> Leads(Do(seal, s, Publish(id, true)), Conflict, s.head, Committed(s))
    ensures s.head == origin ==>
              Leads(Do(seal, s, Publish(id, true)), Published(origin + 1), origin + 1, Merged(Committed(s), sealed))
  {
  }
}
