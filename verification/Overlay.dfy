/** The branch's staged cells, their inverse journal, and the snapshot stack it stands for. */
module Overlay {
  import opened Wrappers
  import opened CellKeys
  import opened Terms

  /** Staged writes by cell key; `None` is a tombstone. */
  type Entries = map<CellKey, Option<CellValue>>

  type Write = (CellKey, Option<CellValue>)

  /** How to undo one write: `None` restores fall-through to the origin. */
  datatype Undo = Undo(key: CellKey, previous: Option<Option<CellValue>>)

  // ---- The specification: complete snapshots ----

  /** The current overlay, the snapshot each open frame started from, and whether the last frame
      was consumed by a rollback and not reopened since. */
  datatype Frames = Frames(current: Entries, open: seq<Entries>, idle: bool)

  const FRESH: Frames := Frames(map[], [map[]], false)

  function OpenFrame(s: Frames): Frames {
    Frames(s.current, s.open + [s.current], false)
  }

  /** A write reopens a frame if the last one was consumed. */
  function WriteOne(s: Frames, w: Write): Frames {
    var s' := if s.idle then OpenFrame(s) else s;
    s'.(current := s'.current[w.0 := w.1])
  }

  function WriteAll(s: Frames, ws: seq<Write>): Frames {
    if ws == [] then s else WriteOne(WriteAll(s, ws[..|ws| - 1]), ws[|ws| - 1])
  }

  /** Return to the start of the last open frame and consume it; `None` when there is none. */
  function RollbackFrame(s: Frames): Option<Frames> {
    if s.open == [] then None else Some(Frames(s.open[|s.open| - 1], s.open[..|s.open| - 1], true))
  }

  datatype Op = Group(writes: seq<Write>, ok: bool) | Checkpoint | Rollback

  /** The state after one operation and whether it was admitted. */
  function Step(s: Frames, op: Op): (Frames, bool) {
    match op
    case Group(writes, ok) => (if ok then WriteAll(s, writes) else s, ok)
    case Checkpoint => (OpenFrame(s), true)
    case Rollback => var r := RollbackFrame(s); (if r.Some? then r.value else s, r.Some?)
  }

  function StateAfter(ops: seq<Op>): Frames {
    if ops == [] then FRESH else Step(StateAfter(ops[..|ops| - 1]), ops[|ops| - 1]).0
  }

  function Outcomes(ops: seq<Op>): seq<bool> {
    if ops == [] then []
    else Outcomes(ops[..|ops| - 1]) + [Step(StateAfter(ops[..|ops| - 1]), ops[|ops| - 1]).1]
  }

  /** Writes inside a frame never touch its start. */
  lemma {:induction false} WritesKeepFrames(s: Frames, ws: seq<Write>)
    requires !s.idle
    ensures WriteAll(s, ws).open == s.open && !WriteAll(s, ws).idle
    decreases |ws|
  {
    if ws != [] {
      WritesKeepFrames(s, ws[..|ws| - 1]);
    }
  }

  /** Whatever groups follow a checkpoint, one rollback returns to it. */
  lemma {:induction false} RollbackRestoresCheckpoint(s: Frames, groups: seq<Op>)
    requires forall i :: 0 <= i < |groups| ==> groups[i].Group?
    ensures var end := GroupsAfter(OpenFrame(s), groups);
            RollbackFrame(end) == Some(Frames(s.current, s.open, true))
  {
    GroupsKeepFrames(OpenFrame(s), groups);
    assert (s.open + [s.current])[..|s.open|] == s.open;
  }

  function GroupsAfter(s: Frames, groups: seq<Op>): Frames {
    if groups == [] then s else Step(GroupsAfter(s, groups[..|groups| - 1]), groups[|groups| - 1]).0
  }

  lemma {:induction false} GroupsKeepFrames(s: Frames, groups: seq<Op>)
    requires !s.idle && forall i :: 0 <= i < |groups| ==> groups[i].Group?
    ensures GroupsAfter(s, groups).open == s.open && !GroupsAfter(s, groups).idle
    decreases |groups|
  {
    if groups != [] {
      GroupsKeepFrames(s, groups[..|groups| - 1]);
      WritesKeepFrames(GroupsAfter(s, groups[..|groups| - 1]), groups[|groups| - 1].writes);
    }
  }

  // ---- Undoing ----

  function UndoOne(entries: Entries, u: Undo): Entries {
    if u.previous.Some? then entries[u.key := u.previous.value] else entries - {u.key}
  }

  /** The entries with every write after the first `mark` undone, latest first. */
  function UndoTo(entries: Entries, undo: seq<Undo>, mark: nat): Entries
    decreases |undo|
  {
    if |undo| <= mark then entries
    else UndoTo(UndoOne(entries, undo[|undo| - 1]), undo[..|undo| - 1], mark)
  }

  /** Undoing in two stages is undoing in one. */
  lemma {:induction false} UndoInStages(entries: Entries, undo: seq<Undo>, mid: nat, mark: nat)
    requires mark <= mid <= |undo|
    ensures UndoTo(UndoTo(entries, undo, mid), undo[..mid], mark) == UndoTo(entries, undo, mark)
    decreases |undo|
  {
    if mid < |undo| {
      assert undo[..|undo| - 1][..mid] == undo[..mid];
      UndoInStages(UndoOne(entries, undo[|undo| - 1]), undo[..|undo| - 1], mid, mark);
    } else {
      assert undo[..mid] == undo;
    }
  }

  /** A recorded write is undone exactly. */
  lemma {:induction false} UndoRecorded(entries: Entries, undo: seq<Undo>, w: Write, mark: nat)
    requires mark <= |undo|
    ensures UndoTo(entries[w.0 := w.1], undo + [Undo(w.0, Get(entries, w.0))], mark) == UndoTo(entries, undo, mark)
  {
    var u := Undo(w.0, Get(entries, w.0));
    assert UndoOne(entries[w.0 := w.1], u) == entries;
    assert (undo + [u])[..|undo|] == undo;
  }

  /** Where a write group began. */
  datatype WriteMark = WriteMark(undoLen: nat, rolledBack: bool)

  class CellOverlay {
    var entries: Entries
    var undo: seq<Undo>
    /** Start of each frame in the undo log; the last one is always retained. */
    var frames: seq<nat>
    /** The last marker belongs to a frame that a rollback has already used up. */
    var rolledBack: bool

    ghost predicate Valid()
      reads this
    {
      && |frames| > 0
      && (forall i, j :: 0 <= i < j < |frames| ==> frames[i] <= frames[j])
      && frames[|frames| - 1] <= |undo|
      && (rolledBack ==> |undo| == frames[|frames| - 1])
    }

    /** The overlay each frame started from. */
    ghost function Starts(): (s: seq<Entries>)
      requires Valid()
      reads this
      ensures |s| == |frames|
    {
      seq(|frames|, i requires 0 <= i < |frames| reads this => UndoTo(entries, undo, frames[i]))
    }

    ghost function Model(): Frames
      requires Valid()
      reads this
    {
      Frames(entries, if rolledBack then Starts()[..|frames| - 1] else Starts(), rolledBack)
    }

    constructor ()
      ensures Valid() && Model() == FRESH
    {
      entries, undo, frames, rolledBack := map[], [], [0], false;
      new;
      assert Starts() == [map[]];
    }

    function Mark(): WriteMark
      reads this
    {
      WriteMark(|undo|, rolledBack)
    }

    /** One write and its undo entry; a write of the value already staged leaves no entry. */
    method Record(w: Write)
      requires Valid()
      modifies this
      ensures Valid() && Model() == WriteOne(old(Model()), w)
      ensures entries == old(entries)[w.0 := w.1] && frames == old(frames) && !rolledBack
      ensures old(undo) <= undo && UndoTo(entries, undo, |old(undo)|) == old(entries)
    {
      ghost var starts := Starts();
      rolledBack := false;
      if w.0 in entries && entries[w.0] == w.1 {
        assert entries[w.0 := w.1] == entries;
      } else {
        forall i | 0 <= i < |frames|
          ensures UndoTo(entries[w.0 := w.1], undo + [Undo(w.0, Get(entries, w.0))], frames[i]) == starts[i]
        {
          UndoRecorded(entries, undo, w, frames[i]);
        }
        UndoRecorded(entries, undo, w, |undo|);
        undo := undo + [Undo(w.0, Get(entries, w.0))];
        entries := entries[w.0 := w.1];
      }
      assert Starts() == starts;
      if old(rolledBack) {
        assert starts == starts[..|frames| - 1] + [starts[|frames| - 1]];
      }
    }

    /** A new frame starts here; a used-up marker at the end serves again. */
    method CheckpointFrame()
      requires Valid()
      modifies this
      ensures Valid() && Model() == OpenFrame(old(Model()))
      ensures entries == old(entries) && undo == old(undo)
    {
      ghost var starts := Starts();
      if !rolledBack {
        frames := frames + [|undo|];
        assert Starts() == starts + [entries];
      } else {
        rolledBack := false;
        assert Starts() == starts[..|frames| - 1] + [entries];
      }
    }

    /** Undo back to the first `mark` recorded writes. */
    method UndoUntil(mark: nat)
      requires mark <= |undo|
      modifies this`entries, this`undo
      ensures entries == UndoTo(old(entries), old(undo), mark) && undo == old(undo)[..mark]
    {
      while |undo| > mark
        invariant mark <= |undo| && undo == old(undo)[..|undo|]
        invariant UndoTo(entries, undo, mark) == UndoTo(old(entries), old(undo), mark)
        decreases |undo|
      {
        var u := undo[|undo| - 1];
        undo := undo[..|undo| - 1];
        entries := UndoOne(entries, u);
      }
    }

    /** Back to the last frame not used up yet, which this uses up. */
    method RollbackLast() returns (ok: bool)
      requires Valid()
      modifies this
      ensures Valid() && (Model(), ok) == Step(old(Model()), Rollback)
    {
      ghost var starts := Starts();
      if rolledBack {
        if |frames| == 1 {
          return false;
        }
        frames := frames[..|frames| - 1];
      }
      var mark := frames[|frames| - 1];
      ghost var n := |frames|;
      ghost var before, log := entries, undo;
      UndoUntil(mark);
      rolledBack := true;
      forall i | 0 <= i < n
        ensures UndoTo(entries, undo, frames[i]) == starts[i]
      {
        UndoInStages(before, log, mark, frames[i]);
      }
      assert Starts() == starts[..n];
      assert Starts()[..n - 1] == starts[..n][..n - 1] == starts[..n - 1];
      return true;
    }

    /** Restore what preceded a failed write group. */
    method Rewind(mark: WriteMark)
      requires mark.undoLen <= |undo|
      modifies this
      ensures entries == UndoTo(old(entries), old(undo), mark.undoLen) && undo == old(undo)[..mark.undoLen]
      ensures frames == old(frames) && rolledBack == mark.rolledBack
    {
      UndoUntil(mark.undoLen);
      rolledBack := mark.rolledBack;
    }

    /** One atomic group of writes. A failed one, or an unwinding panic, restores everything. */
    method WriteGroup(writes: seq<Write>, ok: bool)
      requires Valid()
      modifies this
      ensures Valid() && Model() == Step(old(Model()), Group(writes, ok)).0
      ensures !ok ==>
                && entries == old(entries) && undo == old(undo) && frames == old(frames)
                && rolledBack == old(rolledBack)
    {
      var mark := Mark();
      WriteEach(writes);
      if !ok {
        Rewind(mark);
        assert undo == old(undo);
      }
    }

    /** The writes of a group, one after another. */
    method WriteEach(writes: seq<Write>)
      requires Valid()
      modifies this
      ensures Valid() && Model() == WriteAll(old(Model()), writes) && frames == old(frames)
      ensures old(undo) <= undo && UndoTo(entries, undo, |old(undo)|) == old(entries)
    {
      for i := 0 to |writes|
        invariant Valid() && frames == old(frames)
        invariant Model() == WriteAll(old(Model()), writes[..i])
        invariant old(undo) <= undo && UndoTo(entries, undo, |old(undo)|) == old(entries)
      {
        assert writes[..i + 1][..i] == writes[..i];
        ghost var log := undo;
        Record(writes[i]);
        UndoInStages(entries, undo, |log|, |old(undo)|);
        assert undo[..|log|] == log;
      }
      assert writes[..|writes|] == writes;
    }

    /** Any run of groups, checkpoints and rollbacks is the run of the snapshot stack. */
    method Run(ops: seq<Op>) returns (outcomes: seq<bool>)
      requires Valid() && Model() == FRESH
      modifies this
      ensures Valid() && Model() == StateAfter(ops) && outcomes == Outcomes(ops)
    {
      outcomes := [];
      for i := 0 to |ops|
        invariant Valid() && Model() == StateAfter(ops[..i]) && outcomes == Outcomes(ops[..i])
      {
        assert ops[..i + 1][..i] == ops[..i];
        var ok := true;
        match ops[i] {
          case Group(writes, fine) => WriteGroup(writes, fine); ok := fine;
          case Checkpoint => CheckpointFrame();
          case Rollback => ok := RollbackLast();
        }
        outcomes := outcomes + [ok];
      }
      assert ops[..|ops|] == ops;
    }
  }
}
