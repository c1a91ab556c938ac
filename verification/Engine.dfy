/** The whole path: open a store, work on a branch, seal it, publish it, and open the store again. */
module Engine {
  import opened Wrappers
  import opened Lex
  import opened Words
  import opened CellKeys
  import opened Order
  import opened Terms
  import opened Postings
  import opened CellValues
  import opened TrieStore
  import opened System
  import opened Records
  import opened RecordView
  import opened RecordRuns
  import opened Genesis
  import opened Superblock
  import opened Seal
  import opened Opening
  import C = Commitment
  import S = CellStore
  import I = IndexStore

  // ---- What a branch is asked, and what it answers ----

  datatype Task = Operate(op: RecordOp) | Mark | Return

  datatype Answer = Done | Refused(error: RecordError) | NoFrame

  /** The branch after a task with this answer. */
  function NextFrames(f: Stack, task: Task, a: Answer): Stack {
    match task
    case Operate(op) => if a.Done? then Perform(f, op) else f
    case Mark => Save(f)
    case Return => if Restore(f).Some? then Restore(f).value else f
  }

  /** A refusal is the operation's own, or storage failed; a rollback is refused only without frames. */
  predicate AnswerOk(f: Stack, task: Task, a: Answer) {
    match task
    case Operate(op) =>
      || (a == Done && Do(f.view, op).Ok?)
      || (a.Refused? && ((FAULTS && a.error == StorageFault) || Do(f.view, op) == Err(a.error)))
    case Mark => a == Done
    case Return => a == if Restore(f).Some? then Done else NoFrame
  }

  function Played(f: Stack, tasks: seq<Task>, answers: seq<Answer>): Stack
    requires |tasks| == |answers|
  {
    if tasks == [] then f
    else
      var n := |tasks| - 1;
      NextFrames(Played(f, tasks[..n], answers[..n]), tasks[n], answers[n])
  }

  predicate Answered(f: Stack, tasks: seq<Task>, answers: seq<Answer>) {
    && |tasks| == |answers|
    && (tasks != [] ==>
          var n := |tasks| - 1;
          Answered(f, tasks[..n], answers[..n]) && AnswerOk(Played(f, tasks[..n], answers[..n]), tasks[n], answers[n]))
  }

  lemma {:induction false} PlayedMore(f: Stack, tasks: seq<Task>, answers: seq<Answer>, i: nat, a: Answer)
    requires i < |tasks| && Answered(f, tasks[..i], answers) && AnswerOk(Played(f, tasks[..i], answers), tasks[i], a)
    ensures Answered(f, tasks[..i + 1], answers + [a])
    ensures Played(f, tasks[..i + 1], answers + [a]) == NextFrames(Played(f, tasks[..i], answers), tasks[i], a)
  {
    assert tasks[..i + 1][..i] == tasks[..i] && (answers + [a])[..i] == answers;
  }

  ghost predicate TaskOk(ok: CellValue -> bool, task: Task) {
    task.Operate? ==> OpOk(ok, task.op)
  }

  /** Every state the branch shows or can return to stays in order. */
  lemma {:induction false} NextOk(ok: CellValue -> bool, limits: Limits, cells: CellMap, f: Stack, task: Task,
                                  a: Answer)
    requires SystemOk(ok) && TaskOk(ok, task) && FramesOk(ok, limits, cells, f)
    ensures FramesOk(ok, limits, cells, NextFrames(f, task, a))
  {
    if task.Operate? {
      PerformOk(ok, limits, cells, f, task.op);
    }
  }

  lemma {:induction false} NotCorrupt(ok: CellValue -> bool, limits: Limits, cells: CellMap, f: Stack, task: Task,
                                      a: Answer)
    requires SystemOk(ok) && TaskOk(ok, task) && FramesOk(ok, limits, cells, f) && AnswerOk(f, task, a)
    ensures a != Refused(CorruptState)
  {
    if task.Operate? {
      DoKeeps(ok, f.view, limits, task.op);
    }
  }

  /** One task on a branch. */
  method Take(view: View, task: Task) returns (a: Answer)
    requires view.Valid()
    modifies view.overlay
    ensures view.Valid() && AnswerOk(old(view.Frames()), task, a)
    ensures view.Frames() == NextFrames(old(view.Frames()), task, a)
  {
    match task
    case Operate(op) =>
      var failed := view.Apply(op);
      a := if failed.None? then Done else Refused(failed.value);
    case Mark =>
      view.Checkpoint();
      a := Done;
    case Return =>
      var ok := view.Rollback();
      a := if ok then Done else NoFrame;
  }

  /** Tasks one after another: the branch shows what the answered ones did, and none finds corruption. */
  method Work(codec: Codec, rows: C.Flat, limits: Limits, tasks: seq<Task>, ghost cells: CellMap)
    returns (view: View, answers: seq<Answer>)
    requires SystemOk(codec.ok) && Kept(codec.ok, cells, limits) && Backed(codec, rows, cells)
    requires forall i :: 0 <= i < |tasks| ==> TaskOk(codec.ok, tasks[i])
    ensures fresh(view) && fresh(view.overlay) && view.Valid() && view.origin == cells
    ensures Answered(Fresh(cells), tasks, answers) && view.Frames() == Played(Fresh(cells), tasks, answers)
    ensures Continues(codec.ok, limits, cells, view.Cells())
    ensures Refused(CorruptState) !in answers
  {
    view := new View(codec, rows, cells);
    answers := [];
    MidwayStart(codec.ok, limits, cells, tasks);
    for i := 0 to |tasks|
      invariant fresh(view) && fresh(view.overlay) && view.Valid() && view.origin == cells && view.codec == codec
      invariant Midway(codec.ok, limits, cells, tasks, i, answers, view.Frames())
    {
      answers := WorkStep(view, tasks, i, answers, limits, cells);
    }
    MidwayEnd(codec.ok, limits, cells, tasks, answers, view.Frames());
  }

  method WorkStep(view: View, tasks: seq<Task>, i: nat, answers: seq<Answer>, ghost limits: Limits,
                  ghost cells: CellMap)
    returns (answers': seq<Answer>)
    requires view.Valid() && i < |tasks| && SystemOk(view.codec.ok) && TaskOk(view.codec.ok, tasks[i])
    requires Midway(view.codec.ok, limits, cells, tasks, i, answers, view.Frames())
    modifies view.overlay
    ensures view.Valid() && Midway(view.codec.ok, limits, cells, tasks, i + 1, answers', view.Frames())
  {
    ghost var before := view.Frames();
    var a := Take(view, tasks[i]);
    MidwayOn(view.codec.ok, limits, cells, tasks, i, answers, before, a);
    answers' := answers + [a];
  }

  /** A branch after the first `i` tasks. */
  ghost predicate Midway(ok: CellValue -> bool, limits: Limits, cells: CellMap, tasks: seq<Task>, i: nat,
                         answers: seq<Answer>, f: Stack)
  {
    && i <= |tasks| && Answered(Fresh(cells), tasks[..i], answers) && f == Played(Fresh(cells), tasks[..i], answers)
    && FramesOk(ok, limits, cells, f) && Refused(CorruptState) !in answers
  }

  lemma {:induction false} MidwayStart(ok: CellValue -> bool, limits: Limits, cells: CellMap, tasks: seq<Task>)
    requires Kept(ok, cells, limits)
    ensures Midway(ok, limits, cells, tasks, 0, [], Fresh(cells))
  {
    ContinuesSelf(ok, limits, cells);
  }

  lemma {:induction false} MidwayEnd(ok: CellValue -> bool, limits: Limits, cells: CellMap, tasks: seq<Task>,
                                     answers: seq<Answer>, f: Stack)
    requires Midway(ok, limits, cells, tasks, |tasks|, answers, f)
    ensures Answered(Fresh(cells), tasks, answers) && f == Played(Fresh(cells), tasks, answers)
    ensures Continues(ok, limits, cells, f.view) && Refused(CorruptState) !in answers
  {
    assert tasks[..|tasks|] == tasks;
  }

  lemma {:induction false} MidwayOn(ok: CellValue -> bool, limits: Limits, cells: CellMap, tasks: seq<Task>, i: nat,
                                    answers: seq<Answer>, f: Stack, a: Answer)
    requires SystemOk(ok) && i < |tasks| && TaskOk(ok, tasks[i]) && Midway(ok, limits, cells, tasks, i, answers, f)
    requires AnswerOk(f, tasks[i], a)
    ensures Midway(ok, limits, cells, tasks, i + 1, answers + [a], NextFrames(f, tasks[i], a))
  {
    NextOk(ok, limits, cells, f, tasks[i], a);
    NotCorrupt(ok, limits, cells, f, tasks[i], a);
    PlayedMore(Fresh(cells), tasks, answers, i, a);
  }

  // ---- Committed states ----

  /** The committed tables with their superblock and head, and what they stand for. */
  datatype Committed = Committed(tables: Snapshot, meta: C.Flat, head: Head, cells: CellMap, past: seq<Head>)

  /** A database: its setup, its hasher, and the deployment with its identity. */
  datatype Site = Site(u: Setup, hasher: Bytes -> Hash, deployment: Deployment, id: Hash)

  function Holding(site: Site, c: Committed): Found {
    Found(site.deployment, site.id, c.head, c.cells, c.past)
  }

  /** The tables stand for cells in order and their rebuilt index, and the superblock for their head.
      Quantified like `Given`, so that a proof that only passes it on does not unfold it. */
  ghost predicate Standing(site: Site, c: Committed, play: Play) {
    forall found {:trigger StandsFor(site, c, found, play)} :: found == Holding(site, c) ==>
      StandsFor(site, c, found, play)
  }

  ghost predicate StandsFor(site: Site, c: Committed, found: Found, play: Play) {
    Established(site.u, site.hasher, c.tables, c.meta, found, play)
  }

  /** Every state in play has its digests in play. */
  ghost predicate AllInPlay(u: Setup, play: Play)
    requires LawfulCodec(u.codec)
  {
    forall cells :: cells in play.states ==> StateInPlay(u, cells)
  }

  /** What a run is given: a sound setup, genesis and every state in play. */
  ghost predicate Given(site: Site, play: Play) {
    forall d {:trigger GivenFor(site.u, d, play)} :: d == site.deployment ==> GivenFor(site.u, d, play)
  }

  ghost predicate GivenFor(u: Setup, d: Deployment, play: Play) {
    CanBegin(u, d.limits, play) && LimitsFit(d.limits) && AllInPlay(u, play)
  }

  /** Admitted attributes have terms. */
  lemma {:induction false} KeptTermed(c: Codec, utf8: Bytes -> bool, cells: CellMap, limits: Limits)
    requires Fits(c, utf8) && Kept(c.ok, cells, limits)
    ensures Termed(cells)
  {
    forall k | k in cells
      ensures TermOf(k, Some(cells[k])).Ok?
    {
      assert TypedAt(c, utf8, cells[k]);
      assert k.id >= FIRST_USER && k.name != KeyName() ==> AdmitPatch(limits, (k.name, Some(cells[k])));
    }
  }

  /** Sealing a branch's edits publishes its cells and the roots of the head it replaces. */
  lemma {:induction false} SealPublishes(cells: CellMap, head: Head, edits: seq<S.CellEdit>, view: CellMap)
    requires view == S.Updated(cells, edits)
    ensures S.Updated(cells, SealEdits(head, edits)) == Publish(head, view)
  {
    UpdatedMore(cells, edits, (RootsKey(head.commit), Some(RootsValue(head))));
  }

  /** A published state is in order again, and has its replaced heads' roots. */
  lemma {:induction false} PublishReaches(u: Setup, c: Committed, limits: Limits, view: CellMap, head: Head)
    requires SystemOk(u.codec.ok) && Reached(u, c.head, c.cells, c.past, limits)
    requires Continues(u.codec.ok, limits, c.cells, view)
    requires head.commit == c.head.commit + 1 < U64
    ensures Reached(u, head, Publish(c.head, view), c.past + [c.head], limits)
    ensures RootsKey(c.head.commit) !in c.cells
  {
    var s := State(c.head, c.cells, c.past, map[], map[]);
    PublishKept(u.codec.ok, limits, s, view);
    PublishRoots(s, view);
  }

  /** A coherent store's rows are its cells. */
  lemma {:induction false} RowsBacked(u: Setup, s: Snapshot, head: Head, cells: CellMap, play: Play)
    requires Sound(u, play.terms) && HasCells(u, s.cellTrie, s.cells, head, cells, play)
    ensures Backed(u.codec, s.cells, cells)
  {
    var root := CellRoot(u, s.cellTrie, s.cells, head, cells, play);
  }

  /** Every edit is of a key and a term in play, and so is the state it leads to. */
  ghost predicate Stays(u: Setup, cells: CellMap, edits: seq<S.CellEdit>, head: Head, play: Play) {
    && EditsOk(u, edits, play) && InPlay(edits, play) && u.codec.key(RootsKey(head.commit)) in play.keys
    && S.Updated(cells, SealEdits(head, edits)) in play.states
  }

  method StaysInPlay(u: Setup, cells: CellMap, edits: seq<S.CellEdit>, head: Head, play: Play) returns (ok: bool)
    ensures ok <==> Stays(u, cells, edits, head, play)
  {
    for i := 0 to |edits|
      invariant EditsOk(u, edits[..i], play) && InPlay(edits[..i], play)
    {
      var e := edits[i];
      var t := TermOf(e.0, e.1);
      if u.codec.key(e.0) !in play.keys || (e.1.Some? && !u.codec.ok(e.1.value)) {
        return false;
      }
      if t.Ok? && t.value.Some? && t.value.value !in play.terms {
        return false;
      }
      assert edits[..i + 1] == edits[..i] + [e];
    }
    assert edits[..|edits|] == edits;
    ok := u.codec.key(RootsKey(head.commit)) in play.keys && S.Updated(cells, SealEdits(head, edits)) in play.states;
  }

  // ---- One commit ----

  datatype Outcome = Published | OutOfPlay | NotSealed(error: SealError)

  /** Sealing is never refused for the branch's own content: only when commit numbers run out, or
      for two contents in play under one digest, or by storage. */
  ghost predicate Blameless(u: Setup, e: SealError, head: Head) {
    Expected(u, e) && !e.Term? && e != RootsCellExists && (e == CommitNumberExhausted ==> head.commit + 1 == U64)
  }

  /** A branch's edits over the committed state: what they publish, every key and term of it in play. */
  ghost predicate Sealable(site: Site, c: Committed, edits: seq<S.CellEdit>, view: CellMap, play: Play) {
    && EditsOk(site.u, edits, play) && InPlay(edits, play) && site.u.codec.key(RootsKey(c.head.commit)) in play.keys
    && S.Updated(c.cells, SealEdits(c.head, edits)) == Publish(c.head, view) && Publish(c.head, view) in play.states
    && Termed(Publish(c.head, view)) && RootsKey(c.head.commit) !in c.cells
  }

  /** Seal a branch's edits over a staged copy of the committed tables. */
  method SealBranch(site: Site, c: Committed, edits: seq<S.CellEdit>, ghost view: CellMap, ghost play: Play)
    returns (r: Result<Head, SealError>, sealed: Snapshot)
    requires Given(site, play) && Standing(site, c, play) && Sealable(site, c, edits, view, play)
    ensures r.Ok? ==>
              && r.value.commit == c.head.commit + 1 < U64
              && Coherent(site.u, sealed, r.value, Publish(c.head, view), play)
    ensures r.Err? ==> Blameless(site.u, r.error, c.head)
  {
    assert GivenFor(site.u, site.deployment, play) && StandsFor(site, c, Holding(site, c), play);
    var st := StageTables(c.tables);
    r := Compute(site.u, st, c.head, edits, c.cells, play);
    sealed := TakeTables(st);
  }

  /** Publishing over an established store leaves it established. */
  lemma {:induction false} Republished(u: Setup, hasher: Bytes -> Hash, c: Committed, found: Found, head: Head,
                                       tables: Snapshot, view: CellMap, play: Play)
    requires SystemOk(u.codec.ok) && Established(u, hasher, c.tables, c.meta, found, play)
    requires found.head == c.head && found.cells == c.cells && found.past == c.past
    requires Continues(u.codec.ok, found.deployment.limits, c.cells, view) && head.commit == c.head.commit + 1 < U64
    requires Coherent(u, tables, head, Publish(c.head, view), play) && u.codec.key(RootsKey(c.head.commit)) in play.keys
    ensures Established(u, hasher, tables, c.meta[HeadKey() := EncodeHead(head)],
                        found.(head := head, cells := Publish(c.head, view), past := c.past + [c.head]), play)
  {
    HeadMoves(c.meta, found.deployment.hash, found.id, c.head, head);
    PublishReaches(u, c, found.deployment.limits, view, head);
  }

  lemma {:induction false} NowStanding(site: Site, c: Committed, head: Head, tables: Snapshot, view: CellMap,
                                       play: Play)
    requires SystemOk(site.u.codec.ok) && Standing(site, c, play)
    requires Continues(site.u.codec.ok, site.deployment.limits, c.cells, view) && head.commit == c.head.commit + 1 < U64
    requires Coherent(site.u, tables, head, Publish(c.head, view), play)
    requires site.u.codec.key(RootsKey(c.head.commit)) in play.keys
    ensures Standing(site, Committed(tables, c.meta[HeadKey() := EncodeHead(head)], head, Publish(c.head, view),
                                     c.past + [c.head]), play)
  {
    assert StandsFor(site, c, Holding(site, c), play);
    Republished(site.u, site.hasher, c, Holding(site, c), head, tables, view, play);
  }

  /** What the published state owes to the branch. */
  lemma {:induction false} ReadyToSeal(u: Setup, c: Committed, limits: Limits, edits: seq<S.CellEdit>, view: CellMap)
    requires SystemOk(u.codec.ok) && Fits(u.codec, u.utf8) && |c.past| == c.head.commit < U64
    requires RootsChain(c.cells, c.past)
    requires Kept(u.codec.ok, view, limits) && view == S.Updated(c.cells, edits)
    ensures S.Updated(c.cells, SealEdits(c.head, edits)) == Publish(c.head, view) && Termed(Publish(c.head, view))
    ensures RootsKey(c.head.commit) !in c.cells
  {
    SealPublishes(c.cells, c.head, edits, view);
    var s := State(c.head, c.cells, c.past, map[], map[]);
    PublishKept(u.codec.ok, limits, s, view);
    KeptTermed(u.codec, u.utf8, Publish(c.head, view), limits);
  }

  /** Whether the edits of a branch can be sealed in play. */
  method CheckSealable(site: Site, c: Committed, edits: seq<S.CellEdit>, ghost view: CellMap, play: Play)
    returns (ok: bool)
    requires Given(site, play) && Standing(site, c, play)
    requires Kept(site.u.codec.ok, view, site.deployment.limits) && view == S.Updated(c.cells, edits)
    ensures ok ==> Sealable(site, c, edits, view, play)
    ensures !ok ==> !Stays(site.u, c.cells, edits, c.head, play)
    ensures S.Updated(c.cells, SealEdits(c.head, edits)) == Publish(c.head, view)
  {
    assert GivenFor(site.u, site.deployment, play) && StandsFor(site, c, Holding(site, c), play);
    ReadyToSeal(site.u, c, site.deployment.limits, edits, view);
    ok := StaysInPlay(site.u, c.cells, edits, c.head, play);
  }

  method SealAndPublish(site: Site, c: Committed, edits: seq<S.CellEdit>, ghost view: CellMap, play: Play)
    returns (c': Committed, outcome: Outcome)
    requires Given(site, play) && Standing(site, c, play)
    requires Continues(site.u.codec.ok, site.deployment.limits, c.cells, view) && view == S.Updated(c.cells, edits)
    ensures Standing(site, c', play)
    ensures outcome.Published? ==>
              && c'.cells == Publish(c.head, view) && c'.past == c.past + [c.head]
              && c'.head.commit == c.head.commit + 1
    ensures !outcome.Published? ==> c' == c
    ensures outcome.NotSealed? ==> Blameless(site.u, outcome.error, c.head)
    ensures outcome.OutOfPlay? ==> !Stays(site.u, c.cells, edits, c.head, play)
  {
    var inPlay := CheckSealable(site, c, edits, view, play);
    if !inPlay {
      return c, OutOfPlay;
    }
    var head, tables := SealBranch(site, c, edits, view, play);
    if head.Err? {
      return c, NotSealed(head.error);
    }
    CanWork(site, c, play);
    NowStanding(site, c, head.value, tables, view, play);
    c' := Committed(tables, c.meta[HeadKey() := EncodeHead(head.value)], head.value,
                    S.Updated(c.cells, SealEdits(c.head, edits)), c.past + [c.head]);
    outcome := Published;
  }

  lemma {:induction false} CanWork(site: Site, c: Committed, play: Play)
    requires Given(site, play) && Standing(site, c, play)
    ensures SystemOk(site.u.codec.ok) && Kept(site.u.codec.ok, c.cells, site.deployment.limits)
    ensures Backed(site.u.codec, c.tables.cells, c.cells)
  {
    assert GivenFor(site.u, site.deployment, play) && StandsFor(site, c, Holding(site, c), play);
    RowsBacked(site.u, c.tables, c.head, c.cells, play);
  }

  /** Work on a branch of the committed tables, and the branch's changes. */
  method WorkOn(site: Site, c: Committed, tasks: seq<Task>, ghost play: Play)
    returns (edits: seq<S.CellEdit>, answers: seq<Answer>)
    requires Given(site, play) && Standing(site, c, play)
    requires forall i :: 0 <= i < |tasks| ==> TaskOk(site.u.codec.ok, tasks[i])
    ensures Answered(Fresh(c.cells), tasks, answers) && Refused(CorruptState) !in answers
    ensures S.Updated(c.cells, edits) == Played(Fresh(c.cells), tasks, answers).view
    ensures Continues(site.u.codec.ok, site.deployment.limits, c.cells, S.Updated(c.cells, edits))
  {
    CanWork(site, c, play);
    var view;
    view, answers := Work(site.u.codec, c.tables.cells, site.deployment.limits, tasks, c.cells);
    edits := view.Changes();
  }

  /** A branch worked on, sealed and published: the committed cells become those the answered tasks
      lead to, with the roots of the replaced head. Whatever fails, the committed state stands. */
  method Commit(site: Site, c: Committed, tasks: seq<Task>, play: Play)
    returns (c': Committed, outcome: Outcome, answers: seq<Answer>, ghost edits: seq<S.CellEdit>)
    requires Given(site, play) && Standing(site, c, play)
    requires forall i :: 0 <= i < |tasks| ==> TaskOk(site.u.codec.ok, tasks[i])
    ensures Standing(site, c', play)
    ensures Answered(Fresh(c.cells), tasks, answers) && Refused(CorruptState) !in answers
    ensures outcome.Published? ==> c'.cells == Publish(c.head, Played(Fresh(c.cells), tasks, answers).view)
    ensures outcome.Published? ==> c'.past == c.past + [c.head] && c'.head.commit == c.head.commit + 1
    ensures !outcome.Published? ==> c' == c
    ensures S.Updated(c.cells, edits) == Played(Fresh(c.cells), tasks, answers).view
    ensures outcome.OutOfPlay? ==> !Stays(site.u, c.cells, edits, c.head, play)
    ensures outcome.NotSealed? ==> Blameless(site.u, outcome.error, c.head)
  {
    var staged;
    staged, answers := WorkOn(site, c, tasks, play);
    edits := staged;
    c', outcome := SealAndPublish(site, c, staged, S.Updated(c.cells, staged), play);
  }

  // ---- Every run ----

  /** One commit and the reopening after it. */
  datatype Round = Round(before: Head, after: Head, answers: seq<Answer>, outcome: Outcome,
                         reopened: Result<OpenInfo, OpenError>)

  /** The cells after these rounds. */
  function Replayed(cells: CellMap, batches: seq<seq<Task>>, log: seq<Round>): CellMap
    requires |batches| == |log|
  {
    if batches == [] then cells
    else
      var n := |batches| - 1;
      After(Replayed(cells, batches[..n], log[..n]), batches[n], log[n])
  }

  function After(cells: CellMap, tasks: seq<Task>, round: Round): CellMap {
    if round.outcome.Published? && |tasks| == |round.answers| then
      Publish(round.before, Played(Fresh(cells), tasks, round.answers).view)
    else cells
  }

  /** The heads that were replaced, in order. */
  function Replaced(log: seq<Round>): seq<Head> {
    if log == [] then []
    else
      var n := |log| - 1;
      Replaced(log[..n]) + if log[n].outcome.Published? then [log[n].before] else []
  }

  /** Changes that lead to these cells are outside what is in play. */
  ghost predicate Strays(u: Setup, cells: CellMap, view: CellMap, head: Head, play: Play) {
    exists edits :: S.Updated(cells, edits) == view && !Stays(u, cells, edits, head, play)
  }

  /** Why a round published nothing. */
  ghost predicate Held(u: Setup, cells: CellMap, tasks: seq<Task>, round: Round, play: Play)
    requires |tasks| == |round.answers|
  {
    match round.outcome
    case Published => true
    case OutOfPlay => Strays(u, cells, Played(Fresh(cells), tasks, round.answers).view, round.before, play)
    case NotSealed(e) => Blameless(u, e, round.before)
  }

  /** Every task was answered in order, the round was published unless something hindered it, and reopening
      found the head of the round or a storage failure. */
  ghost predicate RoundOk(u: Setup, cells: CellMap, tasks: seq<Task>, round: Round, id: Hash, play: Play) {
    && Answered(Fresh(cells), tasks, round.answers) && Refused(CorruptState) !in round.answers
    && Held(u, cells, tasks, round, play)
    && (if round.outcome.Published? then round.after.commit == round.before.commit + 1 else round.after == round.before)
    && ((FAULTS && round.reopened == Err(Failed)) || round.reopened == Ok(OpenInfo(false, round.after, id)))
  }

  /** A log of rounds, each starting from the head before it. */
  ghost predicate Logged(u: Setup, cells: CellMap, head: Head, batches: seq<seq<Task>>, log: seq<Round>, id: Hash,
                         play: Play) {
    && |batches| == |log|
    && (batches != [] ==>
          var n := |batches| - 1;
          && Logged(u, cells, head, batches[..n], log[..n], id, play)
          && RoundOk(u, Replayed(cells, batches[..n], log[..n]), batches[n], log[n], id, play)
          && log[n].before == LastHead(head, log[..n]))
  }

  function LastHead(head: Head, log: seq<Round>): Head {
    if log == [] then head else log[|log| - 1].after
  }

  lemma {:induction false} LoggedMore(u: Setup, cells: CellMap, head: Head, batches: seq<seq<Task>>, log: seq<Round>,
                                      id: Hash, play: Play, i: nat, round: Round)
    requires i < |batches| && Logged(u, cells, head, batches[..i], log, id, play)
    requires RoundOk(u, Replayed(cells, batches[..i], log), batches[i], round, id, play)
    requires round.before == LastHead(head, log)
    ensures Logged(u, cells, head, batches[..i + 1], log + [round], id, play)
    ensures Replayed(cells, batches[..i + 1], log + [round]) ==
              After(Replayed(cells, batches[..i], log), batches[i], round)
    ensures Replaced(log + [round]) == Replaced(log) + if round.outcome.Published? then [round.before] else []
  {
    assert batches[..i + 1][..i] == batches[..i] && (log + [round])[..i] == log;
  }

  /** Open the committed store again, which must exist. */
  method Reopen(site: Site, c: Committed, ghost play: Play) returns (r: Result<OpenInfo, OpenError>)
    requires Given(site, play) && Standing(site, c, play)
    ensures (FAULTS && r == Err(Failed)) || r == Ok(OpenInfo(false, c.head, site.id))
  {
    assert GivenFor(site.u, site.deployment, play) && StandsFor(site, c, Holding(site, c), play);
    NoSelfCollision(site.hasher, site.deployment);
    var s, meta;
    r, s, meta := OpenStore(site.u, site.hasher, c.tables, c.meta, site.deployment, ExistingOnly,
                            Holding(site, c), play);
  }

  /** A commit, then a reopening. */
  method CommitAndReopen(site: Site, c: Committed, tasks: seq<Task>, play: Play) returns (c': Committed, round: Round)
    requires Given(site, play) && Standing(site, c, play)
    requires forall i :: 0 <= i < |tasks| ==> TaskOk(site.u.codec.ok, tasks[i])
    ensures Standing(site, c', play) && RoundOk(site.u, c.cells, tasks, round, site.id, play)
    ensures round.before == c.head && round.after == c'.head && c'.cells == After(c.cells, tasks, round)
    ensures c'.past == c.past + if round.outcome.Published? then [c.head] else []
  {
    var outcome, answers;
    ghost var edits;
    c', outcome, answers, edits := Commit(site, c, tasks, play);
    var reopened := Reopen(site, c', play);
    round := Round(c.head, c'.head, answers, outcome, reopened);
  }

  /** Open an empty store. */
  method Start(u: Setup, hasher: Bytes -> Hash, d: Deployment, ghost play: Play)
    returns (r: Result<(Site, Committed), OpenError>)
    requires CanBegin(u, d.limits, play) && LimitsFit(d.limits)
    ensures r.Ok? ==>
              && r.value.0.u == u && r.value.0.hasher == hasher && r.value.0.deployment == d
              && Standing(r.value.0, r.value.1, play)
    ensures r.Ok? ==> r.value.1.cells == InitialCells(d.limits) && r.value.1.head.commit == 0 && r.value.1.past == []
    ensures r.Err? ==> Hindered(u, r.error)
  {
    ghost var nothing := Found(d, Zero(), Head(0, Zero(), Zero()), map[], []);
    var info, tables, meta := OpenStore(u, hasher, EmptySnapshot(), map[], d, CreateNew, nothing, play);
    if info.Err? {
      return Err(info.error);
    }
    var edits := BuildInitial(d.limits);
    r := Ok((Site(u, hasher, d, info.value.id), Committed(tables, meta, info.value.head, S.Updated(map[], edits), [])));
  }

  function Zero(): Hash {
    seq(32, _ => 0)
  }

  /** From an empty store through any batches of tasks, with any failures on the way: the committed
      tables, superblock and index stand, the cells are those the published rounds lead to from
      genesis, the past heads are those they replaced, and no reopening is refused. */
  method Run(u: Setup, hasher: Bytes -> Hash, d: Deployment, batches: seq<seq<Task>>, play: Play)
    returns (r: Result<(Site, Committed), OpenError>, log: seq<Round>)
    requires GivenFor(u, d, play)
    requires forall i, j :: 0 <= i < |batches| && 0 <= j < |batches[i]| ==> TaskOk(u.codec.ok, batches[i][j])
    ensures r.Err? ==> Hindered(u, r.error)
    ensures r.Ok? ==> Standing(r.value.0, r.value.1, play) && |log| == |batches|
    ensures r.Ok? ==>
              exists genesis: Head ::
                genesis.commit == 0 && Logged(u, InitialCells(d.limits), genesis, batches, log, r.value.0.id, play)
    ensures r.Ok? ==>
              r.value.1.cells == Replayed(InitialCells(d.limits), batches, log) && r.value.1.past == Replaced(log)
  {
    log := [];
    r := Start(u, hasher, d, play);
    if r.Err? {
      return;
    }
    var c;
    c, log := RunBatches(r.value.0, r.value.1, batches, play);
    r := Ok((r.value.0, c));
  }

  /** Any batches of tasks over a committed state. */
  method RunBatches(site: Site, start: Committed, batches: seq<seq<Task>>, play: Play)
    returns (c: Committed, log: seq<Round>)
    requires Given(site, play) && Standing(site, start, play)
    requires start.cells == InitialCells(site.deployment.limits) && start.past == []
    requires forall i, j :: 0 <= i < |batches| && 0 <= j < |batches[i]| ==> TaskOk(site.u.codec.ok, batches[i][j])
    ensures Standing(site, c, play) && |log| == |batches|
    ensures Logged(site.u, InitialCells(site.deployment.limits), start.head, batches, log, site.id, play)
    ensures c.cells == Replayed(InitialCells(site.deployment.limits), batches, log) && c.past == Replaced(log)
  {
    c, log := start, [];
    assert batches[..0] == [];
    for i := 0 to |batches|
      invariant Standing(site, c, play)
      invariant Ongoing(site, c, start.head, batches, i, log, play)
    {
      ghost var before := c;
      var round;
      c, round := CommitAndReopen(site, c, batches[i], play);
      OngoingOn(site, before, c, start.head, batches, i, log, round, play);
      log := log + [round];
    }
    assert batches[..|batches|] == batches;
  }

  /** A run after its first `i` batches. */
  ghost predicate Ongoing(site: Site, c: Committed, genesis: Head, batches: seq<seq<Task>>, i: nat, log: seq<Round>,
                          play: Play) {
    && i <= |batches|
    && Logged(site.u, InitialCells(site.deployment.limits), genesis, batches[..i], log, site.id, play)
    && c.head == LastHead(genesis, log) && c.past == Replaced(log)
    && c.cells == Replayed(InitialCells(site.deployment.limits), batches[..i], log)
  }

  lemma {:induction false} OngoingOn(site: Site, c: Committed, c': Committed, genesis: Head, batches: seq<seq<Task>>,
                                     i: nat, log: seq<Round>, round: Round, play: Play)
    requires i < |batches| && Ongoing(site, c, genesis, batches, i, log, play)
    requires RoundOk(site.u, c.cells, batches[i], round, site.id, play)
    requires round.before == c.head && round.after == c'.head && c'.cells == After(c.cells, batches[i], round)
    requires c'.past == c.past + if round.outcome.Published? then [c.head] else []
    ensures Ongoing(site, c', genesis, batches, i + 1, log + [round], play)
  {
    LoggedMore(site.u, InitialCells(site.deployment.limits), genesis, batches, log, site.id, play, i, round);
  }

  /** The codec, values and genesis the engine really uses meet what is asked of a setup. */
  lemma {:induction false} EngineCodec(utf8: Bytes -> bool)
    ensures LawfulCodec(CodecOf(utf8)) && Fits(CodecOf(utf8), utf8) && SystemOk(CodecOf(utf8).ok)
  {
    RowsLawful(utf8);
    RowsFit(utf8);
    EngineValues(utf8);
  }
}
