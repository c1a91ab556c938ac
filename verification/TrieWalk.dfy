/** The lazy ascending walk over a trie, held together by a stack of pending references. */
module TrieWalk {
  import opened Wrappers
  import opened Lex
  import opened Batch
  import opened TrieModel
  import opened TrieStore
  import opened TrieBatch
  import opened Trie

  type LeafEntry = (Path, Hash)
  type Pending = (RootRef, Path)

  // ---- The leaves of a trie in order ----

  function LeavesOf(t: Tree): seq<LeafEntry>
    decreases t, 0
  {
    match t
    case Nil => []
    case Tip(path, hash) => [(path, hash)]
    case Fork(_, kids) => KidLeaves(kids, 0)
  }

  /** The leaves of the children from slot `i` on. */
  function KidLeaves(kids: seq<Tree>, i: nat): seq<LeafEntry>
    decreases kids, |kids| - i
  {
    if i >= |kids| then [] else LeavesOf(kids[i]) + KidLeaves(kids, i + 1)
  }

  /** The leaves still to come, the top of the stack first. */
  function Remaining(trees: seq<Tree>): seq<LeafEntry> {
    if trees == [] then [] else LeavesOf(trees[|trees| - 1]) + Remaining(trees[..|trees| - 1])
  }

  lemma {:induction false} RemainingPush(trees: seq<Tree>, t: Tree)
    ensures Remaining(trees + [t]) == LeavesOf(t) + Remaining(trees)
  {
    assert (trees + [t])[..|trees|] == trees;
  }

  /** A trie's leaf list is its map. */
  lemma {:induction false} LeavesAreMap(w: nat, t: Tree, route: Path, e: LeafEntry)
    requires Canonical(w, t, route)
    ensures e in LeavesOf(t) <==> Below(w, route, e.0) && Lookup(t, e.0, |route|) == Some(e.1)
    decreases t, 0, 0
  {
    match t
    case Nil =>
    case Tip(_, _) =>
    case Fork(prefix, kids) =>
      var at := route + prefix;
      KidLeavesAreMap(w, kids, at, 0, e);
      if |e.0| == w {
        LookupAt(w, t, route, at, e.0);
      }
  }

  lemma {:induction false} KidLeavesAreMap(w: nat, kids: seq<Tree>, at: Path, i: nat, e: LeafEntry)
    requires |kids| == SLOTS && |at| < w && i <= SLOTS
    requires forall s: Nibble :: Canonical(w, kids[s], at + [s])
    ensures e in KidLeaves(kids, i) <==>
              Below(w, at, e.0) && e.0[|at|] >= i && Lookup(kids[e.0[|at|]], e.0, |at| + 1) == Some(e.1)
    decreases kids, SLOTS - i, 1
  {
    if i < SLOTS {
      var child := at + [i];
      LeavesAreMap(w, kids[i], child, e);
      KidLeavesAreMap(w, kids, at, i + 1, e);
      InEither(LeavesOf(kids[i]), KidLeaves(kids, i + 1), e);
      ChildPath(w, at, i, e.0);
      assert e in LeavesOf(kids[i]) <==>
               Below(w, at, e.0) && e.0[|at|] == i && Lookup(kids[i], e.0, |at| + 1) == Some(e.1);
    }
  }

  /** A full path lies below exactly the child its next nibble names. */
  lemma {:induction false} ChildPath(w: nat, at: Path, i: Nibble, p: Path)
    requires |at| < w
    ensures Below(w, at + [i], p) <==> Below(w, at, p) && p[|at|] == i
  {
    if |p| == w {
      StartsWith(p, at, [i]);
    }
  }

  lemma {:induction false} InEither(a: seq<LeafEntry>, b: seq<LeafEntry>, e: LeafEntry)
    ensures e in a + b <==> e in a || e in b
  {
  }

  // ---- Order on the stack ----

  /** Every path below `a` comes before every path below `b`. */
  predicate Before(a: Path, b: Path) {
    var k := FirstDiff(a, b);
    k < |a| && k < |b| && a[k] < b[k]
  }

  lemma {:induction false} BeforeBelow(a: Path, b: Path, a': Path, b': Path)
    requires Before(a, b) && a <= a' && b <= b'
    ensures Before(a', b') && Less(a', b')
  {
    LessAt(a', b', FirstDiff(a, b));
  }

  /** Pending references: leaves on their routes, routes ascending from the top of the stack. */
  ghost predicate Ordered(w: nat, stack: seq<Pending>, last: Option<Path>) {
    && (forall i :: 0 <= i < |stack| ==>
          |stack[i].1| <= w && (stack[i].0.Leaf? ==> Below(w, stack[i].1, stack[i].0.path)))
    && (forall i, j :: 0 <= i < j < |stack| ==> Before(stack[j].1, stack[i].1))
    && (last.Some? ==> forall i :: 0 <= i < |stack| ==> Before(last.value, stack[i].1))
  }

  // ---- Work left ----

  function Weight(n: nat): (k: nat)
    ensures k > 0
  {
    if n == 0 then 1 else 17 * Weight(n - 1)
  }

  lemma {:induction false} WeightRises(m: nat, n: nat)
    requires m <= n
    ensures Weight(m) <= Weight(n)
    decreases n
  {
    if m < n {
      WeightRises(m, n - 1);
    }
  }

  function Work(w: nat, stack: seq<Pending>): nat {
    if stack == [] then 0
    else
      var route := stack[|stack| - 1].1;
      Work(w, stack[..|stack| - 1]) + (if |route| <= w then Weight(w - |route|) else 0)
  }

  lemma {:induction false} WorkPush(w: nat, stack: seq<Pending>, e: Pending)
    requires |e.1| <= w
    ensures Work(w, stack + [e]) == Work(w, stack) + Weight(w - |e.1|)
  {
    assert (stack + [e])[..|stack|] == stack;
  }

  // ---- Replacing a branch by its children ----

  /** The stack with the live children from slot `i` on, the least slot on top. */
  function Pushed(base: seq<Pending>, children: seq<RootRef>, at: Path, i: nat): seq<Pending>
    requires |children| == SLOTS && i <= SLOTS
    decreases SLOTS - i
  {
    if i == SLOTS then base
    else if children[i] == Empty then Pushed(base, children, at, i + 1)
    else Pushed(base, children, at, i + 1) + [(children[i], at + [i])]
  }

  ghost function PushedTrees(base: seq<Tree>, kids: seq<Tree>, i: nat): seq<Tree>
    requires |kids| == SLOTS && i <= SLOTS
    decreases SLOTS - i
  {
    if i == SLOTS then base
    else if kids[i] == Nil then PushedTrees(base, kids, i + 1)
    else PushedTrees(base, kids, i + 1) + [kids[i]]
  }

  /** The references below `at` in slots under `i` come before everything on the stack. */
  ghost predicate AllAfter(at: Path, i: nat, stack: seq<Pending>) {
    forall s: Nibble, k :: s < i && 0 <= k < |stack| ==> Before(at + [s], stack[k].1)
  }

  lemma {:induction false} OrderedPush(w: nat, stack: seq<Pending>, e: Pending, last: Option<Path>)
    requires Ordered(w, stack, last) && |e.1| <= w && (e.0.Leaf? ==> Below(w, e.1, e.0.path))
    requires forall k :: 0 <= k < |stack| ==> Before(e.1, stack[k].1)
    requires last.Some? ==> Before(last.value, e.1)
    ensures Ordered(w, stack + [e], last)
  {
  }

  lemma {:induction false} AllAfterPush(at: Path, i: Nibble, stack: seq<Pending>, ref: RootRef)
    requires AllAfter(at, i + 1, stack)
    ensures AllAfter(at, i, stack + [(ref, at + [i])])
  {
    forall s: Nibble | s < i
      ensures Before(at + [s], at + [i])
    {
      LessAt(at + [s], at + [i], |at|);
    }
  }

  /** Children take their branch's place in the order. */
  lemma {:induction false} PushedOrdered(w: nat, base: seq<Pending>, children: seq<RootRef>, at: Path, i: nat,
                                         last: Option<Path>)
    requires |children| == SLOTS && i <= SLOTS && |at| < w && Ordered(w, base, last) && AllAfter(at, SLOTS, base)
    requires last.Some? ==> Before(last.value, at)
    requires forall s: Nibble :: children[s].Leaf? ==> Below(w, at + [s], children[s].path)
    ensures Ordered(w, Pushed(base, children, at, i), last)
    ensures AllAfter(at, i, Pushed(base, children, at, i))
    decreases SLOTS - i
  {
    if i < SLOTS {
      PushedOrdered(w, base, children, at, i + 1, last);
      if children[i] != Empty {
        var stack := Pushed(base, children, at, i + 1);
        if last.Some? {
          BeforeBelow(last.value, at, last.value, at + [i]);
        }
        OrderedPush(w, stack, (children[i], at + [i]), last);
        AllAfterPush(at, i, stack, children[i]);
      }
    }
  }

  /** Children weigh less than their branch. */
  lemma {:induction false} PushedWork(w: nat, base: seq<Pending>, children: seq<RootRef>, at: Path, i: nat)
    requires |children| == SLOTS && i <= SLOTS && |at| < w
    ensures Work(w, Pushed(base, children, at, i)) <= Work(w, base) + (SLOTS - i) * Weight(w - |at| - 1)
    decreases SLOTS - i
  {
    if i < SLOTS {
      var each := Weight(w - |at| - 1);
      PushedWork(w, base, children, at, i + 1);
      assert (SLOTS - i) * each == (SLOTS - i - 1) * each + each;
      if children[i] != Empty {
        WorkPush(w, Pushed(base, children, at, i + 1), (children[i], at + [i]));
      }
    }
  }

  /** The pending references stand for the pending tries. */
  ghost predicate TreesOk(env: Env, rows: Rows, stack: seq<Pending>, trees: seq<Tree>) {
    && |trees| == |stack|
    && forall i :: 0 <= i < |stack| ==> Represents(env, rows, stack[i].0, trees[i], stack[i].1)
  }

  lemma {:induction false} TreesPopped(env: Env, rows: Rows, base: seq<Pending>, top: Pending, trees: seq<Tree>)
    requires TreesOk(env, rows, base + [top], trees)
    ensures TreesOk(env, rows, base, trees[..|base|]) && Represents(env, rows, top.0, trees[|base|], top.1)
    ensures Remaining(trees) == LeavesOf(trees[|base|]) + Remaining(trees[..|base|])
  {
    var stack := base + [top];
    assert forall k :: 0 <= k < |base| ==> stack[k] == base[k];
    assert stack[|base|] == top;
  }

  lemma {:induction false} TreesPush(env: Env, rows: Rows, stack: seq<Pending>, trees: seq<Tree>, e: Pending, t: Tree)
    requires TreesOk(env, rows, stack, trees) && Represents(env, rows, e.0, t, e.1)
    ensures TreesOk(env, rows, stack + [e], trees + [t])
    ensures Remaining(trees + [t]) == LeavesOf(t) + Remaining(trees)
  {
    RemainingPush(trees, t);
  }

  lemma {:induction false} PushedRepresent(env: Env, rows: Rows, base: seq<Pending>, trees: seq<Tree>,
                                           children: seq<RootRef>, kids: seq<Tree>, at: Path, i: nat)
    requires TreesOk(env, rows, base, trees) && KidsRepresent(env, rows, children, kids, at) && i <= SLOTS
    ensures TreesOk(env, rows, Pushed(base, children, at, i), PushedTrees(trees, kids, i))
    decreases SLOTS - i
  {
    if i < SLOTS {
      PushedRepresent(env, rows, base, trees, children, kids, at, i + 1);
      assert Represents(env, rows, children[i], kids[i], at + [i]);
      assert kids[i] == Nil <==> children[i] == Empty;
      if kids[i] != Nil {
        TreesPush(env, rows, Pushed(base, children, at, i + 1), PushedTrees(trees, kids, i + 1),
                  (children[i], at + [i]), kids[i]);
      }
    }
  }

  /** The pushed tries hold the children's leaves, lowest slot first. */
  lemma {:induction false} PushedLeaves(trees: seq<Tree>, kids: seq<Tree>, i: nat)
    requires |kids| == SLOTS && i <= SLOTS
    ensures Remaining(PushedTrees(trees, kids, i)) == KidLeaves(kids, i) + Remaining(trees)
    decreases SLOTS - i
  {
    if i < SLOTS {
      PushedLeaves(trees, kids, i + 1);
      var rest := PushedTrees(trees, kids, i + 1);
      if kids[i] != Nil {
        RemainingPush(rest, kids[i]);
      }
      assert Remaining(PushedTrees(trees, kids, i)) == LeavesOf(kids[i]) + Remaining(rest);
      Regroup(LeavesOf(kids[i]), KidLeaves(kids, i + 1), Remaining(trees));
    }
  }

  lemma {:induction false} Regroup(a: seq<LeafEntry>, b: seq<LeafEntry>, c: seq<LeafEntry>)
    ensures a + (b + c) == a + b + c
  {
  }

  /** Push a branch's live children, highest slot first. */
  method PushChildren(base: seq<Pending>, children: seq<RootRef>, at: Path) returns (stack: seq<Pending>)
    requires |children| == SLOTS
    ensures stack == Pushed(base, children, at, 0)
  {
    stack := base;
    for slot: int := SLOTS downto 0
      invariant stack == Pushed(base, children, at, slot)
    {
      if children[slot] != Empty {
        stack := stack + [(children[slot], at + [slot])];
      }
    }
  }

  /** A branch popped off an ordered stack gives way to its children in order. */
  lemma {:induction false} ExpandedOrdered(w: nat, base: seq<Pending>, top: Pending, node: Node, last: Option<Path>)
    requires Ordered(w, base, last) && NodeOk(w, node) && ValidAt(w, node, top.1)
    requires forall k :: 0 <= k < |base| ==> Before(top.1, base[k].1)
    requires last.Some? ==> Before(last.value, top.1)
    ensures Ordered(w, Pushed(base, node.children, top.1 + node.prefix, 0), last)
  {
    var at := top.1 + node.prefix;
    forall s: Nibble, k | 0 <= k < |base|
      ensures Before(at + [s], base[k].1)
    {
      BeforeBelow(top.1, base[k].1, at + [s], base[k].1);
    }
    if last.Some? {
      BeforeBelow(last.value, top.1, last.value, at);
    }
    assert forall s: Nibble :: node.children[s].Leaf? ==> Below(w, at + [s], node.children[s].path);
    PushedOrdered(w, base, node.children, at, 0, last);
  }

  /** The children are less work than their branch. */
  lemma {:induction false} ExpandedWork(w: nat, base: seq<Pending>, top: Pending, children: seq<RootRef>, at: Path)
    requires |children| == SLOTS && |top.1| <= |at| < w
    ensures Work(w, Pushed(base, children, at, 0)) < Work(w, base + [top])
  {
    AllPushedWork(w, base, children, at);
    WorkPush(w, base, top);
    WeightRises(w - |at|, w - |top.1|);
  }

  lemma {:induction false} AllPushedWork(w: nat, base: seq<Pending>, children: seq<RootRef>, at: Path)
    requires |children| == SLOTS && |at| < w
    ensures Work(w, Pushed(base, children, at, 0)) < Work(w, base) + Weight(w - |at|)
  {
    PushedWork(w, base, children, at, 0);
    var each := Weight(w - |at| - 1);
    assert (SLOTS - 0) * each == 16 * each;
  }

  /** Popping keeps the rest in order; a popped leaf comes after everything yielded and before the rest. */
  lemma {:induction false} Popped(w: nat, base: seq<Pending>, top: Pending, last: Option<Path>)
    requires Ordered(w, base + [top], last)
    ensures Ordered(w, base, last) && Work(w, base) < Work(w, base + [top])
    ensures forall k :: 0 <= k < |base| ==> Before(top.1, base[k].1)
    ensures last.Some? ==> Before(last.value, top.1)
    ensures |top.1| <= w
    ensures top.0.Leaf? ==> Ordered(w, base, Some(top.0.path)) && |top.0.path| == w
    ensures top.0.Leaf? && last.Some? ==> Less(last.value, top.0.path)
  {
    var stack := base + [top];
    assert forall k :: 0 <= k < |base| ==> stack[k] == base[k];
    assert stack[|base|] == top;
    WorkPush(w, base, top);
    if top.0.Leaf? {
      forall k | 0 <= k < |base|
        ensures Before(top.0.path, base[k].1)
      {
        BeforeBelow(top.1, base[k].1, top.0.path, base[k].1);
      }
      if last.Some? {
        BeforeBelow(last.value, top.1, last.value, top.0.path);
      }
    }
  }

  /** What one call may yield, over any store. */
  ghost predicate Yields(w: nat, before: Option<Path>, after: Option<Path>, r: Option<Result<LeafEntry, MerkleError>>,
                         rest: seq<Pending>) {
    match r
    case None => rest == [] && after == before
    case Some(Err(_)) => rest == [] && after == before
    case Some(Ok(leaf)) => |leaf.0| == w && after == Some(leaf.0) && (before.Some? ==> Less(before.value, leaf.0))
  }

  /** What one call may yield when the pending references stand for `left`. */
  predicate YieldsNext(left: seq<LeafEntry>, left': seq<LeafEntry>, r: Option<Result<LeafEntry, MerkleError>>) {
    match r
    case None => left == []
    case Some(Err(e)) => Faulted(e)
    case Some(Ok(leaf)) => left == [leaf] + left'
  }

  /** Leaves collected so far ascend and end with the last one yielded. */
  ghost predicate Collected(leaves: seq<LeafEntry>, last: Option<Path>) {
    && Ascending(PathLess, leaves)
    && last == if leaves == [] then None else Some(leaves[|leaves| - 1].0)
  }

  lemma {:induction false} CollectMore(leaves: seq<LeafEntry>, last: Option<Path>, leaf: LeafEntry)
    requires Collected(leaves, last) && (last.Some? ==> Less(last.value, leaf.0))
    ensures Collected(leaves + [leaf], Some(leaf.0))
  {
    forall i | 0 <= i < |leaves|
      ensures PathLess(leaves[i].0, leaf.0)
    {
      if i < |leaves| - 1 {
        assert PathLess(leaves[i].0, leaves[|leaves| - 1].0);
        Transitive(leaves[i].0, leaves[|leaves| - 1].0, leaf.0);
      }
    }
  }

  /** Progress through the leaves of a represented trie. */
  predicate Drained(all: seq<LeafEntry>, left: seq<LeafEntry>, leaves: seq<LeafEntry>, error: Option<MerkleError>,
                    more: bool) {
    if error.Some? then Faulted(error.value) && !more
    else all == leaves + if more then left else []
  }

  lemma {:induction false} DrainMore(all: seq<LeafEntry>, left: seq<LeafEntry>, left': seq<LeafEntry>,
                                     leaves: seq<LeafEntry>, leaf: LeafEntry)
    requires Drained(all, left, leaves, None, true) && left == [leaf] + left'
    ensures Drained(all, left', leaves + [leaf], None, true)
  {
    assert leaves + ([leaf] + left') == leaves + [leaf] + left';
  }

  class Walk {
    const env: Env
    const tx: Table
    var stack: seq<Pending>
    /** The last path yielded. */
    ghost var last: Option<Path>
    /** The tries the stack stands for, when the root is represented. */
    ghost var trees: Option<seq<Tree>>

    ghost predicate Valid()
      reads this, tx
    {
      && Lawful(env)
      && Ordered(env.width, stack, last)
      && (trees.Some? ==> TreesOk(env, tx.rows, stack, trees.value))
    }

    constructor (env: Env, tx: Table, root: RootRef)
      requires Lawful(env) && (root.Leaf? ==> |root.path| == env.width)
      ensures Valid() && this.env == env && this.tx == tx && last == None
      ensures trees.Some? <==> exists t :: Represents(env, tx.rows, root, t, [])
      ensures forall t :: Represents(env, tx.rows, root, t, []) ==> trees == Some([t])
    {
      this.env, this.tx := env, tx;
      stack := [(root, [])];
      last := None;
      ghost var known := exists t :: Represents(env, tx.rows, root, t, []);
      trees := if known then var t :| Represents(env, tx.rows, root, t, []); Some([t]) else None;
      new;
      forall t | Represents(env, tx.rows, root, t, [])
        ensures trees == Some([t])
      {
        PersistedUnique(env, tx.rows, t, trees.value[0], []);
      }
    }

    /** The next leaf in path order, the end, or the one error that ends the walk. */
    method Next() returns (r: Option<Result<LeafEntry, MerkleError>>)
      requires Valid()
      modifies this
      ensures Valid() && trees.Some? == old(trees.Some?)
      ensures Yields(env.width, old(last), last, r, stack)
      ensures Work(env.width, stack) <= Work(env.width, old(stack))
      ensures r.Some? ==> Work(env.width, stack) < Work(env.width, old(stack))
      ensures trees.Some? ==> YieldsNext(Remaining(old(trees).value), Remaining(trees.value), r)
    {
      while stack != []
        invariant Valid() && trees.Some? == old(trees.Some?) && last == old(last)
        invariant Work(env.width, stack) <= Work(env.width, old(stack))
        invariant trees.Some? ==> Remaining(trees.value) == Remaining(old(trees).value)
        decreases Work(env.width, stack)
      {
        r := Step();
        if r.Some? {
          return;
        }
      }
      r := None;
    }

    /** Every leaf to the end, or to the first error. */
    method Drain() returns (leaves: seq<LeafEntry>, error: Option<MerkleError>)
      requires Valid() && last == None
      modifies this
      ensures Ascending(PathLess, leaves)
      ensures old(trees).Some? && error.None? ==> Remaining(old(trees).value) == leaves
      ensures old(trees).Some? && error.Some? ==> Faulted(error.value)
    {
      leaves, error := [], None;
      var more := true;
      while more
        invariant Valid() && trees.Some? == old(trees.Some?) && (more ==> error.None?)
        invariant Collected(leaves, last)
        invariant trees.Some? ==> Drained(Remaining(old(trees).value), Remaining(trees.value), leaves, error, more)
        decreases Work(env.width, stack), more
      {
        leaves, error, more := Pull(leaves, if trees.Some? then Remaining(old(trees).value) else []);
      }
    }

    /** One more leaf, if there is one and nothing fails. */
    method Pull(leaves: seq<LeafEntry>, ghost all: seq<LeafEntry>)
      returns (leaves': seq<LeafEntry>, error: Option<MerkleError>, more: bool)
      requires Valid() && Collected(leaves, last)
      requires trees.Some? ==> Drained(all, Remaining(trees.value), leaves, None, true)
      modifies this
      ensures Valid() && trees.Some? == old(trees.Some?) && Collected(leaves', last)
      ensures trees.Some? ==> Drained(all, Remaining(trees.value), leaves', error, more)
      ensures Work(env.width, stack) <= Work(env.width, old(stack))
      ensures more ==> error.None? && Work(env.width, stack) < Work(env.width, old(stack))
    {
      ghost var before, left := last, if trees.Some? then Remaining(trees.value) else [];
      var next := Next();
      if next.None? {
        leaves', error, more := leaves, None, false;
      } else if next.value.Err? {
        leaves', error, more := leaves, Some(next.value.error), false;
      } else {
        CollectMore(leaves, before, next.value.value);
        if trees.Some? {
          DrainMore(all, left, Remaining(trees.value), leaves, next.value.value);
        }
        leaves', error, more := leaves + [next.value.value], None, true;
      }
    }

    /** Pop one reference: skip it, yield it, or replace it by its children. */
    method Step() returns (r: Option<Result<LeafEntry, MerkleError>>)
      requires Valid() && stack != []
      modifies this
      ensures Valid() && trees.Some? == old(trees.Some?)
      ensures r.Some? ==> Yields(env.width, old(last), last, r, stack)
      ensures r.Some? && trees.Some? ==> YieldsNext(Remaining(old(trees).value), Remaining(trees.value), r)
      ensures Work(env.width, stack) < Work(env.width, old(stack))
      ensures r.None? ==> last == old(last)
      ensures r.None? && trees.Some? ==> Remaining(trees.value) == Remaining(old(trees).value)
    {
      var base, top := stack[..|stack| - 1], stack[|stack| - 1];
      assert stack == base + [top];
      Popped(env.width, base, top, last);
      ghost var t := Nil;
      if trees.Some? {
        TreesPopped(env, tx.rows, base, top, trees.value);
        t, trees := trees.value[|base|], Some(trees.value[..|base|]);
      }
      stack := base;
      match top.0
      case Empty =>
        r := None;
      case Leaf(path, hash) =>
        last := Some(path);
        r := Some(Ok((path, hash)));
      case Branch(_) =>
        r := Expand(top, t);
    }

    /** Replace a popped branch by its live children. */
    method Expand(top: Pending, ghost t: Tree) returns (r: Option<Result<LeafEntry, MerkleError>>)
      requires Valid() && top.0.Branch? && |top.1| <= env.width
      requires forall k :: 0 <= k < |stack| ==> Before(top.1, stack[k].1)
      requires last.Some? ==> Before(last.value, top.1)
      requires trees.Some? ==> Represents(env, tx.rows, top.0, t, top.1)
      modifies this
      ensures Valid() && trees.Some? == old(trees.Some?) && last == old(last)
      ensures r.Some? ==> r.value.Err? && stack == [] && (trees.Some? ==> Faulted(r.value.error))
      ensures Work(env.width, stack) < Work(env.width, old(stack) + [top])
      ensures r.None? && trees.Some? ==> Remaining(trees.value) == LeavesOf(t) + Remaining(old(trees).value)
    {
      if trees.Some? {
        LoadsFork(env, tx.rows, top.0, t, top.1);
      }
      var node := Load(env, tx, top.0.hash, top.1);
      if node.Err? {
        WorkPush(env.width, stack, top);
        stack := [];
        trees := if trees.Some? then Some([]) else None;
        return Some(Err(node.error));
      }
      ExpandedOrdered(env.width, stack, top, node.value, last);
      var at := top.1 + node.value.prefix;
      ExpandedWork(env.width, stack, top, node.value.children, at);
      if trees.Some? {
        PushedRepresent(env, tx.rows, stack, trees.value, node.value.children, t.kids, at, 0);
        PushedLeaves(trees.value, t.kids, 0);
        trees := Some(PushedTrees(trees.value, t.kids, 0));
      }
      stack := PushChildren(stack, node.value.children, at);
      r := None;
    }
  }

  /** The whole walk. Paths ascend strictly until the end or the first error, and on a represented
      trie the leaves are exactly its map. */
  method WalkAll(env: Env, tx: Table, root: RootRef) returns (leaves: seq<LeafEntry>, error: Option<MerkleError>)
    requires Lawful(env) && (root.Leaf? ==> |root.path| == env.width)
    ensures Ascending(PathLess, leaves)
    ensures forall m :: IsTrie(env, tx.rows, root, m) ==>
              && (error.None? ==> forall e: LeafEntry :: e in leaves <==> e.0 in m && m[e.0] == e.1)
              && (error.Some? ==> Faulted(error.value))
  {
    var walk := new Walk(env, tx, root);
    ghost var known := walk.trees;
    leaves, error := walk.Drain();
    WalkMeans(env, tx.rows, root, known, leaves, error);
  }

  lemma {:induction false} WalkMeans(env: Env, rows: Rows, root: RootRef, known: Option<seq<Tree>>,
                                     leaves: seq<LeafEntry>, error: Option<MerkleError>)
    requires forall t :: Represents(env, rows, root, t, []) ==> known == Some([t])
    requires known.Some? && error.None? ==> Remaining(known.value) == leaves
    requires known.Some? && error.Some? ==> Faulted(error.value)
    ensures forall m :: IsTrie(env, rows, root, m) ==>
              && (error.None? ==> forall e: LeafEntry :: e in leaves <==> e.0 in m && m[e.0] == e.1)
              && (error.Some? ==> Faulted(error.value))
  {
    forall m | IsTrie(env, rows, root, m)
      ensures error.None? ==> forall e: LeafEntry :: e in leaves <==> e.0 in m && m[e.0] == e.1
      ensures error.Some? ==> Faulted(error.value)
    {
      var t := TreeOf(env, rows, root, m);
      assert known == Some([t]);
      assert Remaining([t]) == LeavesOf(t) by {
        assert [t][..0] == [];
      }
      forall e: LeafEntry
        ensures e in LeavesOf(t) <==> e.0 in m && m[e.0] == e.1
      {
        LeavesAreMap(env.width, t, [], e);
      }
    }
  }
}
