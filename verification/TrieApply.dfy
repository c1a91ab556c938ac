/** The batched update: descend by groups of edits, then collapse and store once. */
module TrieApply {
  import opened Wrappers
  import opened Lex
  import opened Batch
  import opened TrieModel
  import opened TrieStore
  import opened TrieEdit
  import opened TrieBatch
  import opened TrieExists
  import opened TrieBuild

  // ---- Empty and single-leaf subtries ----

  function HeldTree(held: RootRef): Tree
    requires !held.Branch?
  {
    if held.Leaf? then Tip(held.path, held.hash) else Nil
  }

  /** A subtrie rebuilt from the insertions and a surviving leaf is the edited subtrie. */
  lemma {:induction false} RebuiltApplied(w: nat, held: RootRef, after: Tree, edits: seq<Edit>, leaves: seq<Edit>,
                                          all: seq<Edit>, route: Path)
    requires !held.Branch? && Applied(w, Nil, after, all, route)
    requires forall p :: Last(leaves, p) == if Last(edits, p) == Some(None) then None else Last(edits, p)
    requires if held.Leaf? && Last(edits, held.path).None?
             then forall p :: Last(all, p) == Last(leaves + [(held.path, Some(held.hash))], p)
             else all == leaves
    ensures Applied(w, HeldTree(held), after, edits, route)
  {
    forall p: Path | Below(w, route, p)
      ensures Lookup(after, p, |route|) == Settled(Last(edits, p), Lookup(HeldTree(held), p, |route|))
    {
      if held.Leaf? {
        LastConcat(leaves, [(held.path, Some(held.hash))], p);
      }
    }
  }

  lemma {:induction false} RebuildPlan(env: Env, nodes: iset<Node>, held: RootRef, edits: seq<Edit>,
                                       leaves: seq<Edit>, all: seq<Edit>, route: Path)
    requires !held.Branch?
    requires forall p :: Last(leaves, p) == if Last(edits, p) == Some(None) then None else Last(edits, p)
    requires if held.Leaf? && Last(edits, held.path).None?
             then forall p :: Last(all, p) == Last(leaves + [(held.path, Some(held.hash))], p)
             else all == leaves
    ensures BatchPlan(env, nodes, HeldTree(held), edits, route, false) ==>
              BatchPlan(env, nodes, Nil, all, route, false)
  {
    forall after: Tree | BatchResult(env.width, Nil, after, all, route)
      ensures BatchResult(env.width, HeldTree(held), after, edits, route)
    {
      RebuiltApplied(env.width, held, after, edits, leaves, all, route);
    }
  }

  /** What becomes of nothing, or of a single leaf, under the edits. */
  method Rebuild(env: Env, tx: Table, held: RootRef, edits: seq<Edit>, route: Path, ghost nodes: iset<Node>)
    returns (r: Result<Edited, MerkleError>, ghost after: Tree)
    requires Lawful(env) && EditsOk(env.width, edits, route)
    requires !held.Branch? && (held.Leaf? ==> Below(env.width, route, held.path))
    modifies tx
    ensures Grows(old(tx.rows), tx.rows)
    ensures r.Ok? ==> EditedRepresents(env, tx.rows, r.value, after, route)
    ensures r.Ok? ==> Applied(env.width, HeldTree(held), after, edits, route)
    ensures r.Ok? ==> Accounts(env, old(tx.rows), tx.rows, r.value, after)
    ensures edits == [] ==> r.Ok? && r.value.Stored?
    ensures r.Err? ==> Excused(r.error)
    ensures RowsFrom(env, old(tx.rows), nodes) && BatchPlan(env, nodes, HeldTree(held), edits, route, false) ==>
              Tidy(env, tx.rows, nodes, r == Err(ConflictingBranch))
  {
    var leaves := Insertions(edits, env.width, route);
    var all := leaves;
    if held.Leaf? {
      LastNone(edits, held.path);
      if forall i :: 0 <= i < |edits| ==> edits[i].0 != held.path {
        PathOrder();
        all := InsertNew(PathLess, leaves, (held.path, Some(held.hash)));
        assert forall i :: 0 <= i < |all| ==> all[i] in all;
      }
    }
    RebuildPlan(env, nodes, held, edits, leaves, all, route);
    r, after := Build(env, tx, all, route, nodes);
    if r.Ok? {
      RebuiltApplied(env.width, held, after, edits, leaves, all, route);
    }
  }

  // ---- Splitting a branch's prefix ----

  /** The branch's children, or the branch itself alone below the kept nibbles. */
  function SplitPrefix(prefix: Path, children: seq<RootRef>, kept: nat): seq<Edited>
    requires kept <= |prefix| && |children| == SLOTS
  {
    if kept == |prefix| then seq(SLOTS, i requires 0 <= i < SLOTS => Stored(children[i]))
    else seq(SLOTS, i => if i == prefix[kept] then New(prefix[kept + 1..], children) else Stored(Empty))
  }

  ghost function SplitKids(prefix: Path, kids: seq<Tree>, kept: nat): seq<Tree>
    requires kept <= |prefix| && |kids| == SLOTS
  {
    if kept == |prefix| then kids
    else seq(SLOTS, i => if i == prefix[kept] then Fork(prefix[kept + 1..], kids) else Nil)
  }

  lemma {:induction false} SplitRepresents(env: Env, rows: Rows, t: Tree, children: seq<RootRef>, kept: nat,
                                           route: Path)
    requires t.Fork? && Canonical(env.width, t, route) && kept <= |t.prefix|
    requires KidsRepresent(env, rows, children, t.kids, route + t.prefix)
    ensures EditedKids(env, rows, SplitPrefix(t.prefix, children, kept), SplitKids(t.prefix, t.kids, kept),
                       route + t.prefix[..kept])
  {
    if kept < |t.prefix| {
      LowerRepresents(env, rows, t, children, kept, route);
    } else {
      assert t.prefix[..kept] == t.prefix;
    }
  }

  /** The branch cut off below the kept nibbles stands where its first nibble leads. */
  lemma {:induction false} LowerRepresents(env: Env, rows: Rows, t: Tree, children: seq<RootRef>, kept: nat,
                                           route: Path)
    requires t.Fork? && Canonical(env.width, t, route) && kept < |t.prefix|
    requires KidsRepresent(env, rows, children, t.kids, route + t.prefix)
    ensures EditedRepresents(env, rows, New(t.prefix[kept + 1..], children), Fork(t.prefix[kept + 1..], t.kids),
                             route + t.prefix[..kept] + [t.prefix[kept]])
  {
    var upper, low := t.prefix[..kept] + [t.prefix[kept]], t.prefix[kept + 1..];
    assert t.prefix == upper + low;
    assert route + t.prefix[..kept] + [t.prefix[kept]] == route + upper;
    JoinCanonical(env.width, upper, low, t.kids, route);
    assert route + upper + low == route + t.prefix;
  }

  lemma {:induction false} SplitSameMap(w: nat, t: Tree, kept: nat, route: Path)
    requires t.Fork? && Canonical(w, t, route) && kept <= |t.prefix|
    ensures SameMap(w, t, Fork(t.prefix[..kept], SplitKids(t.prefix, t.kids, kept)), route)
  {
    if kept < |t.prefix| {
      var top, slot, low := t.prefix[..kept], t.prefix[kept], t.prefix[kept + 1..];
      assert t.prefix == top + [slot] + low;
      assert route + top + [slot] == route + (top + [slot]);
      JoinCanonical(w, top + [slot], low, t.kids, route);
      AbsorbPrefix(w, top, SplitKids(t.prefix, t.kids, kept), route, slot);
    } else {
      assert t.prefix[..kept] == t.prefix;
    }
  }

  /** Edits off the kept nibbles are removals of paths the branch does not hold. */
  lemma {:induction false} FollowingApplied(w: nat, t: Tree, after: Tree, kids: seq<Tree>, edits: seq<Edit>, lo: nat,
                                            hi: nat, top: Path, route: Path)
    requires EditsOk(w, edits, route) && lo <= hi <= |edits| && |route| + |top| < w && |kids| == SLOTS
    requires forall i :: 0 <= i < |edits| ==> (route + top <= edits[i].0 <==> lo <= i < hi)
    requires forall i :: 0 <= i < |edits| && edits[i].1.Some? ==> route + top <= edits[i].0
    requires SameMap(w, t, Fork(top, kids), route)
    requires Applied(w, Fork(top, kids), after, edits[lo..hi], route)
    ensures Applied(w, t, after, edits, route)
  {
    forall p: Path | Below(w, route, p)
      ensures Lookup(after, p, |route|) == Settled(Last(edits, p), Lookup(t, p, |route|))
    {
      if route + top <= p {
        LastSlice(edits, lo, hi, p);
      } else {
        LookupStep(w, top, kids, route, p);
        LastNone(edits[lo..hi], p);
        if Last(edits, p).Some? {
          LastIn(edits, p);
        }
      }
    }
  }

  lemma {:induction false} FollowingOk(w: nat, edits: seq<Edit>, lo: nat, hi: nat, at: Path, route: Path)
    requires EditsOk(w, edits, route) && lo <= hi <= |edits|
    requires forall i :: lo <= i < hi ==> at <= edits[i].0
    ensures EditsOk(w, edits[lo..hi], at)
  {
  }

  // ---- Children, group by group ----

  /** What holds between groups of an edited branch. */
  ghost predicate GroupState(env: Env, first: Rows, rows: Rows, es: seq<Edited>, before: seq<Tree>, kids: seq<Tree>,
                             edits: seq<Edit>, at: Path, i: nat, bound: nat)
  {
    && EditsOk(env.width, edits, at) && |at| < env.width && i <= |edits| && bound <= SLOTS
    && EditedKids(env, rows, es, kids, at)
    && Reached(edits, at, i, bound)
    && SlotsApplied(env.width, before, kids, edits, at, bound)
    && AccountsKids(env, first, rows, es, kids, bound)
  }

  lemma {:induction false} EditedKidsReplace(env: Env, mid: Rows, last: Rows, es: seq<Edited>, kids: seq<Tree>,
                                             at: Path,
                          slot: Nibble, e: Edited, kid: Tree)
    requires EditedKids(env, mid, es, kids, at) && Grows(mid, last)
    requires EditedRepresents(env, last, e, kid, at + [slot])
    ensures EditedKids(env, last, es[slot := e], kids[slot := kid], at)
  {
    EditedKidsGrow(env, mid, last, es, kids, at);
  }

  lemma {:induction false} GroupStep(env: Env, first: Rows, mid: Rows, last: Rows, es: seq<Edited>, before: seq<Tree>,
                                     kids: seq<Tree>,
                  edits: seq<Edit>, at: Path, i: nat, bound: nat, j: nat, slot: Nibble, e: Edited, kid: Tree)
    requires GroupState(env, first, mid, es, before, kids, edits, at, i, bound) && Grows(mid, last)
    requires i < j <= |edits|
    requires forall k :: i <= k < j ==> edits[k].0[|at|] == slot
    requires forall k :: j <= k < |edits| ==> edits[k].0[|at|] > slot
    requires EditedRepresents(env, last, e, kid, at + [slot])
    requires Applied(env.width, before[slot], kid, edits[i..j], at + [slot])
    requires Accounts(env, mid, last, e, kid)
    ensures GroupState(env, first, last, es[slot := e], before, kids[slot := kid], edits, at, j, slot as int + 1)
  {
    assert edits[i].0[|at|] == slot;
    EditedKidsReplace(env, mid, last, es, kids, at, slot, e, kid);
    SlotsAdvance(env.width, before, kids, edits, at, bound, i, j, slot, kid);
    AccountsAdvance(env, first, mid, last, es, kids, bound, slot, e, kid);
  }

  /** The next group is a batch of its own, and planned for when the children are. */
  lemma {:induction false} NextGroup(env: Env, nodes: iset<Node>, before: seq<Tree>, edits: seq<Edit>, at: Path,
                                     i: nat, j: nat, bound: nat, slot: Nibble)
    requires EditsOk(env.width, edits, at) && |at| < env.width && i < j <= |edits| && |before| == SLOTS
    requires Reached(edits, at, i, bound)
    requires forall k :: i <= k < j ==> edits[k].0[|at|] == slot
    requires forall k :: j <= k < |edits| ==> edits[k].0[|at|] > slot
    ensures EditsOk(env.width, edits[i..j], at + [slot])
    ensures KidsPlan(env, nodes, before, edits, at, false) ==>
              BatchPlan(env, nodes, before[slot], edits[i..j], at + [slot], false)
  {
    assert edits[i].0[|at|] == slot;
    GroupOk(env.width, edits, at, i, j, slot);
    if KidsPlan(env, nodes, before, edits, at, false) {
      GroupPlan(env, nodes, before, edits, at, false, i, j, slot);
    }
  }

  /** Apply one group of edits to the child it leads to. */
  method ApplyGroup(env: Env, tx: Table, edits: seq<Edit>, at: Path, i: nat, es: seq<Edited>,
                    ghost before: seq<Tree>, ghost kids: seq<Tree>, ghost bound: nat, ghost first: Rows,
                    ghost nodes: iset<Node>)
    returns (error: Option<MerkleError>, j: nat, es': seq<Edited>, ghost kids': seq<Tree>, ghost bound': nat)
    requires Lawful(env) && i < |edits|
    requires GroupState(env, first, tx.rows, es, before, kids, edits, at, i, bound)
    modifies tx
    ensures Grows(old(tx.rows), tx.rows) && i < j <= |edits|
    ensures error.None? ==> GroupState(env, first, tx.rows, es', before, kids', edits, at, j, bound')
    ensures error.Some? ==> Excused(error.value)
    ensures RowsFrom(env, old(tx.rows), nodes) && KidsPlan(env, nodes, before, edits, at, false) ==>
              Tidy(env, tx.rows, nodes, error == Some(ConflictingBranch))
    decreases env.width - |at|, 0
  {
    es', kids', bound' := es, kids, bound;
    j := GroupEnd(env.width, edits, at, i);
    var slot := edits[i].0[|at|];
    var child;
    ghost var kid;
    NextGroup(env, nodes, before, edits, at, i, j, bound, slot);
    child, kid := ApplyAt(env, tx, es[slot], edits[i..j], at + [slot], kids[slot], nodes);
    if child.Err? {
      error := Some(child.error);
      return;
    }
    GroupStep(env, first, old(tx.rows), tx.rows, es, before, kids, edits, at, i, bound, j, slot, child.value, kid);
    error, es', kids', bound' := None, es[slot := child.value], kids[slot := kid], slot as int + 1;
  }

  /** Apply every group of edits below `at`. */
  method ApplyKids(env: Env, tx: Table, edits: seq<Edit>, at: Path, es: seq<Edited>, ghost before: seq<Tree>,
                   ghost nodes: iset<Node>)
    returns (error: Option<MerkleError>, es': seq<Edited>, ghost kids: seq<Tree>)
    requires Lawful(env) && EditsOk(env.width, edits, at) && |at| < env.width
    requires EditedKids(env, tx.rows, es, before, at)
    modifies tx
    ensures Grows(old(tx.rows), tx.rows)
    ensures error.None? ==> EditedKids(env, tx.rows, es', kids, at)
    ensures error.None? ==> SlotsApplied(env.width, before, kids, edits, at, SLOTS)
    ensures error.None? ==> AccountsKids(env, old(tx.rows), tx.rows, es', kids, SLOTS)
    ensures edits == [] ==> error.None? && es' == es
    ensures error.Some? ==> Excused(error.value)
    ensures RowsFrom(env, old(tx.rows), nodes) && KidsPlan(env, nodes, before, edits, at, false) ==>
              Tidy(env, tx.rows, nodes, error == Some(ConflictingBranch))
    decreases env.width - |at|, 1
  {
    ghost var planned := RowsFrom(env, tx.rows, nodes) && KidsPlan(env, nodes, before, edits, at, false);
    es', kids := es, before;
    var i := 0;
    ghost var bound := 0;
    while i < |edits|
      invariant i <= |edits| && (i == 0 ==> es' == es)
      invariant Grows(old(tx.rows), tx.rows)
      invariant GroupState(env, old(tx.rows), tx.rows, es', before, kids, edits, at, i, bound)
      invariant planned ==> RowsFrom(env, tx.rows, nodes)
    {
      error, i, es', kids, bound :=
        ApplyGroup(env, tx, edits, at, i, es', before, kids, bound, old(tx.rows), nodes);
      if error.Some? {
        return;
      }
    }
    SlotsDone(env.width, before, kids, edits, at, bound);
    error := None;
  }

  // ---- Collapsing an edited branch ----

  /** The slots that hold something. */
  method ActiveSlots(es: seq<Edited>) returns (active: seq<Nibble>)
    requires |es| == SLOTS
    ensures forall i :: 0 <= i < |active| ==> es[active[i]] != Stored(Empty)
    ensures forall i, j :: 0 <= i < j < |active| ==> active[i] < active[j]
    ensures forall s: Nibble :: es[s] != Stored(Empty) ==> s in active
  {
    active := [];
    for s: int := 0 to SLOTS
      invariant forall i :: 0 <= i < |active| ==> active[i] < s && es[active[i]] != Stored(Empty)
      invariant forall i, j :: 0 <= i < j < |active| ==> active[i] < active[j]
      invariant forall k: Nibble :: k < s && es[k] != Stored(Empty) ==> k in active
    {
      if es[s] != Stored(Empty) {
        active := active + [s];
      }
    }
  }

  /** Rows added since belong to the first `n` children. */
  ghost predicate AddedFor(env: Env, first: Rows, rows: Rows, kids: seq<Tree>, n: nat)
    requires n <= |kids|
  {
    forall h :: h in rows && h !in first ==> exists i :: 0 <= i < n && HasBranch(env, kids[i], h)
  }

  /** The children stored so far stand for their tries, and their branches own the new rows. */
  ghost predicate StoredKids(env: Env, first: Rows, rows: Rows, children: seq<RootRef>, kids: seq<Tree>, at: Path) {
    && |children| <= SLOTS && |kids| == SLOTS
    && (forall k: Nibble :: k < |children| ==> Represents(env, rows, children[k], kids[k], at + [k]))
    && AddedFor(env, first, rows, kids, |children|)
  }

  lemma {:induction false} StoredKidsStep(env: Env, first: Rows, mid: Rows, last: Rows, children: seq<RootRef>,
                                          kids: seq<Tree>, at: Path, ref: RootRef)
    requires StoredKids(env, first, mid, children, kids, at) && Grows(mid, last) && |children| < SLOTS
    requires Represents(env, last, ref, kids[|children|], at + [|children|])
    requires forall h :: h in last && h !in mid ==> HasBranch(env, kids[|children|], h)
    ensures StoredKids(env, first, last, children + [ref], kids, at)
  {
    forall k: Nibble | k < |children|
      ensures Represents(env, last, children[k], kids[k], at + [k])
    {
      RepresentsGrows(env, mid, last, children[k], kids[k], at + [k]);
    }
    forall h | h in last && h !in first
      ensures exists i :: 0 <= i < |children| + 1 && HasBranch(env, kids[i], h)
    {
      if h !in mid {
        assert HasBranch(env, kids[|children|], h);
      }
    }
  }

  /** Every branch of the children is among these. */
  ghost predicate KidsIn(env: Env, kids: seq<Tree>, nodes: iset<Node>) {
    forall i :: 0 <= i < |kids| ==> NodesIn(env, kids[i], nodes)
  }

  /** Store several children under their branch. */
  method StoreKids(env: Env, tx: Table, es: seq<Edited>, at: Path, ghost kids: seq<Tree>, ghost nodes: iset<Node>)
    returns (error: Option<MerkleError>, children: seq<RootRef>)
    requires Lawful(env) && EditedKids(env, tx.rows, es, kids, at)
    modifies tx
    ensures Grows(old(tx.rows), tx.rows)
    ensures error.None? ==> KidsRepresent(env, tx.rows, children, kids, at)
    ensures error.None? ==> AddedFor(env, old(tx.rows), tx.rows, kids, SLOTS)
    ensures error.Some? ==> Excused(error.value)
    ensures RowsFrom(env, old(tx.rows), nodes) && KidsIn(env, kids, nodes) ==>
              Tidy(env, tx.rows, nodes, error == Some(ConflictingBranch))
  {
    ghost var planned := RowsFrom(env, tx.rows, nodes) && KidsIn(env, kids, nodes);
    children := [];
    while |children| < SLOTS
      invariant |children| <= SLOTS && Grows(old(tx.rows), tx.rows)
      invariant StoredKids(env, old(tx.rows), tx.rows, children, kids, at)
      invariant planned ==> RowsFrom(env, tx.rows, nodes)
      decreases SLOTS - |children|
    {
      error, children := StoreNext(env, tx, es, at, children, kids, old(tx.rows), nodes);
      if error.Some? {
        return;
      }
    }
    error := None;
  }

  /** Store the next child in slot order. */
  method StoreNext(env: Env, tx: Table, es: seq<Edited>, at: Path, children: seq<RootRef>, ghost kids: seq<Tree>,
                   ghost first: Rows, ghost nodes: iset<Node>)
    returns (error: Option<MerkleError>, children': seq<RootRef>)
    requires Lawful(env) && EditedKids(env, first, es, kids, at) && Grows(first, tx.rows)
    requires StoredKids(env, first, tx.rows, children, kids, at) && |children| < SLOTS
    modifies tx
    ensures Grows(old(tx.rows), tx.rows)
    ensures error.None? ==> StoredKids(env, first, tx.rows, children', kids, at) && |children'| == |children| + 1
    ensures error.Some? ==> Excused(error.value)
    ensures RowsFrom(env, old(tx.rows), nodes) && KidsIn(env, kids, nodes) ==>
              Tidy(env, tx.rows, nodes, error == Some(ConflictingBranch))
  {
    var s := |children|;
    EditedGrows(env, first, tx.rows, es[s], kids[s], at + [s]);
    var ref := StoreEdited(env, tx, es[s], at + [s], kids[s], nodes);
    if ref.Err? {
      return Some(ref.error), children;
    }
    StoredKidsStep(env, first, old(tx.rows), tx.rows, children, kids, at, ref.value);
    error, children' := None, children + [ref.value];
  }

  /** An edited child is empty exactly when it holds nothing. */
  lemma {:induction false} EditedLive(env: Env, rows: Rows, es: seq<Edited>, kids: seq<Tree>, at: Path)
    requires EditedKids(env, rows, es, kids, at)
    ensures forall s: Nibble :: es[s] == Stored(Empty) <==> kids[s] == Nil
  {
    forall s: Nibble
      ensures es[s] == Stored(Empty) <==> kids[s] == Nil
    {
      assert EditedRepresents(env, rows, es[s], kids[s], at + [s]);
    }
  }

  /** A lone child decides the branch: a leaf replaces it, a branch absorbs its prefix. */
  method CollapseLone(env: Env, tx: Table, prefix: Path, only: Edited, slot: Nibble, route: Path,
                      ghost kids: seq<Tree>)
    returns (r: Result<Edited, MerkleError>, ghost after: Tree)
    requires Lawful(env) && |route| + |prefix| < env.width && |kids| == SLOTS && only != Stored(Empty)
    requires forall i :: 0 <= i < SLOTS && i != slot ==> kids[i] == Nil
    requires EditedRepresents(env, tx.rows, only, kids[slot], route + prefix + [slot])
    ensures r.Ok? ==> EditedRepresents(env, tx.rows, r.value, after, route)
    ensures r.Ok? ==> SameMap(env.width, after, Fork(prefix, kids), route)
    ensures r.Ok? && only.New? ==> r.value.New? && after.kids == kids[slot].kids
    ensures r.Err? ==> Faulted(r.error)
  {
    if only.Stored? && only.root.Leaf? {
      PromoteLeaf(env.width, prefix, kids, route, slot);
      return Ok(only), kids[slot];
    }
    var at := route + prefix + [slot];
    var below, grandchildren;
    if only.New? {
      below, grandchildren := only.prefix, only.children;
    } else {
      LoadsFork(env, tx.rows, only.root, kids[slot], at);
      var child := Load(env, tx, only.root.hash, at);
      if child.Err? {
        return Err(child.error), Nil;
      }
      below, grandchildren := child.value.prefix, child.value.children;
    }
    AbsorbPrefix(env.width, prefix, kids, route, slot);
    Concat(route, prefix, [slot], below);
    r, after := Ok(New(prefix + [slot] + below, grandchildren)), Fork(prefix + [slot] + below, kids[slot].kids);
  }

  /** Rows accounted for by a lone child are accounted for by what replaces its parent. */
  lemma {:induction false} AccountsLone(env: Env, first: Rows, rows: Rows, es: seq<Edited>, kids: seq<Tree>,
                                        slot: Nibble, e: Edited, after: Tree)
    requires |es| == SLOTS && |kids| == SLOTS && AccountsKids(env, first, rows, es, kids, SLOTS)
    requires forall i :: 0 <= i < SLOTS && i != slot ==> es[i] == Stored(Empty)
    requires es[slot].New? && kids[slot].Fork? ==> e.New? && after.Fork? && after.kids == kids[slot].kids
    ensures Accounts(env, first, rows, e, after)
  {
  }

  /** The branch over these children, or what stands for it when fewer than two are live. */
  method Collapse(env: Env, tx: Table, prefix: Path, es: seq<Edited>, route: Path, ghost kids: seq<Tree>,
                  ghost first: Rows, ghost nodes: iset<Node>)
    returns (r: Result<Edited, MerkleError>, ghost after: Tree)
    requires Lawful(env) && |route| + |prefix| < env.width && Grows(first, tx.rows)
    requires EditedKids(env, tx.rows, es, kids, route + prefix)
    requires AccountsKids(env, first, tx.rows, es, kids, SLOTS)
    modifies tx
    ensures Grows(old(tx.rows), tx.rows)
    ensures r.Ok? ==> EditedRepresents(env, tx.rows, r.value, after, route)
    ensures r.Ok? ==> SameMap(env.width, after, Fork(prefix, kids), route)
    ensures r.Ok? ==> Accounts(env, first, tx.rows, r.value, after)
    ensures r.Err? ==> Excused(r.error)
    ensures RowsFrom(env, old(tx.rows), nodes) && (TwoLive(kids) ==> KidsIn(env, kids, nodes)) ==>
              Tidy(env, tx.rows, nodes, r == Err(ConflictingBranch))
  {
    EditedLive(env, tx.rows, es, kids, route + prefix);
    var active := ActiveSlots(es);
    if |active| == 0 {
      assert kids == NoKids();
      EmptyFork(env.width, prefix, route);
      r, after := Ok(Stored(Empty)), Nil;
    } else if |active| == 1 {
      var slot := active[0];
      r, after := CollapseLone(env, tx, prefix, es[slot], slot, route, kids);
      if r.Ok? {
        AccountsLone(env, first, tx.rows, es, kids, slot, r.value, after);
      }
    } else {
      assert kids[active[0]] != Nil && kids[active[1]] != Nil;
      r, after := CollapseMany(env, tx, prefix, es, route, kids, first, nodes);
    }
  }

  /** Several children stay under their branch, and their rows are written. */
  method CollapseMany(env: Env, tx: Table, prefix: Path, es: seq<Edited>, route: Path, ghost kids: seq<Tree>,
                      ghost first: Rows, ghost nodes: iset<Node>)
    returns (r: Result<Edited, MerkleError>, ghost after: Tree)
    requires Lawful(env) && |route| + |prefix| < env.width && Grows(first, tx.rows) && TwoLive(kids)
    requires EditedKids(env, tx.rows, es, kids, route + prefix)
    requires AccountsKids(env, first, tx.rows, es, kids, SLOTS)
    modifies tx
    ensures Grows(old(tx.rows), tx.rows) && after == Fork(prefix, kids)
    ensures r.Ok? ==> EditedRepresents(env, tx.rows, r.value, after, route)
    ensures r.Ok? ==> Accounts(env, first, tx.rows, r.value, after)
    ensures r.Err? ==> Excused(r.error)
    ensures RowsFrom(env, old(tx.rows), nodes) && KidsIn(env, kids, nodes) ==>
              Tidy(env, tx.rows, nodes, r == Err(ConflictingBranch))
  {
    after := Fork(prefix, kids);
    EditedCanonical(env, tx.rows, es, kids, prefix, route);
    var error, children := StoreKids(env, tx, es, route + prefix, kids, nodes);
    if error.Some? {
      return Err(error.value), after;
    }
    AccountsMany(env, first, old(tx.rows), tx.rows, es, kids);
    r := Ok(New(prefix, children));
  }

  lemma {:induction false} AccountsMany(env: Env, first: Rows, mid: Rows, last: Rows, es: seq<Edited>, kids: seq<Tree>)
    requires |es| == SLOTS && |kids| == SLOTS && AccountsKids(env, first, mid, es, kids, SLOTS)
    requires AddedFor(env, mid, last, kids, SLOTS)
    ensures AddedFor(env, first, last, kids, SLOTS)
  {
    forall h | h in last && h !in first
      ensures exists i :: 0 <= i < SLOTS && HasBranch(env, kids[i], h)
    {
      if h in mid {
        var i :| 0 <= i < SLOTS && es[i].New? && HasInner(env, kids[i], h);
        assert HasBranch(env, kids[i], h);
      }
    }
  }

  /** Every edited child is the stored child it was. */
  predicate Unchanged(es: seq<Edited>, children: seq<RootRef>)
    requires |es| == SLOTS && |children| == SLOTS
  {
    forall s :: 0 <= s < SLOTS ==> es[s] == Stored(children[s])
  }

  /** Children compared equal are the same tries. */
  lemma {:induction false} UnchangedKids(env: Env, rows: Rows, es: seq<Edited>, children: seq<RootRef>,
                                         before: seq<Tree>, kids: seq<Tree>, at: Path)
    requires Lawful(env) && KidsRepresent(env, rows, children, before, at) && EditedKids(env, rows, es, kids, at)
    requires forall s :: 0 <= s < SLOTS ==> es[s] == Stored(children[s])
    ensures kids == before
  {
    forall s: Nibble
      ensures kids[s] == before[s]
    {
      assert EditedRepresents(env, rows, es[s], kids[s], at + [s]);
      PersistedUnique(env, rows, kids[s], before[s], at + [s]);
    }
  }

  /** Apply a batch to a branch, stored or new. */
  method ApplyBranch(env: Env, tx: Table, stored: Option<Hash>, prefix: Path, children: seq<RootRef>, edits: seq<Edit>,
                     route: Path, ghost t: Tree, ghost nodes: iset<Node>)
    returns (r: Result<Edited, MerkleError>, ghost after: Tree)
    requires Lawful(env) && EditsOk(env.width, edits, route)
    requires t.Fork? && t.prefix == prefix && Canonical(env.width, t, route)
    requires KidsRepresent(env, tx.rows, children, t.kids, route + prefix)
    requires stored.Some? ==> Represents(env, tx.rows, Branch(stored.value), t, route)
    modifies tx
    ensures Grows(old(tx.rows), tx.rows)
    ensures r.Ok? ==> EditedRepresents(env, tx.rows, r.value, after, route)
    ensures r.Ok? ==> Applied(env.width, t, after, edits, route)
    ensures r.Ok? ==> Accounts(env, old(tx.rows), tx.rows, r.value, after)
    ensures edits == [] ==> r.Ok? && (stored.Some? ==> r.value.Stored?)
    ensures r.Err? ==> Excused(r.error)
    ensures RowsFrom(env, old(tx.rows), nodes) && BatchPlan(env, nodes, t, edits, route, false) ==>
              Tidy(env, tx.rows, nodes, r == Err(ConflictingBranch))
    decreases env.width - |route|, 2
  {
    var kept := KeptNibbles(prefix, edits, route, env.width);
    var top := prefix[..kept];
    var at := route + top;
    var lo, hi := Following(edits, at, route, env.width);
    ghost var before := SplitKids(prefix, t.kids, kept);
    SplitRepresents(env, tx.rows, t, children, kept, route);
    FollowingOk(env.width, edits, lo, hi, at, route);
    var error, es;
    ghost var kids;
    FollowingPlan(env, nodes, t, before, edits, lo, hi, kept, route);
    error, es, kids := ApplyKids(env, tx, edits[lo..hi], at, SplitPrefix(prefix, children, kept), before, nodes);
    if error.Some? {
      return Err(error.value), t;
    }
    FinishPlan(env, tx.rows, nodes, t, before, es, kids, edits, lo, hi, kept, route);
    r, after := FinishBranch(env, tx, stored, prefix, kept, children, es, route, t, kids, old(tx.rows), nodes);
    if r.Ok? {
      BranchApplied(env.width, t, after, before, kids, edits, lo, hi, kept, route);
    }
  }

  /** Keep an untouched branch as it is, or form the edited one. */
  method FinishBranch(env: Env, tx: Table, stored: Option<Hash>, prefix: Path, kept: nat, children: seq<RootRef>,
                      es: seq<Edited>, route: Path, ghost t: Tree, ghost kids: seq<Tree>, ghost first: Rows,
                      ghost nodes: iset<Node>)
    returns (r: Result<Edited, MerkleError>, ghost after: Tree)
    requires Lawful(env) && t.Fork? && t.prefix == prefix && kept <= |prefix| && Canonical(env.width, t, route)
    requires KidsRepresent(env, first, children, t.kids, route + prefix) && Grows(first, tx.rows)
    requires stored.Some? ==> Represents(env, first, Branch(stored.value), t, route)
    requires EditedKids(env, tx.rows, es, kids, route + prefix[..kept])
    requires AccountsKids(env, first, tx.rows, es, kids, SLOTS)
    modifies tx
    ensures Grows(old(tx.rows), tx.rows)
    ensures r.Ok? ==> EditedRepresents(env, tx.rows, r.value, after, route)
    ensures r.Ok? ==> SameMap(env.width, after, Fork(prefix[..kept], kids), route)
    ensures r.Ok? ==> Accounts(env, first, tx.rows, r.value, after)
    ensures kept == |prefix| && Unchanged(es, children) ==> r.Ok? && (stored.Some? ==> r.value.Stored?)
    ensures r.Err? ==> Excused(r.error)
    ensures RowsFrom(env, old(tx.rows), nodes) && (TwoLive(kids) ==> KidsIn(env, kids, nodes)) ==>
              Tidy(env, tx.rows, nodes, r == Err(ConflictingBranch))
  {
    if kept == |prefix| && Unchanged(es, children) {
      assert prefix[..kept] == prefix;
      KidsGrow(env, first, tx.rows, children, t.kids, route + prefix);
      UnchangedKids(env, tx.rows, es, children, t.kids, kids, route + prefix);
      after := t;
      if stored.Some? {
        RepresentsGrows(env, first, tx.rows, Branch(stored.value), t, route);
        r := Ok(Stored(Branch(stored.value)));
      } else {
        r := Ok(New(prefix, children));
      }
    } else {
      r, after := Collapse(env, tx, prefix[..kept], es, route, kids, first, nodes);
    }
  }

  /** The edited branch is the branch with the whole batch applied. */
  lemma {:induction false} BranchApplied(w: nat, t: Tree, after: Tree, before: seq<Tree>, kids: seq<Tree>,
                                         edits: seq<Edit>,
                      lo: nat, hi: nat, kept: nat, route: Path)
    requires t.Fork? && Canonical(w, t, route) && kept <= |t.prefix| && before == SplitKids(t.prefix, t.kids, kept)
    requires EditsOk(w, edits, route) && lo <= hi <= |edits|
    requires forall i :: 0 <= i < |edits| ==> (route + t.prefix[..kept] <= edits[i].0 <==> lo <= i < hi)
    requires forall i :: 0 <= i < |edits| && edits[i].1.Some? ==> route + t.prefix[..kept] <= edits[i].0
    requires SlotsApplied(w, before, kids, edits[lo..hi], route + t.prefix[..kept], SLOTS)
    requires SameMap(w, after, Fork(t.prefix[..kept], kids), route)
    ensures Applied(w, t, after, edits, route)
  {
    var top := t.prefix[..kept];
    FollowingOk(w, edits, lo, hi, route + top, route);
    ForkApplied(w, top, before, kids, edits[lo..hi], route);
    SplitSameMap(w, t, kept, route);
    FollowingApplied(w, t, after, before, edits, lo, hi, top, route);
  }

  /** What a branch's plan covers, its split children's plan does. */
  lemma {:induction false} FollowingPlan(env: Env, nodes: iset<Node>, t: Tree, before: seq<Tree>, edits: seq<Edit>,
                                         lo: nat, hi: nat, kept: nat, route: Path)
    requires t.Fork? && Canonical(env.width, t, route) && kept <= |t.prefix|
    requires before == SplitKids(t.prefix, t.kids, kept)
    requires EditsOk(env.width, edits, route) && lo <= hi <= |edits|
    requires forall i :: 0 <= i < |edits| ==> (route + t.prefix[..kept] <= edits[i].0 <==> lo <= i < hi)
    requires forall i :: 0 <= i < |edits| && edits[i].1.Some? ==> route + t.prefix[..kept] <= edits[i].0
    ensures BatchPlan(env, nodes, t, edits, route, false) ==>
              KidsPlan(env, nodes, before, edits[lo..hi], route + t.prefix[..kept], false)
  {
    var w, top := env.width, t.prefix[..kept];
    SplitSameMap(w, t, kept, route);
    if BatchPlan(env, nodes, t, edits, route, false) {
      forall after: Tree | BatchResult(w, t, after, edits[lo..hi], route)
        ensures InnerIn(env, after, nodes)
      {
        FollowingApplied(w, t, after, before, edits, lo, hi, top, route);
        assert BatchResult(w, t, after, edits, route);
      }
      FollowingOk(w, edits, lo, hi, route + top, route);
      BranchPlan(env, nodes, t, top, before, edits[lo..hi], route, false);
    }
  }

  lemma {:induction false} EditedCanonical(env: Env, rows: Rows, es: seq<Edited>, kids: seq<Tree>, prefix: Path,
                                           route: Path)
    requires EditedKids(env, rows, es, kids, route + prefix) && TwoLive(kids) && |route| + |prefix| < env.width
    ensures Canonical(env.width, Fork(prefix, kids), route)
  {
    forall i: Nibble
      ensures Canonical(env.width, kids[i], route + prefix + [i])
    {
      assert EditedRepresents(env, rows, es[i], kids[i], route + prefix + [i]);
    }
  }

  lemma {:induction false} Covered(env: Env, nodes: iset<Node>, t: Tree, after: Tree, edits: seq<Edit>, route: Path)
    requires BatchPlan(env, nodes, t, edits, route, false) && after.Fork?
    requires Canonical(env.width, after, route) && Applied(env.width, t, after, edits, route)
    ensures KidsIn(env, after.kids, nodes)
  {
    assert BatchResult(env.width, t, after, edits, route);
  }

  /** Two live children end as a branch of the edited trie, so the plan covers them. */
  lemma {:induction false} FinishPlan(env: Env, rows: Rows, nodes: iset<Node>, t: Tree, before: seq<Tree>,
                                      es: seq<Edited>, kids: seq<Tree>, edits: seq<Edit>, lo: nat, hi: nat, kept: nat,
                                      route: Path)
    requires t.Fork? && Canonical(env.width, t, route) && kept <= |t.prefix|
    requires before == SplitKids(t.prefix, t.kids, kept)
    requires EditsOk(env.width, edits, route) && lo <= hi <= |edits|
    requires forall i :: 0 <= i < |edits| ==> (route + t.prefix[..kept] <= edits[i].0 <==> lo <= i < hi)
    requires forall i :: 0 <= i < |edits| && edits[i].1.Some? ==> route + t.prefix[..kept] <= edits[i].0
    requires EditedKids(env, rows, es, kids, route + t.prefix[..kept])
    requires SlotsApplied(env.width, before, kids, edits[lo..hi], route + t.prefix[..kept], SLOTS)
    ensures BatchPlan(env, nodes, t, edits, route, false) && TwoLive(kids) ==> KidsIn(env, kids, nodes)
  {
    var after := Fork(t.prefix[..kept], kids);
    if BatchPlan(env, nodes, t, edits, route, false) && TwoLive(kids) {
      EditedCanonical(env, rows, es, kids, t.prefix[..kept], route);
      BranchApplied(env.width, t, after, before, kids, edits, lo, hi, kept, route);
      Covered(env, nodes, t, after, edits, route);
    }
  }

  /** Apply a batch to the subtrie at `route`. */
  method ApplyAt(env: Env, tx: Table, subtrie: Edited, edits: seq<Edit>, route: Path, ghost t: Tree,
                 ghost nodes: iset<Node>)
    returns (r: Result<Edited, MerkleError>, ghost after: Tree)
    requires Lawful(env) && EditsOk(env.width, edits, route)
    requires EditedRepresents(env, tx.rows, subtrie, t, route)
    modifies tx
    ensures Grows(old(tx.rows), tx.rows)
    ensures r.Ok? ==> EditedRepresents(env, tx.rows, r.value, after, route)
    ensures r.Ok? ==> Applied(env.width, t, after, edits, route)
    ensures r.Ok? ==> Accounts(env, old(tx.rows), tx.rows, r.value, after)
    ensures edits == [] && subtrie.Stored? ==> if r.Ok? then r.value.Stored? else Faulted(r.error)
    ensures r.Err? ==> Excused(r.error)
    ensures RowsFrom(env, old(tx.rows), nodes) && BatchPlan(env, nodes, t, edits, route, false) ==>
              Tidy(env, tx.rows, nodes, r == Err(ConflictingBranch))
    decreases env.width - |route|, 3
  {
    match subtrie
    case New(prefix, children) =>
      r, after := ApplyBranch(env, tx, None, prefix, children, edits, route, t, nodes);
    case Stored(root) =>
      if !root.Branch? {
        r, after := Rebuild(env, tx, root, edits, route, nodes);
      } else {
        LoadsFork(env, tx.rows, root, t, route);
        var node := Load(env, tx, root.hash, route);
        if node.Err? {
          return Err(node.error), t;
        }
        r, after :=
          ApplyBranch(env, tx, Some(root.hash), node.value.prefix, node.value.children, edits, route, t, nodes);
      }
  }
}
