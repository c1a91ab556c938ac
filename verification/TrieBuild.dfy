/** Building blocks of a batched update: prefix splits, edit ranges, and subtries built from leaves. */
module TrieBuild {
  import opened Wrappers
  import opened Lex
  import opened Batch
  import opened TrieModel
  import opened TrieStore
  import opened TrieEdit
  import opened TrieBatch
  import opened TrieExists

  /** Every edit is an insertion. */
  ghost predicate Inserts(leaves: seq<Edit>) {
    forall i :: 0 <= i < |leaves| ==> leaves[i].1.Some?
  }

  function NoRefs(): seq<RootRef> {
    seq(SLOTS, _ => Empty)
  }

  lemma {:induction false} EditedForm(env: Env, rows: Rows, e: Edited, t: Tree, route: Path)
    requires EditedRepresents(env, rows, e, t, route)
    ensures Canonical(env.width, t, route)
  {
  }

  /** Write the row a new branch still lacks; a reference needs none. */
  method StoreEdited(env: Env, tx: Table, e: Edited, route: Path, ghost t: Tree, ghost nodes: iset<Node>)
    returns (r: Result<RootRef, MerkleError>)
    requires Lawful(env) && EditedRepresents(env, tx.rows, e, t, route)
    modifies tx
    ensures Grows(old(tx.rows), tx.rows)
    ensures r.Ok? ==> Represents(env, tx.rows, r.value, t, route)
    ensures r.Ok? ==> forall h :: h in tx.rows && h !in old(tx.rows) ==> e.New? && HasBranch(env, t, h)
    ensures e.Stored? ==> r == Ok(e.root)
    ensures r.Err? ==> Excused(r.error)
    ensures RowsFrom(env, old(tx.rows), nodes) && NodesIn(env, t, nodes) ==>
              Tidy(env, tx.rows, nodes, r == Err(ConflictingBranch))
  {
    match e
    case Stored(root) => r := Ok(root);
    case New(prefix, children) =>
      r := StoreFork(env, tx, prefix, children, route, t.kids, nodes);
  }

  /** Following a prefix means following each of its beginnings. */
  lemma {:induction false} ShorterPrefix(route: Path, prefix: Path, k: nat, m: nat, p: Path)
    requires k <= m <= |prefix| && route + prefix[..m] <= p
    ensures route + prefix[..k] <= p
  {
    assert route + prefix[..m] == route + prefix[..k] + prefix[k..m];
    StartsWith(p, route + prefix[..k], prefix[k..m]);
  }

  /** How many prefix nibbles every insertion keeps. */
  method KeptNibbles(prefix: Path, edits: seq<Edit>, route: Path, w: nat) returns (kept: nat)
    requires |route| + |prefix| < w && EditsOk(w, edits, route)
    ensures kept <= |prefix|
    ensures forall i :: 0 <= i < |edits| && edits[i].1.Some? ==> route + prefix[..kept] <= edits[i].0
    ensures kept < |prefix| ==>
              exists i :: 0 <= i < |edits| && edits[i].1.Some? && Diverges(route, prefix, edits[i].0, kept)
  {
    kept := |prefix|;
    ghost var leaver := 0;
    for i := 0 to |edits|
      invariant kept <= |prefix|
      invariant forall k :: 0 <= k < i && edits[k].1.Some? ==> route + prefix[..kept] <= edits[k].0
      invariant kept < |prefix| ==>
                  0 <= leaver < i && edits[leaver].1.Some? && Diverges(route, prefix, edits[leaver].0, kept)
    {
      if edits[i].1.Some? {
        var matched := FirstDiff(prefix, edits[i].0[|route|..]);
        SharedNibbles(route, prefix, edits[i].0);
        if matched < kept {
          forall k | 0 <= k < i && edits[k].1.Some?
            ensures route + prefix[..matched] <= edits[k].0
          {
            ShorterPrefix(route, prefix, matched, kept, edits[k].0);
          }
          kept, leaver := matched, i;
        } else {
          ShorterPrefix(route, prefix, kept, matched, edits[i].0);
        }
      }
    }
  }

  /** The contiguous edits whose paths follow `at`. */
  method Following(edits: seq<Edit>, at: Path, route: Path, w: nat) returns (lo: nat, hi: nat)
    requires EditsOk(w, edits, route) && |at| <= w
    ensures lo <= hi <= |edits|
    ensures forall i :: 0 <= i < |edits| ==> (at <= edits[i].0 <==> lo <= i < hi)
  {
    lo := 0;
    while lo < |edits| && !(at <= edits[lo].0)
      invariant lo <= |edits|
      invariant forall i :: 0 <= i < lo ==> !(at <= edits[i].0)
    {
      lo := lo + 1;
    }
    hi := |edits|;
    while hi > lo && !(at <= edits[hi - 1].0)
      invariant lo <= hi <= |edits|
      invariant forall i :: hi <= i < |edits| ==> !(at <= edits[i].0)
    {
      hi := hi - 1;
    }
    forall i | lo <= i < hi
      ensures at <= edits[i].0
    {
      assert AtMost(edits[lo].0, edits[i].0) by {
        assert lo < i ==> PathLess(edits[lo].0, edits[i].0);
      }
      assert AtMost(edits[i].0, edits[hi - 1].0) by {
        assert i < hi - 1 ==> PathLess(edits[i].0, edits[hi - 1].0);
      }
      PrefixConvex(at, edits[lo].0, edits[i].0, edits[hi - 1].0);
    }
  }

  /** The new leaves among the edits. */
  method Insertions(edits: seq<Edit>, w: nat, route: Path) returns (leaves: seq<Edit>)
    requires EditsOk(w, edits, route)
    ensures EditsOk(w, leaves, route) && |leaves| <= |edits|
    ensures forall i :: 0 <= i < |leaves| ==> leaves[i].1.Some? && leaves[i] in edits
    ensures forall p :: Last(leaves, p) == if Last(edits, p) == Some(None) then None else Last(edits, p)
  {
    leaves := [];
    for i := 0 to |edits|
      invariant Inserted(edits[..i], leaves)
    {
      InsertedMore(w, edits, route, i, leaves);
      if edits[i].1.Some? {
        leaves := leaves + [edits[i]];
      }
    }
    assert edits[..|edits|] == edits;
  }

  /** The insertions among these edits, in order. */
  ghost predicate Inserted(edits: seq<Edit>, leaves: seq<Edit>) {
    && |leaves| <= |edits| && Ascending(PathLess, leaves)
    && (forall k :: 0 <= k < |leaves| ==> leaves[k].1.Some? && leaves[k] in edits)
    && (forall p :: Last(leaves, p) == if Last(edits, p) == Some(None) then None else Last(edits, p))
  }

  lemma {:induction false} InsertedMore(w: nat, edits: seq<Edit>, route: Path, i: nat, leaves: seq<Edit>)
    requires EditsOk(w, edits, route) && i < |edits| && Inserted(edits[..i], leaves)
    ensures Inserted(edits[..i + 1], if edits[i].1.Some? then leaves + [edits[i]] else leaves)
  {
    var leaves' := if edits[i].1.Some? then leaves + [edits[i]] else leaves;
    assert edits[..i + 1] == edits[..i] + [edits[i]];
    forall p: Path
      ensures Last(leaves', p) == if Last(edits[..i + 1], p) == Some(None) then None else Last(edits[..i + 1], p)
    {
      LastConcat(edits[..i], [edits[i]], p);
      LastConcat(leaves, [edits[i]], p);
      if p == edits[i].0 {
        NotBefore(w, edits, route, i);
      }
    }
    forall k | 0 <= k < |leaves|
      ensures PathLess(leaves[k].0, edits[i].0)
    {
      var n :| 0 <= n < i && edits[n] == leaves[k];
    }
  }

  lemma {:induction false} NotBefore(w: nat, edits: seq<Edit>, route: Path, i: nat)
    requires EditsOk(w, edits, route) && i < |edits|
    ensures Last(edits[..i], edits[i].0) == None
  {
    var p := edits[i].0;
    LastNone(edits[..i], p);
    forall k | 0 <= k < i
      ensures edits[k].0 != p
    {
      assert PathLess(edits[k].0, edits[i].0);
      Irreflexive(p);
    }
  }

  /** The row bookkeeping after one more group has been handled. */
  lemma {:induction false} AccountsAdvance(env: Env, first: Rows, mid: Rows, last: Rows, es: seq<Edited>,
                                           kids: seq<Tree>, bound: nat,
                        slot: Nibble, e: Edited, kid: Tree)
    requires |es| == SLOTS && |kids| == SLOTS && bound <= slot
    requires AccountsKids(env, first, mid, es, kids, bound) && Accounts(env, mid, last, e, kid)
    ensures AccountsKids(env, first, last, es[slot := e], kids[slot := kid], slot + 1)
  {
    var es', kids' := es[slot := e], kids[slot := kid];
    forall h | h in last && h !in first
      ensures exists i :: 0 <= i < slot + 1 && es'[i].New? && HasInner(env, kids'[i], h)
    {
      if h in mid {
        var i :| 0 <= i < bound && es[i].New? && HasInner(env, kids[i], h);
        assert es'[i].New? && HasInner(env, kids'[i], h);
      } else {
        assert es'[slot].New? && HasInner(env, kids'[slot], h);
      }
    }
  }

  /** Paths of leaves sharing their first and last path's beginning all share it. */
  lemma {:induction false} SharedSpan(w: nat, leaves: seq<Edit>, route: Path, depth: nat)
    requires EditsOk(w, leaves, route) && |leaves| >= 2
    requires depth == FirstDiff(leaves[0].0, leaves[|leaves| - 1].0)
    ensures |route| <= depth < w && leaves[0].0[..depth] == route + leaves[0].0[|route|..depth]
    ensures EditsOk(w, leaves, leaves[0].0[..depth])
    ensures leaves[0].0[depth] != leaves[|leaves| - 1].0[depth]
  {
    var first, last := leaves[0].0, leaves[|leaves| - 1].0;
    assert PathLess(first, last);
    assert |route| <= depth by {
      assert forall m :: 0 <= m < |route| ==> first[m] == route[m] && last[m] == route[m];
    }
    assert first[..depth] <= last;
    forall i | 0 <= i < |leaves|
      ensures Below(w, first[..depth], leaves[i].0)
    {
      assert AtMost(first, leaves[i].0) by {
        assert 0 < i ==> PathLess(first, leaves[i].0);
      }
      assert AtMost(leaves[i].0, last) by {
        assert i < |leaves| - 1 ==> PathLess(leaves[i].0, last);
      }
      PrefixConvex(first[..depth], first, leaves[i].0, last);
    }
  }

  /** A slot some leaf leads to is live. */
  lemma {:induction false} LeafLive(w: nat, leaves: seq<Edit>, kids: seq<Tree>, at: Path, i: nat)
    requires EditsOk(w, leaves, at) && |at| < w && i < |leaves| && leaves[i].1.Some?
    requires SlotsApplied(w, NoKids(), kids, leaves, at, SLOTS)
    ensures kids[leaves[i].0[|at|]] != Nil
  {
    var p := leaves[i].0;
    StartsWith(p, at, [p[|at|]]);
    assert forall a, b :: 0 <= a < b < |leaves| ==> leaves[a].0 != leaves[b].0 by {
      forall a, b | 0 <= a < b < |leaves|
        ensures leaves[a].0 != leaves[b].0
      {
        assert PathLess(leaves[a].0, leaves[b].0);
        Irreflexive(leaves[a].0);
      }
    }
    LastAt(leaves, i);
    assert Applied(w, NoKids()[p[|at|]], kids[p[|at|]], leaves, at + [p[|at|]]);
  }

  /** Build from nothing: what stands at `route` afterwards holds exactly these leaves. */
  method Build(env: Env, tx: Table, leaves: seq<Edit>, route: Path, ghost nodes: iset<Node>)
    returns (r: Result<Edited, MerkleError>, ghost after: Tree)
    requires Lawful(env) && EditsOk(env.width, leaves, route)
    requires Inserts(leaves)
    modifies tx
    ensures Grows(old(tx.rows), tx.rows)
    ensures r.Ok? ==> EditedRepresents(env, tx.rows, r.value, after, route)
    ensures r.Ok? ==> Applied(env.width, Nil, after, leaves, route)
    ensures r.Ok? ==> Accounts(env, old(tx.rows), tx.rows, r.value, after)
    ensures |leaves| <= 1 ==> r.Ok? && r.value.Stored?
    ensures r.Err? ==> Excused(r.error)
    ensures RowsFrom(env, old(tx.rows), nodes) && BatchPlan(env, nodes, Nil, leaves, route, false) ==>
              Tidy(env, tx.rows, nodes, r == Err(ConflictingBranch))
    decreases env.width - |route|, 1, 0
  {
    if |leaves| == 0 {
      return Ok(Stored(Empty)), Nil;
    }
    if |leaves| == 1 {
      var path, hash := leaves[0].0, leaves[0].1.value;
      after := Tip(path, hash);
      assert leaves[..0] == [];
      return Ok(Stored(Leaf(path, hash))), after;
    }
    var depth := FirstDiff(leaves[0].0, leaves[|leaves| - 1].0);
    SharedSpan(env.width, leaves, route, depth);
    var at := leaves[0].0[..depth];
    var children;
    ghost var kids;
    var error;
    BuildPlan(env, nodes, leaves, route, depth);
    error, children, kids := BuildKids(env, tx, leaves, at, nodes);
    after := Nil;
    if error.Some? {
      return Err(error.value), after;
    }
    var prefix := leaves[0].0[|route|..depth];
    after := Fork(prefix, kids);
    ForkBuilt(env, tx.rows, leaves, route, depth, prefix, children, kids);
    r := Ok(New(prefix, children));
  }

  /** Two leaves that part at the branch keep two of its slots live. */
  lemma {:induction false} BothLive(w: nat, leaves: seq<Edit>, kids: seq<Tree>, at: Path)
    requires EditsOk(w, leaves, at) && |at| < w && |leaves| >= 2
    requires Inserts(leaves)
    requires leaves[0].0[|at|] != leaves[|leaves| - 1].0[|at|] && SlotsApplied(w, NoKids(), kids, leaves, at, SLOTS)
    ensures TwoLive(kids)
  {
    LeafLive(w, leaves, kids, at, 0);
    LeafLive(w, leaves, kids, at, |leaves| - 1);
    var a: int, b: int := leaves[0].0[|at|], leaves[|leaves| - 1].0[|at|];
    var i, j := if a < b then a else b, if a < b then b else a;
    assert i < j && kids[i] != Nil && kids[j] != Nil;
  }

  /** What the built branch's plan covers, its children's does: the branch keeps two of them. */
  lemma {:induction false} BuildPlan(env: Env, nodes: iset<Node>, leaves: seq<Edit>, route: Path, depth: nat)
    requires EditsOk(env.width, leaves, route) && |leaves| >= 2
    requires Inserts(leaves)
    requires depth == FirstDiff(leaves[0].0, leaves[|leaves| - 1].0)
    ensures BatchPlan(env, nodes, Nil, leaves, route, false) ==>
              KidsPlan(env, nodes, NoKids(), leaves, leaves[0].0[..depth], true)
  {
    var w, at := env.width, leaves[0].0[..depth];
    SharedSpan(w, leaves, route, depth);
    if BatchPlan(env, nodes, Nil, leaves, route, false) {
      forall kids: seq<Tree> | KidsResult(w, NoKids(), kids, leaves, at)
        ensures KidsCovered(env, kids, nodes, true)
      {
        BuiltResult(w, leaves, route, depth, kids);
        assert InnerIn(env, Fork(leaves[0].0[|route|..depth], kids), nodes);
      }
    }
  }

  /** The branch over all the leaves' children is what the leaves lead to. */
  lemma {:induction false} BuiltResult(w: nat, leaves: seq<Edit>, route: Path, depth: nat, kids: seq<Tree>)
    requires EditsOk(w, leaves, route) && |leaves| >= 2
    requires Inserts(leaves)
    requires depth == FirstDiff(leaves[0].0, leaves[|leaves| - 1].0) && |route| <= depth <= |leaves[0].0|
    requires KidsResult(w, NoKids(), kids, leaves, leaves[0].0[..depth])
    ensures BatchResult(w, Nil, Fork(leaves[0].0[|route|..depth], kids), leaves, route)
  {
    SharedSpan(w, leaves, route, depth);
    var prefix := leaves[0].0[|route|..depth];
    EmptyFork(w, prefix, route);
    BothLive(w, leaves, kids, leaves[0].0[..depth]);
    ForkApplied(w, prefix, NoKids(), kids, leaves, route);
  }

  /** The branch over the built children holds the leaves. */
  lemma {:induction false} ForkBuilt(env: Env, rows: Rows, leaves: seq<Edit>, route: Path, depth: nat, prefix: Path,
                                     children: seq<RootRef>, kids: seq<Tree>)
    requires EditsOk(env.width, leaves, route) && |leaves| >= 2
    requires Inserts(leaves)
    requires depth == FirstDiff(leaves[0].0, leaves[|leaves| - 1].0)
    requires |route| <= depth <= |leaves[0].0| && prefix == leaves[0].0[|route|..depth]
    requires KidsRepresent(env, rows, children, kids, leaves[0].0[..depth])
    requires EditsOk(env.width, leaves, leaves[0].0[..depth]) && depth < env.width
    requires SlotsApplied(env.width, NoKids(), kids, leaves, leaves[0].0[..depth], SLOTS)
    ensures EditedRepresents(env, rows, New(prefix, children), Fork(prefix, kids), route)
    ensures Applied(env.width, Nil, Fork(prefix, kids), leaves, route)
  {
    SharedSpan(env.width, leaves, route, depth);
    BothLive(env.width, leaves, kids, leaves[0].0[..depth]);
    ForkApplied(env.width, prefix, NoKids(), kids, leaves, route);
    EmptyFork(env.width, prefix, route);
  }

  /** Build and store the children of a new branch, group by group. */
  method BuildKids(env: Env, tx: Table, leaves: seq<Edit>, at: Path, ghost nodes: iset<Node>)
    returns (error: Option<MerkleError>, children: seq<RootRef>, ghost kids: seq<Tree>)
    requires Lawful(env) && EditsOk(env.width, leaves, at) && |at| < env.width
    requires Inserts(leaves)
    modifies tx
    ensures Grows(old(tx.rows), tx.rows)
    ensures error.None? ==> KidsRepresent(env, tx.rows, children, kids, at)
    ensures error.None? ==> SlotsApplied(env.width, NoKids(), kids, leaves, at, SLOTS)
    ensures error.None? ==> forall h :: h in tx.rows && h !in old(tx.rows) ==>
                              exists i :: 0 <= i < SLOTS && HasBranch(env, kids[i], h)
    ensures error.Some? ==> Excused(error.value)
    ensures RowsFrom(env, old(tx.rows), nodes) && KidsPlan(env, nodes, NoKids(), leaves, at, true) ==>
              Tidy(env, tx.rows, nodes, error == Some(ConflictingBranch))
    decreases env.width - |at|, 0, 2
  {
    children, kids := NoRefs(), NoKids();
    ghost var planned := RowsFrom(env, tx.rows, nodes) && KidsPlan(env, nodes, NoKids(), leaves, at, true);
    var i := 0;
    ghost var bound := 0;
    while i < |leaves|
      invariant i <= |leaves|
      invariant Grows(old(tx.rows), tx.rows)
      invariant BuildState(env, old(tx.rows), tx.rows, children, kids, leaves, at, i, bound)
      invariant planned ==> RowsFrom(env, tx.rows, nodes)
    {
      error, i, children, kids, bound :=
        BuildGroup(env, tx, leaves, at, i, children, kids, bound, old(tx.rows), nodes);
      if error.Some? {
        return;
      }
    }
    SlotsDone(env.width, NoKids(), kids, leaves, at, bound);
    error := None;
  }

  /** One group of a build: its subtrie is built and stored in its slot. */
  method BuildGroup(env: Env, tx: Table, leaves: seq<Edit>, at: Path, i: nat, children: seq<RootRef>,
                    ghost kids: seq<Tree>, ghost bound: nat, ghost first: Rows, ghost nodes: iset<Node>)
    returns (error: Option<MerkleError>, j: nat, children': seq<RootRef>, ghost kids': seq<Tree>, ghost bound': nat)
    requires Lawful(env) && i < |leaves|
    requires Inserts(leaves)
    requires BuildState(env, first, tx.rows, children, kids, leaves, at, i, bound)
    modifies tx
    ensures Grows(old(tx.rows), tx.rows) && i < j <= |leaves|
    ensures error.None? ==> BuildState(env, first, tx.rows, children', kids', leaves, at, j, bound')
    ensures error.Some? ==> Excused(error.value)
    ensures RowsFrom(env, old(tx.rows), nodes) && KidsPlan(env, nodes, NoKids(), leaves, at, true) ==>
              Tidy(env, tx.rows, nodes, error == Some(ConflictingBranch))
    decreases env.width - |at|, 0, 1
  {
    j := GroupEnd(env.width, leaves, at, i);
    error, children', kids', bound' := BuildSlot(env, tx, leaves, at, i, j, children, kids, bound, first, nodes);
  }

  /** The leaves from `i` to `j` are all that go through their slot, and those after go through later ones. */
  ghost predicate IsGroup(w: nat, leaves: seq<Edit>, at: Path, i: nat, j: nat) {
    && EditsOk(w, leaves, at) && |at| < w && i < j <= |leaves|
    && (forall k :: i <= k < j ==> leaves[k].0[|at|] == leaves[i].0[|at|])
    && (forall k :: j <= k < |leaves| ==> leaves[k].0[|at|] > leaves[i].0[|at|])
  }

  /** The subtrie of one group, built and put in its slot. */
  method BuildSlot(env: Env, tx: Table, leaves: seq<Edit>, at: Path, i: nat, j: nat, children: seq<RootRef>,
                   ghost kids: seq<Tree>, ghost bound: nat, ghost first: Rows, ghost nodes: iset<Node>)
    returns (error: Option<MerkleError>, children': seq<RootRef>, ghost kids': seq<Tree>, ghost bound': nat)
    requires Lawful(env) && IsGroup(env.width, leaves, at, i, j)
    requires Inserts(leaves)
    requires BuildState(env, first, tx.rows, children, kids, leaves, at, i, bound)
    modifies tx
    ensures Grows(old(tx.rows), tx.rows)
    ensures error.None? ==> BuildState(env, first, tx.rows, children', kids', leaves, at, j, bound')
    ensures error.Some? ==> Excused(error.value)
    ensures RowsFrom(env, old(tx.rows), nodes) && KidsPlan(env, nodes, NoKids(), leaves, at, true) ==>
              Tidy(env, tx.rows, nodes, error == Some(ConflictingBranch))
    decreases env.width - |at|, 0, 0
  {
    children', kids', bound' := children, kids, bound;
    var slot := leaves[i].0[|at|];
    SlotGroup(env, nodes, first, tx.rows, children, kids, leaves, at, i, j, bound);
    var ref;
    ghost var kid;
    ref, kid := BuildKid(env, tx, leaves[i..j], at + [slot], nodes);
    if ref.Err? {
      error := Some(ref.error);
      return;
    }
    BuildStep(env, first, old(tx.rows), tx.rows, children, kids, leaves, at, i, bound, j, slot, ref.value, kid);
    error, children', kids', bound' := None, children[slot := ref.value], kids[slot := kid], slot as int + 1;
  }

  lemma {:induction false} SlotGroup(env: Env, nodes: iset<Node>, first: Rows, rows: Rows, children: seq<RootRef>,
                                     kids: seq<Tree>, leaves: seq<Edit>, at: Path, i: nat, j: nat, bound: nat)
    requires IsGroup(env.width, leaves, at, i, j) && Inserts(leaves)
    requires BuildState(env, first, rows, children, kids, leaves, at, i, bound)
    ensures EditsOk(env.width, leaves[i..j], at + [leaves[i].0[|at|]]) && Inserts(leaves[i..j])
    ensures KidsPlan(env, nodes, NoKids(), leaves, at, true) ==>
              BatchPlan(env, nodes, Nil, leaves[i..j], at + [leaves[i].0[|at|]], true)
    ensures |children| == SLOTS && |kids| == SLOTS
  {
    BuildGroupPlan(env, nodes, leaves, at, i, j, bound, leaves[i].0[|at|]);
  }

  /** The next group is a batch of its own, and planned for when the children are. */
  lemma {:induction false} BuildGroupPlan(env: Env, nodes: iset<Node>, leaves: seq<Edit>, at: Path, i: nat, j: nat,
                                          bound: nat, slot: Nibble)
    requires EditsOk(env.width, leaves, at) && |at| < env.width && i < j <= |leaves|
    requires Reached(leaves, at, i, bound)
    requires forall k :: i <= k < j ==> leaves[k].0[|at|] == slot
    requires forall k :: j <= k < |leaves| ==> leaves[k].0[|at|] > slot
    ensures EditsOk(env.width, leaves[i..j], at + [slot])
    ensures KidsPlan(env, nodes, NoKids(), leaves, at, true) ==>
              BatchPlan(env, nodes, Nil, leaves[i..j], at + [slot], true)
  {
    assert leaves[i].0[|at|] == slot;
    GroupOk(env.width, leaves, at, i, j, slot);
    if KidsPlan(env, nodes, NoKids(), leaves, at, true) {
      GroupPlan(env, nodes, NoKids(), leaves, at, true, i, j, slot);
    }
  }

  /** What holds between groups of a build. */
  ghost predicate BuildState(env: Env, first: Rows, rows: Rows, children: seq<RootRef>, kids: seq<Tree>,
                             leaves: seq<Edit>, at: Path, i: nat, bound: nat)
  {
    && EditsOk(env.width, leaves, at) && |at| < env.width && i <= |leaves| && bound <= SLOTS
    && KidsRepresent(env, rows, children, kids, at)
    && Reached(leaves, at, i, bound)
    && SlotsApplied(env.width, NoKids(), kids, leaves, at, bound)
    && forall h :: h in rows && h !in first ==> exists s :: 0 <= s < bound && HasBranch(env, kids[s], h)
  }

  lemma {:induction false} KidsReplace(env: Env, before: Rows, after: Rows, children: seq<RootRef>, kids: seq<Tree>,
                                       at: Path,
                    slot: Nibble, ref: RootRef, kid: Tree)
    requires KidsRepresent(env, before, children, kids, at) && Grows(before, after)
    requires Represents(env, after, ref, kid, at + [slot])
    ensures KidsRepresent(env, after, children[slot := ref], kids[slot := kid], at)
  {
    KidsGrow(env, before, after, children, kids, at);
  }

  lemma {:induction false} BuildStep(env: Env, first: Rows, mid: Rows, last: Rows, children: seq<RootRef>,
                                     kids: seq<Tree>,
                  leaves: seq<Edit>, at: Path, i: nat, bound: nat, j: nat, slot: Nibble, ref: RootRef, kid: Tree)
    requires BuildState(env, first, mid, children, kids, leaves, at, i, bound) && Grows(mid, last)
    requires IsGroup(env.width, leaves, at, i, j) && slot == leaves[i].0[|at|]
    requires Represents(env, last, ref, kid, at + [slot])
    requires Applied(env.width, Nil, kid, leaves[i..j], at + [slot])
    requires forall h :: h in last && h !in mid ==> HasBranch(env, kid, h)
    ensures BuildState(env, first, last, children[slot := ref], kids[slot := kid], leaves, at, j, slot as int + 1)
  {
    assert leaves[i].0[|at|] == slot;
    KidsReplace(env, mid, last, children, kids, at, slot, ref, kid);
    SlotsAdvance(env.width, NoKids(), kids, leaves, at, bound, i, j, slot, kid);
    BranchesAdvance(env, first, mid, last, kids, bound, slot, kid);
  }

  lemma {:induction false} BranchesAdvance(env: Env, first: Rows, mid: Rows, last: Rows, kids: seq<Tree>, bound: nat,
                                           slot: Nibble, kid: Tree)
    requires |kids| == SLOTS && bound <= slot
    requires forall h :: h in mid && h !in first ==> exists s :: 0 <= s < bound && HasBranch(env, kids[s], h)
    requires forall h :: h in last && h !in mid ==> HasBranch(env, kid, h)
    ensures var kids' := kids[slot := kid];
            forall h :: h in last && h !in first ==> exists s :: 0 <= s < slot + 1 && HasBranch(env, kids'[s], h)
  {
    var kids' := kids[slot := kid];
    forall h | h in last && h !in first
      ensures exists s :: 0 <= s < slot + 1 && HasBranch(env, kids'[s], h)
    {
      if h in mid {
        var s :| 0 <= s < bound && HasBranch(env, kids[s], h);
        assert HasBranch(env, kids'[s], h);
      } else {
        assert HasBranch(env, kids'[slot], h);
      }
    }
  }

  /** One group of a build: its subtrie, stored. */
  method BuildKid(env: Env, tx: Table, leaves: seq<Edit>, route: Path, ghost nodes: iset<Node>)
    returns (r: Result<RootRef, MerkleError>, ghost after: Tree)
    requires Lawful(env) && EditsOk(env.width, leaves, route) && 0 < |route| <= env.width
    requires Inserts(leaves)
    modifies tx
    ensures Grows(old(tx.rows), tx.rows)
    ensures r.Ok? ==> Represents(env, tx.rows, r.value, after, route)
    ensures r.Ok? ==> Applied(env.width, Nil, after, leaves, route)
    ensures r.Ok? ==> forall h :: h in tx.rows && h !in old(tx.rows) ==> HasBranch(env, after, h)
    ensures r.Err? ==> Excused(r.error)
    ensures RowsFrom(env, old(tx.rows), nodes) && BatchPlan(env, nodes, Nil, leaves, route, true) ==>
              Tidy(env, tx.rows, nodes, r == Err(ConflictingBranch))
    decreases env.width - |route|, 2, 0
  {
    var child;
    assert BatchPlan(env, nodes, Nil, leaves, route, true) ==> BatchPlan(env, nodes, Nil, leaves, route, false);
    child, after := Build(env, tx, leaves, route, nodes);
    if child.Err? {
      return Err(child.error), Nil;
    }
    EditedForm(env, tx.rows, child.value, after, route);
    assert BatchResult(env.width, Nil, after, leaves, route);
    r := StoreEdited(env, tx, child.value, route, after, nodes);
  }
}
