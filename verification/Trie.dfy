/** The trie's public operations, over the map a root stands for. */
module Trie {
  import opened Wrappers
  import opened Lex
  import opened Batch
  import opened TrieModel
  import opened TrieStore
  import opened TrieEdit
  import opened TrieBatch
  import opened TrieExists
  import opened TrieBuild
  import opened TrieApply

  type Leaves = map<Path, Hash>

  /** The trie holds exactly the map `m`. */
  ghost predicate Holds(w: nat, t: Tree, m: Leaves) {
    && (forall p: Path :: p in m ==> |p| == w)
    && (forall p: Path | |p| == w :: Lookup(t, p, 0) == Get(m, p))
  }

  /** This root in this store represents the map `m`. */
  ghost predicate IsTrie(env: Env, rows: Rows, root: RootRef, m: Leaves) {
    exists t :: Represents(env, rows, root, t, []) && Holds(env.width, t, m)
  }

  ghost function TreeOf(env: Env, rows: Rows, root: RootRef, m: Leaves): (t: Tree)
    requires IsTrie(env, rows, root, m)
    ensures Represents(env, rows, root, t, []) && Holds(env.width, t, m)
  {
    var t :| Represents(env, rows, root, t, []) && Holds(env.width, t, m);
    t
  }

  /** `h` names a branch row below `root`. */
  ghost predicate Reachable(env: Env, rows: Rows, root: RootRef, h: Hash) {
    exists t :: Represents(env, rows, root, t, []) && HasBranch(env, t, h)
  }

  /** The branches of `m` are among `nodes`. */
  ghost predicate MapIn(env: Env, m: Leaves, nodes: iset<Node>) {
    forall t: Tree :: TrieFor(env.width, t, m) ==> NodesIn(env, t, nodes)
  }

  /** The canonical trie of `m`. */
  ghost predicate TrieFor(w: nat, t: Tree, m: Leaves) {
    Canonical(w, t, []) && Holds(w, t, m)
  }

  /** The empty map has no branches. */
  lemma {:induction false} NoBranches(env: Env, nodes: iset<Node>)
    ensures MapIn(env, map[], nodes)
  {
    forall t: Tree | TrieFor(env.width, t, map[])
      ensures t == Nil
    {
      forall p: Path | Below(env.width, [], p)
        ensures Lookup(t, p, 0) == Lookup(Nil, p, 0)
      {
        assert Lookup(t, p, 0) == Get(map[], p);
      }
      CanonicalUnique(env.width, t, Nil, []);
    }
  }

  /** The digest is one of a branch among these. */
  ghost predicate DigestIn(env: Env, nodes: iset<Node>, h: Hash) {
    exists n :: n in nodes && env.hash(n) == h
  }

  /** A branch root is a branch of its map. */
  lemma {:induction false} RootIsBranch(env: Env, rows: Rows, root: RootRef, m: Leaves, nodes: iset<Node>)
    requires IsTrie(env, rows, root, m) && root.Branch? && MapIn(env, m, nodes)
    ensures DigestIn(env, nodes, root.hash)
  {
    var t := TreeOf(env, rows, root, m);
    assert TrieFor(env.width, t, m) && t.Fork? && root.hash == env.hash(NodeOf(env, t));
  }

  /** The digest a root is published as. */
  function RootHash(empty: Hash, root: RootRef): Hash {
    match root
    case Empty => empty
    case Leaf(_, hash) => hash
    case Branch(hash) => hash
  }

  /** One edit of the map. */
  function SetPath(m: Leaves, e: Edit): Leaves {
    if e.1.Some? then m[e.0 := e.1.value] else m - {e.0}
  }

  /** The edits one after another. */
  function ApplyEdits(m: Leaves, edits: seq<Edit>): Leaves {
    if edits == [] then m else SetPath(ApplyEdits(m, edits[..|edits| - 1]), edits[|edits| - 1])
  }

  /** Applying edits in order leaves each path with its last edit. */
  lemma {:induction false} LastEditWins(m: Leaves, edits: seq<Edit>, p: Path)
    ensures Get(ApplyEdits(m, edits), p) == Settled(Last(edits, p), Get(m, p))
    decreases |edits|
  {
    if edits != [] {
      LastEditWins(m, edits[..|edits| - 1], p);
    }
  }

  lemma {:induction false} NextEdit(m: Leaves, edits: seq<Edit>, i: nat)
    requires i < |edits|
    ensures ApplyEdits(m, edits[..i + 1]) == SetPath(ApplyEdits(m, edits[..i]), edits[i])
  {
    assert edits[..i + 1][..i] == edits[..i];
  }

  lemma {:induction false} EditedWidth(w: nat, m: Leaves, edits: seq<Edit>)
    requires forall p: Path :: p in m ==> |p| == w
    requires forall i :: 0 <= i < |edits| ==> |edits[i].0| == w
    ensures forall p: Path :: p in ApplyEdits(m, edits) ==> |p| == w
    decreases |edits|
  {
    if edits != [] {
      EditedWidth(w, m, edits[..|edits| - 1]);
    }
  }

  // ---- Uniqueness ----

  /** Equal maps have equal roots, whatever the stores and histories behind them. */
  lemma {:induction false} SameMapSameRoot(env: Env, rows1: Rows, root1: RootRef, rows2: Rows, root2: RootRef,
                                           m: Leaves)
    requires IsTrie(env, rows1, root1, m) && IsTrie(env, rows2, root2, m)
    ensures root1 == root2
    ensures TreeOf(env, rows1, root1, m) == TreeOf(env, rows2, root2, m)
  {
    var t1, t2 := TreeOf(env, rows1, root1, m), TreeOf(env, rows2, root2, m);
    forall p: Path | Below(env.width, [], p)
      ensures Lookup(t1, p, 0) == Lookup(t2, p, 0)
    {
      assert Lookup(t1, p, 0) == Get(m, p);
    }
    CanonicalUnique(env.width, t1, t2, []);
  }

  /** In one store a root stands for one map. */
  lemma {:induction false} SameRootSameMap(env: Env, rows: Rows, root: RootRef, m1: Leaves, m2: Leaves)
    requires Lawful(env) && IsTrie(env, rows, root, m1) && IsTrie(env, rows, root, m2)
    ensures m1 == m2
  {
    var t1, t2 := TreeOf(env, rows, root, m1), TreeOf(env, rows, root, m2);
    PersistedUnique(env, rows, t1, t2, []);
    HeldMap(env.width, t1, m1, m2);
  }

  /** A trie holds one map. */
  lemma {:induction false} HeldMap(w: nat, t: Tree, m1: Leaves, m2: Leaves)
    requires Holds(w, t, m1) && Holds(w, t, m2)
    ensures m1 == m2
  {
    forall p: Path
      ensures Get(m1, p) == Get(m2, p)
    {
      if |p| == w {
        assert Lookup(t, p, 0) == Get(m1, p);
      }
    }
    SameAnswers(m1, m2);
  }

  lemma {:induction false} EmptyIsTrie(env: Env, rows: Rows)
    ensures IsTrie(env, rows, Empty, map[])
  {
    assert Represents(env, rows, Empty, Nil, []) && Holds(env.width, Nil, map[]);
  }

  /** Later rows do not disturb a retained root. */
  lemma {:induction false} RetainedRoot(env: Env, before: Rows, after: Rows, root: RootRef, m: Leaves)
    requires IsTrie(env, before, root, m) && Grows(before, after)
    ensures IsTrie(env, after, root, m)
  {
    RepresentsGrows(env, before, after, root, TreeOf(env, before, root, m), []);
  }

  // ---- Updates ----

  lemma {:induction false} TrieBy(env: Env, rows: Rows, root: RootRef, t: Tree, m: Leaves)
    requires Represents(env, rows, root, t, []) && Holds(env.width, t, m)
    ensures IsTrie(env, rows, root, m)
  {
  }

  lemma {:induction false} EditHolds(w: nat, before: Tree, after: Tree, m: Leaves, e: Edit)
    requires Holds(w, before, m) && Updated(w, before, after, e.0, e.1, []) && |e.0| == w
    ensures Holds(w, after, SetPath(m, e))
  {
    forall p: Path | |p| == w
      ensures Lookup(after, p, 0) == Get(SetPath(m, e), p)
    {
      assert Below(w, [], p);
      assert Lookup(after, p, 0) == if p == e.0 then e.1 else Lookup(before, p, 0);
      assert Lookup(before, p, 0) == Get(m, p);
    }
    EditedWidth(w, m, [e]);
    assert ApplyEdits(m, [e]) == SetPath(m, e) by {
      assert [e][..0] == [];
    }
  }

  lemma {:induction false} SetPlan(env: Env, nodes: iset<Node>, t: Tree, m: Leaves, e: Edit)
    requires Holds(env.width, t, m) && |e.0| == env.width
    ensures MapIn(env, SetPath(m, e), nodes) ==> EditPlan(env, nodes, t, e.0, e.1, [])
  {
    forall after: Tree | EditResult(env.width, t, after, e.0, e.1, [])
      ensures TrieFor(env.width, after, SetPath(m, e))
    {
      EditHolds(env.width, t, after, m, e);
    }
  }

  /** One edit of a represented map. */
  method SetOne(env: Env, tx: Table, root: RootRef, e: Edit, ghost m: Leaves, ghost nodes: iset<Node>)
    returns (r: Result<RootRef, MerkleError>)
    requires Lawful(env) && |e.0| == env.width && IsTrie(env, tx.rows, root, m)
    modifies tx
    ensures Grows(old(tx.rows), tx.rows)
    ensures r.Ok? ==> IsTrie(env, tx.rows, r.value, SetPath(m, e))
    ensures r.Err? ==> Excused(r.error)
    ensures RowsFrom(env, old(tx.rows), nodes) && MapIn(env, SetPath(m, e), nodes) ==>
              Tidy(env, tx.rows, nodes, r == Err(ConflictingBranch))
  {
    ghost var t := TreeOf(env, tx.rows, root, m);
    ghost var after;
    SetPlan(env, nodes, t, m, e);
    r, after := TrieEdit.Edit(env, tx, root, e.0, e.1, [], t, nodes);
    if r.Ok? {
      EditHolds(env.width, t, after, m, e);
      TrieBy(env, tx.rows, r.value, after, SetPath(m, e));
    }
  }

  /** Set one path. The conflict of two branches under one digest needs two such branches in play. */
  method Insert(env: Env, tx: Table, root: RootRef, path: Path, hash: Hash, ghost m: Leaves, ghost nodes: iset<Node>)
    returns (r: Result<RootRef, MerkleError>)
    requires Lawful(env) && |path| == env.width && IsTrie(env, tx.rows, root, m)
    modifies tx
    ensures Grows(old(tx.rows), tx.rows)
    ensures r.Ok? ==> IsTrie(env, tx.rows, r.value, m[path := hash])
    ensures r.Err? ==> Excused(r.error)
    ensures RowsFrom(env, old(tx.rows), nodes) && MapIn(env, m[path := hash], nodes) ==>
              Tidy(env, tx.rows, nodes, r == Err(ConflictingBranch))
  {
    r := SetOne(env, tx, root, (path, Some(hash)), m, nodes);
  }

  /** Remove one path, held or not. */
  method Remove(env: Env, tx: Table, root: RootRef, path: Path, ghost m: Leaves, ghost nodes: iset<Node>)
    returns (r: Result<RootRef, MerkleError>)
    requires Lawful(env) && |path| == env.width && IsTrie(env, tx.rows, root, m)
    modifies tx
    ensures Grows(old(tx.rows), tx.rows)
    ensures r.Ok? ==> IsTrie(env, tx.rows, r.value, m - {path})
    ensures r.Err? ==> Excused(r.error)
    ensures RowsFrom(env, old(tx.rows), nodes) && MapIn(env, m - {path}, nodes) ==>
              Tidy(env, tx.rows, nodes, r == Err(ConflictingBranch))
  {
    r := SetOne(env, tx, root, (path, None), m, nodes);
  }

  /** The batch's trie holds the map with the edits applied in order. */
  lemma {:induction false} BatchHolds(w: nat, before: Tree, after: Tree, m: Leaves, edits: seq<Edit>, net: seq<Edit>)
    requires Holds(w, before, m) && Applied(w, before, after, net, [])
    requires forall p :: Last(net, p) == Last(edits, p)
    requires forall i :: 0 <= i < |edits| ==> |edits[i].0| == w
    ensures Holds(w, after, ApplyEdits(m, edits))
  {
    EditedWidth(w, m, edits);
    forall p: Path | |p| == w
      ensures Lookup(after, p, 0) == Get(ApplyEdits(m, edits), p)
    {
      assert Below(w, [], p);
      LastEditWins(m, edits, p);
    }
  }

  lemma {:induction false} NetPlan(env: Env, nodes: iset<Node>, t: Tree, m: Leaves, edits: seq<Edit>, net: seq<Edit>)
    requires Holds(env.width, t, m) && forall p :: Last(net, p) == Last(edits, p)
    requires forall i :: 0 <= i < |edits| ==> |edits[i].0| == env.width
    ensures MapIn(env, ApplyEdits(m, edits), nodes) ==> BatchPlan(env, nodes, t, net, [], false)
  {
    if MapIn(env, ApplyEdits(m, edits), nodes) {
      forall after: Tree | BatchResult(env.width, t, after, net, [])
        ensures InnerIn(env, after, nodes)
      {
        BatchHolds(env.width, t, after, m, edits, net);
        assert TrieFor(env.width, after, ApplyEdits(m, edits));
      }
    }
  }

  /** A normalized batch still has full paths. */
  lemma {:induction false} NetOk(w: nat, edits: seq<Edit>, net: seq<Edit>)
    requires Ascending(PathLess, net) && forall p :: Last(net, p) == Last(edits, p)
    requires forall i :: 0 <= i < |edits| ==> |edits[i].0| == w
    ensures EditsOk(w, net, []) && (edits == [] ==> net == [])
  {
    forall i | 0 <= i < |net|
      ensures Below(w, [], net[i].0) && edits != []
    {
      LastNone(net, net[i].0);
      LastIn(edits, net[i].0);
    }
    assert net != [] ==> Below(w, [], net[0].0);
  }

  /** Any batch, unsorted and with repeats: the last edit of a path wins. Every added row is part of
      the new trie, and a batch that leaves the map unchanged adds none. */
  method Apply(env: Env, tx: Table, root: RootRef, edits: seq<Edit>, ghost m: Leaves, ghost nodes: iset<Node>)
    returns (r: Result<RootRef, MerkleError>)
    requires Lawful(env) && IsTrie(env, tx.rows, root, m)
    requires forall i :: 0 <= i < |edits| ==> |edits[i].0| == env.width
    modifies tx
    ensures Grows(old(tx.rows), tx.rows)
    ensures r.Ok? ==> IsTrie(env, tx.rows, r.value, ApplyEdits(m, edits))
    ensures r.Ok? ==> forall h :: h in tx.rows && h !in old(tx.rows) ==> Reachable(env, tx.rows, r.value, h)
    ensures r.Ok? && ApplyEdits(m, edits) == m ==> r.value == root && tx.rows == old(tx.rows)
    ensures r.Err? ==> Excused(r.error) && (edits == [] ==> Faulted(r.error))
    ensures RowsFrom(env, old(tx.rows), nodes) && MapIn(env, ApplyEdits(m, edits), nodes) ==>
              Tidy(env, tx.rows, nodes, r == Err(ConflictingBranch))
  {
    PathOrder();
    var net := Normalize(PathLess, edits);
    NetOk(env.width, edits, net);
    ghost var t := TreeOf(env, tx.rows, root, m);
    var edited;
    ghost var after;
    NetPlan(env, nodes, t, m, edits, net);
    edited, after := ApplyAt(env, tx, Stored(root), net, [], t, nodes);
    if edited.Err? {
      return Err(edited.error);
    }
    ghost var mid := tx.rows;
    BatchHolds(env.width, t, after, m, edits, net);
    EditedForm(env, tx.rows, edited.value, after, []);
    assert TrieFor(env.width, after, ApplyEdits(m, edits));
    r := StoreEdited(env, tx, edited.value, [], after, nodes);
    if r.Ok? {
      AddedReachable(env, old(tx.rows), mid, tx.rows, edited.value, after);
      if ApplyEdits(m, edits) == m {
        NothingAdded(env, old(tx.rows), tx.rows, root, r.value, t, after, m);
      }
    }
  }

  lemma {:induction false} AddedReachable(env: Env, first: Rows, mid: Rows, last: Rows, e: Edited, t: Tree)
    requires Accounts(env, first, mid, e, t)
    requires forall h :: h in last && h !in mid ==> e.New? && HasBranch(env, t, h)
    ensures AddedWithin(env, first, last, t)
  {
  }

  /** An unchanged map keeps its root, and all its branches already had rows. */
  lemma {:induction false} NothingAdded(env: Env, before: Rows, after: Rows, root: RootRef, root': RootRef, t: Tree,
                                        t': Tree, m: Leaves)
    requires Represents(env, before, root, t, []) && Holds(env.width, t, m)
    requires Represents(env, after, root', t', []) && Holds(env.width, t', m)
    requires Grows(before, after) && AddedWithin(env, before, after, t')
    ensures root == root' && before == after
  {
    forall p: Path | Below(env.width, [], p)
      ensures Lookup(t, p, 0) == Lookup(t', p, 0)
    {
      assert Lookup(t, p, 0) == Get(m, p);
    }
    CanonicalUnique(env.width, t, t', []);
    forall h | h in after
      ensures h in before
    {
      if h !in before {
        BranchHasRow(env, before, t, h);
      }
    }
  }

  method InsertOrRemove(env: Env, tx: Table, root: RootRef, e: Edit, ghost m: Leaves, ghost nodes: iset<Node>)
    returns (r: Result<RootRef, MerkleError>)
    requires Lawful(env) && |e.0| == env.width && IsTrie(env, tx.rows, root, m)
    modifies tx
    ensures Grows(old(tx.rows), tx.rows)
    ensures r.Ok? ==> IsTrie(env, tx.rows, r.value, SetPath(m, e))
    ensures r.Err? ==> Excused(r.error)
    ensures RowsFrom(env, old(tx.rows), nodes) && MapIn(env, SetPath(m, e), nodes) ==>
              Tidy(env, tx.rows, nodes, r == Err(ConflictingBranch))
  {
    if e.1.Some? {
      r := Insert(env, tx, root, e.0, e.1.value, m, nodes);
    } else {
      r := Remove(env, tx, root, e.0, m, nodes);
    }
  }

  /** The branches of every map on the way are among `nodes`. */
  ghost predicate EachIn(env: Env, m: Leaves, edits: seq<Edit>, nodes: iset<Node>) {
    MapIn(env, ApplyEdits(m, edits), nodes) && (edits != [] ==> EachIn(env, m, edits[..|edits| - 1], nodes))
  }

  lemma {:induction false} EachAt(env: Env, m: Leaves, edits: seq<Edit>, nodes: iset<Node>, i: nat)
    requires i <= |edits|
    ensures EachIn(env, m, edits, nodes) ==> MapIn(env, ApplyEdits(m, edits[..i]), nodes)
    decreases |edits|
  {
    if i < |edits| {
      EachAt(env, m, edits[..|edits| - 1], nodes, i);
      assert edits[..|edits| - 1][..i] == edits[..i];
    } else {
      assert edits[..i] == edits;
    }
  }

  /** One insert or remove per edit, in order. */
  method ApplyOneByOne(env: Env, tx: Table, root: RootRef, edits: seq<Edit>, ghost m: Leaves,
                       ghost nodes: iset<Node>)
    returns (r: Result<RootRef, MerkleError>)
    requires Lawful(env) && IsTrie(env, tx.rows, root, m)
    requires forall i :: 0 <= i < |edits| ==> |edits[i].0| == env.width
    modifies tx
    ensures Grows(old(tx.rows), tx.rows)
    ensures r.Ok? ==> IsTrie(env, tx.rows, r.value, ApplyEdits(m, edits))
    ensures r.Err? ==> Excused(r.error)
    ensures RowsFrom(env, old(tx.rows), nodes) && EachIn(env, m, edits, nodes) ==>
              Tidy(env, tx.rows, nodes, r == Err(ConflictingBranch))
  {
    ghost var planned := RowsFrom(env, tx.rows, nodes) && EachIn(env, m, edits, nodes);
    r := Ok(root);
    WholeList(edits);
    for i := 0 to |edits|
      invariant Grows(old(tx.rows), tx.rows)
      invariant r.Ok? && IsTrie(env, tx.rows, r.value, ApplyEdits(m, edits[..i]))
      invariant planned ==> RowsFrom(env, tx.rows, nodes)
    {
      r := EditNext(env, tx, r.value, edits, i, m, nodes);
      if r.Err? {
        return;
      }
    }
  }

  lemma {:induction false} WholeList<T>(list: seq<T>)
    ensures list[..0] == [] && list[..|list|] == list
  {
  }

  /** The next edit of the list. */
  method EditNext(env: Env, tx: Table, root: RootRef, edits: seq<Edit>, i: nat, ghost m: Leaves,
                  ghost nodes: iset<Node>)
    returns (r: Result<RootRef, MerkleError>)
    requires Lawful(env) && i < |edits| && |edits[i].0| == env.width
    requires IsTrie(env, tx.rows, root, ApplyEdits(m, edits[..i]))
    modifies tx
    ensures Grows(old(tx.rows), tx.rows)
    ensures r.Ok? ==> IsTrie(env, tx.rows, r.value, ApplyEdits(m, edits[..i + 1]))
    ensures r.Err? ==> Excused(r.error)
    ensures RowsFrom(env, old(tx.rows), nodes) && EachIn(env, m, edits, nodes) ==>
              Tidy(env, tx.rows, nodes, r == Err(ConflictingBranch))
  {
    NextEdit(m, edits, i);
    EachAt(env, m, edits, nodes, i + 1);
    r := InsertOrRemove(env, tx, root, edits[i], ApplyEdits(m, edits[..i]), nodes);
  }

  /** The batch gives the root that one insert or remove per edit gives. */
  method BatchMatchesSequence(env: Env, tx: Table, other: Table, root: RootRef, edits: seq<Edit>, ghost m: Leaves,
                              ghost nodes: iset<Node>)
    returns (batch: Result<RootRef, MerkleError>, single: Result<RootRef, MerkleError>)
    requires Lawful(env) && tx != other && IsTrie(env, tx.rows, root, m) && IsTrie(env, other.rows, root, m)
    requires forall i :: 0 <= i < |edits| ==> |edits[i].0| == env.width
    modifies tx, other
    ensures batch.Ok? && single.Ok? ==> batch.value == single.value
    ensures RowsFrom(env, old(tx.rows), nodes) && RowsFrom(env, old(other.rows), nodes) &&
            EachIn(env, m, edits, nodes) && Distinguishes(env, nodes) ==>
              (batch.Err? ==> Faulted(batch.error)) && (single.Err? ==> Faulted(single.error))
  {
    assert edits[..|edits|] == edits;
    batch := Apply(env, tx, root, edits, m, nodes);
    single := ApplyOneByOne(env, other, root, edits, m, nodes);
    if batch.Ok? && single.Ok? {
      SameMapSameRoot(env, tx.rows, batch.value, other.rows, single.value, ApplyEdits(m, edits));
    }
  }

  // ---- Histories ----

  datatype Step = InsertStep(path: Path, hash: Hash) | RemoveStep(path: Path) | BatchStep(edits: seq<Edit>)

  predicate StepOk(w: nat, step: Step) {
    match step
    case InsertStep(path, _) => |path| == w
    case RemoveStep(path) => |path| == w
    case BatchStep(edits) => forall i :: 0 <= i < |edits| ==> |edits[i].0| == w
  }

  function After(m: Leaves, step: Step): Leaves {
    match step
    case InsertStep(path, hash) => m[path := hash]
    case RemoveStep(path) => m - {path}
    case BatchStep(edits) => ApplyEdits(m, edits)
  }

  function AfterAll(steps: seq<Step>): Leaves {
    if steps == [] then map[] else After(AfterAll(steps[..|steps| - 1]), steps[|steps| - 1])
  }

  method RunStep(env: Env, tx: Table, root: RootRef, step: Step, ghost m: Leaves, ghost nodes: iset<Node>)
    returns (r: Result<RootRef, MerkleError>)
    requires Lawful(env) && StepOk(env.width, step) && IsTrie(env, tx.rows, root, m)
    modifies tx
    ensures Grows(old(tx.rows), tx.rows)
    ensures r.Ok? ==> IsTrie(env, tx.rows, r.value, After(m, step))
    ensures r.Err? ==> Excused(r.error)
    ensures RowsFrom(env, old(tx.rows), nodes) && MapIn(env, After(m, step), nodes) ==>
              Tidy(env, tx.rows, nodes, r == Err(ConflictingBranch))
  {
    match step
    case InsertStep(path, hash) => r := Insert(env, tx, root, path, hash, m, nodes);
    case RemoveStep(path) => r := Remove(env, tx, root, path, m, nodes);
    case BatchStep(edits) => r := Apply(env, tx, root, edits, m, nodes);
  }

  /** The branches of every map of the history are among `nodes`. */
  ghost predicate HistoryIn(env: Env, steps: seq<Step>, nodes: iset<Node>) {
    MapIn(env, AfterAll(steps), nodes) && (steps != [] ==> HistoryIn(env, steps[..|steps| - 1], nodes))
  }

  lemma {:induction false} HistoryAt(env: Env, steps: seq<Step>, nodes: iset<Node>, i: nat)
    requires i <= |steps|
    ensures HistoryIn(env, steps, nodes) ==> MapIn(env, AfterAll(steps[..i]), nodes)
    decreases |steps|
  {
    if i < |steps| {
      HistoryAt(env, steps[..|steps| - 1], nodes, i);
      assert steps[..|steps| - 1][..i] == steps[..i];
    } else {
      assert steps[..i] == steps;
    }
  }

  /** Any history from the empty trie ends at the canonical root of its map, or at a storage failure when
      digests tell the branches of all its maps apart. */
  method Run(env: Env, tx: Table, steps: seq<Step>, ghost nodes: iset<Node>) returns (r: Result<RootRef, MerkleError>)
    requires Lawful(env) && forall i :: 0 <= i < |steps| ==> StepOk(env.width, steps[i])
    modifies tx
    ensures Grows(old(tx.rows), tx.rows)
    ensures r.Ok? ==> IsTrie(env, tx.rows, r.value, AfterAll(steps))
    ensures r.Err? ==> Excused(r.error)
    ensures RowsFrom(env, old(tx.rows), nodes) && HistoryIn(env, steps, nodes) ==>
              Tidy(env, tx.rows, nodes, r == Err(ConflictingBranch))
  {
    ghost var planned := RowsFrom(env, tx.rows, nodes) && HistoryIn(env, steps, nodes);
    EmptyIsTrie(env, tx.rows);
    r := Ok(Empty);
    WholeList(steps);
    for i := 0 to |steps|
      invariant Grows(old(tx.rows), tx.rows)
      invariant r.Ok? && IsTrie(env, tx.rows, r.value, AfterAll(steps[..i]))
      invariant planned ==> RowsFrom(env, tx.rows, nodes)
    {
      r := RunNext(env, tx, r.value, steps, i, nodes);
      if r.Err? {
        return;
      }
    }
  }

  /** The next step of the history. */
  method RunNext(env: Env, tx: Table, root: RootRef, steps: seq<Step>, i: nat, ghost nodes: iset<Node>)
    returns (r: Result<RootRef, MerkleError>)
    requires Lawful(env) && i < |steps| && StepOk(env.width, steps[i])
    requires IsTrie(env, tx.rows, root, AfterAll(steps[..i]))
    modifies tx
    ensures Grows(old(tx.rows), tx.rows)
    ensures r.Ok? ==> IsTrie(env, tx.rows, r.value, AfterAll(steps[..i + 1]))
    ensures r.Err? ==> Excused(r.error)
    ensures RowsFrom(env, old(tx.rows), nodes) && HistoryIn(env, steps, nodes) ==>
              Tidy(env, tx.rows, nodes, r == Err(ConflictingBranch))
  {
    NextStep(env, steps, nodes, i);
    r := RunStep(env, tx, root, steps[i], AfterAll(steps[..i]), nodes);
  }

  lemma {:induction false} NextStep(env: Env, steps: seq<Step>, nodes: iset<Node>, i: nat)
    requires i < |steps|
    ensures AfterAll(steps[..i + 1]) == After(AfterAll(steps[..i]), steps[i])
    ensures HistoryIn(env, steps, nodes) ==> MapIn(env, After(AfterAll(steps[..i]), steps[i]), nodes)
  {
    HistoryAt(env, steps, nodes, i + 1);
    assert steps[..i + 1][..i] == steps[..i];
  }

  /** Two histories that end with one map end with one root. */
  method RunsAgree(env: Env, tx: Table, other: Table, steps: seq<Step>, steps': seq<Step>)
    returns (r: Result<RootRef, MerkleError>, r': Result<RootRef, MerkleError>)
    requires Lawful(env) && tx != other
    requires forall i :: 0 <= i < |steps| ==> StepOk(env.width, steps[i])
    requires forall i :: 0 <= i < |steps'| ==> StepOk(env.width, steps'[i])
    modifies tx, other
    ensures r.Ok? && r'.Ok? && AfterAll(steps) == AfterAll(steps') ==> r.value == r'.value
  {
    r := Run(env, tx, steps, iset{});
    r' := Run(env, other, steps', iset{});
    if r.Ok? && r'.Ok? && AfterAll(steps) == AfterAll(steps') {
      SameMapSameRoot(env, tx.rows, r.value, other.rows, r'.value, AfterAll(steps));
    }
  }
}
