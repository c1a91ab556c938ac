/** Reading a trie: point lookup over any store content. */
module TrieRead {
  import opened Wrappers
  import opened Lex
  import opened Batch
  import opened TrieModel
  import opened TrieStore
  import opened TrieBatch
  import opened Trie

  /** Point lookup. It ends after at most one load per nibble even over corrupt or cyclic rows, and
      on a represented trie it is map lookup. */
  method Find(env: Env, tx: Table, root: RootRef, path: Path)
    returns (r: Result<Option<Hash>, MerkleError>, loads: nat)
    requires Lawful(env) && 0 < env.width == |path|
    ensures loads <= env.width
    ensures forall m :: IsTrie(env, tx.rows, root, m) ==> r == Ok(Get(m, path)) || (r.Err? && Faulted(r.error))
  {
    ghost var known := exists t :: Represents(env, tx.rows, root, t, []);
    ghost var whole := if known then var t :| Represents(env, tx.rows, root, t, []); t else Nil;
    ghost var t, found := whole, Lookup(whole, path, 0);
    var at := root;
    var route: Path := [];
    loads := 0;
    while at.Branch?
      invariant route <= path && loads <= |route|
      invariant at.Branch? ==> |route| < env.width
      invariant known ==> OnRoute(env, tx.rows, at, t, route, path, found)
      decreases env.width - |route|, at.Branch?
    {
      loads := loads + 1;
      var step;
      step, t := Descend(env, tx, at.hash, route, path, known, t, found);
      if step.Err? {
        return Err(step.error), loads;
      }
      if step.value.None? {
        r := Ok(None);
        FindMeans(env, tx.rows, root, path, known, whole, None);
        return;
      }
      at, route := step.value.value.0, step.value.value.1;
    }
    r := Ok(if at.Leaf? && at.path == path then Some(at.hash) else None);
    FindMeans(env, tx.rows, root, path, known, whole, r.value);
  }

  /** Load one branch and follow `path` to its child, or find that it leaves the prefix. */
  method Descend(env: Env, tx: Table, hash: Hash, route: Path, path: Path, ghost known: bool, ghost t: Tree,
                 ghost found: Option<Hash>)
    returns (r: Result<Option<(RootRef, Path)>, MerkleError>, ghost t': Tree)
    requires Lawful(env) && Below(env.width, route, path) && |route| < env.width
    requires known ==> OnRoute(env, tx.rows, Branch(hash), t, route, path, found)
    ensures r.Ok? && r.value.Some? ==>
              var (child, below) := r.value.value;
              && |route| < |below| && below <= path && (child.Branch? ==> |below| < env.width)
              && (known ==> OnRoute(env, tx.rows, child, t', below, path, found))
    ensures r == Ok(None) && known ==> found == None
    ensures r.Err? && known ==> Faulted(r.error)
  {
    t' := Nil;
    if known {
      FindStep(env, tx.rows, Branch(hash), t, route, path, found);
    }
    var node := Load(env, tx, hash, route);
    if node.Err? {
      return Err(node.error), t';
    }
    var at := route + node.value.prefix;
    if !(at <= path) {
      return Ok(None), t';
    }
    var slot := path[|at|];
    StartsWith(path, at, [slot]);
    r := Ok(Some((node.value.children[slot], at + [slot])));
    t' := if known then t.kids[slot] else Nil;
  }

  /** The reference reached at `route` stands for the part of the trie `path` leads to. */
  ghost predicate OnRoute(env: Env, rows: Rows, at: RootRef, t: Tree, route: Path, path: Path, found: Option<Hash>) {
    Represents(env, rows, at, t, route) && Lookup(t, path, |route|) == found
  }

  /** Off its prefix a branch holds nothing; on it, what the child holds. */
  lemma {:induction false} LookupDown(w: nat, t: Tree, route: Path, path: Path, child: Path)
    requires t.Fork? && |t.kids| == SLOTS && |route| + |t.prefix| < w && Below(w, route, path)
    requires child == route + t.prefix + [path[|route| + |t.prefix|]]
    ensures Lookup(t, path, |route|) ==
            if route + t.prefix <= path then Lookup(t.kids[path[|route| + |t.prefix|]], path, |child|) else None
  {
    LookupFork(w, t, route, path);
  }

  /** One load on a represented trie: the path leaves the prefix and is absent, or goes on below. */
  lemma {:induction false} FindStep(env: Env, rows: Rows, at: RootRef, t: Tree, route: Path, path: Path,
                                    found: Option<Hash>)
    requires Lawful(env) && Below(env.width, route, path) && at.Branch?
    requires OnRoute(env, rows, at, t, route, path, found)
    ensures t.Fork? && LoadSpec(env, rows, at.hash, route) == Ok(NodeOf(env, t)) && |route| + |t.prefix| < |path|
    ensures var slot := path[|route| + |t.prefix|];
            if route + t.prefix <= path
            then OnRoute(env, rows, NodeOf(env, t).children[slot], t.kids[slot], route + t.prefix + [slot], path, found)
            else found == None
  {
    LoadsFork(env, rows, at, t, route);
    LookupDown(env.width, t, route, path, route + t.prefix + [path[|route| + |t.prefix|]]);
  }

  /** What is read from the stored trie is what the represented map holds. */
  lemma {:induction false} FindMeans(env: Env, rows: Rows, root: RootRef, path: Path, known: bool, whole: Tree,
                                     found: Option<Hash>)
    requires Lawful(env) && |path| == env.width
    requires known <==> exists t :: Represents(env, rows, root, t, [])
    requires known ==> Represents(env, rows, root, whole, []) && Lookup(whole, path, 0) == found
    ensures forall m :: IsTrie(env, rows, root, m) ==> found == Get(m, path)
  {
    forall m | IsTrie(env, rows, root, m)
      ensures found == Get(m, path)
    {
      var t := TreeOf(env, rows, root, m);
      PersistedUnique(env, rows, t, whole, []);
    }
  }
}
