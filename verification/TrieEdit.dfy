/** One-path insertion and removal by edit, split and collapse. */
module TrieEdit {
  import opened Wrappers
  import opened Lex
  import opened TrieModel
  import opened TrieStore

  /** `after` is `before` with `target` set to `hash`, or removed for `None`. */
  ghost predicate Updated(w: nat, before: Tree, after: Tree, target: Path, hash: Option<Hash>, route: Path) {
    forall p: Path | Below(w, route, p) ::
      Lookup(after, p, |route|) == if p == target then hash else Lookup(before, p, |route|)
  }

  /** The canonical trie an edit leads to. */
  ghost predicate EditResult(w: nat, t: Tree, after: Tree, target: Path, hash: Option<Hash>, route: Path) {
    Canonical(w, after, route) && Updated(w, t, after, target, hash, route)
  }

  /** Every branch of the edited trie is among these. */
  ghost predicate EditPlan(env: Env, nodes: iset<Node>, t: Tree, target: Path, hash: Option<Hash>, route: Path) {
    forall after: Tree :: EditResult(env.width, t, after, target, hash, route) ==> NodesIn(env, after, nodes)
  }

  /** The canonical trie of the same map. */
  ghost predicate MapResult(w: nat, t: Tree, after: Tree, route: Path) {
    Canonical(w, after, route) && SameMap(w, after, t, route)
  }

  /** Every branch of the canonical trie of this map is among these. */
  ghost predicate MapPlan(env: Env, nodes: iset<Node>, t: Tree, route: Path) {
    forall after: Tree :: MapResult(env.width, t, after, route) ==> NodesIn(env, after, nodes)
  }

  /** The reference an optional leaf becomes. */
  function LeafOrEmpty(path: Path, hash: Option<Hash>): RootRef {
    if hash.Some? then Leaf(path, hash.value) else Empty
  }

  function TipOrNil(path: Path, hash: Option<Hash>): Tree {
    if hash.Some? then Tip(path, hash.value) else Nil
  }

  /** A branch moved below the upper part of its prefix stays canonical. */
  lemma {:induction false} JoinCanonical(w: nat, upper: Path, low: Path, kids: seq<Tree>, route: Path)
    requires |kids| == SLOTS
    ensures Canonical(w, Fork(upper + low, kids), route) == Canonical(w, Fork(low, kids), route + upper)
  {
    assert route + (upper + low) == route + upper + low;
  }

  /** The moved branch holds the same paths. */
  lemma {:induction false} JoinLookup(w: nat, upper: Path, low: Path, kids: seq<Tree>, route: Path, p: Path)
    requires |kids| == SLOTS && |route| + |upper| + |low| < w && Below(w, route, p)
    ensures Lookup(Fork(upper + low, kids), p, |route|) ==
            if route + upper <= p then Lookup(Fork(low, kids), p, |route| + |upper|) else None
  {
    var mid := route + upper;
    assert route + (upper + low) == mid + low;
    LookupStep(w, upper + low, kids, route, p);
    StartsWith(p, mid, low);
    if mid <= p {
      LookupStep(w, low, kids, mid, p);
    }
  }

  /** A branch with one live child holds that child's paths and no other. */
  lemma {:induction false} LoneKid(w: nat, prefix: Path, kids: seq<Tree>, route: Path, slot: Nibble, p: Path)
    requires |kids| == SLOTS && |route| + |prefix| < w && Below(w, route, p)
    requires forall i :: 0 <= i < SLOTS && i != slot ==> kids[i] == Nil
    ensures Lookup(Fork(prefix, kids), p, |route|) ==
            if route + prefix + [slot] <= p then Lookup(kids[slot], p, |route| + |prefix| + 1) else None
  {
    LookupStep(w, prefix, kids, route, p);
    StartsWith(p, route + prefix, [slot]);
  }

  /** A lone child branch absorbs the prefix above it. */
  lemma {:induction false} AbsorbPrefix(w: nat, prefix: Path, kids: seq<Tree>, route: Path, slot: Nibble)
    requires |kids| == SLOTS && |route| + |prefix| < w
    requires forall i :: 0 <= i < SLOTS && i != slot ==> kids[i] == Nil
    requires kids[slot].Fork? && Canonical(w, kids[slot], route + prefix + [slot])
    ensures var merged := Fork(prefix + [slot] + kids[slot].prefix, kids[slot].kids);
            Canonical(w, merged, route) && SameMap(w, merged, Fork(prefix, kids), route)
  {
    var upper, low, below := prefix + [slot], kids[slot].prefix, kids[slot].kids;
    assert route + upper == route + prefix + [slot];
    JoinCanonical(w, upper, low, below, route);
    forall p: Path | Below(w, route, p)
      ensures Lookup(Fork(upper + low, below), p, |route|) == Lookup(Fork(prefix, kids), p, |route|)
    {
      AbsorbLookup(w, prefix, kids, route, slot, p, route + upper);
    }
  }

  lemma {:induction false} AbsorbLookup(w: nat, prefix: Path, kids: seq<Tree>, route: Path, slot: Nibble, p: Path,
                                        child: Path)
    requires |kids| == SLOTS && child == route + prefix + [slot] && Below(w, route, p)
    requires forall i :: 0 <= i < SLOTS && i != slot ==> kids[i] == Nil
    requires kids[slot].Fork? && |kids[slot].kids| == SLOTS && |child| + |kids[slot].prefix| < w
    ensures Lookup(Fork(prefix + [slot] + kids[slot].prefix, kids[slot].kids), p, |route|) ==
              Lookup(Fork(prefix, kids), p, |route|)
  {
    assert route + (prefix + [slot]) == child;
    LoneKid(w, prefix, kids, route, slot, p);
    JoinLookup(w, prefix + [slot], kids[slot].prefix, kids[slot].kids, route, p);
  }

  /** A lone leaf replaces the branch above it. */
  lemma {:induction false} PromoteLeaf(w: nat, prefix: Path, kids: seq<Tree>, route: Path, slot: Nibble)
    requires |kids| == SLOTS && |route| + |prefix| < w
    requires forall i :: 0 <= i < SLOTS && i != slot ==> kids[i] == Nil
    requires kids[slot].Tip? && Canonical(w, kids[slot], route + prefix + [slot])
    ensures Canonical(w, kids[slot], route) && SameMap(w, kids[slot], Fork(prefix, kids), route)
  {
    var at := route + prefix + [slot];
    assert kids[slot].path[..|route|] == at[..|route|] == route;
    forall p: Path | Below(w, route, p)
      ensures Lookup(kids[slot], p, |route|) == Lookup(Fork(prefix, kids), p, |route|)
    {
      LoneKid(w, prefix, kids, route, slot, p);
    }
  }

  /** Changing one child changes the branch's map in that slot only. */
  lemma {:induction false} UpdatedKid(w: nat, t: Tree, kid: Tree, target: Path, hash: Option<Hash>, route: Path,
                                      slot: Nibble)
    requires t.Fork? && |t.kids| == SLOTS && |route| + |t.prefix| < w
    requires Below(w, route + t.prefix + [slot], target)
    requires Updated(w, t.kids[slot], kid, target, hash, route + t.prefix + [slot])
    ensures Updated(w, t, Fork(t.prefix, t.kids[slot := kid]), target, hash, route)
  {
    var at := route + t.prefix;
    var after := Fork(t.prefix, t.kids[slot := kid]);
    assert target[..|at|] == at && target[|at|] == slot;
    forall p: Path | Below(w, route, p)
      ensures Lookup(after, p, |route|) == if p == target then hash else Lookup(t, p, |route|)
    {
      LookupFork(w, t, route, p);
      LookupFork(w, after, route, p);
      if at <= p && p[|at|] == slot {
        assert Below(w, at + [slot], p);
      }
    }
  }

  /** Two live children and fourteen empty ones. */
  function PairKids(a: Nibble, x: Tree, b: Nibble, y: Tree): seq<Tree> {
    seq(SLOTS, i => if i == b then y else if i == a then x else Nil)
  }

  function PairRefs(a: Nibble, x: RootRef, b: Nibble, y: RootRef): seq<RootRef> {
    seq(SLOTS, i => if i == b then y else if i == a then x else Empty)
  }

  lemma {:induction false} PairLive(a: Nibble, x: Tree, b: Nibble, y: Tree)
    requires a != b && x != Nil && y != Nil
    ensures TwoLive(PairKids(a, x, b, y))
  {
    var kids := PairKids(a, x, b, y);
    if a < b {
      assert kids[a] != Nil && kids[b] != Nil;
    } else {
      assert kids[b] != Nil && kids[a] != Nil;
    }
  }

  lemma {:induction false} PairRepresents(env: Env, rows: Rows, at: Path, a: Nibble, rx: RootRef, x: Tree, b: Nibble,
                                          ry: RootRef, y: Tree)
    requires a != b
    requires Represents(env, rows, rx, x, at + [a]) && Represents(env, rows, ry, y, at + [b])
    ensures KidsRepresent(env, rows, PairRefs(a, rx, b, ry), PairKids(a, x, b, y), at)
  {
  }

  /** A lookup through a branch with two children. */
  lemma {:induction false} PairLookup(w: nat, prefix: Path, a: Nibble, x: Tree, b: Nibble, y: Tree, route: Path,
                                      p: Path)
    requires |route| + |prefix| < w && a != b && Below(w, route, p)
    ensures Lookup(Fork(prefix, PairKids(a, x, b, y)), p, |route|) ==
            if route + prefix + [a] <= p then Lookup(x, p, |route| + |prefix| + 1)
            else if route + prefix + [b] <= p then Lookup(y, p, |route| + |prefix| + 1)
            else None
  {
    LookupStep(w, prefix, PairKids(a, x, b, y), route, p);
    StartsWith(p, route + prefix, [a]);
    StartsWith(p, route + prefix, [b]);
  }

  /** Two leaves under one new branch. */
  lemma {:induction false} TwoTips(w: nat, tip: Tree, target: Path, hash: Hash, route: Path, depth: nat)
    requires tip.Tip? && Canonical(w, tip, route) && Below(w, route, target)
    requires |route| <= depth < w && tip.path[..depth] == target[..depth] && tip.path[depth] != target[depth]
    ensures Canonical(w, tip, target[..depth] + [tip.path[depth]])
    ensures Canonical(w, Tip(target, hash), target[..depth] + [target[depth]])
    ensures var kids := PairKids(tip.path[depth], tip, target[depth], Tip(target, hash));
            Updated(w, tip, Fork(target[|route|..depth], kids), target, Some(hash), route)
  {
    var a, b := tip.path[depth], target[depth];
    var prefix := target[|route|..depth];
    assert route + prefix == target[..depth];
    assert tip.path[..depth + 1] == tip.path[..depth] + [a];
    assert target[..depth + 1] == target[..depth] + [b];
    forall p: Path | Below(w, route, p)
      ensures Lookup(Fork(prefix, PairKids(a, tip, b, Tip(target, hash))), p, |route|) ==
              if p == target then Some(hash) else Lookup(tip, p, |route|)
    {
      PairLookup(w, prefix, a, tip, b, Tip(target, hash), route, p);
    }
  }

  /** `target` leaves the branch's prefix after `shared` nibbles. */
  predicate Diverges(route: Path, prefix: Path, target: Path, shared: nat) {
    && shared < |prefix| && |route| + |prefix| < |target|
    && target[..|route| + shared] == route + prefix[..shared]
    && target[|route| + shared] != prefix[shared]
  }

  /** The target keeps the shared nibbles and then leaves. */
  lemma {:induction false} KeepsShared(w: nat, route: Path, prefix: Path, target: Path, shared: nat)
    requires Diverges(route, prefix, target, shared) && |target| == w
    ensures |prefix[..shared]| == shared && |route| + shared < w && Below(w, route + prefix[..shared], target)
    ensures target[|route| + |prefix[..shared]|] != prefix[shared]
  {
  }

  /** The branch cut out of a prefix after `shared` nibbles, which its parent and one more keep. */
  ghost function CutAt(t: Tree, shared: nat): Tree
    requires t.Fork? && shared < |t.prefix|
  {
    Fork(t.prefix[shared + 1..], t.kids)
  }

  /** A branch and a new leaf under one parent. */
  ghost function Joined(prefix: Path, a: Nibble, cut: Tree, target: Path, hash: Hash, route: Path): Tree
    requires |route| + |prefix| < |target|
  {
    Fork(prefix, PairKids(a, cut, target[|route| + |prefix|], Tip(target, hash)))
  }

  /** What a leaf diverging within the prefix makes of a branch. */
  ghost function SplitTree(t: Tree, target: Path, hash: Hash, route: Path, shared: nat): Tree
    requires t.Fork? && Diverges(route, t.prefix, target, shared)
  {
    Joined(t.prefix[..shared], t.prefix[shared], CutAt(t, shared), target, hash, route)
  }

  /** A leaf beside an existing branch that was cut out of its prefix. */
  lemma {:induction false} TipBesideCut(w: nat, t: Tree, target: Path, hash: Hash, route: Path, shared: nat)
    requires t.Fork? && |t.kids| == SLOTS && |route| + |t.prefix| < w && |target| == w
    requires Diverges(route, t.prefix, target, shared)
    ensures Updated(w, t, SplitTree(t, target, hash, route, shared), target, Some(hash), route)
  {
    var cut := Fork(t.prefix[shared + 1..], t.kids);
    var at := route + t.prefix[..shared];
    var a, b := t.prefix[shared], target[|route| + shared];
    var upper := t.prefix[..shared + 1];
    assert t.prefix == upper + cut.prefix;
    assert route + upper == at + [a];
    assert target[..|at| + 1] == at + [b];
    forall p: Path | Below(w, route, p)
      ensures Lookup(Fork(t.prefix[..shared], PairKids(a, cut, b, Tip(target, hash))), p, |route|) ==
              if p == target then Some(hash) else Lookup(t, p, |route|)
    {
      PairLookup(w, t.prefix[..shared], a, cut, b, Tip(target, hash), route, p);
      JoinLookup(w, upper, cut.prefix, t.kids, route, p);
      assert at + [a] <= p ==> p[|at|] == a;
    }
  }

  /** One edit where a single leaf stands: it is replaced, removed, kept, or joined by a second. */
  method EditLeaf(env: Env, tx: Table, root: RootRef, target: Path, hash: Option<Hash>, route: Path,
                  ghost nodes: iset<Node>)
    returns (r: Result<RootRef, MerkleError>, ghost after: Tree)
    requires Lawful(env) && root.Leaf? && Below(env.width, route, target)
    requires Below(env.width, route, root.path)
    modifies tx
    ensures Grows(old(tx.rows), tx.rows)
    ensures r.Ok? ==> Represents(env, tx.rows, r.value, after, route)
    ensures r.Ok? ==> Updated(env.width, Tip(root.path, root.hash), after, target, hash, route)
    ensures r.Err? ==> Excused(r.error)
    ensures RowsFrom(env, old(tx.rows), nodes) &&
            EditPlan(env, nodes, Tip(root.path, root.hash), target, hash, route) ==>
              Tidy(env, tx.rows, nodes, r == Err(ConflictingBranch))
  {
    ghost var tip := Tip(root.path, root.hash);
    if root.path == target {
      after := TipOrNil(target, hash);
      return Ok(LeafOrEmpty(target, hash)), after;
    }
    if hash.None? {
      return Ok(root), tip;
    }
    var depth := FirstDiff(root.path, target);
    var a, b := root.path[depth], target[depth];
    var prefix := target[|route|..depth];
    assert root.path[..depth] == target[..depth] == route + prefix;
    TwoTips(env.width, tip, target, hash.value, route, depth);
    ghost var leaf := Tip(target, hash.value);
    PairLive(a, tip, b, leaf);
    PairRepresents(env, tx.rows, route + prefix, a, root, tip, b, Leaf(target, hash.value), leaf);
    after := Fork(prefix, PairKids(a, tip, b, leaf));
    assert EditResult(env.width, tip, after, target, hash, route);
    r := StoreFork(env, tx, prefix, PairRefs(a, root, b, Leaf(target, hash.value)), route, PairKids(a, tip, b, leaf),
                   nodes);
  }

  /** Insert a leaf diverging within the branch's prefix: the shortened branch first, then its parent. */
  method SplitBranch(env: Env, tx: Table, node: Node, target: Path, hash: Hash, shared: nat, route: Path,
                     ghost t: Tree, ghost nodes: iset<Node>)
    returns (r: Result<RootRef, MerkleError>, ghost after: Tree)
    requires Lawful(env) && Below(env.width, route, target)
    requires t.Fork? && Canonical(env.width, t, route) && node.prefix == t.prefix
    requires KidsRepresent(env, tx.rows, node.children, t.kids, route + t.prefix)
    requires Diverges(route, node.prefix, target, shared)
    modifies tx
    ensures Grows(old(tx.rows), tx.rows)
    ensures r.Ok? ==> Represents(env, tx.rows, r.value, after, route)
    ensures r.Ok? ==> Updated(env.width, t, after, target, Some(hash), route)
    ensures r.Err? ==> Excused(r.error)
    ensures RowsFrom(env, old(tx.rows), nodes) && EditPlan(env, nodes, t, target, Some(hash), route) ==>
              Tidy(env, tx.rows, nodes, r == Err(ConflictingBranch))
  {
    var prefix := node.prefix;
    after := SplitTree(t, target, hash, route, shared);
    SplitPlan(env, nodes, t, target, hash, route, shared);
    r := StoreCut(env, tx, node, shared, route, t, nodes);
    if r.Err? {
      return;
    }
    TipBesideCut(env.width, t, target, hash, route, shared);
    KeepsShared(env.width, route, prefix, target, shared);
    r := JoinCut(env, tx, prefix[..shared], prefix[shared], r.value, target, hash, route, CutAt(t, shared), nodes);
  }

  /** The shortened branch below the nibble at which the leaf diverges. */
  method StoreCut(env: Env, tx: Table, node: Node, shared: nat, route: Path, ghost t: Tree, ghost nodes: iset<Node>)
    returns (r: Result<RootRef, MerkleError>)
    requires Lawful(env) && t.Fork? && Canonical(env.width, t, route) && node.prefix == t.prefix
    requires KidsRepresent(env, tx.rows, node.children, t.kids, route + t.prefix) && shared < |t.prefix|
    modifies tx
    ensures Grows(old(tx.rows), tx.rows)
    ensures r.Ok? ==>
              Represents(env, tx.rows, r.value, CutAt(t, shared), route + t.prefix[..shared] + [t.prefix[shared]])
    ensures r.Err? ==> Excused(r.error)
    ensures RowsFrom(env, old(tx.rows), nodes) && NodesIn(env, CutAt(t, shared), nodes) ==>
              Tidy(env, tx.rows, nodes, r == Err(ConflictingBranch))
  {
    var prefix := node.prefix;
    var at := route + prefix[..shared] + [prefix[shared]];
    assert at + prefix[shared + 1..] == route + prefix;
    r := StoreFork(env, tx, prefix[shared + 1..], node.children, at, t.kids, nodes);
  }

  /** The parent of a branch and a new leaf beside it. */
  method JoinCut(env: Env, tx: Table, prefix: Path, a: Nibble, lower: RootRef, target: Path, hash: Hash, route: Path,
                 ghost cut: Tree, ghost nodes: iset<Node>)
    returns (r: Result<RootRef, MerkleError>)
    requires Lawful(env) && |route| + |prefix| < env.width && Below(env.width, route + prefix, target)
    requires target[|route| + |prefix|] != a && cut != Nil
    requires Represents(env, tx.rows, lower, cut, route + prefix + [a])
    modifies tx
    ensures Grows(old(tx.rows), tx.rows)
    ensures r.Ok? ==> Represents(env, tx.rows, r.value, Joined(prefix, a, cut, target, hash, route), route)
    ensures r.Err? ==> Excused(r.error)
    ensures RowsFrom(env, old(tx.rows), nodes) && NodesIn(env, Joined(prefix, a, cut, target, hash, route), nodes) ==>
              Tidy(env, tx.rows, nodes, r == Err(ConflictingBranch))
  {
    var at := route + prefix;
    var b := target[|at|];
    ghost var leaf := Tip(target, hash);
    assert target[..|at| + 1] == at + [b];
    PairLive(a, cut, b, leaf);
    PairRepresents(env, tx.rows, at, a, lower, cut, b, Leaf(target, hash), leaf);
    r := StoreFork(env, tx, prefix, PairRefs(a, lower, b, Leaf(target, hash)), route, PairKids(a, cut, b, leaf), nodes);
  }

  /** The split branch is canonical, so a plan covers it and the branch cut out of it. */
  lemma {:induction false} SplitPlan(env: Env, nodes: iset<Node>, t: Tree, target: Path, hash: Hash, route: Path,
                                     shared: nat)
    requires t.Fork? && Canonical(env.width, t, route) && Below(env.width, route, target)
    requires Diverges(route, t.prefix, target, shared)
    ensures EditPlan(env, nodes, t, target, Some(hash), route) ==>
              NodesIn(env, CutAt(t, shared), nodes) && NodesIn(env, SplitTree(t, target, hash, route, shared), nodes)
  {
    TipBesideCut(env.width, t, target, hash, route, shared);
    SplitCanonical(env.width, t, target, hash, route, shared);
    assert EditResult(env.width, t, SplitTree(t, target, hash, route, shared), target, Some(hash), route);
    assert SplitTree(t, target, hash, route, shared).kids[t.prefix[shared]] == CutAt(t, shared);
  }

  lemma {:induction false} SplitCanonical(w: nat, t: Tree, target: Path, hash: Hash, route: Path, shared: nat)
    requires t.Fork? && Canonical(w, t, route) && Below(w, route, target)
    requires Diverges(route, t.prefix, target, shared)
    ensures Canonical(w, SplitTree(t, target, hash, route, shared), route)
  {
    var cut, at := CutAt(t, shared), route + t.prefix[..shared];
    var a, b := t.prefix[shared], target[|route| + shared];
    assert at + [a] + cut.prefix == route + t.prefix;
    assert target[..|at| + 1] == at + [b];
    PairLive(a, cut, b, Tip(target, hash));
    assert Canonical(w, cut, at + [a]) && Canonical(w, Tip(target, hash), at + [b]);
  }

  /** The only live slot, if there is exactly one. */
  method LoneSlot(children: seq<RootRef>) returns (slot: Option<Nibble>)
    requires |children| == SLOTS
    ensures slot.Some? ==>
              && children[slot.value] != Empty
              && forall i :: 0 <= i < SLOTS && i != slot.value ==> children[i] == Empty
    ensures slot.None? && (exists i :: 0 <= i < SLOTS && children[i] != Empty) ==>
              exists i, j :: 0 <= i < j < SLOTS && children[i] != Empty && children[j] != Empty
  {
    slot := None;
    var many := false;
    for i: int := 0 to SLOTS
      invariant slot.None? && !many ==> forall k :: 0 <= k < i ==> children[k] == Empty
      invariant slot.Some? ==> 0 <= slot.value < i && children[slot.value] != Empty
      invariant slot.Some? && !many ==> forall k :: 0 <= k < i && k != slot.value ==> children[k] == Empty
      invariant many ==> exists k, l :: 0 <= k < l < i && children[k] != Empty && children[l] != Empty
    {
      if children[i] != Empty {
        if slot.Some? {
          many := true;
        }
        slot := if slot.Some? then slot else Some(i);
      }
    }
    if many {
      slot := None;
    }
  }

  lemma {:induction false} Concat(a: Path, b: Path, c: Path, d: Path)
    ensures a + (b + c + d) == a + b + c + d
  {
  }

  /** A branch left with one child branch: the child absorbs its prefix. */
  method AbsorbChild(env: Env, tx: Table, prefix: Path, hash: Hash, slot: Nibble, route: Path, ghost child: Tree,
                     ghost nodes: iset<Node>)
    returns (r: Result<RootRef, MerkleError>)
    requires Lawful(env) && child.Fork?
    requires Represents(env, tx.rows, Branch(hash), child, route + prefix + [slot])
    modifies tx
    ensures Grows(old(tx.rows), tx.rows)
    ensures r.Ok? ==> Represents(env, tx.rows, r.value, Fork(prefix + [slot] + child.prefix, child.kids), route)
    ensures r.Err? ==> Excused(r.error)
    ensures RowsFrom(env, old(tx.rows), nodes) &&
            NodesIn(env, Fork(prefix + [slot] + child.prefix, child.kids), nodes) ==>
              Tidy(env, tx.rows, nodes, r == Err(ConflictingBranch))
  {
    var at := route + prefix + [slot];
    LoadsFork(env, tx.rows, Branch(hash), child, at);
    var loaded := Load(env, tx, hash, at);
    if loaded.Err? {
      return Err(loaded.error);
    }
    var merged := prefix + [slot] + loaded.value.prefix;
    Concat(route, prefix, [slot], loaded.value.prefix);
    r := StoreFork(env, tx, merged, loaded.value.children, route, child.kids, nodes);
  }

  /** The branch over changed children: several stay a branch, a lone one takes the branch's place. */
  method RebuildBranch(env: Env, tx: Table, prefix: Path, children: seq<RootRef>, route: Path, ghost kids: seq<Tree>,
                       ghost nodes: iset<Node>)
    returns (r: Result<RootRef, MerkleError>, ghost after: Tree)
    requires Lawful(env) && |route| + |prefix| < env.width
    requires KidsRepresent(env, tx.rows, children, kids, route + prefix)
    requires exists i :: 0 <= i < SLOTS && children[i] != Empty
    modifies tx
    ensures Grows(old(tx.rows), tx.rows)
    ensures r.Ok? ==> Represents(env, tx.rows, r.value, after, route)
    ensures r.Ok? ==> SameMap(env.width, after, Fork(prefix, kids), route)
    ensures r.Err? ==> Excused(r.error)
    ensures RowsFrom(env, old(tx.rows), nodes) && MapPlan(env, nodes, Fork(prefix, kids), route) ==>
              Tidy(env, tx.rows, nodes, r == Err(ConflictingBranch))
  {
    assert forall i: Nibble :: children[i] == Empty <==> kids[i] == Nil by {
      forall i: Nibble
        ensures children[i] == Empty <==> kids[i] == Nil
      {
        assert Represents(env, tx.rows, children[i], kids[i], route + prefix + [i]);
      }
    }
    var lone := LoneSlot(children);
    if lone.Some? && children[lone.value].Leaf? {
      PromoteLeaf(env.width, prefix, kids, route, lone.value);
      r, after := Ok(children[lone.value]), kids[lone.value];
    } else if lone.Some? {
      var slot := lone.value;
      AbsorbPrefix(env.width, prefix, kids, route, slot);
      after := Fork(prefix + [slot] + kids[slot].prefix, kids[slot].kids);
      assert MapResult(env.width, Fork(prefix, kids), after, route);
      r := AbsorbChild(env, tx, prefix, children[slot].hash, slot, route, kids[slot], nodes);
    } else {
      var i, j :| 0 <= i < j < SLOTS && children[i] != Empty && children[j] != Empty;
      assert kids[i] != Nil && kids[j] != Nil;
      after := Fork(prefix, kids);
      assert MapResult(env.width, Fork(prefix, kids), after, route);
      r := StoreFork(env, tx, prefix, children, route, kids, nodes);
    }
  }

  /** Nothing is held off a branch's prefix. */
  lemma {:induction false} OffPrefix(w: nat, t: Tree, target: Path, route: Path, shared: nat)
    requires t.Fork? && |t.kids| == SLOTS && |route| + |t.prefix| < w && Below(w, route, target)
    requires Diverges(route, t.prefix, target, shared)
    ensures Updated(w, t, t, target, None, route)
  {
    LookupFork(w, t, route, target);
    assert route + t.prefix <= target ==> target[|route| + shared] == (route + t.prefix)[|route| + shared];
  }

  /** The shared nibbles of a prefix end at a divergence or at the prefix's end. */
  lemma {:induction false} SharedNibbles(route: Path, prefix: Path, target: Path)
    requires route <= target && |route| + |prefix| < |target|
    ensures var shared := FirstDiff(prefix, target[|route|..]);
            && target[..|route| + shared] == route + prefix[..shared]
            && (shared < |prefix| ==> Diverges(route, prefix, target, shared))
  {
  }

  /** Split a divergent prefix or edit the matching child. */
  method EditBranch(env: Env, tx: Table, root: RootRef, target: Path, hash: Option<Hash>, route: Path,
                    ghost t: Tree, ghost nodes: iset<Node>)
    returns (r: Result<RootRef, MerkleError>, ghost after: Tree)
    requires Lawful(env) && Below(env.width, route, target)
    requires Represents(env, tx.rows, root, t, route) && root.Branch?
    modifies tx
    ensures Grows(old(tx.rows), tx.rows)
    ensures r.Ok? ==> Represents(env, tx.rows, r.value, after, route)
    ensures r.Ok? ==> Updated(env.width, t, after, target, hash, route)
    ensures r.Err? ==> Excused(r.error)
    ensures RowsFrom(env, old(tx.rows), nodes) && EditPlan(env, nodes, t, target, hash, route) ==>
              Tidy(env, tx.rows, nodes, r == Err(ConflictingBranch))
    decreases env.width - |route|, 1
  {
    LoadsFork(env, tx.rows, root, t, route);
    var loaded := Load(env, tx, root.hash, route);
    if loaded.Err? {
      return Err(loaded.error), t;
    }
    var node := loaded.value;
    var shared := FirstDiff(node.prefix, target[|route|..]);
    SharedNibbles(route, node.prefix, target);
    if shared != |node.prefix| && hash.None? {
      OffPrefix(env.width, t, target, route, shared);
      r, after := Ok(root), t;
    } else if shared != |node.prefix| {
      r, after := SplitBranch(env, tx, node, target, hash.value, shared, route, t, nodes);
    } else {
      assert route + node.prefix[..shared] == route + node.prefix;
      r, after := EditChild(env, tx, root, node, target, hash, route, t, nodes);
    }
  }

  lemma {:induction false} NextNibble(at: Path, target: Path)
    requires at <= target && |at| < |target|
    ensures at + [target[|at|]] <= target
  {
    assert at + [target[|at|]] == target[..|at| + 1];
  }

  /** Edit the child `target` leads to and rebuild the branch if that child changed. */
  method EditChild(env: Env, tx: Table, root: RootRef, node: Node, target: Path, hash: Option<Hash>, route: Path,
                   ghost t: Tree, ghost nodes: iset<Node>)
    returns (r: Result<RootRef, MerkleError>, ghost after: Tree)
    requires Lawful(env) && Below(env.width, route + node.prefix, target)
    requires Represents(env, tx.rows, root, t, route) && t.Fork? && node == NodeOf(env, t)
    requires KidsRepresent(env, tx.rows, node.children, t.kids, route + node.prefix)
    modifies tx
    ensures Grows(old(tx.rows), tx.rows)
    ensures r.Ok? ==> Represents(env, tx.rows, r.value, after, route)
    ensures r.Ok? ==> Updated(env.width, t, after, target, hash, route)
    ensures r.Err? ==> Excused(r.error)
    ensures RowsFrom(env, old(tx.rows), nodes) && EditPlan(env, nodes, t, target, hash, route) ==>
              Tidy(env, tx.rows, nodes, r == Err(ConflictingBranch))
    decreases env.width - |route|, 0
  {
    var at := route + node.prefix;
    var slot := target[|at|];
    NextNibble(at, target);
    var children := node.children;
    ghost var kid;
    var changed;
    PlanBelow(env, nodes, t, target, hash, route, slot);
    changed, kid := Edit(env, tx, children[slot], target, hash, at + [slot], t.kids[slot], nodes);
    if changed.Err? {
      return Err(changed.error), Nil;
    }
    r, after := SettleChild(env, tx, root, node, changed.value, target, hash, route, t, kid, old(tx.rows), nodes);
  }

  /** The branch with its edited child. */
  method SettleChild(env: Env, tx: Table, root: RootRef, node: Node, child: RootRef, target: Path, hash: Option<Hash>,
                     route: Path, ghost t: Tree, ghost kid: Tree, ghost first: Rows, ghost nodes: iset<Node>)
    returns (r: Result<RootRef, MerkleError>, ghost after: Tree)
    requires Lawful(env) && Below(env.width, route + node.prefix, target) && |route + node.prefix| < env.width
    requires Represents(env, first, root, t, route) && t.Fork? && node == NodeOf(env, t)
    requires KidsRepresent(env, first, node.children, t.kids, route + node.prefix) && Grows(first, tx.rows)
    requires Represents(env, tx.rows, child, kid, route + node.prefix + [target[|route + node.prefix|]])
    requires Updated(env.width, t.kids[target[|route + node.prefix|]], kid, target, hash,
                     route + node.prefix + [target[|route + node.prefix|]])
    modifies tx
    ensures Grows(old(tx.rows), tx.rows)
    ensures r.Ok? ==> Represents(env, tx.rows, r.value, after, route)
    ensures r.Ok? ==> Updated(env.width, t, after, target, hash, route)
    ensures r.Err? ==> Excused(r.error)
    ensures RowsFrom(env, old(tx.rows), nodes) && EditPlan(env, nodes, t, target, hash, route) ==>
              Tidy(env, tx.rows, nodes, r == Err(ConflictingBranch))
  {
    var at := route + node.prefix;
    var slot := target[|at|];
    NextNibble(at, target);
    KidsGrow(env, first, tx.rows, node.children, t.kids, at);
    RepresentsGrows(env, first, tx.rows, root, t, route);
    KidEdited(env, nodes, t, kid, target, hash, route, slot);
    r, after := ReplaceChild(env, tx, root, node, slot, child, route, t, kid, nodes);
  }

  /** What a branch's plan covers, its child's does: the edited child stays beside a live sibling. */
  lemma {:induction false} PlanBelow(env: Env, nodes: iset<Node>, t: Tree, target: Path, hash: Option<Hash>,
                                     route: Path, slot: Nibble)
    requires t.Fork? && Canonical(env.width, t, route) && Below(env.width, route + t.prefix + [slot], target)
    ensures EditPlan(env, nodes, t, target, hash, route) ==>
              EditPlan(env, nodes, t.kids[slot], target, hash, route + t.prefix + [slot])
  {
    var at := route + t.prefix + [slot];
    if EditPlan(env, nodes, t, target, hash, route) {
      forall kid: Tree | EditResult(env.width, t.kids[slot], kid, target, hash, at)
        ensures NodesIn(env, kid, nodes)
      {
        if kid.Fork? {
          var after := Fork(t.prefix, t.kids[slot := kid]);
          UpdatedKid(env.width, t, kid, target, hash, route, slot);
          StillTwo(t.kids, slot, kid);
          assert EditResult(env.width, t, after, target, hash, route);
          assert after.kids[slot] == kid;
        }
      }
    }
  }

  /** The branch with the edited child is the edited branch, and planned for when that is. */
  lemma {:induction false} KidEdited(env: Env, nodes: iset<Node>, t: Tree, kid: Tree, target: Path, hash: Option<Hash>,
                                     route: Path, slot: Nibble)
    requires t.Fork? && |t.kids| == SLOTS && |route| + |t.prefix| < env.width
    requires Below(env.width, route + t.prefix + [slot], target)
    requires Updated(env.width, t.kids[slot], kid, target, hash, route + t.prefix + [slot])
    ensures forall after: Tree :: SameMap(env.width, after, Fork(t.prefix, t.kids[slot := kid]), route) ==>
              Updated(env.width, t, after, target, hash, route)
    ensures EditPlan(env, nodes, t, target, hash, route) ==>
              MapPlan(env, nodes, Fork(t.prefix, t.kids[slot := kid]), route)
  {
    UpdatedKid(env.width, t, kid, target, hash, route, slot);
    PlanBranch(env, nodes, t, Fork(t.prefix, t.kids[slot := kid]), target, hash, route);
  }

  lemma {:induction false} StillTwo(kids: seq<Tree>, slot: Nibble, kid: Tree)
    requires |kids| == SLOTS && TwoLive(kids) && kid != Nil
    ensures TwoLive(kids[slot := kid])
  {
    var changed := kids[slot := kid];
    var i, j :| 0 <= i < j < |kids| && kids[i] != Nil && kids[j] != Nil;
    assert changed[i] != Nil && changed[j] != Nil;
  }

  lemma {:induction false} PlanBranch(env: Env, nodes: iset<Node>, t: Tree, t': Tree, target: Path, hash: Option<Hash>,
                                      route: Path)
    requires Updated(env.width, t, t', target, hash, route)
    ensures EditPlan(env, nodes, t, target, hash, route) ==> MapPlan(env, nodes, t', route)
  {
    forall after: Tree | MapResult(env.width, t', after, route)
      ensures EditResult(env.width, t, after, target, hash, route)
    {
    }
  }

  /** Put an edited child in its slot: the same reference keeps the branch, another rebuilds it. */
  method ReplaceChild(env: Env, tx: Table, root: RootRef, node: Node, slot: Nibble, child: RootRef, route: Path,
                      ghost t: Tree, ghost kid: Tree, ghost nodes: iset<Node>)
    returns (r: Result<RootRef, MerkleError>, ghost after: Tree)
    requires Lawful(env) && Represents(env, tx.rows, root, t, route) && t.Fork? && node == NodeOf(env, t)
    requires KidsRepresent(env, tx.rows, node.children, t.kids, route + node.prefix)
    requires Represents(env, tx.rows, child, kid, route + node.prefix + [slot])
    modifies tx
    ensures Grows(old(tx.rows), tx.rows)
    ensures r.Ok? ==> Represents(env, tx.rows, r.value, after, route)
    ensures r.Ok? ==> SameMap(env.width, after, Fork(t.prefix, t.kids[slot := kid]), route)
    ensures r.Err? ==> Excused(r.error)
    ensures RowsFrom(env, old(tx.rows), nodes) && MapPlan(env, nodes, Fork(t.prefix, t.kids[slot := kid]), route) ==>
              Tidy(env, tx.rows, nodes, r == Err(ConflictingBranch))
  {
    if child == node.children[slot] {
      SameKid(env, tx.rows, t, route, slot, kid);
      return Ok(root), t;
    }
    OtherLive(env, tx.rows, node.children, t.kids, route + node.prefix, slot, child);
    r, after := RebuildBranch(env, tx, node.prefix, node.children[slot := child], route, t.kids[slot := kid],
                              nodes);
  }

  /** A child with the same reference is the same trie. */
  lemma {:induction false} SameKid(env: Env, rows: Rows, t: Tree, route: Path, slot: Nibble, kid: Tree)
    requires Lawful(env) && Canonical(env.width, t, route) && Persisted(env, rows, t) && t.Fork?
    requires Represents(env, rows, RootOf(env, t.kids[slot]), kid, route + t.prefix + [slot])
    ensures t.kids[slot := kid] == t.kids
  {
    PersistedUnique(env, rows, kid, t.kids[slot], route + t.prefix + [slot]);
  }

  /** Replacing one child of a branch leaves some child live. */
  lemma {:induction false} OtherLive(env: Env, rows: Rows, children: seq<RootRef>, kids: seq<Tree>, at: Path,
                                     slot: Nibble, child: RootRef)
    requires KidsRepresent(env, rows, children, kids, at) && TwoLive(kids)
    ensures var changed := children[slot := child];
            exists i :: 0 <= i < SLOTS && changed[i] != Empty
  {
    var changed := children[slot := child];
    var i, j :| 0 <= i < j < |kids| && kids[i] != Nil && kids[j] != Nil;
    var k: Nibble := if i == slot then j else i;
    assert Represents(env, rows, children[k], kids[k], at + [k]);
    assert changed[k] == children[k] != Empty;
  }

  /** Set or remove one path below `route`. */
  method Edit(env: Env, tx: Table, root: RootRef, target: Path, hash: Option<Hash>, route: Path,
              ghost t: Tree, ghost nodes: iset<Node>)
    returns (r: Result<RootRef, MerkleError>, ghost after: Tree)
    requires Lawful(env) && Below(env.width, route, target)
    requires Represents(env, tx.rows, root, t, route)
    modifies tx
    ensures Grows(old(tx.rows), tx.rows)
    ensures r.Ok? ==> Represents(env, tx.rows, r.value, after, route)
    ensures r.Ok? ==> Updated(env.width, t, after, target, hash, route)
    ensures r.Err? ==> Excused(r.error)
    ensures RowsFrom(env, old(tx.rows), nodes) && EditPlan(env, nodes, t, target, hash, route) ==>
              Tidy(env, tx.rows, nodes, r == Err(ConflictingBranch))
    decreases env.width - |route|, 2
  {
    match root
    case Empty =>
      r, after := Ok(LeafOrEmpty(target, hash)), TipOrNil(target, hash);
    case Leaf(_, _) =>
      r, after := EditLeaf(env, tx, root, target, hash, route, nodes);
    case Branch(_) =>
      r, after := EditBranch(env, tx, root, target, hash, route, t, nodes);
  }
}
