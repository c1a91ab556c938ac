/** What digests that do not collide say: a root digest binds the whole trie, in whatever store. */
module TrieDigest {
  import opened Wrappers
  import opened Lex
  import opened TrieModel
  import opened TrieStore
  import opened Trie

  /** A leaf with its full path. */
  type Place = (Path, Hash)

  /** What a branch digest covers of a child: its kind and its own digest, not a leaf's path. */
  datatype Mark = Nothing | LeafMark(hash: Hash) | BranchMark(hash: Hash)

  function MarkOf(r: RootRef): Mark {
    match r
    case Empty => Nothing
    case Leaf(_, hash) => LeafMark(hash)
    case Branch(hash) => BranchMark(hash)
  }

  /** Branches no digest over prefixes and marks can tell apart. */
  predicate SameShape(a: Node, b: Node) {
    && a.prefix == b.prefix && |a.children| == |b.children|
    && forall i :: 0 <= i < |a.children| ==> MarkOf(a.children[i]) == MarkOf(b.children[i])
  }

  /** One digest, one shape. */
  ghost predicate ShapesTell(env: Env, nodes: iset<Node>) {
    forall a, b :: a in nodes && b in nodes && env.hash(a) == env.hash(b) ==> SameShape(a, b)
  }

  /** One leaf digest, one path. */
  ghost predicate PlacesTell(places: iset<Place>) {
    forall x, y :: x in places && y in places && x.1 == y.1 ==> x.0 == y.0
  }

  /** No digest stands for two kinds of content, or for nothing. */
  ghost predicate KindsTell(env: Env, empty: Hash, nodes: iset<Node>, places: iset<Place>) {
    && (forall n, x :: n in nodes && x in places ==> env.hash(n) != x.1)
    && (forall n :: n in nodes ==> env.hash(n) != empty)
    && (forall x :: x in places ==> x.1 != empty)
  }

  /** The digests in play bind what they stand for. */
  ghost predicate Bound(env: Env, empty: Hash, nodes: iset<Node>, places: iset<Place>) {
    ShapesTell(env, nodes) && PlacesTell(places) && KindsTell(env, empty, nodes, places)
  }

  /** Every leaf of the trie is among these. */
  ghost predicate PlacesIn(t: Tree, places: iset<Place>)
    decreases t
  {
    match t
    case Nil => true
    case Tip(path, hash) => (path, hash) in places
    case Fork(_, kids) => forall i :: 0 <= i < |kids| ==> PlacesIn(kids[i], places)
  }

  /** The leaves of the map are among these. */
  ghost predicate LeavesIn(m: Leaves, places: iset<Place>) {
    forall p :: p in m ==> (p, m[p]) in places
  }

  ghost predicate FoundIn(w: nat, t: Tree, route: Path, places: iset<Place>) {
    forall p: Path | Below(w, route, p) :: Lookup(t, p, |route|).Some? ==> (p, Lookup(t, p, |route|).value) in places
  }

  /** What a canonical trie holds is all its leaves. */
  lemma {:induction false} LeavesPlaced(w: nat, t: Tree, route: Path, places: iset<Place>)
    requires Canonical(w, t, route) && FoundIn(w, t, route, places)
    ensures PlacesIn(t, places)
    decreases t
  {
    match t
    case Nil =>
    case Tip(path, hash) =>
      assert Below(w, route, path) && Lookup(t, path, |route|) == Some(hash);
    case Fork(prefix, kids) =>
      forall i: Nibble
        ensures PlacesIn(kids[i], places)
      {
        KidFound(w, t, route, i, places);
        LeavesPlaced(w, kids[i], route + prefix + [i], places);
      }
  }

  /** A path through a slot passes the branch. */
  lemma {:induction false} ThroughSlot(w: nat, route: Path, prefix: Path, i: Nibble, p: Path)
    requires Below(w, route + prefix + [i], p)
    ensures Below(w, route, p) && route + prefix <= p && p[|route| + |prefix|] == i
  {
    var at := route + prefix;
    assert p[..|at|] == (at + [i])[..|at|] == at;
    assert p[..|route|] == at[..|route|] == route;
    assert p[|at|] == (at + [i])[|at|];
  }

  lemma {:induction false} KidFound(w: nat, t: Tree, route: Path, i: Nibble, places: iset<Place>)
    requires Canonical(w, t, route) && t.Fork? && FoundIn(w, t, route, places)
    ensures FoundIn(w, t.kids[i], route + t.prefix + [i], places)
  {
    var at := route + t.prefix;
    forall p: Path | Below(w, at + [i], p)
      ensures Lookup(t.kids[i], p, |at| + 1).Some? ==> (p, Lookup(t.kids[i], p, |at| + 1).value) in places
    {
      ThroughSlot(w, route, t.prefix, i, p);
      LookupFork(w, t, route, p);
    }
  }

  /** The digest of a trie, as its root reference shows it. */
  function DigestOf(env: Env, empty: Hash, t: Tree): Hash {
    RootHash(empty, RootOf(env, t))
  }

  /** Equal root digests, equal tries. */
  lemma {:induction false} DigestTells(env: Env, empty: Hash, nodes: iset<Node>, places: iset<Place>, a: Tree, b: Tree)
    requires Bound(env, empty, nodes, places) && DigestOf(env, empty, a) == DigestOf(env, empty, b)
    requires NodesIn(env, a, nodes) && NodesIn(env, b, nodes) && PlacesIn(a, places) && PlacesIn(b, places)
    ensures a == b
    decreases a
  {
    if a.Fork? {
      ForkTells(env, empty, nodes, places, a, b);
      forall i | 0 <= i < |a.kids|
        ensures a.kids[i] == b.kids[i]
      {
        DigestTells(env, empty, nodes, places, a.kids[i], b.kids[i]);
      }
      assert a.kids == b.kids;
    } else if a.Tip? {
      TipTells(env, empty, nodes, places, a, b);
    }
  }

  /** A leaf's digest is no branch's. */
  lemma {:induction false} NotFork(env: Env, empty: Hash, nodes: iset<Node>, places: iset<Place>, x: Place, b: Tree)
    requires KindsTell(env, empty, nodes, places) && x in places && NodesIn(env, b, nodes)
    requires DigestOf(env, empty, b) == x.1
    ensures !b.Fork?
  {
  }

  lemma {:induction false} TipTells(env: Env, empty: Hash, nodes: iset<Node>, places: iset<Place>, a: Tree, b: Tree)
    requires Bound(env, empty, nodes, places) && DigestOf(env, empty, a) == DigestOf(env, empty, b) && a.Tip?
    requires NodesIn(env, b, nodes) && PlacesIn(a, places) && PlacesIn(b, places)
    ensures a == b
  {
    var x := (a.path, a.hash);
    assert x in places;
    NotFork(env, empty, nodes, places, x, b);
    if b.Tip? {
      var y := (b.path, b.hash);
      assert y in places && x.1 == y.1;
    }
  }

  lemma {:induction false} ForkTells(env: Env, empty: Hash, nodes: iset<Node>, places: iset<Place>, a: Tree, b: Tree)
    requires Bound(env, empty, nodes, places) && DigestOf(env, empty, a) == DigestOf(env, empty, b) && a.Fork?
    requires NodesIn(env, a, nodes) && NodesIn(env, b, nodes) && PlacesIn(b, places)
    ensures b.Fork? && a.prefix == b.prefix && |a.kids| == |b.kids|
    ensures forall i :: 0 <= i < |a.kids| ==> DigestOf(env, empty, a.kids[i]) == DigestOf(env, empty, b.kids[i])
  {
    var n := NodeOf(env, a);
    assert n in nodes;
    if b.Fork? {
      var n' := NodeOf(env, b);
      assert SameShape(n, n');
      forall i | 0 <= i < |a.kids|
        ensures DigestOf(env, empty, a.kids[i]) == DigestOf(env, empty, b.kids[i])
      {
        assert MarkOf(n.children[i]) == MarkOf(n'.children[i]);
      }
    }
  }

  /** Equal root digests, equal maps: whatever the two stores and the histories behind them. */
  lemma {:induction false} SameDigestSameMap(env: Env, empty: Hash, nodes: iset<Node>, places: iset<Place>, rows: Rows,
                                             root: RootRef, m: Leaves, rows': Rows, root': RootRef, m': Leaves)
    requires Bound(env, empty, nodes, places)
    requires IsTrie(env, rows, root, m) && MapIn(env, m, nodes) && LeavesIn(m, places)
    requires IsTrie(env, rows', root', m') && MapIn(env, m', nodes) && LeavesIn(m', places)
    requires RootHash(empty, root) == RootHash(empty, root')
    ensures m == m' && root == root'
  {
    var t, t' := TreeOf(env, rows, root, m), TreeOf(env, rows', root', m');
    assert TrieFor(env.width, t, m) && TrieFor(env.width, t', m');
    HeldPlaces(env.width, t, m, places);
    HeldPlaces(env.width, t', m', places);
    DigestTells(env, empty, nodes, places, t, t');
    HeldMap(env.width, t, m, m');
  }

  lemma {:induction false} HeldPlaces(w: nat, t: Tree, m: Leaves, places: iset<Place>)
    requires Canonical(w, t, []) && Holds(w, t, m) && LeavesIn(m, places)
    ensures PlacesIn(t, places)
  {
    forall p: Path | Below(w, [], p)
      ensures Lookup(t, p, 0).Some? ==> (p, Lookup(t, p, 0).value) in places
    {
      assert Lookup(t, p, 0) == Get(m, p);
    }
    LeavesPlaced(w, t, [], places);
  }

  // ---- No conflicts ----

  /** The branches whose leaves are among these. */
  ghost function Proper(nodes: iset<Node>, places: iset<Place>): iset<Node> {
    iset n | n in nodes && forall i :: 0 <= i < |n.children| && n.children[i].Leaf? ==>
                 (n.children[i].path, n.children[i].hash) in places
  }

  /** Digests that tell shapes and leaf paths tell whole branches. */
  lemma {:induction false} ShapesDistinguish(env: Env, nodes: iset<Node>, places: iset<Place>)
    requires ShapesTell(env, nodes) && PlacesTell(places)
    ensures Distinguishes(env, Proper(nodes, places))
  {
    forall a, b | a in Proper(nodes, places) && b in Proper(nodes, places) && env.hash(a) == env.hash(b)
      ensures a == b
    {
      assert SameShape(a, b);
      forall i | 0 <= i < |a.children|
        ensures a.children[i] == b.children[i]
      {
        SameChild(a.children[i], b.children[i], places);
      }
      assert a.children == b.children;
    }
  }

  lemma {:induction false} SameChild(a: RootRef, b: RootRef, places: iset<Place>)
    requires MarkOf(a) == MarkOf(b) && PlacesTell(places)
    requires a.Leaf? ==> (a.path, a.hash) in places
    requires b.Leaf? ==> (b.path, b.hash) in places
    ensures a == b
  {
    if a.Leaf? {
      var x, y := (a.path, a.hash), (b.path, b.hash);
      assert x in places && y in places && x.1 == y.1;
    }
  }

  /** A trie of leaves among these has only such branches. */
  lemma {:induction false} NodesProper(env: Env, t: Tree, nodes: iset<Node>, places: iset<Place>)
    requires NodesIn(env, t, nodes) && PlacesIn(t, places)
    ensures NodesIn(env, t, Proper(nodes, places))
    decreases t
  {
    if t.Fork? {
      forall i | 0 <= i < |t.kids|
        ensures NodesIn(env, t.kids[i], Proper(nodes, places))
      {
        NodesProper(env, t.kids[i], nodes, places);
      }
    }
  }

  lemma {:induction false} MapProper(env: Env, m: Leaves, nodes: iset<Node>, places: iset<Place>)
    requires MapIn(env, m, nodes) && LeavesIn(m, places)
    ensures MapIn(env, m, Proper(nodes, places))
  {
    forall t: Tree | TrieFor(env.width, t, m)
      ensures NodesIn(env, t, Proper(nodes, places))
    {
      HeldPlaces(env.width, t, m, places);
      NodesProper(env, t, nodes, places);
    }
  }

  /** All of a history's maps have their branches and leaves among these. */
  ghost predicate HistoryWithin(env: Env, steps: seq<Step>, nodes: iset<Node>, places: iset<Place>) {
    && MapIn(env, AfterAll(steps), nodes) && LeavesIn(AfterAll(steps), places)
    && (steps != [] ==> HistoryWithin(env, steps[..|steps| - 1], nodes, places))
  }

  lemma {:induction false} HistoryProper(env: Env, steps: seq<Step>, nodes: iset<Node>, places: iset<Place>)
    requires HistoryWithin(env, steps, nodes, places)
    ensures HistoryIn(env, steps, Proper(nodes, places))
    decreases |steps|
  {
    MapProper(env, AfterAll(steps), nodes, places);
    if steps != [] {
      HistoryProper(env, steps[..|steps| - 1], nodes, places);
    }
  }

  /** From an empty table, any history ends at the canonical root of its map or at a storage failure:
      where digests tell shapes and leaves tell paths, no branch ever conflicts with another. */
  method RunFresh(env: Env, steps: seq<Step>, ghost nodes: iset<Node>, ghost places: iset<Place>)
    returns (r: Result<RootRef, MerkleError>, tx: Table)
    requires Lawful(env) && forall i :: 0 <= i < |steps| ==> StepOk(env.width, steps[i])
    requires ShapesTell(env, nodes) && PlacesTell(places) && HistoryWithin(env, steps, nodes, places)
    ensures fresh(tx)
    ensures r.Ok? ==> IsTrie(env, tx.rows, r.value, AfterAll(steps))
    ensures r.Err? ==> Faulted(r.error)
  {
    tx := new Table();
    ShapesDistinguish(env, nodes, places);
    HistoryProper(env, steps, nodes, places);
    r := Trie.Run(env, tx, steps, Proper(nodes, places));
  }
}
