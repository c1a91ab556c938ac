/** The canonical compressed hexary trie as a value: what every stored trie must be. */
module TrieModel {
  import opened Wrappers
  import opened Lex

  type Nibble = x: int | 0 <= x < 16

  /** A routing path, one nibble per level. Full paths have `2N` nibbles. */
  type Path = seq<Nibble>

  const SLOTS: nat := 16

  /** A trie with nothing hidden behind a hash. */
  datatype Tree = Nil | Tip(path: Path, hash: Hash) | Fork(prefix: Path, kids: seq<Tree>)

  /** At least two of the children hold something: the branch is not unary. */
  predicate TwoLive(kids: seq<Tree>) {
    exists i, j :: 0 <= i < j < |kids| && kids[i] != Nil && kids[j] != Nil
  }

  /** The trie form at `route`: maximal prefixes, no unary branch, each leaf on its route. */
  ghost predicate Canonical(w: nat, t: Tree, route: Path)
    decreases t
  {
    match t
    case Nil => true
    case Tip(path, _) => |path| == w && route <= path
    case Fork(prefix, kids) =>
      && |kids| == SLOTS
      && |route| + |prefix| < w
      && TwoLive(kids)
      && forall i: Nibble :: Canonical(w, kids[i], route + prefix + [i])
  }

  /** The hash held at path `p`, for a trie whose route has `depth` nibbles. */
  function Lookup(t: Tree, p: Path, depth: nat): Option<Hash>
    decreases t
  {
    match t
    case Nil => None
    case Tip(path, hash) => if path == p then Some(hash) else None
    case Fork(prefix, kids) =>
      var end := depth + |prefix|;
      if end < |p| && p[depth..end] == prefix && p[end] < |kids| then
        Lookup(kids[p[end]], p, end + 1)
      else
        None
  }

  /** `p` is a full path below `route`. */
  predicate Below(w: nat, route: Path, p: Path) {
    |p| == w && route <= p
  }

  /** Two tries at `route` hold the same map. */
  ghost predicate SameMap(w: nat, a: Tree, b: Tree, route: Path) {
    forall p: Path | Below(w, route, p) :: Lookup(a, p, |route|) == Lookup(b, p, |route|)
  }

  /** Starting with a concatenation, piece by piece. */
  lemma {:induction false} StartsWith(p: Path, a: Path, b: Path)
    requires |a| + |b| <= |p|
    ensures a + b <= p <==> a <= p && p[|a|..|a| + |b|] == b
  {
    assert p[..|a| + |b|] == p[..|a|] + p[|a|..|a| + |b|];
  }

  /** One step of a lookup through a branch. */
  lemma {:induction false} LookupStep(w: nat, prefix: Path, kids: seq<Tree>, route: Path, p: Path)
    requires |kids| == SLOTS && |route| + |prefix| < w && Below(w, route, p)
    ensures Lookup(Fork(prefix, kids), p, |route|) ==
            if route + prefix <= p then Lookup(kids[p[|route| + |prefix|]], p, |route| + |prefix| + 1) else None
  {
    StartsWith(p, route, prefix);
  }

  /** The same step, for a branch at hand. */
  lemma {:induction false} LookupAt(w: nat, t: Tree, route: Path, at: Path, p: Path)
    requires t.Fork? && |t.kids| == SLOTS && at == route + t.prefix && |at| < w && |p| == w
    ensures at <= p ==> route <= p
    ensures route <= p ==>
              Lookup(t, p, |route|) == if at <= p then Lookup(t.kids[p[|at|]], p, |at| + 1) else None
  {
    StartsWith(p, route, t.prefix);
  }

  /** The step stays on the path's route. */
  lemma {:induction false} LookupFork(w: nat, t: Tree, route: Path, p: Path)
    requires t.Fork? && |t.kids| == SLOTS && |route| + |t.prefix| < w && Below(w, route, p)
    ensures route + t.prefix <= p ==>
              && Below(w, route + t.prefix + [p[|route| + |t.prefix|]], p)
              && Lookup(t, p, |route|) == Lookup(t.kids[p[|route| + |t.prefix|]], p, |route| + |t.prefix| + 1)
    ensures !(route + t.prefix <= p) ==> Lookup(t, p, |route|) == None
  {
    var e := |route| + |t.prefix|;
    LookupStep(w, t.prefix, t.kids, route, p);
    StartsWith(p, route + t.prefix, [p[e]]);
  }

  /** A nonempty canonical trie holds some path. */
  lemma {:induction false} SomePath(w: nat, t: Tree, route: Path) returns (p: Path)
    requires Canonical(w, t, route) && t != Nil
    ensures Below(w, route, p) && Lookup(t, p, |route|).Some?
    decreases t
  {
    match t
    case Tip(path, _) => p := path;
    case Fork(prefix, kids) =>
      var i, j :| 0 <= i < j < |kids| && kids[i] != Nil && kids[j] != Nil;
      p := SomePathIn(w, t, route, i);
  }

  /** A live child of a branch holds a path through its slot. */
  lemma {:induction false} SomePathIn(w: nat, t: Tree, route: Path, i: Nibble) returns (p: Path)
    requires Canonical(w, t, route) && t.Fork? && t.kids[i] != Nil
    ensures Below(w, route, p) && Lookup(t, p, |route|).Some?
    ensures route + t.prefix + [i] <= p
    decreases t, 0
  {
    var child := route + t.prefix + [i];
    p := SomePath(w, t.kids[i], child);
    assert p[..|route| + |t.prefix|] == child[..|route| + |t.prefix|];
    LookupFork(w, t, route, p);
  }

  /** A branch holds two paths that part exactly behind its prefix. */
  lemma {:induction false} TwoPaths(w: nat, t: Tree, route: Path) returns (p: Path, q: Path)
    requires Canonical(w, t, route) && t.Fork?
    ensures Below(w, route, p) && Lookup(t, p, |route|).Some? && route + t.prefix <= p
    ensures Below(w, route, q) && Lookup(t, q, |route|).Some? && route + t.prefix <= q
    ensures p[|route| + |t.prefix|] != q[|route| + |t.prefix|]
  {
    var i, j :| 0 <= i < j < |t.kids| && t.kids[i] != Nil && t.kids[j] != Nil;
    p := SomePathIn(w, t, route, i);
    q := SomePathIn(w, t, route, j);
  }

  /** Two branches holding the same map have the same prefix. */
  lemma {:induction false} SamePrefix(w: nat, a: Tree, b: Tree, route: Path)
    requires Canonical(w, a, route) && Canonical(w, b, route) && SameMap(w, a, b, route)
    requires a.Fork? && b.Fork?
    ensures a.prefix == b.prefix
  {
    var p, q := TwoPaths(w, a, route);
    var r, s := TwoPaths(w, b, route);
    LookupFork(w, b, route, p);
    LookupFork(w, b, route, q);
    LookupFork(w, a, route, r);
    LookupFork(w, a, route, s);
    var d := |route|;
    assert |a.prefix| == |b.prefix|;
    assert (route + a.prefix)[d..] == (route + b.prefix)[d..];
  }

  /** Branches with one prefix and one map agree slot by slot. */
  lemma {:induction false} SameMapChild(w: nat, a: Tree, b: Tree, route: Path, i: Nibble)
    requires a.Fork? && b.Fork? && |a.kids| == SLOTS && |b.kids| == SLOTS
    requires a.prefix == b.prefix && |route| + |a.prefix| < w
    requires SameMap(w, a, b, route)
    ensures SameMap(w, a.kids[i], b.kids[i], route + a.prefix + [i])
  {
    var child := route + a.prefix + [i];
    forall p: Path | Below(w, child, p)
      ensures Lookup(a.kids[i], p, |child|) == Lookup(b.kids[i], p, |child|)
    {
      assert p[..|route| + |a.prefix|] == child[..|route| + |a.prefix|];
      LookupFork(w, a, route, p);
      LookupFork(w, b, route, p);
    }
  }

  /** Tries of different shapes hold different maps. */
  lemma {:induction false} SameShape(w: nat, a: Tree, b: Tree, route: Path)
    requires Canonical(w, a, route) && Canonical(w, b, route) && SameMap(w, a, b, route)
    requires !b.Fork?
    ensures a == b
  {
    if a.Fork? {
      var p, q := TwoPaths(w, a, route);
    } else if a != Nil {
      var p := SomePath(w, a, route);
    } else if b != Nil {
      var p := SomePath(w, b, route);
    }
  }

  /** The canonical trie of a map is unique. */
  lemma {:induction false} CanonicalUnique(w: nat, a: Tree, b: Tree, route: Path)
    requires Canonical(w, a, route) && Canonical(w, b, route) && SameMap(w, a, b, route)
    ensures a == b
    decreases a
  {
    if !a.Fork? {
      SameShape(w, b, a, route);
    } else if !b.Fork? {
      SameShape(w, a, b, route);
    } else {
      SamePrefix(w, a, b, route);
      forall i: Nibble
        ensures a.kids[i] == b.kids[i]
      {
        SameMapChild(w, a, b, route, i);
        CanonicalUnique(w, a.kids[i], b.kids[i], route + a.prefix + [i]);
      }
      assert a.kids == b.kids;
    }
  }
}
