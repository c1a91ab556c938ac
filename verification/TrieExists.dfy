/** Every map has its canonical trie; and what a batch must be allowed to store, part by part. */
module TrieExists {
  import opened Wrappers
  import opened Lex
  import opened Batch
  import opened TrieModel
  import opened TrieStore
  import opened TrieEdit
  import opened TrieBatch

  function NoKids(): seq<Tree> {
    seq(SLOTS, _ => Nil)
  }

  /** A branch without children holds nothing. */
  lemma {:induction false} EmptyFork(w: nat, prefix: Path, route: Path)
    requires |route| + |prefix| < w
    ensures SameMap(w, Nil, Fork(prefix, NoKids()), route)
  {
    forall p: Path | Below(w, route, p)
      ensures Lookup(Fork(prefix, NoKids()), p, |route|) == None
    {
      LookupStep(w, prefix, NoKids(), route, p);
    }
  }

  ghost predicate KidsCanonical(w: nat, kids: seq<Tree>, at: Path) {
    |kids| == SLOTS && forall i: Nibble :: Canonical(w, kids[i], at + [i])
  }

  /** The canonical form of a branch over any canonical children: nothing, the lone leaf, the lone branch
      with the prefix joined to its own, or the branch itself. */
  lemma {:induction false} Collapsed(w: nat, prefix: Path, kids: seq<Tree>, route: Path) returns (t: Tree)
    requires |route| + |prefix| < w && KidsCanonical(w, kids, route + prefix)
    ensures Canonical(w, t, route) && SameMap(w, t, Fork(prefix, kids), route)
    ensures TwoLive(kids) ==> t == Fork(prefix, kids)
    ensures forall s: Nibble :: kids[s].Fork? ==> t.Fork? && (t.kids == kids || t.kids == kids[s].kids)
  {
    if TwoLive(kids) {
      t := Fork(prefix, kids);
    } else if s: Nibble :| kids[s] != Nil {
      assert forall i :: 0 <= i < SLOTS && i != s ==> kids[i] == Nil by {
        assert forall i :: 0 <= i < s ==> kids[i] == Nil;
      }
      if kids[s].Tip? {
        PromoteLeaf(w, prefix, kids, route, s);
        t := kids[s];
      } else {
        AbsorbPrefix(w, prefix, kids, route, s);
        t := Fork(prefix + [s] + kids[s].prefix, kids[s].kids);
      }
    } else {
      assert kids == NoKids();
      EmptyFork(w, prefix, route);
      t := Nil;
    }
  }

  /** The trie holds exactly this below its route. */
  ghost predicate HoldsAt(w: nat, t: Tree, held: Path -> Option<Hash>, route: Path) {
    forall p: Path | Below(w, route, p) :: Lookup(t, p, |route|) == held(p)
  }

  /** Whatever is held below a route, some canonical trie holds exactly that. */
  lemma {:induction false} TreeFor(w: nat, held: Path -> Option<Hash>, route: Path) returns (t: Tree)
    requires |route| <= w
    ensures Canonical(w, t, route) && HoldsAt(w, t, held, route)
    decreases w - |route|, 1
  {
    if |route| == w {
      t := if held(route).Some? then Tip(route, held(route).value) else Nil;
      forall p: Path | Below(w, route, p)
        ensures Lookup(t, p, |route|) == held(p)
      {
        assert p == route;
      }
    } else {
      var kids := KidsFor(w, held, route, SLOTS);
      assert route + [] == route;
      t := Collapsed(w, [], kids, route);
      ForkFor(w, held, route, kids);
    }
  }

  /** A branch holds what its children hold. */
  lemma {:induction false} ForkFor(w: nat, held: Path -> Option<Hash>, route: Path, kids: seq<Tree>)
    requires |route| < w && |kids| == SLOTS
    requires forall i: Nibble :: HoldsAt(w, kids[i], held, route + [i])
    ensures HoldsAt(w, Fork([], kids), held, route)
  {
    assert route + [] == route;
    forall p: Path | Below(w, route, p)
      ensures Lookup(Fork([], kids), p, |route|) == held(p)
    {
      LookupStep(w, [], kids, route, p);
      StartsWith(p, route, [p[|route|]]);
      assert HoldsAt(w, kids[p[|route|]], held, route + [p[|route|]]);
    }
  }

  lemma {:induction false} KidsFor(w: nat, held: Path -> Option<Hash>, at: Path, n: nat) returns (kids: seq<Tree>)
    requires |at| < w && n <= SLOTS
    ensures |kids| == n
    ensures forall i: Nibble :: i < n ==> Canonical(w, kids[i], at + [i]) && HoldsAt(w, kids[i], held, at + [i])
    decreases w - |at|, 0, n
  {
    if n == 0 {
      kids := [];
    } else {
      var init := KidsFor(w, held, at, n - 1);
      var last := TreeFor(w, held, at + [n - 1]);
      kids := init + [last];
    }
  }

  /** Every child brought up to date by the batch. */
  lemma {:induction false} KidsApplied(w: nat, before: seq<Tree>, edits: seq<Edit>, at: Path) returns (kids: seq<Tree>)
    requires |at| < w && |before| == SLOTS
    ensures KidsCanonical(w, kids, at) && SlotsApplied(w, before, kids, edits, at, SLOTS)
  {
    kids := KidsAppliedTo(w, before, edits, at, SLOTS);
  }

  lemma {:induction false} KidsAppliedTo(w: nat, before: seq<Tree>, edits: seq<Edit>, at: Path, n: nat)
    returns (kids: seq<Tree>)
    requires |at| < w && |before| == SLOTS && n <= SLOTS
    ensures |kids| == n
    ensures forall s: Nibble :: s < n ==>
              Canonical(w, kids[s], at + [s]) && Applied(w, before[s], kids[s], edits, at + [s])
    decreases n
  {
    if n == 0 {
      kids := [];
    } else {
      var init := KidsAppliedTo(w, before, edits, at, n - 1);
      var held := p => Settled(Last(edits, p), Lookup(before[n - 1], p, |at| + 1));
      var last := TreeFor(w, held, at + [n - 1]);
      kids := init + [last];
    }
  }

  // ---- Plans ----

  /** Every branch strictly inside the trie is among these. */
  ghost predicate InnerIn(env: Env, t: Tree, nodes: iset<Node>) {
    t.Fork? ==> forall i :: 0 <= i < |t.kids| ==> NodesIn(env, t.kids[i], nodes)
  }

  /** The branches inside what the batch makes of this trie are among these; with `top`, its own too. */
  ghost predicate BatchPlan(env: Env, nodes: iset<Node>, t: Tree, edits: seq<Edit>, route: Path, top: bool) {
    forall after: Tree :: BatchResult(env.width, t, after, edits, route) ==>
      InnerIn(env, after, nodes) && (top ==> NodesIn(env, after, nodes))
  }

  /** The canonical trie a batch leads to. */
  ghost predicate BatchResult(w: nat, t: Tree, after: Tree, edits: seq<Edit>, route: Path) {
    Canonical(w, after, route) && Applied(w, t, after, edits, route)
  }

  /** The same of sixteen children. */
  ghost predicate KidsPlan(env: Env, nodes: iset<Node>, before: seq<Tree>, edits: seq<Edit>, at: Path, top: bool) {
    forall kids: seq<Tree> :: KidsResult(env.width, before, kids, edits, at) ==> KidsCovered(env, kids, nodes, top)
  }

  /** The canonical children a batch leads to. */
  ghost predicate KidsResult(w: nat, before: seq<Tree>, kids: seq<Tree>, edits: seq<Edit>, at: Path) {
    KidsCanonical(w, kids, at) && SlotsApplied(w, before, kids, edits, at, SLOTS)
  }

  ghost predicate KidsCovered(env: Env, kids: seq<Tree>, nodes: iset<Node>, top: bool) {
    forall s :: 0 <= s < |kids| ==> InnerIn(env, kids[s], nodes) && (top ==> NodesIn(env, kids[s], nodes))
  }

  /** A group's edits are all the batch has for its slot, in either form. */
  lemma {:induction false} GroupPlan(env: Env, nodes: iset<Node>, before: seq<Tree>, edits: seq<Edit>, at: Path,
                                     top: bool, i: nat, j: nat, slot: Nibble)
    requires EditsOk(env.width, edits, at) && |at| < env.width && i <= j <= |edits| && |before| == SLOTS
    requires forall k :: 0 <= k < |edits| ==> (edits[k].0[|at|] == slot <==> i <= k < j)
    requires KidsPlan(env, nodes, before, edits, at, top)
    ensures BatchPlan(env, nodes, before[slot], edits[i..j], at + [slot], top)
  {
    var w := env.width;
    var others := KidsApplied(w, before, edits, at);
    forall kid: Tree | BatchResult(w, before[slot], kid, edits[i..j], at + [slot])
      ensures InnerIn(env, kid, nodes) && (top ==> NodesIn(env, kid, nodes))
    {
      GroupApplied(w, before[slot], kid, edits, at, i, j, slot);
      var kids := others[slot := kid];
      assert KidsResult(w, before, kids, edits, at);
      assert kids[slot] == kid;
    }
  }

  /** What a branch's plan covers, its children's plan does. */
  lemma {:induction false} BranchPlan(env: Env, nodes: iset<Node>, t: Tree, prefix: Path, before: seq<Tree>,
                                      edits: seq<Edit>, route: Path, top: bool)
    requires |route| + |prefix| < env.width && EditsOk(env.width, edits, route + prefix) && |before| == SLOTS
    requires SameMap(env.width, t, Fork(prefix, before), route) && BatchPlan(env, nodes, t, edits, route, top)
    ensures KidsPlan(env, nodes, before, edits, route + prefix, false)
  {
    var w := env.width;
    forall kids: seq<Tree> | KidsResult(w, before, kids, edits, route + prefix)
      ensures KidsCovered(env, kids, nodes, false)
    {
      var after := Collapsed(w, prefix, kids, route);
      ForkApplied(w, prefix, before, kids, edits, route);
      assert BatchResult(w, t, after, edits, route);
      forall s: Nibble
        ensures InnerIn(env, kids[s], nodes)
      {
        if kids[s].Fork? && after.kids == kids {
          assert NodesIn(env, after.kids[s], nodes);
        }
      }
    }
  }
}
