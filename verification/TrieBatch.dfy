/** Batched application of sorted edits, storing each touched branch once. */
module TrieBatch {
  import opened Wrappers
  import opened Lex
  import opened Batch
  import opened TrieModel
  import opened TrieStore
  import opened TrieEdit

  /** A path with its new leaf digest; `None` deletes. */
  type Edit = (Path, Option<Hash>)

  /** What a batch leaves at a route: a reference, or a branch whose row is still to be written. */
  datatype Edited = Stored(root: RootRef) | New(prefix: Path, children: seq<RootRef>)

  predicate PathLess(a: Path, b: Path) {
    Less(a, b)
  }

  lemma PathOrder()
    ensures TotalOrder(PathLess)
  {
    forall a: Path, b: Path, c: Path
      ensures !PathLess(a, a)
      ensures a == b || PathLess(a, b) || PathLess(b, a)
      ensures PathLess(a, b) && PathLess(b, c) ==> PathLess(a, c)
    {
      Irreflexive(a);
      Trichotomy(a, b);
      if PathLess(a, b) && PathLess(b, c) {
        Transitive(a, b, c);
      }
    }
  }

  /** Edits sorted by path, unique, and sharing `route`. */
  ghost predicate EditsOk(w: nat, edits: seq<Edit>, route: Path) {
    Ascending(PathLess, edits) && forall i :: 0 <= i < |edits| ==> Below(w, route, edits[i].0)
  }

  /** What the batch makes of `held` at a path. */
  function Settled(edit: Option<Option<Hash>>, held: Option<Hash>): Option<Hash> {
    if edit.Some? then edit.value else held
  }

  /** `after` is `before` with the batch applied, the last edit of each path winning. */
  ghost predicate Applied(w: nat, before: Tree, after: Tree, edits: seq<Edit>, route: Path) {
    forall p: Path | Below(w, route, p) ::
      Lookup(after, p, |route|) == Settled(Last(edits, p), Lookup(before, p, |route|))
  }

  /** The subtrie at `route` stands for `t`; a new branch has its children's rows but not its own. */
  ghost predicate EditedRepresents(env: Env, rows: Rows, e: Edited, t: Tree, route: Path) {
    match e
    case Stored(root) => Represents(env, rows, root, t, route)
    case New(prefix, children) =>
      && t.Fork? && t.prefix == prefix && Canonical(env.width, t, route)
      && KidsRepresent(env, rows, children, t.kids, route + prefix)
  }

  ghost predicate EditedKids(env: Env, rows: Rows, es: seq<Edited>, kids: seq<Tree>, at: Path) {
    && |es| == SLOTS && |kids| == SLOTS
    && forall i: Nibble :: EditedRepresents(env, rows, es[i], kids[i], at + [i])
  }

  /** `hash` is the hash of a branch strictly inside `t`. */
  ghost predicate HasInner(env: Env, t: Tree, hash: Hash) {
    t.Fork? && exists i :: 0 <= i < |t.kids| && HasBranch(env, t.kids[i], hash)
  }

  /** Rows added for an edited subtrie: none if it is stored, else only branches inside it. */
  ghost predicate Accounts(env: Env, before: Rows, after: Rows, e: Edited, t: Tree) {
    forall h :: h in after && h !in before ==> e.New? && HasInner(env, t, h)
  }

  /** Rows added for edited children in slots below `bound`. */
  ghost predicate AccountsKids(env: Env, before: Rows, after: Rows, es: seq<Edited>, kids: seq<Tree>, bound: nat)
    requires |es| == SLOTS && |kids| == SLOTS && bound <= SLOTS
  {
    forall h :: h in after && h !in before ==>
      exists i :: 0 <= i < bound && es[i].New? && HasInner(env, kids[i], h)
  }

  lemma {:induction false} EditedGrows(env: Env, before: Rows, after: Rows, e: Edited, t: Tree, route: Path)
    requires EditedRepresents(env, before, e, t, route) && Grows(before, after)
    ensures EditedRepresents(env, after, e, t, route)
  {
    match e
    case Stored(root) => RepresentsGrows(env, before, after, root, t, route);
    case New(prefix, children) => KidsGrow(env, before, after, children, t.kids, route + prefix);
  }

  lemma {:induction false} EditedKidsGrow(env: Env, before: Rows, after: Rows, es: seq<Edited>, kids: seq<Tree>,
                                          at: Path)
    requires EditedKids(env, before, es, kids, at) && Grows(before, after)
    ensures EditedKids(env, after, es, kids, at)
  {
    forall i: Nibble
      ensures EditedRepresents(env, after, es[i], kids[i], at + [i])
    {
      EditedGrows(env, before, after, es[i], kids[i], at + [i]);
    }
  }

  // ---- Groups of edits by slot ----

  /** Along sorted edits sharing `at`, the next nibble never falls. */
  lemma {:induction false} NibbleRises(w: nat, edits: seq<Edit>, at: Path, i: nat, j: nat)
    requires EditsOk(w, edits, at) && |at| < w && i <= j < |edits|
    ensures edits[i].0[|at|] <= edits[j].0[|at|]
  {
    if i < j {
      assert PathLess(edits[i].0, edits[j].0);
      var k := FirstDiff(edits[i].0, edits[j].0);
      assert forall m :: 0 <= m < |at| ==> edits[i].0[m] == at[m] && edits[j].0[m] == at[m];
      assert |at| <= k;
    }
  }

  /** The end of the run of edits sharing the nibble after `at` with edit `i`. */
  method GroupEnd(w: nat, edits: seq<Edit>, at: Path, i: nat) returns (j: nat)
    requires EditsOk(w, edits, at) && |at| < w && i < |edits|
    ensures i < j <= |edits|
    ensures forall k :: i <= k < j ==> edits[k].0[|at|] == edits[i].0[|at|]
    ensures forall k :: j <= k < |edits| ==> edits[k].0[|at|] > edits[i].0[|at|]
  {
    j := i + 1;
    while j < |edits| && edits[j].0[|at|] == edits[i].0[|at|]
      invariant i < j <= |edits|
      invariant forall k :: i <= k < j ==> edits[k].0[|at|] == edits[i].0[|at|]
    {
      j := j + 1;
    }
    if j < |edits| {
      forall k | j <= k < |edits|
        ensures edits[k].0[|at|] > edits[i].0[|at|]
      {
        NibbleRises(w, edits, at, i, j);
        NibbleRises(w, edits, at, j, k);
      }
    }
  }

  /** No edit of `edits` before `i` reaches slot `bound` or above; the rest do. */
  ghost predicate Reached(edits: seq<Edit>, at: Path, i: nat, bound: nat)
    requires i <= |edits| && forall k :: 0 <= k < |edits| ==> |at| < |edits[k].0|
  {
    && (forall k :: 0 <= k < i ==> edits[k].0[|at|] < bound)
    && (forall k :: i <= k < |edits| ==> edits[k].0[|at|] >= bound)
  }

  /** Slots below `bound` have their edits applied; the others are as they were. */
  ghost predicate SlotsApplied(w: nat, before: seq<Tree>, after: seq<Tree>, edits: seq<Edit>, at: Path, bound: nat) {
    && |before| == SLOTS && |after| == SLOTS
    && (forall s: Nibble :: s < bound ==> Applied(w, before[s], after[s], edits, at + [s]))
    && (forall s: Nibble :: s >= bound ==> after[s] == before[s])
  }

  /** A group's edits are all the batch has for paths through its slot. */
  lemma {:induction false} GroupApplied(w: nat, before: Tree, after: Tree, edits: seq<Edit>, at: Path, i: nat, j: nat,
                                        slot: Nibble)
    requires EditsOk(w, edits, at) && |at| < w && i <= j <= |edits|
    requires forall k :: 0 <= k < |edits| ==> (edits[k].0[|at|] == slot <==> i <= k < j)
    requires Applied(w, before, after, edits[i..j], at + [slot])
    ensures Applied(w, before, after, edits, at + [slot])
  {
    forall p: Path | Below(w, at + [slot], p)
      ensures Last(edits[i..j], p) == Last(edits, p)
    {
      StartsWith(p, at, [slot]);
      LastSlice(edits, i, j, p);
    }
  }

  /** The group is itself a batch for its slot. */
  lemma {:induction false} GroupOk(w: nat, edits: seq<Edit>, at: Path, i: nat, j: nat, slot: Nibble)
    requires EditsOk(w, edits, at) && |at| < w && i <= j <= |edits|
    requires forall k :: i <= k < j ==> edits[k].0[|at|] == slot
    ensures EditsOk(w, edits[i..j], at + [slot])
  {
    forall k | 0 <= k < j - i
      ensures Below(w, at + [slot], edits[i..j][k].0)
    {
      StartsWith(edits[i + k].0, at, [slot]);
    }
  }

  /** One more group brings every slot up to its own up to date. */
  lemma {:induction false} SlotsAdvance(w: nat, before: seq<Tree>, after: seq<Tree>, edits: seq<Edit>, at: Path,
                     bound: nat, i: nat, j: nat, slot: Nibble, kid: Tree)
    requires EditsOk(w, edits, at) && |at| < w && i < j <= |edits|
    requires SlotsApplied(w, before, after, edits, at, bound) && Reached(edits, at, i, bound)
    requires bound <= slot && Reached(edits, at, j, slot + 1)
    requires forall k :: i <= k < j ==> edits[k].0[|at|] == slot
    requires Applied(w, before[slot], kid, edits[i..j], at + [slot])
    ensures SlotsApplied(w, before, after[slot := kid], edits, at, slot + 1)
  {
    GroupApplied(w, before[slot], kid, edits, at, i, j, slot);
    forall s: Nibble | bound <= s < slot
      ensures Applied(w, before[s], after[slot := kid][s], edits, at + [s])
    {
      assert edits[i..i] == [];
      GroupApplied(w, before[s], before[s], edits, at, i, i, s);
    }
  }

  /** After the last group every slot is up to date. */
  lemma {:induction false} SlotsDone(w: nat, before: seq<Tree>, after: seq<Tree>, edits: seq<Edit>, at: Path,
                                     bound: nat)
    requires EditsOk(w, edits, at) && |at| < w
    requires SlotsApplied(w, before, after, edits, at, bound) && Reached(edits, at, |edits|, bound)
    ensures SlotsApplied(w, before, after, edits, at, SLOTS)
  {
    forall s: Nibble | bound <= s
      ensures Applied(w, before[s], after[s], edits, at + [s])
    {
      assert edits[|edits|..|edits|] == [];
      GroupApplied(w, before[s], after[s], edits, at, |edits|, |edits|, s);
    }
  }

  /** Children brought up to date bring their branch up to date. */
  lemma {:induction false} ForkApplied(w: nat, prefix: Path, before: seq<Tree>, after: seq<Tree>, edits: seq<Edit>,
                                       route: Path)
    requires |route| + |prefix| < w && EditsOk(w, edits, route + prefix)
    requires SlotsApplied(w, before, after, edits, route + prefix, SLOTS)
    ensures Applied(w, Fork(prefix, before), Fork(prefix, after), edits, route)
  {
    forall p: Path | Below(w, route, p)
      ensures Lookup(Fork(prefix, after), p, |route|) ==
              Settled(Last(edits, p), Lookup(Fork(prefix, before), p, |route|))
    {
      ForkAppliedAt(w, prefix, before, after, edits, route, route + prefix, p);
    }
  }

  lemma {:induction false} ForkAppliedAt(w: nat, prefix: Path, before: seq<Tree>, after: seq<Tree>, edits: seq<Edit>,
                                         route: Path, at: Path, p: Path)
    requires |route| + |prefix| < w && at == route + prefix && EditsOk(w, edits, at) && Below(w, route, p)
    requires SlotsApplied(w, before, after, edits, at, SLOTS)
    ensures Lookup(Fork(prefix, after), p, |route|) ==
            Settled(Last(edits, p), Lookup(Fork(prefix, before), p, |route|))
  {
    LookupStep(w, prefix, before, route, p);
    LookupStep(w, prefix, after, route, p);
    if at <= p {
      StartsWith(p, at, [p[|at|]]);
      assert Applied(w, before[p[|at|]], after[p[|at|]], edits, at + [p[|at|]]);
    } else {
      LastNone(edits, p);
    }
  }
}
