/** Branch rows behind hashes, and the predicate tying a root in a store to its trie. */
module TrieStore {
  import opened Wrappers
  import opened Lex
  import opened TrieModel

  /** A root or child reference: only branches have a row. */
  datatype RootRef = Empty | Leaf(path: Path, hash: Hash) | Branch(hash: Hash)

  /** A decoded branch: unpacked prefix and the sixteen child references. */
  datatype Node = Node(prefix: Path, children: seq<RootRef>)

  datatype MerkleError = Storage | MissingBranch | HashMismatch | InvalidNode | ConflictingBranch

  /** A storage failure, where storage may fail. */
  predicate Faulted(e: MerkleError) {
    FAULTS && e == Storage
  }

  /** What may stop an update of a trie: other bytes under a branch's digest, or storage. */
  predicate Excused(e: MerkleError) {
    e == ConflictingBranch || Faulted(e)
  }

  /** Path width in nibbles, the branch hash, and the row codec: fixed for a table. */
  datatype Env = Env(width: nat, hash: Node -> Hash, encode: Node -> Bytes, decode: Bytes -> Option<Node>)

  type Rows = map<Hash, Bytes>

  /** What node construction admits: a short prefix, two or more children, full leaf paths. */
  predicate NodeOk(w: nat, n: Node) {
    && |n.children| == SLOTS
    && |n.prefix| < w
    && (exists i, j :: 0 <= i < j < SLOTS && n.children[i] != Empty && n.children[j] != Empty)
    && forall i :: 0 <= i < SLOTS && n.children[i].Leaf? ==> |n.children[i].path| == w
  }

  /** The codec restores valid nodes and yields nothing but valid nodes. */
  ghost predicate Lawful(env: Env) {
    && (forall n: Node :: NodeOk(env.width, n) ==> env.decode(env.encode(n)) == Some(n))
    && (forall b: Bytes :: env.decode(b).Some? ==> NodeOk(env.width, env.decode(b).value))
  }

  /** Depth and leaf routing of a branch read at `route`. */
  predicate ValidAt(w: nat, n: Node, route: Path)
    requires |n.children| == SLOTS
  {
    var at := route + n.prefix;
    && |at| < w
    && (|at| + 1 == w ==> forall i :: 0 <= i < SLOTS ==> !n.children[i].Branch?)
    && forall i: Nibble :: n.children[i].Leaf? ==> at + [i] <= n.children[i].path
  }

  /** What reading the branch `hash` at `route` gives when storage itself does not fail. */
  function LoadSpec(env: Env, rows: Rows, hash: Hash, route: Path): (r: Result<Node, MerkleError>)
    requires Lawful(env)
  {
    if hash !in rows then Err(MissingBranch)
    else
      var n := env.decode(rows[hash]);
      if n.None? then Err(InvalidNode)
      else if env.hash(n.value) != hash then Err(HashMismatch)
      else if !ValidAt(env.width, n.value, route) then Err(InvalidNode)
      else Ok(n.value)
  }

  /** Node construction from unpacked parts. */
  function FromChildren(env: Env, prefix: Path, children: seq<RootRef>): Result<Node, MerkleError> {
    var n := Node(prefix, children);
    if NodeOk(env.width, n) then Ok(n) else Err(InvalidNode)
  }

  /** One trie table of a write transaction. Any access may fail. */
  class Table {
    var rows: Rows

    constructor ()
      ensures rows == map[]
    {
      rows := map[];
    }

    method Get(key: Hash) returns (r: Result<Option<Bytes>, MerkleError>)
      ensures r == Ok(Wrappers.Get(rows, key)) || (r.Err? && Faulted(r.error))
    {
      var failed := Fails();
      if failed {
        return Err(Storage);
      }
      r := Ok(Wrappers.Get(rows, key));
    }

    /** Insert only: an occupied key is reported and kept. */
    method Insert(key: Hash, value: Bytes) returns (r: Result<bool, MerkleError>)
      modifies this
      ensures r == Ok(key !in old(rows)) || (r.Err? && Faulted(r.error))
      ensures rows == if r == Ok(true) then old(rows)[key := value] else old(rows)
    {
      var failed := Fails();
      if failed {
        return Err(Storage);
      }
      r := Ok(key !in rows);
      if key !in rows {
        rows := rows[key := value];
      }
    }
  }

  method Load(env: Env, tx: Table, hash: Hash, route: Path) returns (r: Result<Node, MerkleError>)
    requires Lawful(env)
    ensures r == LoadSpec(env, tx.rows, hash, route) || (r.Err? && Faulted(r.error))
    ensures r.Ok? ==> NodeOk(env.width, r.value) && ValidAt(env.width, r.value, route)
  {
    var row := tx.Get(hash);
    if row.Err? {
      return Err(row.error);
    }
    if row.value.None? {
      return Err(MissingBranch);
    }
    var node := env.decode(row.value.value);
    if node.None? {
      return Err(InvalidNode);
    }
    if env.hash(node.value) != hash {
      return Err(HashMismatch);
    }
    if !ValidAt(env.width, node.value, route) {
      return Err(InvalidNode);
    }
    r := Ok(node.value);
  }

  /** Store an immutable branch row; an equal row already there is reused. */
  method Store(env: Env, tx: Table, node: Node, route: Path, ghost nodes: iset<Node>)
    returns (r: Result<RootRef, MerkleError>)
    requires NodeOk(env.width, node)
    modifies tx
    ensures r.Ok? ==>
              && r.value == Branch(env.hash(node))
              && Grows(old(tx.rows), tx.rows)
              && tx.rows == old(tx.rows)[env.hash(node) := env.encode(node)]
    ensures r.Err? ==> tx.rows == old(tx.rows)
    ensures r.Err? && ValidAt(env.width, node, route) ==> Excused(r.error)
    ensures RowsFrom(env, old(tx.rows), nodes) && node in nodes ==>
              Tidy(env, tx.rows, nodes, r == Err(ConflictingBranch))
  {
    assert node in nodes ==> RowOf(env, nodes, env.hash(node), env.encode(node));
    if !ValidAt(env.width, node, route) {
      return Err(InvalidNode);
    }
    var hash := env.hash(node);
    var bytes := env.encode(node);
    var inserted := tx.Insert(hash, bytes);
    if inserted.Err? {
      return Err(inserted.error);
    }
    if !inserted.value {
      var row := tx.Get(hash);
      if row.Err? {
        return Err(row.error);
      }
      if row.value != Some(bytes) {
        if node in nodes && RowsFrom(env, tx.rows, nodes) {
          assert RowOf(env, nodes, hash, tx.rows[hash]);
        }
        return Err(ConflictingBranch);
      }
    }
    r := Ok(Branch(hash));
  }

  // ---- Digests that tell branches apart ----

  /** No two of these branches have one digest. */
  ghost predicate Distinguishes(env: Env, nodes: iset<Node>) {
    forall n, n' :: n in nodes && n' in nodes && env.hash(n) == env.hash(n') ==> n == n'
  }

  /** The row is one of these branches under its digest. */
  ghost predicate RowOf(env: Env, nodes: iset<Node>, hash: Hash, b: Bytes) {
    exists n :: n in nodes && env.hash(n) == hash && env.encode(n) == b
  }

  /** The rows are branches among these. */
  ghost predicate RowsFrom(env: Env, rows: Rows, nodes: iset<Node>) {
    forall h :: h in rows ==> RowOf(env, nodes, h, rows[h])
  }

  /** The rows are branches among these, and a conflict means that two of these share a digest. */
  ghost predicate Tidy(env: Env, rows: Rows, nodes: iset<Node>, conflict: bool) {
    RowsFrom(env, rows, nodes) && (conflict ==> !Distinguishes(env, nodes))
  }

  /** The reference a trie is known by. */
  function RootOf(env: Env, t: Tree): RootRef
    decreases t
  {
    match t
    case Nil => Empty
    case Tip(path, hash) => Leaf(path, hash)
    case Fork(prefix, kids) =>
      Branch(env.hash(Node(prefix, seq(|kids|, i requires 0 <= i < |kids| => RootOf(env, kids[i])))))
  }

  /** The branch row content of a fork. */
  function NodeOf(env: Env, t: Tree): Node
    requires t.Fork?
  {
    Node(t.prefix, seq(|t.kids|, i requires 0 <= i < |t.kids| => RootOf(env, t.kids[i])))
  }

  /** Every branch of the trie has its row. */
  ghost predicate Persisted(env: Env, rows: Rows, t: Tree)
    decreases t
  {
    t.Fork? ==>
      && Get(rows, env.hash(NodeOf(env, t))) == Some(env.encode(NodeOf(env, t)))
      && forall i :: 0 <= i < |t.kids| ==> Persisted(env, rows, t.kids[i])
  }

  /** Every branch of the trie is among these. */
  ghost predicate NodesIn(env: Env, t: Tree, nodes: iset<Node>)
    decreases t
  {
    t.Fork? ==> NodeOf(env, t) in nodes && forall i :: 0 <= i < |t.kids| ==> NodesIn(env, t.kids[i], nodes)
  }

  /** `hash` is the hash of some branch of the trie. */
  ghost predicate HasBranch(env: Env, t: Tree, hash: Hash)
    decreases t
  {
    t.Fork? && (hash == env.hash(NodeOf(env, t)) || exists i :: 0 <= i < |t.kids| && HasBranch(env, t.kids[i], hash))
  }

  /** `root` at `route` in this store stands for the canonical trie `t`. */
  ghost predicate Represents(env: Env, rows: Rows, root: RootRef, t: Tree, route: Path) {
    Canonical(env.width, t, route) && root == RootOf(env, t) && Persisted(env, rows, t)
  }

  /** The sixteen references below `at` stand for the sixteen tries. */
  ghost predicate KidsRepresent(env: Env, rows: Rows, children: seq<RootRef>, kids: seq<Tree>, at: Path) {
    && |children| == SLOTS && |kids| == SLOTS
    && forall i: Nibble :: Represents(env, rows, children[i], kids[i], at + [i])
  }

  /** Rows are only ever added. */
  ghost predicate Grows(before: Rows, after: Rows) {
    forall h :: h in before ==> h in after && after[h] == before[h]
  }

  /** Every row added between the two stores belongs to `t`. */
  ghost predicate AddedWithin(env: Env, before: Rows, after: Rows, t: Tree) {
    forall h :: h in after && h !in before ==> HasBranch(env, t, h)
  }

  lemma {:induction false} PersistedGrows(env: Env, before: Rows, after: Rows, t: Tree)
    requires Persisted(env, before, t) && Grows(before, after)
    ensures Persisted(env, after, t)
    decreases t
  {
    if t.Fork? {
      forall i | 0 <= i < |t.kids|
        ensures Persisted(env, after, t.kids[i])
      {
        PersistedGrows(env, before, after, t.kids[i]);
      }
    }
  }

  /** All branches of a stored trie already have rows. */
  lemma {:induction false} BranchHasRow(env: Env, rows: Rows, t: Tree, hash: Hash)
    requires Persisted(env, rows, t) && HasBranch(env, t, hash)
    ensures hash in rows
    decreases t
  {
    if hash != env.hash(NodeOf(env, t)) {
      var i :| 0 <= i < |t.kids| && HasBranch(env, t.kids[i], hash);
      BranchHasRow(env, rows, t.kids[i], hash);
    }
  }

  /** A fork's node passes every check made when it is stored or read at its route. */
  lemma {:induction false} ForkNode(env: Env, t: Tree, route: Path)
    requires Canonical(env.width, t, route) && t.Fork?
    ensures NodeOk(env.width, NodeOf(env, t)) && ValidAt(env.width, NodeOf(env, t), route)
  {
    var n := NodeOf(env, t);
    var i, j :| 0 <= i < j < |t.kids| && t.kids[i] != Nil && t.kids[j] != Nil;
    assert n.children[i] != Empty && n.children[j] != Empty;
    forall k: Nibble
      ensures n.children[k].Leaf? ==> route + t.prefix + [k] <= n.children[k].path && |n.children[k].path| == env.width
      ensures |route + t.prefix| + 1 == env.width ==> !n.children[k].Branch?
    {
      assert Canonical(env.width, t.kids[k], route + t.prefix + [k]);
    }
    assert forall k :: 0 <= k < SLOTS && n.children[k].Leaf? ==> |n.children[k].path| == env.width;
    assert |route + t.prefix| + 1 == env.width ==> forall k :: 0 <= k < SLOTS ==> !n.children[k].Branch?;
  }

  /** Reading a represented branch root gives exactly its node. */
  lemma {:induction false} LoadsFork(env: Env, rows: Rows, root: RootRef, t: Tree, route: Path)
    requires Lawful(env) && Represents(env, rows, root, t, route) && root.Branch?
    ensures t.Fork? && LoadSpec(env, rows, root.hash, route) == Ok(NodeOf(env, t))
    ensures KidsRepresent(env, rows, NodeOf(env, t).children, t.kids, route + t.prefix)
  {
    ForkNode(env, t, route);
  }

  /** One store holds at most one node under a hash. */
  lemma {:induction false} NodeUnique(env: Env, rows: Rows, a: Tree, b: Tree, route: Path)
    requires Lawful(env) && Canonical(env.width, a, route) && Canonical(env.width, b, route)
    requires Persisted(env, rows, a) && Persisted(env, rows, b) && RootOf(env, a) == RootOf(env, b)
    requires a.Fork?
    ensures b.Fork? && NodeOf(env, a) == NodeOf(env, b)
  {
    ForkNode(env, a, route);
    ForkNode(env, b, route);
  }

  /** One store holds at most one trie under a root. */
  lemma {:induction false} PersistedUnique(env: Env, rows: Rows, a: Tree, b: Tree, route: Path)
    requires Lawful(env) && Canonical(env.width, a, route) && Canonical(env.width, b, route)
    requires Persisted(env, rows, a) && Persisted(env, rows, b) && RootOf(env, a) == RootOf(env, b)
    ensures a == b
    decreases a
  {
    if a.Fork? {
      NodeUnique(env, rows, a, b, route);
      forall i: Nibble
        ensures a.kids[i] == b.kids[i]
      {
        assert NodeOf(env, a).children[i] == NodeOf(env, b).children[i];
        PersistedUnique(env, rows, a.kids[i], b.kids[i], route + a.prefix + [i]);
      }
      assert a.kids == b.kids;
    }
  }

  /** Storing one more row keeps what was represented. */
  lemma {:induction false} RepresentsGrows(env: Env, before: Rows, after: Rows, root: RootRef, t: Tree, route: Path)
    requires Represents(env, before, root, t, route) && Grows(before, after)
    ensures Represents(env, after, root, t, route)
  {
    PersistedGrows(env, before, after, t);
  }

  lemma {:induction false} KidsGrow(env: Env, before: Rows, after: Rows, children: seq<RootRef>, kids: seq<Tree>,
                                    at: Path)
    requires KidsRepresent(env, before, children, kids, at) && Grows(before, after)
    ensures KidsRepresent(env, after, children, kids, at)
  {
    forall i: Nibble
      ensures Represents(env, after, children[i], kids[i], at + [i])
    {
      RepresentsGrows(env, before, after, children[i], kids[i], at + [i]);
    }
  }

  /** Store a branch over represented children, as every rebuild ends. */
  method StoreFork(env: Env, tx: Table, prefix: Path, children: seq<RootRef>, route: Path, ghost kids: seq<Tree>,
                   ghost nodes: iset<Node>)
    returns (r: Result<RootRef, MerkleError>)
    requires Lawful(env) && KidsRepresent(env, tx.rows, children, kids, route + prefix)
    requires TwoLive(kids) && |route| + |prefix| < env.width
    modifies tx
    ensures Grows(old(tx.rows), tx.rows)
    ensures r.Ok? ==> Represents(env, tx.rows, r.value, Fork(prefix, kids), route)
    ensures r.Ok? ==> forall h :: h in tx.rows ==> h in old(tx.rows) || h == env.hash(NodeOf(env, Fork(prefix, kids)))
    ensures r.Err? ==> Excused(r.error) && tx.rows == old(tx.rows)
    ensures RowsFrom(env, old(tx.rows), nodes) && NodesIn(env, Fork(prefix, kids), nodes) ==>
              Tidy(env, tx.rows, nodes, r == Err(ConflictingBranch))
  {
    ghost var t := Fork(prefix, kids);
    assert Canonical(env.width, t, route);
    ForkNode(env, t, route);
    assert NodeOf(env, t).children == children;
    var node := FromChildren(env, prefix, children);
    r := Store(env, tx, node.value, route, nodes);
    if r.Ok? {
      KidsGrow(env, old(tx.rows), tx.rows, children, kids, route + prefix);
      assert forall i :: 0 <= i < |kids| ==> Represents(env, tx.rows, children[i], kids[i], route + prefix + [i]);
    }
  }
}
