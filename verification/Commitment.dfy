/** A flat table and the trie that commits to it: one leaf per row, routed by the digest of its key.
    The cell table and the term table are both kept this way. */
module Commitment {
  import opened Wrappers
  import opened Lex
  import opened Batch
  import opened Cursor
  import opened TrieModel
  import opened TrieStore
  import opened TrieBatch
  import opened Trie
  import TrieRead

  type Flat = map<Bytes, Bytes>

  /** A requested row: `None` deletes. */
  type Write = (Bytes, Option<Bytes>)

  /** The leaf digests and the branches of a table that are in play. */
  datatype Content = Content(leaves: iset<Hash>, nodes: iset<Node>)

  /** Routing and leaf digests of one table, the digest of nothing, which rows decode, and the content
      in play. */
  datatype Auth = Auth(
    env: Env,
    route: Bytes -> Path,
    leaf: (Bytes, Bytes) -> Hash,
    empty: Hash,
    wellFormed: (Bytes, Bytes) -> bool,
    play: Content)

  datatype CommitError = Merkle(error: MerkleError) | RootMismatch | Malformed

  /** A storage failure, where storage may fail. */
  predicate Failure(e: CommitError) {
    e.Merkle? && Faulted(e.error)
  }

  /** What may stop an update: storage, or two branches in play under one digest. */
  ghost predicate Excuse(a: Auth, e: CommitError) {
    Failure(e) || (e == Merkle(ConflictingBranch) && !Distinguishes(a.env, a.play.nodes))
  }

  /** Full routes, and no digest in play that is both a leaf's and a branch's, or the digest of nothing. */
  ghost predicate Sound(a: Auth) {
    && Lawful(a.env) && a.env.width > 0
    && (forall k :: |a.route(k)| == a.env.width)
    && a.empty !in a.play.leaves
    && (forall n :: n in a.play.nodes ==> a.env.hash(n) !in a.play.leaves && a.env.hash(n) != a.empty)
  }

  /** No two of the keys in play collide. */
  ghost predicate Apart(a: Auth, keys: set<Bytes>) {
    forall k, l :: k in keys && l in keys && a.route(k) == a.route(l) ==> k == l
  }

  /** One leaf per row. */
  ghost function Image(a: Auth, flat: Flat): Leaves
    requires Apart(a, flat.Keys)
  {
    map k | k in flat :: a.route(k) := a.leaf(k, flat[k])
  }

  lemma {:induction false} ImageAt(a: Auth, flat: Flat, keys: set<Bytes>, k: Bytes)
    requires Apart(a, keys) && flat.Keys <= keys && k in keys
    ensures Apart(a, flat.Keys)
    ensures Get(Image(a, flat), a.route(k)) == if k in flat then Some(a.leaf(k, flat[k])) else None
  {
    if k in flat {
      assert a.route(k) in Image(a, flat);
    }
  }

  /** Every digest these rows give rise to is in play. */
  ghost predicate InPlay(a: Auth, flat: Flat) {
    && Apart(a, flat.Keys)
    && (forall k :: k in flat ==> a.leaf(k, flat[k]) in a.play.leaves)
    && MapIn(a.env, Image(a, flat), a.play.nodes)
  }

  /** This root commits to exactly these rows. */
  ghost predicate Commits(a: Auth, rows: TrieStore.Rows, root: RootRef, flat: Flat) {
    && Apart(a, flat.Keys)
    && (forall k :: k in flat ==> a.wellFormed(k, flat[k]))
    && InPlay(a, flat) && RowsFrom(a.env, rows, a.play.nodes)
    && IsTrie(a.env, rows, root, Image(a, flat))
  }

  /** One flat table of a write transaction. Any access may fail. */
  class FlatTable {
    var rows: Flat

    constructor (rows: Flat)
      ensures this.rows == rows
    {
      this.rows := rows;
    }

    method Get(key: Bytes) returns (r: Result<Option<Bytes>, CommitError>)
      ensures r == Ok(Wrappers.Get(rows, key)) || (r.Err? && Failure(r.error))
    {
      var failed := Fails();
      if failed {
        return Err(Merkle(Storage));
      }
      r := Ok(Wrappers.Get(rows, key));
    }

    method Set(w: Write) returns (r: Result<(), CommitError>)
      modifies this
      ensures r == Ok(()) || (r.Err? && Failure(r.error))
      ensures rows == if r.Ok? then WriteRow(old(rows), w) else old(rows)
    {
      var failed := Fails();
      if failed {
        return Err(Merkle(Storage));
      }
      rows := WriteRow(rows, w);
      r := Ok(());
    }

    /** The only row, if there is exactly one: one cursor step, then another. */
    method OnlyRow() returns (r: Result<Option<Entry>, CommitError>)
      ensures r.Err? ==> Failure(r.error)
      ensures r.Ok? && r.value.Some? ==> rows == map[r.value.value.0 := r.value.value.1]
      ensures r == Ok(None) ==> forall k, v :: rows != map[k := v]
    {
      var cursor := new MemoryCursor(Some(rows), []);
      var failed := Fails();
      if failed {
        return Err(Merkle(Storage));
      }
      var first := cursor.Move(true);
      OnlyStep(rows, first);
      if first.None? {
        return Ok(None);
      }
      failed := Fails();
      if failed {
        return Err(Merkle(Storage));
      }
      var second := cursor.Move(true);
      OnlyRowMeans(rows, first.value, second, cursor.position);
      r := Ok(if second.Some? then None else first);
    }

    method IsEmpty() returns (r: Result<bool, CommitError>)
      ensures r == Ok(rows == map[]) || (r.Err? && Failure(r.error))
    {
      var cursor := new MemoryCursor(Some(rows), []);
      var failed := Fails();
      if failed {
        return Err(Merkle(Storage));
      }
      var first := cursor.Move(true);
      OnlyStep(rows, first);
      r := Ok(first.None?);
    }
  }

  /** From the empty key every row is in reach. */
  lemma {:induction false} OnlyStep(rows: Flat, first: Option<Entry>)
    requires Moves(rows, Start([]), true, first, if first.Some? then At(first.value.0) else After)
    ensures first.None? <==> rows == map[]
    ensures rows == map[] ==> forall k, v :: rows != map[k := v]
    ensures first.Some? ==> first.value.0 in rows && rows[first.value.0] == first.value.1 &&
                            forall k :: k in rows && k != first.value.0 ==> Less(first.value.0, k)
  {
    assert Reach(rows.Keys, Start([]), true) == rows.Keys;
    assert rows.Keys == {} <==> rows == map[];
    assert forall k: Bytes, v: Bytes :: k in map[k := v];
  }

  lemma {:induction false} OnlyRowMeans(rows: Flat, first: Entry, second: Option<Entry>, pos: Position)
    requires first.0 in rows && rows[first.0] == first.1 && forall k :: k in rows && k != first.0 ==> Less(first.0, k)
    requires Moves(rows, At(first.0), true, second, pos)
    ensures second.None? <==> rows == map[first.0 := first.1]
    ensures second.Some? ==> forall k, v :: rows != map[k := v]
  {
    Irreflexive(first.0);
    assert Reach(rows.Keys, At(first.0), true) == rows.Keys - {first.0};
    if second.Some? {
      assert second.value.0 in rows && second.value.0 != first.0;
    } else {
      assert rows.Keys == {first.0};
    }
  }

  // ---- Checking ----

  /** What the trie must hold for a row. */
  function Expected(a: Auth, key: Bytes, value: Option<Bytes>): Option<Hash> {
    if value.None? then None else Some(a.leaf(key, value.value))
  }

  /** Compare one address of the trie with the row read for it. */
  method Check(a: Auth, trie: Table, root: RootRef, key: Bytes, value: Option<Bytes>)
    returns (r: Result<(), CommitError>)
    requires Sound(a)
    ensures forall m :: IsTrie(a.env, trie.rows, root, m) ==>
              || (r.Err? && Failure(r.error))
              || r == if Get(m, a.route(key)) == Expected(a, key, value) then Ok(()) else Err(RootMismatch)
  {
    var found, _ := TrieRead.Find(a.env, trie, root, a.route(key));
    if found.Err? {
      return Err(Merkle(found.error));
    }
    r := if found.value == Expected(a, key, value) then Ok(()) else Err(RootMismatch);
  }

  /** On a matching table the row always passes. */
  lemma {:induction false} RowPasses(a: Auth, rows: TrieStore.Rows, root: RootRef, flat: Flat, keys: set<Bytes>,
                                     key: Bytes)
    requires Commits(a, rows, root, flat) && Apart(a, keys) && flat.Keys <= keys && key in keys
    ensures Get(Image(a, flat), a.route(key)) == Expected(a, key, Get(flat, key))
  {
    ImageAt(a, flat, keys, key);
  }

  /** Rows with one leaf digest are one row. */
  ghost predicate LeavesTell(a: Auth, pairs: iset<Entry>) {
    forall x, y :: x in pairs && y in pairs && a.leaf(x.0, x.1) == a.leaf(y.0, y.1) ==> x == y
  }

  /** The rows of the table are among these. */
  ghost predicate RowsIn(flat: Flat, pairs: iset<Entry>) {
    forall k :: k in flat ==> (k, flat[k]) in pairs
  }

  /** A check passes exactly for the row's own value. */
  lemma {:induction false} OnlyRowPasses(a: Auth, flat: Flat, key: Bytes, value: Option<Bytes>, pairs: iset<Entry>)
    requires Apart(a, flat.Keys + {key}) && LeavesTell(a, pairs) && RowsIn(flat, pairs)
    requires value.Some? ==> (key, value.value) in pairs
    ensures Get(Image(a, flat), a.route(key)) == Expected(a, key, value) <==> value == Get(flat, key)
  {
    ImageAt(a, flat, flat.Keys + {key}, key);
    if key in flat && value.Some? {
      var x, y := (key, flat[key]), (key, value.value);
      assert x in pairs && y in pairs;
      assert a.leaf(x.0, x.1) == a.leaf(y.0, y.1) ==> x == y;
    }
  }

  /** Tables with one image are one table, if leaf digests tell their rows apart. */
  lemma {:induction false} SameImageSameRows(a: Auth, flat: Flat, other: Flat, pairs: iset<Entry>)
    requires Apart(a, flat.Keys) && Apart(a, other.Keys) && Image(a, flat) == Image(a, other)
    requires LeavesTell(a, pairs) && RowsIn(flat, pairs) && RowsIn(other, pairs)
    ensures flat == other
  {
    forall k | k in flat
      ensures k in other && other[k] == flat[k]
    {
      FoundRow(a, flat, other, pairs, k);
    }
    forall k | k in other
      ensures k in flat
    {
      FoundRow(a, other, flat, pairs, k);
    }
  }

  lemma {:induction false} FoundRow(a: Auth, flat: Flat, other: Flat, pairs: iset<Entry>, k: Bytes)
    requires Apart(a, flat.Keys) && Apart(a, other.Keys) && Image(a, flat) == Image(a, other)
    requires LeavesTell(a, pairs) && RowsIn(flat, pairs) && RowsIn(other, pairs) && k in flat
    ensures k in other && other[k] == flat[k]
  {
    ImageAt(a, flat, flat.Keys, k);
    var l :| l in other && a.route(l) == a.route(k);
    ImageAt(a, other, other.Keys, l);
    var x, y := (k, flat[k]), (l, other[l]);
    assert x in pairs && y in pairs;
  }

  ghost function PairsOf(flat: Flat): iset<Entry> {
    iset k | k in flat :: (k, flat[k])
  }

  /** Rows committed to by one root answer alike, if no keys among them collide; they are the same rows if
      no leaf digests do. */
  lemma {:induction false} SameRootSameRows(a: Auth, rows: TrieStore.Rows, root: RootRef, flat: Flat, other: Flat,
                                            key: Bytes)
    requires Sound(a) && Commits(a, rows, root, flat) && Commits(a, rows, root, other)
    requires Apart(a, flat.Keys + other.Keys + {key})
    ensures Expected(a, key, Get(flat, key)) == Expected(a, key, Get(other, key))
    ensures LeavesTell(a, PairsOf(flat) + PairsOf(other)) ==> flat == other
  {
    var keys := flat.Keys + other.Keys + {key};
    SameRootSameMap(a.env, rows, root, Image(a, flat), Image(a, other));
    RowPasses(a, rows, root, flat, keys, key);
    RowPasses(a, rows, root, other, keys, key);
    if LeavesTell(a, PairsOf(flat) + PairsOf(other)) {
      SameImageSameRows(a, flat, other, PairsOf(flat) + PairsOf(other));
    }
  }

  // ---- Updating ----

  function WriteRow(flat: Flat, w: Write): Flat {
    if w.1.Some? then flat[w.0 := w.1.value] else flat - {w.0}
  }

  /** The rows after each write in turn. */
  function Written(flat: Flat, writes: seq<Write>): Flat {
    if writes == [] then flat else WriteRow(Written(flat, writes[..|writes| - 1]), writes[|writes| - 1])
  }

  /** The last write of a key decides. */
  lemma {:induction false} LastWriteWins(flat: Flat, writes: seq<Write>, k: Bytes)
    ensures Get(Written(flat, writes), k) == if Last(writes, k).Some? then Last(writes, k).value else Get(flat, k)
    decreases |writes|
  {
    if writes != [] {
      LastWriteWins(flat, writes[..|writes| - 1], k);
    }
  }

  function EditOf(a: Auth, w: Write): Edit {
    (a.route(w.0), if w.1.None? then None else Some(a.leaf(w.0, w.1.value)))
  }

  function EditsOf(a: Auth, writes: seq<Write>): (edits: seq<Edit>)
    ensures |edits| == |writes|
  {
    if writes == [] then [] else EditsOf(a, writes[..|writes| - 1]) + [EditOf(a, writes[|writes| - 1])]
  }

  lemma {:induction false} EditsFull(a: Auth, writes: seq<Write>)
    requires Sound(a)
    ensures forall i :: 0 <= i < |writes| ==> |EditsOf(a, writes)[i].0| == a.env.width
    decreases |writes|
  {
    if writes != [] {
      EditsFull(a, writes[..|writes| - 1]);
    }
  }

  /** One row written is one leaf edited. */
  lemma {:induction false} RowImage(a: Auth, flat: Flat, w: Write, keys: set<Bytes>)
    requires Apart(a, keys) && flat.Keys <= keys && w.0 in keys
    ensures WriteRow(flat, w).Keys <= keys && Apart(a, WriteRow(flat, w).Keys) && Apart(a, flat.Keys)
    ensures Image(a, WriteRow(flat, w)) == SetPath(Image(a, flat), EditOf(a, w))
  {
    var flat' := WriteRow(flat, w);
    var edited := SetPath(Image(a, flat), EditOf(a, w));
    forall p: Path
      ensures Get(Image(a, flat'), p) == Get(edited, p)
    {
      if k :| k in keys && a.route(k) == p {
        ImageAt(a, flat', keys, k);
        ImageAt(a, flat, keys, k);
      }
    }
    SameAnswers(Image(a, flat'), edited);
  }

  lemma {:induction false} WrittenImage(a: Auth, flat: Flat, writes: seq<Write>, keys: set<Bytes>)
    requires Apart(a, keys) && flat.Keys <= keys && forall i :: 0 <= i < |writes| ==> writes[i].0 in keys
    ensures Written(flat, writes).Keys <= keys && Apart(a, Written(flat, writes).Keys) && Apart(a, flat.Keys)
    ensures Image(a, Written(flat, writes)) == ApplyEdits(Image(a, flat), EditsOf(a, writes))
    decreases |writes|
  {
    if writes != [] {
      var init := writes[..|writes| - 1];
      WrittenImage(a, flat, init, keys);
      RowImage(a, Written(flat, init), writes[|writes| - 1], keys);
      assert EditsOf(a, writes)[..|init|] == EditsOf(a, init);
    }
  }

  lemma {:induction false} WrittenForm(a: Auth, flat: Flat, writes: seq<Write>)
    requires forall k :: k in flat ==> a.wellFormed(k, flat[k])
    requires forall i :: 0 <= i < |writes| && writes[i].1.Some? ==> a.wellFormed(writes[i].0, writes[i].1.value)
    ensures forall k :: k in Written(flat, writes) ==> a.wellFormed(k, Written(flat, writes)[k])
    decreases |writes|
  {
    if writes != [] {
      WrittenForm(a, flat, writes[..|writes| - 1]);
    }
  }

  method EditEach(a: Auth, writes: seq<Write>) returns (edits: seq<Edit>)
    ensures edits == EditsOf(a, writes)
  {
    edits := [];
    for i := 0 to |writes|
      invariant edits == EditsOf(a, writes[..i])
    {
      assert writes[..i + 1][..i] == writes[..i];
      edits := edits + [EditOf(a, writes[i])];
    }
    assert writes[..|writes|] == writes;
  }

  /** One batched trie update for the whole list of writes. */
  method Set(a: Auth, trie: Table, root: RootRef, writes: seq<Write>, ghost flat: Flat, ghost keys: set<Bytes>)
    returns (r: Result<RootRef, CommitError>)
    requires Sound(a) && Commits(a, trie.rows, root, flat)
    requires Apart(a, keys) && flat.Keys <= keys && forall i :: 0 <= i < |writes| ==> writes[i].0 in keys
    requires forall i :: 0 <= i < |writes| && writes[i].1.Some? ==> a.wellFormed(writes[i].0, writes[i].1.value)
    requires InPlay(a, Written(flat, writes))
    modifies trie
    ensures Grows(old(trie.rows), trie.rows)
    ensures r.Ok? ==> Commits(a, trie.rows, r.value, Written(flat, writes))
    ensures r.Ok? && writes == [] ==> r.value == root && trie.rows == old(trie.rows)
    ensures r.Err? ==>
              && Excuse(a, r.error)
              && (writes == [] ==> Failure(r.error))
  {
    var edits := EditEach(a, writes);
    EditsFull(a, writes);
    WrittenImage(a, flat, writes, keys);
    WrittenForm(a, flat, writes);
    var updated := Trie.Apply(a.env, trie, root, edits, Image(a, flat), a.play.nodes);
    if updated.Err? {
      return Err(Merkle(updated.error));
    }
    r := Ok(updated.value);
  }

  /** The flat rows, one after another. */
  method WriteAll(table: FlatTable, writes: seq<Write>) returns (r: Result<(), CommitError>)
    modifies table
    ensures r.Ok? ==> table.rows == Written(old(table.rows), writes)
    ensures r.Err? ==> Failure(r.error)
  {
    for i := 0 to |writes|
      invariant table.rows == Written(old(table.rows), writes[..i])
    {
      assert writes[..i + 1][..i] == writes[..i];
      var put := table.Set(writes[i]);
      if put.Err? {
        return Err(put.error);
      }
    }
    assert writes[..|writes|] == writes;
    r := Ok(());
  }

  /** The writes are of keys in play, and make rows that decode. */
  ghost predicate Fit(a: Auth, writes: seq<Write>, keys: set<Bytes>) {
    forall i :: 0 <= i < |writes| ==>
      writes[i].0 in keys && (writes[i].1.Some? ==> a.wellFormed(writes[i].0, writes[i].1.value))
  }

  /** The trie update, then the rows it commits to. */
  method Update(a: Auth, trie: Table, table: FlatTable, root: RootRef, writes: seq<Write>, ghost keys: set<Bytes>)
    returns (r: Result<RootRef, CommitError>)
    requires Sound(a) && Commits(a, trie.rows, root, table.rows) && Apart(a, keys) && table.rows.Keys <= keys
    requires Fit(a, writes, keys)
    requires InPlay(a, Written(table.rows, writes))
    modifies trie, table
    ensures Grows(old(trie.rows), trie.rows)
    ensures r.Ok? ==>
              && Commits(a, trie.rows, r.value, table.rows) && table.rows == Written(old(table.rows), writes)
              && table.rows.Keys <= keys
    ensures r.Ok? && writes == [] ==> r.value == root && trie.rows == old(trie.rows) && table.rows == old(table.rows)
    ensures r.Err? ==>
              && Excuse(a, r.error)
              && (writes == [] ==> Failure(r.error))
  {
    WrittenImage(a, table.rows, writes, keys);
    r := Set(a, trie, root, writes, table.rows, keys);
    if r.Err? {
      return;
    }
    var written := WriteAll(table, writes);
    if written.Err? {
      r := Err(written.error);
    }
  }

  // ---- Reopening ----

  /** The root shows by its digest, its row and the flat rows. */
  ghost predicate Recoverable(a: Auth, rows: TrieStore.Rows, root: RootRef, flat: Flat)
    requires Lawful(a.env)
  {
    match root
    case Empty => flat == map[]
    case Branch(hash) => hash != a.empty && hash in rows && LoadSpec(a.env, rows, hash, []).Ok?
    case Leaf(path, hash) =>
      && hash != a.empty && hash !in rows
      && exists k :: k in flat && flat == map[k := flat[k]] && path == a.route(k) && hash == a.leaf(k, flat[k])
  }

  lemma {:induction false} RootIsClear(a: Auth, rows: TrieStore.Rows, root: RootRef, flat: Flat)
    requires Sound(a) && Commits(a, rows, root, flat)
    ensures Recoverable(a, rows, root, flat)
  {
    var m := Image(a, flat);
    var t := TreeOf(a.env, rows, root, m);
    match root
    case Empty =>
      forall k
        ensures k !in flat
      {
        assert |a.route(k)| == a.env.width && Lookup(t, a.route(k), 0) == None == Get(m, a.route(k));
        assert k in flat ==> a.route(k) in m;
      }
    case Branch(hash) =>
      LoadsFork(a.env, rows, root, t, []);
      RootIsBranch(a.env, rows, root, m, a.play.nodes);
    case Leaf(path, hash) =>
      assert Lookup(t, path, 0) == Get(m, path);
      var k :| k in flat && a.route(k) == path;
      forall l | l in flat
        ensures l == k
      {
        assert Lookup(t, a.route(l), 0) == Get(m, a.route(l));
      }
      assert flat == map[k := flat[k]];
  }

  /** Recover the root from its digest: empty and singleton roots from the flat rows, a branch root
      from its own row. On a committed table this is the root itself, and whatever is recovered
      has the digest asked for. */
  method Reopen(a: Auth, trie: Table, table: FlatTable, hash: Hash) returns (r: Result<RootRef, CommitError>)
    requires Sound(a)
    ensures r.Ok? ==> RootHash(a.empty, r.value) == hash
    ensures forall root :: Commits(a, trie.rows, root, table.rows) && RootHash(a.empty, root) == hash ==>
              r == Ok(root) || (r.Err? && Failure(r.error))
  {
    forall root | Commits(a, trie.rows, root, table.rows) && RootHash(a.empty, root) == hash
      ensures Recoverable(a, trie.rows, root, table.rows)
    {
      RootIsClear(a, trie.rows, root, table.rows);
    }
    if hash == a.empty {
      var none := table.IsEmpty();
      if none.Err? {
        return Err(none.error);
      }
      return if none.value then Ok(Empty) else Err(RootMismatch);
    }
    var row := trie.Get(hash);
    if row.Err? {
      return Err(Merkle(row.error));
    }
    if row.value.Some? {
      var node := Load(a.env, trie, hash, []);
      return if node.Ok? then Ok(Branch(hash)) else Err(Merkle(node.error));
    }
    var only := table.OnlyRow();
    if only.Err? {
      return Err(only.error);
    }
    if only.value.None? {
      return Err(RootMismatch);
    }
    var (key, value) := only.value.value;
    if !a.wellFormed(key, value) {
      return Err(Malformed);
    }
    if a.leaf(key, value) != hash {
      return Err(RootMismatch);
    }
    r := Ok(Leaf(a.route(key), hash));
  }
}
