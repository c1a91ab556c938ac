/** The superblock: format metadata, the deployment's identity, and the head row. */
module Superblock {
  import opened Wrappers
  import opened Lex
  import opened Words
  import opened CellKeys
  import opened Terms
  import opened Postings
  import opened CellValues
  import opened System
  import opened Records
  import opened RecordView
  import opened Genesis
  import C = Commitment
  import S = CellStore

  datatype HashFunction = Keccak256 | Blake3

  /** What a deployment fixes for good. */
  datatype Deployment = Deployment(hash: HashFunction, limits: Limits)

  const FORMAT: nat := 1
  const ROARING: nat := 1

  function HashId(f: HashFunction): nat {
    if f.Keccak256? then 1 else 2
  }

  // ---- The head row ----

  function EncodeHead(head: Head): Bytes {
    ToBytes(head.commit, 8) + head.state + head.index
  }

  function DecodeHead(b: Bytes): Option<Head> {
    if |b| != 72 then None else Some(Head(FromBytes(b[..8]), b[8..40], b[40..]))
  }

  lemma {:induction false} HeadRoundTrip(head: Head)
    requires head.commit < U64
    ensures DecodeHead(EncodeHead(head)) == Some(head)
  {
    U64Bytes();
    FromToBytes(head.commit, 8);
    var b := EncodeHead(head);
    assert b[..8] == ToBytes(head.commit, 8) && b[8..40] == head.state && b[40..] == head.index;
  }

  lemma {:induction false} HeadRowRoundTrip(b: Bytes)
    requires |b| == 72
    ensures DecodeHead(b).value.commit < U64 && EncodeHead(DecodeHead(b).value) == b
  {
    U64Bytes();
    ToFromBytes(b[..8]);
    assert b == b[..8] + b[8..40] + b[40..];
  }

  // ---- The deployment's identity ----

  type Row = (Bytes, Bytes)

  const FRAMES: nat := 0x1_0000_0000

  function Frame(b: Bytes): Bytes {
    ToBytes(|b|, 4) + b
  }

  function Framed(rows: seq<Row>): Bytes {
    if rows == [] then [] else Frame(rows[0].0) + Frame(rows[0].1) + Framed(rows[1..])
  }

  predicate Framable(rows: seq<Row>) {
    |rows| < FRAMES && forall i :: 0 <= i < |rows| ==> |rows[i].0| < FRAMES && |rows[i].1| < FRAMES
  }

  lemma {:induction false} Word4(n: nat)
    requires n < FRAMES
    ensures FromBytes(ToBytes(n, 4)) == n
  {
    assert Power256(4) == FRAMES by {
      assert Power256(2) == 65536;
    }
    FromToBytes(n, 4);
  }

  /** A length-framed string ends where its frame says. */
  lemma {:induction false} FrameSplits(a: Bytes, b: Bytes, more: Bytes, more': Bytes)
    requires |a| < FRAMES && |b| < FRAMES && Frame(a) + more == Frame(b) + more'
    ensures a == b && more == more'
  {
    var x, y := Frame(a) + more, Frame(b) + more';
    assert x[..4] == ToBytes(|a|, 4) && y[..4] == ToBytes(|b|, 4);
    Word4(|a|);
    Word4(|b|);
    assert x[4..4 + |a|] == a && y[4..4 + |b|] == b;
    assert x[4 + |a|..] == more && y[4 + |b|..] == more';
  }

  lemma {:induction false} FramedStep(rows: seq<Row>)
    requires rows != []
    ensures Framed(rows) == Frame(rows[0].0) + (Frame(rows[0].1) + Framed(rows[1..]))
  {
    var a, b, c := Frame(rows[0].0), Frame(rows[0].1), Framed(rows[1..]);
    assert a + b + c == a + (b + c);
  }

  lemma {:induction false} FirstFramed(rows: seq<Row>, rows': seq<Row>)
    requires rows != [] && rows' != [] && Framable(rows) && Framable(rows') && Framed(rows) == Framed(rows')
    ensures rows[0] == rows'[0] && Framed(rows[1..]) == Framed(rows'[1..])
  {
    FramedStep(rows);
    FramedStep(rows');
    FrameSplits(rows[0].0, rows'[0].0, Frame(rows[0].1) + Framed(rows[1..]), Frame(rows'[0].1) + Framed(rows'[1..]));
    FrameSplits(rows[0].1, rows'[0].1, Framed(rows[1..]), Framed(rows'[1..]));
  }

  lemma {:induction false} FramedInjective(rows: seq<Row>, rows': seq<Row>)
    requires Framable(rows) && Framable(rows') && |rows| == |rows'| && Framed(rows) == Framed(rows')
    ensures rows == rows'
    decreases |rows|
  {
    if rows != [] {
      FirstFramed(rows, rows');
      FramedInjective(rows[1..], rows'[1..]);
      assert rows == [rows[0]] + rows[1..] && rows' == [rows'[0]] + rows'[1..];
    }
  }

  lemma {:induction false} FramedMore(rows: seq<Row>, row: Row)
    ensures Framed(rows + [row]) == Framed(rows) + Frame(row.0) + Frame(row.1)
    decreases |rows|
  {
    if rows != [] {
      FramedMore(rows[1..], row);
      assert (rows + [row])[1..] == rows[1..] + [row];
    }
  }

  /** `golemdb/genesis/v1` and a zero byte. */
  function Label(): (b: Bytes)
    ensures |b| == 19
  {
    [103, 111, 108, 101, 109, 100, 98, 47, 103, 101, 110, 101, 115, 105, 115, 47, 118, 49, 0]
  }

  /** The formats and the number of rows. */
  function Preamble(hash: HashFunction, count: nat): (b: Bytes)
    ensures |b| == 31
  {
    Label() + ToBytes(FORMAT, 4) + ToBytes(HashId(hash), 2) + ToBytes(ROARING, 2) + ToBytes(count, 4)
  }

  /** What the identity is the hash of: the formats and every row, framed. */
  function Preimage(hash: HashFunction, rows: seq<Row>): Bytes {
    Preamble(hash, |rows|) + Framed(rows)
  }

  lemma {:induction false} PreambleReads(hash: HashFunction, count: nat)
    requires count < FRAMES
    ensures FromBytes(Preamble(hash, count)[23..25]) == HashId(hash)
    ensures FromBytes(Preamble(hash, count)[27..]) == count
  {
    var b := Preamble(hash, count);
    assert b[23..25] == ToBytes(HashId(hash), 2) && b[27..] == ToBytes(count, 4);
    assert Power256(2) == 65536;
    FromToBytes(HashId(hash), 2);
    Word4(count);
  }

  /** Only one choice of formats and rows has a given preimage. */
  lemma {:induction false} PreimageInjective(hash: HashFunction, rows: seq<Row>, hash': HashFunction, rows': seq<Row>)
    requires Framable(rows) && Framable(rows') && Preimage(hash, rows) == Preimage(hash', rows')
    ensures hash == hash' && rows == rows'
  {
    assert Preimage(hash, rows)[..31] == Preamble(hash, |rows|);
    assert Preimage(hash', rows')[..31] == Preamble(hash', |rows'|);
    PreambleReads(hash, |rows|);
    PreambleReads(hash', |rows'|);
    assert Preimage(hash, rows)[31..] == Framed(rows) && Preimage(hash', rows')[31..] == Framed(rows');
    FramedInjective(rows, rows');
  }

  /** The rows are these cells in key order. */
  ghost predicate SortedRows(rows: seq<Row>, cells: CellMap) {
    && (forall i, j :: 0 <= i < j < |rows| ==> Less(rows[i].0, rows[j].0))
    && (forall i :: 0 <= i < |rows| ==> IsRow(rows[i], cells))
    && (forall k :: k in cells ==> (Encode(k), EncodeValue(cells[k])) in rows)
  }

  ghost predicate IsRow(row: Row, cells: CellMap) {
    exists k :: RowAt(row, cells, k)
  }

  ghost predicate RowAt(row: Row, cells: CellMap, k: CellKey) {
    k in cells && row == (Encode(k), EncodeValue(cells[k]))
  }

  /** The cells' rows as the identity takes them. */
  method RowsOf(cells: CellMap) returns (rows: seq<Row>)
    ensures SortedRows(rows, cells) && |rows| == |cells|
  {
    rows := [];
    var rest := cells.Keys;
    while rest != {}
      invariant rest <= cells.Keys && SomeRows(rows, cells, rest) && |rows| + |rest| == |cells.Keys|
      decreases rest
    {
      var k := LeastKey(rest);
      SomeRowsMore(rows, cells, rest, k);
      rows := rows + [(Encode(k), EncodeValue(cells[k]))];
      rest := rest - {k};
    }
  }

  /** The rows of the cells outside `rest`, before all of it. */
  ghost predicate SomeRows(rows: seq<Row>, cells: CellMap, rest: set<CellKey>) {
    && (forall i, j :: 0 <= i < j < |rows| ==> Less(rows[i].0, rows[j].0))
    && (forall i :: 0 <= i < |rows| ==> IsRow(rows[i], cells))
    && (forall i, k :: 0 <= i < |rows| && k in rest ==> Less(rows[i].0, Encode(k)))
    && (forall k :: k in cells && k !in rest ==> (Encode(k), EncodeValue(cells[k])) in rows)
  }

  lemma {:induction false} SomeRowsMore(rows: seq<Row>, cells: CellMap, rest: set<CellKey>, k: CellKey)
    requires SomeRows(rows, cells, rest) && k in rest && k in cells
    requires forall x :: x in rest ==> x == k || KeyLess(k, x)
    ensures SomeRows(rows + [(Encode(k), EncodeValue(cells[k]))], cells, rest - {k})
  {
    var row := (Encode(k), EncodeValue(cells[k]));
    assert RowAt(row, cells, k);
    assert IsRow(row, cells);
    forall x | x in rest - {k}
      ensures Less(row.0, Encode(x))
    {
      KeyOrder(k, x);
    }
  }

  /** Cells are known by their rows. */
  lemma {:induction false} RowsTell(utf8: Bytes -> bool, rows: seq<Row>, cells: CellMap, cells': CellMap)
    requires SortedRows(rows, cells) && SortedRows(rows, cells')
    requires forall k :: k in cells ==> ValueOk(utf8, cells[k])
    requires forall k :: k in cells' ==> ValueOk(utf8, cells'[k])
    ensures cells == cells'
  {
    forall k
      ensures Get(cells, k) == Get(cells', k)
    {
      RowTells(utf8, rows, cells, cells', k);
      RowTells(utf8, rows, cells', cells, k);
    }
    SameAnswers(cells, cells');
  }

  lemma {:induction false} RowTells(utf8: Bytes -> bool, rows: seq<Row>, cells: CellMap, cells': CellMap, k: CellKey)
    requires SortedRows(rows, cells) && SortedRows(rows, cells') && (k in cells ==> ValueOk(utf8, cells[k]))
    requires forall x :: x in cells' ==> ValueOk(utf8, cells'[x])
    ensures k in cells ==> Get(cells', k) == Some(cells[k])
  {
    if k in cells {
      var i :| 0 <= i < |rows| && rows[i] == (Encode(k), EncodeValue(cells[k]));
      var k' :| RowAt(rows[i], cells', k');
      CellKeys.DecodeEncode(k);
      CellKeys.DecodeEncode(k');
      ParseEncode(utf8, cells[k]);
      ParseEncode(utf8, cells'[k']);
    }
  }

  /** The same cells give the same rows. */
  lemma {:induction false} RowsUnique(rows: seq<Row>, rows': seq<Row>, cells: CellMap)
    requires SortedRows(rows, cells) && SortedRows(rows', cells)
    ensures rows == rows'
  {
    forall row
      ensures row in rows <==> row in rows'
    {
      if row in rows {
        var k :| RowAt(row, cells, k);
      }
      if row in rows' {
        var k :| RowAt(row, cells, k);
      }
    }
    SortedUnique(rows, rows');
  }

  lemma {:induction false} SortedUnique(rows: seq<Row>, rows': seq<Row>)
    requires forall i, j :: 0 <= i < j < |rows| ==> Less(rows[i].0, rows[j].0)
    requires forall i, j :: 0 <= i < j < |rows'| ==> Less(rows'[i].0, rows'[j].0)
    requires forall row :: row in rows <==> row in rows'
    ensures rows == rows'
    decreases |rows|
  {
    assert rows' != [] ==> rows'[0] in rows';
    if rows != [] {
      assert rows[0] in rows';
      SameFirst(rows, rows');
      forall row
        ensures row in rows[1..] <==> row in rows'[1..]
      {
        AfterFirst(rows, row);
        AfterFirst(rows', row);
      }
      SortedUnique(rows[1..], rows'[1..]);
      assert rows == [rows[0]] + rows[1..] && rows' == [rows[0]] + rows'[1..];
    }
  }

  lemma {:induction false} AfterFirst(rows: seq<Row>, row: Row)
    requires rows != [] && forall i, j :: 0 <= i < j < |rows| ==> Less(rows[i].0, rows[j].0)
    ensures row in rows[1..] <==> row in rows && row != rows[0]
  {
    assert rows == [rows[0]] + rows[1..];
    if row in rows[1..] {
      var i :| 0 <= i < |rows| - 1 && rows[1..][i] == row;
      assert Less(rows[0].0, rows[i + 1].0);
      Irreflexive(row.0);
    }
  }

  lemma {:induction false} SameFirst(rows: seq<Row>, rows': seq<Row>)
    requires rows != [] && rows' != []
    requires forall i, j :: 0 <= i < j < |rows| ==> Less(rows[i].0, rows[j].0)
    requires forall i, j :: 0 <= i < j < |rows'| ==> Less(rows'[i].0, rows'[j].0)
    requires rows[0] in rows' && rows'[0] in rows
    ensures rows[0] == rows'[0]
  {
    var i :| 0 <= i < |rows'| && rows'[i] == rows[0];
    var j :| 0 <= j < |rows| && rows[j] == rows'[0];
    if i > 0 && j > 0 {
      assert Less(rows'[0].0, rows'[i].0) && Less(rows[0].0, rows[j].0);
      Transitive(rows[0].0, rows'[0].0, rows[0].0);
      Irreflexive(rows[0].0);
    }
  }

  /** Each row in turn, its key and its value framed. */
  method FrameAll(rows: seq<Row>) returns (bytes: Bytes)
    ensures bytes == Framed(rows)
  {
    bytes := [];
    for i := 0 to |rows|
      invariant bytes == Framed(rows[..i])
    {
      FramedMore(rows[..i], rows[i]);
      assert rows[..i + 1] == rows[..i] + [rows[i]];
      bytes := bytes + Frame(rows[i].0) + Frame(rows[i].1);
    }
    assert rows[..|rows|] == rows;
  }

  // ---- Genesis ----

  /** The rows of a deployment's genesis cells, as its identity takes them. */
  ghost predicate GenesisRows(d: Deployment, rows: seq<Row>) {
    SortedRows(rows, InitialCells(d.limits)) && Framable(rows)
  }

  ghost predicate IsIdentity(hasher: Bytes -> Hash, d: Deployment, id: Hash) {
    exists rows :: GenesisRows(d, rows) && id == hasher(Preimage(d.hash, rows))
  }

  lemma {:induction false} UpdatedCount(edits: seq<S.CellEdit>)
    ensures |S.Updated(map[], edits)| <= |edits|
    decreases |edits|
  {
    if edits != [] {
      UpdatedCount(edits[..|edits| - 1]);
      var cells, e := S.Updated(map[], edits[..|edits| - 1]), edits[|edits| - 1];
      assert S.Update(cells, e).Keys <= cells.Keys + {e.0};
      CountSubset(S.Update(cells, e).Keys, cells.Keys + {e.0});
    }
  }

  lemma {:induction false} CountSubset<T>(a: set<T>, b: set<T>)
    requires a <= b
    ensures |a| <= |b|
  {
    assert b == a + (b - a);
  }

  lemma {:induction false} InitialCount(limits: Limits)
    ensures |InitialCells(limits)| <= 18
  {
    UpdatedCount(InitialEdits(limits));
    SystemCount(7);
    assert |LimitEdits(limits, 1)| == 15 && |LimitEdits(limits, 2)| == 16 && |LimitEdits(limits, 3)| == 17;
  }

  lemma {:induction false} SystemCount(n: nat)
    requires n <= 7
    ensures |SystemEdits(n)| == 2 * n
    decreases n
  {
    if n > 0 {
      SystemCount(n - 1);
    }
  }

  /** Genesis rows are few and short, so their frames hold. */
  lemma {:induction false} InitialFramable(limits: Limits, rows: seq<Row>)
    requires SortedRows(rows, InitialCells(limits)) && |rows| == |InitialCells(limits)|
    ensures Framable(rows)
  {
    InitialIs(limits);
    InitialCount(limits);
    forall i | 0 <= i < |rows|
      ensures |rows[i].0| < FRAMES && |rows[i].1| < FRAMES
    {
      assert IsRow(rows[i], InitialCells(limits));
      var k :| RowAt(rows[i], InitialCells(limits), k);
      InitialReserved(InitialCells(limits), limits, k);
    }
  }

  /** The deployment's identity: the hash of its formats and of every genesis cell. */
  method Identity(hasher: Bytes -> Hash, d: Deployment, cells: CellMap) returns (id: Hash)
    requires cells == InitialCells(d.limits)
    ensures IsIdentity(hasher, d, id)
  {
    var rows := RowsOf(cells);
    InitialFramable(d.limits, rows);
    var framed := FrameAll(rows);
    id := hasher(Preamble(d.hash, |rows|) + framed);
    assert GenesisRows(d, rows) && id == hasher(Preimage(d.hash, rows));
  }

  /** Genesis cells show the limits they were made with. */
  lemma {:induction false} LimitsTell(a: Limits, b: Limits)
    requires LimitsFit(a) && LimitsFit(b) && InitialCells(a) == InitialCells(b)
    ensures a == b
  {
    InitialIs(a);
    InitialIs(b);
    InitialFounded(InitialCells(a), a);
    InitialFounded(InitialCells(b), b);
    assert forall i :: 0 <= i < 3 ==> LimitAt(a, i) == LimitAt(b, i);
    assert LimitAt(a, 0) == LimitAt(b, 0) && LimitAt(a, 1) == LimitAt(b, 1) && LimitAt(a, 2) == LimitAt(b, 2);
  }

  /** The identity's preimage is one deployment's only. */
  lemma {:induction false} PreimageTells(d: Deployment, rows: seq<Row>, d': Deployment, rows': seq<Row>)
    requires LimitsFit(d.limits) && LimitsFit(d'.limits) && GenesisRows(d, rows) && GenesisRows(d', rows')
    requires Preimage(d.hash, rows) == Preimage(d'.hash, rows')
    ensures d == d'
  {
    PreimageInjective(d.hash, rows, d'.hash, rows');
    var utf8: Bytes -> bool := _ => true;
    EngineValues(utf8);
    InitialKept(CodecOf(utf8).ok, d.limits);
    InitialKept(CodecOf(utf8).ok, d'.limits);
    RowsTell(utf8, rows, InitialCells(d.limits), InitialCells(d'.limits));
    LimitsTell(d.limits, d'.limits);
  }

  /** No two genesis preimages collide. */
  ghost predicate NoCollision(hasher: Bytes -> Hash, d: Deployment, d': Deployment) {
    forall rows, rows' :: GenesisRows(d, rows) && GenesisRows(d', rows') ==>
      !Collide(hasher, Preimage(d.hash, rows), Preimage(d'.hash, rows'))
  }

  ghost predicate Collide(hasher: Bytes -> Hash, a: Bytes, b: Bytes) {
    a != b && hasher(a) == hasher(b)
  }

  lemma {:induction false} NoSelfCollision(hasher: Bytes -> Hash, d: Deployment)
    ensures NoCollision(hasher, d, d)
  {
    forall rows, rows' | GenesisRows(d, rows) && GenesisRows(d, rows')
      ensures Preimage(d.hash, rows) == Preimage(d.hash, rows')
    {
      RowsUnique(rows, rows', InitialCells(d.limits));
    }
  }

  /** Short of a collision, deployments have one identity exactly when they are one. */
  lemma {:induction false} IdentityTells(hasher: Bytes -> Hash, d: Deployment, id: Hash, d': Deployment, id': Hash)
    requires LimitsFit(d.limits) && LimitsFit(d'.limits) && IsIdentity(hasher, d, id) && IsIdentity(hasher, d', id')
    requires NoCollision(hasher, d, d')
    ensures id == id' <==> d == d'
  {
    var rows :| GenesisRows(d, rows) && id == hasher(Preimage(d.hash, rows));
    var rows' :| GenesisRows(d', rows') && id' == hasher(Preimage(d'.hash, rows'));
    if d == d' {
      RowsUnique(rows, rows', InitialCells(d.limits));
    }
    if id == id' {
      PreimageTells(d, rows, d', rows');
    }
  }

  // ---- The rows ----

  /** `format`, `hash_fn`, `roaring`, `genesis_id`, `head`. */
  function FormatKey(): Bytes {
    [102, 111, 114, 109, 97, 116]
  }

  function HashKey(): Bytes {
    [104, 97, 115, 104, 95, 102, 110]
  }

  function RoaringKey(): Bytes {
    [114, 111, 97, 114, 105, 110, 103]
  }

  function GenesisKey(): Bytes {
    [103, 101, 110, 101, 115, 105, 115, 95, 105, 100]
  }

  function HeadKey(): Bytes {
    [104, 101, 97, 100]
  }

  /** A superblock with these formats, identity and head; other rows do not matter. */
  ghost predicate Describes(meta: C.Flat, hash: HashFunction, id: Hash, head: Head) {
    && Get(meta, FormatKey()) == Some(ToBytes(FORMAT, 4))
    && Get(meta, HashKey()) == Some(ToBytes(HashId(hash), 2))
    && Get(meta, RoaringKey()) == Some(ToBytes(ROARING, 2))
    && Get(meta, GenesisKey()) == Some(id)
    && Get(meta, HeadKey()) == Some(EncodeHead(head))
  }

  datatype MetaError =
    | Missing
    | Malformed
    | UnsupportedFormat(format: nat)
    | UnsupportedHash(hash: nat)
    | UnsupportedRoaring(roaring: nat)
    | Mismatch
    | BadHead
    | Fault

  /** A row of a fixed width. */
  method ReadRow(table: C.FlatTable, key: Bytes, n: nat) returns (r: Result<Bytes, MetaError>)
    ensures r.Ok? ==> Get(table.rows, key) == Some(r.value) && |r.value| == n
    ensures r == Err(Missing) ==> key !in table.rows
    ensures r == Err(Malformed) ==> key in table.rows && |table.rows[key]| != n
    ensures r.Err? ==> r.error in {Missing, Malformed} || (FAULTS && r.error == Fault)
  {
    var row := table.Get(key);
    if row.Err? {
      return Err(Fault);
    }
    if row.value.None? {
      return Err(Missing);
    }
    r := if |row.value.value| != n then Err(Malformed) else Ok(row.value.value);
  }

  /** Read a number. */
  method ReadWord(table: C.FlatTable, key: Bytes, n: nat) returns (r: Result<nat, MetaError>)
    ensures r.Ok? ==> r.value < Power256(n) && Get(table.rows, key) == Some(ToBytes(r.value, n))
    ensures r == Err(Missing) ==> key !in table.rows
    ensures r == Err(Malformed) ==> key in table.rows && |table.rows[key]| != n
    ensures r.Err? ==> r.error in {Missing, Malformed} || (FAULTS && r.error == Fault)
  {
    var row := ReadRow(table, key, n);
    if row.Err? {
      return Err(row.error);
    }
    ToFromBytes(row.value);
    r := Ok(FromBytes(row.value));
  }

  lemma {:induction false} WordTells(a: nat, b: nat, n: nat)
    requires a < Power256(n) && b < Power256(n) && ToBytes(a, n) == ToBytes(b, n)
    ensures a == b
  {
    FromToBytes(a, n);
    FromToBytes(b, n);
  }

  /** The three format numbers. */
  method ReadFormats(table: C.FlatTable) returns (r: Result<nat, MetaError>)
    ensures r.Ok? ==>
              && r.value in {1, 2} && Get(table.rows, FormatKey()) == Some(ToBytes(FORMAT, 4))
              && Get(table.rows, HashKey()) == Some(ToBytes(r.value, 2))
              && Get(table.rows, RoaringKey()) == Some(ToBytes(ROARING, 2))
    ensures r.Err? ==> !r.error.Mismatch? && !r.error.BadHead?
    ensures r.Err? ==> (FAULTS && r.error == Fault) || forall hash, id, head :: !Describes(table.rows, hash, id, head)
  {
    assert Power256(4) == FRAMES && Power256(2) == 65536 by {
      assert Power256(3) == 16777216;
    }
    var format := ReadWord(table, FormatKey(), 4);
    if format.Err? {
      return Err(format.error);
    }
    if format.value != FORMAT {
      if ToBytes(format.value, 4) == ToBytes(FORMAT, 4) {
        WordTells(format.value, FORMAT, 4);
      }
      return Err(UnsupportedFormat(format.value));
    }
    r := ReadEngines(table);
  }

  /** The hash function and the container format. */
  method ReadEngines(table: C.FlatTable) returns (r: Result<nat, MetaError>)
    ensures r.Ok? ==>
              && r.value in {1, 2} && Get(table.rows, HashKey()) == Some(ToBytes(r.value, 2))
              && Get(table.rows, RoaringKey()) == Some(ToBytes(ROARING, 2))
    ensures r.Err? ==> !r.error.Mismatch? && !r.error.BadHead?
    ensures r.Err? ==> (FAULTS && r.error == Fault) || forall hash, id, head :: !Describes(table.rows, hash, id, head)
  {
    assert Power256(2) == 65536;
    var hash := ReadWord(table, HashKey(), 2);
    if hash.Err? {
      return Err(hash.error);
    }
    if hash.value !in {1, 2} {
      if ToBytes(hash.value, 2) == ToBytes(1, 2) {
        WordTells(hash.value, 1, 2);
      }
      if ToBytes(hash.value, 2) == ToBytes(2, 2) {
        WordTells(hash.value, 2, 2);
      }
      return Err(UnsupportedHash(hash.value));
    }
    var roaring := ReadWord(table, RoaringKey(), 2);
    if roaring.Err? {
      return Err(roaring.error);
    }
    if roaring.value != ROARING {
      if ToBytes(roaring.value, 2) == ToBytes(ROARING, 2) {
        WordTells(roaring.value, ROARING, 2);
      }
      return Err(UnsupportedRoaring(roaring.value));
    }
    r := Ok(hash.value);
  }

  method ReadHead(table: C.FlatTable) returns (r: Result<Head, MetaError>)
    ensures r.Ok? ==> r.value.commit < U64 && Get(table.rows, HeadKey()) == Some(EncodeHead(r.value))
    ensures r.Err? ==>
              || (FAULTS && r.error == Fault)
              || (r.error == BadHead && forall head :: Get(table.rows, HeadKey()) != Some(EncodeHead(head)))
  {
    var row := ReadRow(table, HeadKey(), 72);
    if row.Err? {
      return Err(if row.error == Fault then Fault else BadHead);
    }
    HeadRowRoundTrip(row.value);
    r := Ok(DecodeHead(row.value).value);
  }

  /** Every check of the superblock, in order. What it accepts is exactly what initialization and
      publication write for this deployment, and one written for another is told apart from damage. */
  method CheckMeta(table: C.FlatTable, hash: HashFunction, id: Hash) returns (r: Result<Head, MetaError>)
    ensures r.Ok? ==> r.value.commit < U64 && Describes(table.rows, hash, id, r.value)
    ensures r.Err? ==> (FAULTS && r.error == Fault) || forall head :: !Describes(table.rows, hash, id, head)
    ensures r == Err(Mismatch) ==>
              (Get(table.rows, HashKey()), Get(table.rows, GenesisKey())) != (Some(ToBytes(HashId(hash), 2)), Some(id))
    ensures forall hash', id', head :: Describes(table.rows, hash', id', head) && (hash', id') != (hash, id) ==>
              r == Err(Mismatch) || (FAULTS && r == Err(Fault))
  {
    assert Power256(2) == 65536;
    var formats := ReadFormats(table);
    if formats.Err? {
      return Err(formats.error);
    }
    var stored := ReadRow(table, GenesisKey(), 32);
    if stored.Err? {
      return Err(stored.error);
    }
    HashIdsApart(formats.value, hash);
    if formats.value != HashId(hash) || stored.value != id {
      return Err(Mismatch);
    }
    r := ReadHead(table);
  }

  lemma {:induction false} HashIdsApart(n: nat, hash: HashFunction)
    requires n in {1, 2}
    ensures forall f: HashFunction :: ToBytes(n, 2) == ToBytes(HashId(f), 2) ==> n == HashId(f)
    ensures forall f: HashFunction :: HashId(f) == HashId(hash) ==> f == hash
  {
    assert Power256(2) == 65536;
    forall f: HashFunction | ToBytes(n, 2) == ToBytes(HashId(f), 2)
      ensures n == HashId(f)
    {
      WordTells(n, HashId(f), 2);
    }
  }

  /** The rows of a new deployment, before its head. */
  function Founding(meta: C.Flat, hash: HashFunction, id: Hash): C.Flat {
    meta[FormatKey() := ToBytes(FORMAT, 4)][HashKey() := ToBytes(HashId(hash), 2)][RoaringKey() := ToBytes(ROARING, 2)]
      [GenesisKey() := id]
  }

  method WriteMeta(table: C.FlatTable, hash: HashFunction, id: Hash) returns (r: Result<(), MetaError>)
    modifies table
    ensures r.Ok? ==> table.rows == Founding(old(table.rows), hash, id)
    ensures r.Err? ==> (FAULTS && r.error == Fault)
  {
    var put := table.Set((FormatKey(), Some(ToBytes(FORMAT, 4))));
    if put.Err? {
      return Err(Fault);
    }
    put := table.Set((HashKey(), Some(ToBytes(HashId(hash), 2))));
    if put.Err? {
      return Err(Fault);
    }
    put := table.Set((RoaringKey(), Some(ToBytes(ROARING, 2))));
    if put.Err? {
      return Err(Fault);
    }
    put := table.Set((GenesisKey(), Some(id)));
    r := if put.Err? then Err(Fault) else Ok(());
  }

  /** Stage a head row: the rest of the superblock stays. */
  method WriteHead(table: C.FlatTable, head: Head) returns (r: Result<(), MetaError>)
    modifies table
    ensures r.Ok? ==> table.rows == old(table.rows)[HeadKey() := EncodeHead(head)]
    ensures r.Err? ==> (FAULTS && r.error == Fault) && table.rows == old(table.rows)
  {
    var put := table.Set((HeadKey(), Some(EncodeHead(head))));
    r := if put.Err? then Err(Fault) else Ok(());
  }

  /** A founded superblock with a head describes its deployment. */
  lemma {:induction false} FoundingDescribes(meta: C.Flat, hash: HashFunction, id: Hash, head: Head)
    ensures Describes(Founding(meta, hash, id)[HeadKey() := EncodeHead(head)], hash, id, head)
  {
    var a, b, c, d, e := FormatKey(), HashKey(), RoaringKey(), GenesisKey(), HeadKey();
    assert |a| == 6 && |b| == 7 && |c| == 7 && |d| == 10 && |e| == 4 && b[0] != c[0];
  }

  /** Publishing a head keeps the deployment. */
  lemma {:induction false} HeadMoves(meta: C.Flat, hash: HashFunction, id: Hash, head: Head, next: Head)
    requires Describes(meta, hash, id, head)
    ensures Describes(meta[HeadKey() := EncodeHead(next)], hash, id, next)
  {
  }
}
