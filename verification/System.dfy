/** The reserved records, their keys and cell names, and the system cells that hold identities,
    bindings, the allocator and the roots of past commits. */
module System {
  import opened Wrappers
  import opened Lex
  import opened Words
  import opened CellKeys
  import opened Order
  import opened Terms
  import opened Postings

  const FIRST_USER: nat := 64

  const PARAMS: RecordId := 0
  const ALLOC: RecordId := 1
  const ROOTS: RecordId := 2
  const RECORD_KEYS: RecordId := 3

  /** A caller-assigned identity. */
  type RecordKey = k: Bytes | |k| == 32 witness seq(32, _ => 0)

  function Padding(n: nat): (b: Bytes)
    ensures |b| == n
  {
    seq(n, _ => 0)
  }

  function Named(name: Bytes): (key: RecordKey)
    requires |name| <= 32
    ensures name <= key
  {
    name + Padding(32 - |name|)
  }

  /** Exact reserved keys: `#params`, `#alloc`, `#roots`, `#recordKeys`, `#rootIndex`, `@meteringModel`,
      `@modelWeight`. */
  function Catalogue(): (all: seq<(RecordId, RecordKey)>)
    ensures |all| == 7
  {
    [ (0, Named([35, 112, 97, 114, 97, 109, 115])),
      (1, Named([35, 97, 108, 108, 111, 99])),
      (2, Named([35, 114, 111, 111, 116, 115])),
      (3, Named([35, 114, 101, 99, 111, 114, 100, 75, 101, 121, 115])),
      (4, Named([35, 114, 111, 111, 116, 73, 110, 100, 101, 120])),
      (32, Named([64, 109, 101, 116, 101, 114, 105, 110, 103, 77, 111, 100, 101, 108])),
      (33, Named([64, 109, 111, 100, 101, 108, 87, 101, 105, 103, 104, 116])) ]
  }

  /** The reserved record with this key. */
  function ByKey(key: RecordKey): (id: Option<RecordId>)
    ensures id.Some? ==> id.value < FIRST_USER
  {
    Search(key, 0)
  }

  function Search(key: RecordKey, i: nat): (id: Option<RecordId>)
    requires i <= 7
    ensures id.Some? ==> id.value < FIRST_USER
    decreases 7 - i
  {
    if i == 7 then None else if Catalogue()[i].1 == key then Some(Catalogue()[i].0) else Search(key, i + 1)
  }

  /** `#key`, `#nextRecordID`, `#maxCellNameLen`, `#maxStrLen`, `#maxBytesLen`. */
  function KeyName(): (name: Bytes)
    ensures |name| == 4 && name[0] == 35
  {
    [35, 107, 101, 121]
  }

  function NextName(): (name: Bytes)
    ensures |name| == 13 && name[0] == 35
  {
    [35, 110, 101, 120, 116, 82, 101, 99, 111, 114, 100, 73, 68]
  }

  function LimitName(i: nat): (name: Bytes)
    requires i < 3
    ensures |name| == [15, 10, 12][i] && name[0] == 35
  {
    if i == 0 then [35, 109, 97, 120, 67, 101, 108, 108, 78, 97, 109, 101, 76, 101, 110]
    else if i == 1 then [35, 109, 97, 120, 83, 116, 114, 76, 101, 110]
    else [35, 109, 97, 120, 66, 121, 116, 101, 115, 76, 101, 110]
  }

  /** A user name never is an engine name. */
  lemma {:induction false} UserName(name: Bytes)
    requires ValidName(name)
    ensures name != [] && name[0] != 35
  {
  }

  // ---- System cells ----

  function Ident(id: RecordId): CellKey {
    CellKey(id, KeyName())
  }

  function Binding(key: RecordKey): CellKey {
    CellKey(RECORD_KEYS, key)
  }

  function Allocator(): CellKey {
    CellKey(ALLOC, NextName())
  }

  function Limit(i: nat): CellKey
    requires i < 3
  {
    CellKey(PARAMS, LimitName(i))
  }

  /** The cell under which the roots of a commit are kept. */
  function RootsKey(commit: nat): CellKey {
    CellKey(ROOTS, ToBytes(commit, 8))
  }

  /** Durable head metadata. */
  datatype Head = Head(commit: nat, state: Hash, index: Hash)

  /** A commit's two roots, as the next commit keeps them. */
  function RootsValue(head: Head): CellValue {
    CellValue(RawBytes, false, head.state + head.index)
  }

  /** The state root comes first, the index root after it, and both can be read back. */
  lemma {:induction false} RootPair(head: Head)
    ensures |RootsValue(head).stored| == 64
    ensures RootsValue(head).stored[..32] == head.state && RootsValue(head).stored[32..] == head.index
  {
  }

  function IdValue(n: nat): CellValue {
    CellValue(Uint(W8), false, ToBytes(n, 8))
  }

  function KeyValue(key: RecordKey): CellValue {
    CellValue(FixedBytes(W32), false, key)
  }

  function LimitValue(n: nat): CellValue {
    CellValue(Uint(W4), false, ToBytes(n, 4))
  }

  /** An unsigned 64-bit field. */
  function AsId(v: Option<CellValue>): (id: Option<RecordId>) {
    if v.Some? && v.value.ty == Uint(W8) && !v.value.indexable && |v.value.stored| == 8 then
      ToFromBytes(v.value.stored);
      U64Bytes();
      Some(FromBytes(v.value.stored))
    else None
  }

  /** A 32-byte field. */
  function AsKey(v: Option<CellValue>): Option<RecordKey> {
    if v.Some? && v.value.ty == FixedBytes(W32) && !v.value.indexable && |v.value.stored| == 32
    then Some(v.value.stored) else None
  }

  /** An unsigned 32-bit field. */
  function AsLimit(v: Option<CellValue>): Option<nat> {
    if v.Some? && v.value.ty == Uint(W4) && !v.value.indexable && |v.value.stored| == 4
    then Some(FromBytes(v.value.stored)) else None
  }

  lemma {:induction false} IdRoundTrip(n: RecordId, v: CellValue)
    ensures AsId(Some(IdValue(n))) == Some(n)
    ensures AsId(Some(v)) == Some(n) ==> v == IdValue(n)
  {
    U64Bytes();
    FromToBytes(n, 8);
    if AsId(Some(v)).Some? {
      ToFromBytes(v.stored);
    }
  }

  lemma {:induction false} LimitRoundTrip(n: nat)
    requires n < 0x1_0000_0000
    ensures AsLimit(Some(LimitValue(n))) == Some(n)
  {
    assert Power256(4) == 0x1_0000_0000 by {
      assert Power256(2) == 65536;
    }
    FromToBytes(n, 4);
  }

  /** Distinct commits keep their roots apart. */
  lemma {:induction false} RootsApart(a: nat, b: nat)
    requires a < U64 && b < U64 && RootsKey(a) == RootsKey(b)
    ensures a == b
  {
    U64Bytes();
    FromToBytes(a, 8);
    FromToBytes(b, 8);
  }

  /** The catalogue's keys and IDs are distinct. */
  lemma {:induction false} CatalogueDistinct(i: nat, j: nat)
    requires i < 7 && j < 7
    ensures Catalogue()[i].1 == Catalogue()[j].1 ==> i == j
    ensures Catalogue()[i].0 == Catalogue()[j].0 ==> i == j
    ensures Catalogue()[i].0 < FIRST_USER
  {
    Fingerprint(i);
    Fingerprint(j);
  }

  function Prints(): (all: seq<(byte, byte, byte)>)
    ensures |all| == 7
  {
    [(112, 109, 115), (97, 99, 0), (114, 115, 0), (114, 114, 100), (114, 73, 110), (109, 114, 105), (109, 108, 87)]
  }

  /** Three bytes tell the reserved keys apart. */
  lemma {:induction false} Fingerprint(i: nat)
    requires i < 7
    ensures var k := Catalogue()[i].1; (k[1], k[5], k[6]) == Prints()[i]
    ensures Catalogue()[i].0 == [0, 1, 2, 3, 4, 32, 33][i]
  {
  }

  lemma {:induction false} SearchFinds(i: nat, j: nat)
    requires j <= i < 7
    ensures Search(Catalogue()[i].1, j) == Some(Catalogue()[i].0)
    decreases i - j
  {
    CatalogueDistinct(i, j);
    if j < i {
      SearchFinds(i, j + 1);
    }
  }

  lemma {:induction false} SearchFound(key: RecordKey, j: nat) returns (i: nat)
    requires j <= 7 && Search(key, j).Some?
    ensures i < 7 && Catalogue()[i] == (Search(key, j).value, key)
    decreases 7 - j
  {
    if Catalogue()[j].1 == key {
      i := j;
    } else {
      i := SearchFound(key, j + 1);
    }
  }
}
