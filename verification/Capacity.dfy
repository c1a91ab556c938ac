/** Configured limits against a backend's key and value ceilings. */
module Capacity {
  import opened Wrappers
  import opened Lex
  import opened CellKeys
  import opened Order
  import opened Terms
  import opened Postings
  import opened CellValues
  import opened System
  import opened Records
  import opened RecordRuns
  import opened Genesis
  import N = NodeCodec

  function Max(a: nat, b: nat): nat {
    if a < b then b else a
  }

  /** The longest key: a complete cell key, an index term, or a record binding. */
  function LongestKey(limits: Limits): nat {
    Max(Max(limits.name + 8, limits.name + 2 + Max(limits.str, 32)), 40)
  }

  const ENGINE_VALUE: nat := 16 * 1024

  /** The longest value: a tagged cell, or what is reserved for the engine's own rows. */
  function LongestValue(limits: Limits): nat {
    Max(1 + Max(limits.bytes, limits.str), ENGINE_VALUE)
  }

  datatype ConfigError = NoNames | KeyTooLong | ValueTooLong

  function Validate(limits: Limits, maxKey: nat, maxValue: nat): Option<ConfigError> {
    if limits.name == 0 then Some(NoNames)
    else if LongestKey(limits) > maxKey then Some(KeyTooLong)
    else if LongestValue(limits) > maxValue then Some(ValueTooLong)
    else None
  }

  lemma {:induction false} FixedWidth(ty: CellType)
    ensures TypeWidth(ty).Some? ==> TypeWidth(ty).value <= 32
  {
  }

  /** A value of an admitted user cell is within the limits. */
  lemma {:induction false} ValueSize(utf8: Bytes -> bool, limits: Limits, v: CellValue)
    requires Terms.Validate(utf8, v.ty, v.stored) && AdmitValue(limits, v)
    ensures |v.stored| <= Max(Max(limits.bytes, limits.str), 32)
    ensures !v.ty.RawBytes? ==> |v.stored| <= Max(limits.str, 32)
  {
    FixedWidth(v.ty);
  }

  /** The rows a cell gives rise to fit: its own key and value, and the term it is indexed under. */
  predicate RowsFit(k: CellKey, v: CellValue, maxKey: nat, maxValue: nat) {
    && |Encode(k)| <= maxKey && |EncodeValue(v)| <= maxValue
    && (TermOf(k, Some(v)).Ok? && TermOf(k, Some(v)).value.Some? ==> |TermOf(k, Some(v)).value.value| <= maxKey)
  }

  /** Every row of a kept state fits: the cell's key and value, and the term it is indexed under. */
  lemma {:induction false} CellFits(c: Codec, utf8: Bytes -> bool, cells: CellMap, limits: Limits, k: CellKey,
                                    maxKey: nat, maxValue: nat)
    requires Fits(c, utf8) && Kept(c.ok, cells, limits) && k in cells && Validate(limits, maxKey, maxValue) == None
    ensures RowsFit(k, cells[k], maxKey, maxValue)
  {
    assert TypedAt(c, utf8, cells[k]);
    if k.id < FIRST_USER || k.name == KeyName() {
      assert Small(k, cells[k]);
      assert TermOf(k, Some(cells[k])) == Ok(None);
    } else {
      assert AdmitPatch(limits, (k.name, Some(cells[k])));
      ValueSize(utf8, limits, cells[k]);
      RowSize(limits, k, cells[k], maxKey, maxValue);
    }
  }

  lemma {:induction false} RowSize(limits: Limits, k: CellKey, v: CellValue, maxKey: nat, maxValue: nat)
    requires Validate(limits, maxKey, maxValue) == None && |k.name| <= limits.name
    requires |v.stored| <= Max(Max(limits.bytes, limits.str), 32)
    requires (!v.ty.RawBytes? ==> |v.stored| <= Max(limits.str, 32))
    ensures RowsFit(k, v, maxKey, maxValue)
  {
  }

  /** A cell a user may write under these limits. */
  ghost predicate Writable(utf8: Bytes -> bool, limits: Limits, k: CellKey, v: CellValue) {
    AdmitPatch(limits, (k.name, Some(v))) && ValueOk(utf8, v)
  }

  /** A refused configuration would have refused its own users' rows: no name could be used, or some key or
      value within the limits, or one the engine itself needs, would not fit. */
  lemma {:induction false} RefusedForCause(utf8: Bytes -> bool, limits: Limits, maxKey: nat, maxValue: nat)
    requires forall n: nat :: utf8(Letters(n))
    ensures Validate(limits, maxKey, maxValue) == Some(NoNames) ==> forall name :: !AdmitName(limits, name)
    ensures Validate(limits, maxKey, maxValue) == Some(KeyTooLong) ==>
              || (forall key: RecordKey :: |Encode(Binding(key))| > maxKey)
              || (exists k, v :: Writable(utf8, limits, k, v) && LongRow(k, v) > maxKey)
    ensures Validate(limits, maxKey, maxValue) == Some(ValueTooLong) ==>
              || ENGINE_VALUE > maxValue
              || (exists k, v :: Writable(utf8, limits, k, v) && |EncodeValue(v)| > maxValue)
  {
    if limits.name > 0 {
      var k := CellKey(FIRST_USER, Letters(limits.name));
      LettersName(limits.name);
      Reaches(utf8, limits, k, CellValue(FixedBytes(W32), true, Padding(32)));
      Reaches(utf8, limits, k, CellValue(Str, true, Letters(limits.str)));
      Reaches(utf8, limits, k, CellValue(RawBytes, false, Padding(limits.bytes)));
      assert Writable(utf8, limits, k, CellValue(RawBytes, false, Padding(limits.bytes)));
      assert Writable(utf8, limits, k, CellValue(Str, true, Letters(limits.str)));
    }
  }

  function Letters(n: nat): (b: Bytes)
    ensures |b| == n
  {
    seq(n, _ => 97)
  }

  lemma {:induction false} LettersName(n: nat)
    requires n > 0
    ensures ValidName(Letters(n))
  {
    forall i | 1 <= i < n
      ensures IsRest(Letters(n)[i])
    {
      assert IsAlpha(Letters(n)[i]);
    }
  }

  /** The longer of a cell's key and its term. */
  ghost function LongRow(k: CellKey, v: CellValue): nat {
    var t := TermOf(k, Some(v));
    Max(|Encode(k)|, if t.Ok? && t.value.Some? then |t.value.value| else 0)
  }

  /** The rows of a cell with the longest name. */
  lemma {:induction false} Reaches(utf8: Bytes -> bool, limits: Limits, k: CellKey, v: CellValue)
    requires ValidName(k.name) && |k.name| == limits.name && Writable(utf8, limits, k, v)
    ensures |EncodeValue(v)| == 1 + |v.stored|
    ensures LongRow(k, v) == if v.indexable then Max(limits.name + 8, limits.name + 2 + |v.stored|) else limits.name + 8
  {
  }

  /** In every run from genesis, whatever a branch holds or a commit publishes fits, with its index term. */
  lemma {:induction false} RunFits(c: Codec, utf8: Bytes -> bool, limits: Limits, head: Head, actions: seq<Action>,
                                   maxKey: nat, maxValue: nat, id: nat, k: CellKey)
    requires Fits(c, utf8) && SystemOk(c.ok) && LimitsFit(limits) && head.commit == 0
    requires Validate(limits, maxKey, maxValue) == None
    requires forall i :: 0 <= i < |actions| ==> ActionOk(c.ok, actions[i])
    ensures var s := RecordRuns.Run(State(head, InitialCells(limits), [], map[], map[]), actions);
            && (k in s.cells ==> RowsFit(k, s.cells[k], maxKey, maxValue))
            && (Live(s, id) && k in s.branches[id].frames.view ==>
                  RowsFit(k, s.branches[id].frames.view[k], maxKey, maxValue))
  {
    var s := RecordRuns.Run(State(head, InitialCells(limits), [], map[], map[]), actions);
    GenesisInv(c.ok, limits, head);
    RunKeeps(c.ok, limits, State(head, InitialCells(limits), [], map[], map[]), actions);
    if k in s.cells {
      CellFits(c, utf8, s.cells, limits, k, maxKey, maxValue);
    }
    if Live(s, id) && k in s.branches[id].frames.view {
      assert WorkOk(c.ok, limits, s, s.branches[id]);
      CellFits(c, utf8, s.branches[id].frames.view, limits, k, maxKey, maxValue);
    }
  }

  lemma {:induction false} Product(a: nat, n: nat)
    requires a <= 16 && n <= 32
    ensures a * n <= 512
  {
    assert 16 * n - a * n == (16 - a) * n;
  }

  lemma {:induction false} BranchSize(n: nat, b: N.Compact)
    requires N.CompactOk(n, b) && n <= 32
    ensures |N.Encode(b)| == 5 + |b.prefix| + |N.Flatten(b.hashes)| + |N.Flatten(b.paths)|
    ensures |b.prefix| <= 32 && |b.hashes| <= 16 && |b.paths| <= 16
  {
  }

  /** A trie branch of any path width fits, and so does the digest it is stored under. */
  lemma {:induction false} BranchFits(n: nat, b: N.Compact, limits: Limits, maxKey: nat, maxValue: nat)
    requires N.CompactOk(n, b) && n <= 32 && Validate(limits, maxKey, maxValue) == None
    ensures |N.Encode(b)| <= 1061 <= maxValue && 32 <= maxKey
  {
    BranchSize(n, b);
    N.FlattenLength(b.hashes, 32);
    N.FlattenLength(b.paths, n);
    Product(|b.paths|, n);
  }
}
