/** Reads and writes staged over a committed snapshot, and the cursor that merges the two. */
module Buffered {
  import opened Wrappers
  import opened Lex
  import opened Cursor

  datatype StorageError = Fault

  /** Staged rows of one table; `None` is a tombstone. */
  type Writes = map<Bytes, Option<Bytes>>

  /** The table as the staged writes leave it. */
  function Merged(origin: Rows, writes: Writes): Rows {
    map k | k in origin.Keys + writes.Keys && (if k in writes then writes[k].Some? else k in origin) ::
      if k in writes then writes[k].value else origin[k]
  }

  /** Replaying staged rows one by one, in any order of their keys. */
  function Replay(origin: Rows, writes: Writes, keys: seq<Bytes>): Rows
    requires forall i :: 0 <= i < |keys| ==> keys[i] in writes
  {
    if keys == [] then origin
    else
      var before, k := Replay(origin, writes, keys[..|keys| - 1]), keys[|keys| - 1];
      if writes[k].Some? then before[k := writes[k].value] else before - {k}
  }

  /** Replay onto the origin gives the merged table. */
  lemma {:induction false} ReplayMerges(origin: Rows, writes: Writes, keys: seq<Bytes>, k: Bytes)
    requires forall i :: 0 <= i < |keys| ==> keys[i] in writes
    ensures Get(Replay(origin, writes, keys), k) == if k in keys then writes[k] else Get(origin, k)
    decreases |keys|
  {
    if keys != [] {
      ReplayMerges(origin, writes, keys[..|keys| - 1], k);
    }
  }

  lemma {:induction false} ReplayAll(origin: Rows, writes: Writes, keys: seq<Bytes>)
    requires forall k :: k in keys <==> k in writes
    ensures Replay(origin, writes, keys) == Merged(origin, writes)
  {
    var replayed, merged := Replay(origin, writes, keys), Merged(origin, writes);
    forall k
      ensures Get(replayed, k) == Get(merged, k)
    {
      ReplayMerges(origin, writes, keys, k);
    }
    assert forall k :: k in replayed <==> Get(replayed, k).Some?;
    assert forall k :: k in merged <==> Get(merged, k).Some?;
    assert replayed.Keys == merged.Keys;
  }

  /** One table of a seal buffer. */
  class Table {
    const origin: Rows
    var writes: Writes

    ghost function Contents(): Rows
      reads this
    {
      Merged(origin, writes)
    }

    constructor (origin: Rows)
      ensures this.origin == origin && writes == map[] && Contents() == origin
    {
      this.origin := origin;
      writes := map[];
    }

    method Get(key: Bytes) returns (value: Option<Bytes>)
      ensures value == Wrappers.Get(Contents(), key)
    {
      value := if key in writes then writes[key] else Wrappers.Get(origin, key);
    }

    method Put(key: Bytes, value: Bytes)
      modifies this
      ensures Contents() == old(Contents())[key := value]
      ensures writes == old(writes)[key := Some(value)]
    {
      writes := writes[key := Some(value)];
    }

    /** Insert only: an existing row is reported and kept. */
    method Insert(key: Bytes, value: Bytes) returns (inserted: bool)
      modifies this
      ensures inserted == (key !in old(Contents()))
      ensures Contents() == if inserted then old(Contents())[key := value] else old(Contents())
    {
      var held := Get(key);
      inserted := held.None?;
      if inserted {
        Put(key, value);
      }
    }

    /** A tombstone is staged only where a row is visible. */
    method Delete(key: Bytes) returns (existed: bool)
      modifies this
      ensures existed == (key in old(Contents()))
      ensures Contents() == old(Contents()) - {key}
      ensures !existed ==> writes == old(writes)
    {
      var held := Get(key);
      existed := held.Some?;
      if existed {
        writes := writes[key := None];
      }
    }
  }

  /** The merging cursor. Either table side may never have been written. */
  class BufferedCursor {
    const origin: Option<Rows>
    const rows: Option<Writes>
    var cursor: MemoryCursor
    var position: Position

    ghost function Origin(): Rows {
      if origin.Some? then origin.value else map[]
    }

    ghost function Staged(): Writes {
      if rows.Some? then rows.value else map[]
    }

    ghost function Contents(): Rows {
      Merged(Origin(), Staged())
    }

    /** The origin cursor will still meet every unshadowed row this cursor may reach, and nothing
        behind it except the row this cursor stands on. */
    ghost predicate InStep(forward: bool)
      reads this, cursor
    {
      && (forall k :: k in Origin() && k !in Staged() && InReach(position, forward, k) ==>
            InReach(cursor.position, forward, k))
      && (forall k :: k in Origin() && InReach(cursor.position, forward, k) ==>
            InReach(position, forward, k) || position == At(k))
    }

    /** Past either end the origin cursor rests there too, so a reversal needs no seek. */
    ghost predicate Valid()
      reads this, cursor
    {
      && cursor.rows == origin
      && (position.Before? ==> InStep(true))
      && (position.After? ==> InStep(false))
    }

    constructor (origin: Option<Rows>, rows: Option<Writes>, key: Bytes)
      ensures Valid() && this.origin == origin && this.rows == rows && position == Start(key) && fresh(cursor)
    {
      this.origin, this.rows := origin, rows;
      cursor := new MemoryCursor(origin, key);
      position := Start(key);
    }

    /** The nearest staged value in reach. */
    method StagedRow(forward: bool) returns (r: Option<Entry>)
      ensures var keys := set k | k in Staged() && Staged()[k].Some? && InReach(position, forward, k);
              match r
              case None => keys == {}
              case Some((key, value)) => IsFirst(keys, forward, key) && Staged()[key] == Some(value)
    {
      if rows.None? {
        return None;
      }
      var keys := set k | k in rows.value && rows.value[k].Some? && InReach(position, forward, k);
      var key := FirstIn(keys, forward);
      r := if key.Some? then Some((key.value, rows.value[key.value].value)) else None;
    }

    /** The nearest origin row in reach that no staged row shadows. A fault leaves the cursor in step. */
    method OriginRow(forward: bool) returns (r: Result<Option<Entry>, StorageError>)
      requires cursor.rows == origin && InStep(forward)
      modifies cursor
      ensures r.Err? ==> InStep(forward)
      ensures r == Ok(None) && origin.Some? ==> cursor.position == Beyond(forward)
      ensures var keys := set k | k in Origin() && k !in Staged() && InReach(position, forward, k);
              match r
              case Err(_) => FAULTS
              case Ok(None) => keys == {}
              case Ok(Some((key, value))) => IsFirst(keys, forward, key) && Origin()[key] == value
    {
      while true
        invariant InStep(forward)
        decreases Reach(Origin().Keys, cursor.position, forward)
      {
        var failed := Fails();
        if failed {
          return Err(Fault);
        }
        ghost var before := cursor.position;
        var row := cursor.Move(forward);
        if row.None? {
          return Ok(None);
        }
        var key := row.value.0;
        Passed(before, key, forward);
        if !(position == At(key) || (rows.Some? && key in rows.value)) {
          return Ok(row);
        }
      }
    }

    /** Having moved to `key`, the cursor has only that row behind it. */
    lemma Passed(before: Position, key: Bytes, forward: bool)
      requires IsFirst(Reach(Origin().Keys, before, forward), forward, key)
      ensures Reach(Origin().Keys, At(key), forward) < Reach(Origin().Keys, before, forward)
      ensures forall k :: k in Origin() && InReach(before, forward, k) ==> k == key || InReach(At(key), forward, k)
      ensures forall k :: k in Origin() && InReach(At(key), forward, k) ==> InReach(before, forward, k)
    {
      forall k | k in Origin() && InReach(At(key), forward, k)
        ensures InReach(before, forward, k)
      {
        ReachOn(before, forward, key, k);
      }
      AheadOrder(forward, key, key, key);
    }

    /** One move over the merged rows. */
    method Step(forward: bool) returns (r: Result<Option<Entry>, StorageError>)
      requires Valid()
      modifies this, cursor
      ensures Valid() && (cursor == old(cursor) || fresh(cursor))
      ensures r.Ok? ==> Moves(Contents(), old(position), forward, r.value, position)
      ensures r.Err? ==> FAULTS && position == old(position)
    {
      if position == Beyond(forward) {
        return Ok(None);
      }
      if position.Start? || position.At? {
        cursor := new MemoryCursor(origin, position.key);
      }
      var staged := StagedRow(forward);
      var found := OriginRow(forward);
      if found.Err? {
        return Err(found.error);
      }
      var row := Nearer(found.value, staged, forward);
      MergedFirst(found.value, staged, row, forward);
      position := if row.Some? then At(row.value.0) else Beyond(forward);
      r := Ok(row);
    }

    /** The nearer of an origin row and a staged row. */
    static function Nearer(a: Option<Entry>, b: Option<Entry>, forward: bool): Option<Entry> {
      if a.Some? && b.Some? then (if Less(a.value.0, b.value.0) == forward then a else b)
      else if a.Some? then a else b
    }

    /** The nearer row is the first row of the merged table in reach. */
    lemma MergedFirst(a: Option<Entry>, b: Option<Entry>, row: Option<Entry>, forward: bool)
      requires row == Nearer(a, b, forward)
      requires var keys := set k | k in Origin() && k !in Staged() && InReach(position, forward, k);
               match a
               case None => keys == {}
               case Some((key, value)) => IsFirst(keys, forward, key) && Origin()[key] == value
      requires var keys := set k | k in Staged() && Staged()[k].Some? && InReach(position, forward, k);
               match b
               case None => keys == {}
               case Some((key, value)) => IsFirst(keys, forward, key) && Staged()[key] == Some(value)
      ensures Moves(Contents(), position, forward, row, if row.Some? then At(row.value.0) else Beyond(forward))
    {
      var unshadowed := set k | k in Origin() && k !in Staged() && InReach(position, forward, k);
      var staged := set k | k in Staged() && Staged()[k].Some? && InReach(position, forward, k);
      assert Reach(Contents().Keys, position, forward) == unshadowed + staged;
      if a.Some? && b.Some? {
        AheadOrder(forward, a.value.0, b.value.0, a.value.0);
        forall x | x in unshadowed + staged
          ensures x == row.value.0 || Ahead(forward, row.value.0, x)
        {
          AheadOrder(forward, a.value.0, b.value.0, x);
          AheadOrder(forward, b.value.0, a.value.0, x);
        }
      }
    }
  }

  /** Any sequence of moves from any start key: the merging cursor answers as a plain cursor over
      the merged table. */
  method MovesAgree(origin: Option<Rows>, writes: Option<Writes>, key: Bytes, moves: seq<bool>)
    returns (buffered: seq<Option<Entry>>, plain: seq<Option<Entry>>, faulted: bool)
    ensures !faulted ==> buffered == plain && |plain| == |moves|
  {
    var cursor := new BufferedCursor(origin, writes, key);
    var merged := Merged(if origin.Some? then origin.value else map[], if writes.Some? then writes.value else map[]);
    var reference := new MemoryCursor(Some(merged), key);
    buffered, plain, faulted := [], [], false;
    for i := 0 to |moves|
      invariant cursor.Valid() && fresh(cursor) && fresh(cursor.cursor) && fresh(reference)
      invariant reference != cursor.cursor
      invariant cursor.Contents() == merged && reference.rows == Some(merged)
      invariant cursor.position == reference.position
      invariant buffered == plain && |plain| == i
    {
      ghost var at := cursor.position;
      var b := cursor.Step(moves[i]);
      if b.Err? {
        faulted := true;
        return;
      }
      ghost var at' := cursor.position;
      var p := reference.Move(moves[i]);
      MovesOnce(merged, at, moves[i], b.value, at', p, reference.position);
      buffered, plain := buffered + [b.value], plain + [p];
    }
  }
}
