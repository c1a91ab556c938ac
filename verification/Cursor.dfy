/** Bidirectional cursors over a byte-ordered table. */
module Cursor {
  import opened Wrappers
  import opened Lex

  type Rows = map<Bytes, Bytes>
  type Entry = (Bytes, Bytes)

  datatype Position = Start(key: Bytes) | At(key: Bytes) | Before | After

  /** `a` comes before `b` in the direction of travel. */
  predicate Ahead(forward: bool, a: Bytes, b: Bytes) {
    if forward then Less(a, b) else Less(b, a)
  }

  /** A move in this direction from `pos` may reach `k`. */
  predicate InReach(pos: Position, forward: bool, k: Bytes) {
    match pos
    case Start(key) => k == key || Ahead(forward, key, k)
    case At(key) => Ahead(forward, key, k)
    case Before => forward
    case After => !forward
  }

  function Reach(keys: set<Bytes>, pos: Position, forward: bool): set<Bytes> {
    set k | k in keys && InReach(pos, forward, k)
  }

  /** `k` is the first of `keys` in the direction of travel. */
  ghost predicate IsFirst(keys: set<Bytes>, forward: bool, k: Bytes) {
    k in keys && forall x :: x in keys ==> x == k || Ahead(forward, k, x)
  }

  /** The boundary a cursor rests at once exhausted. */
  function Beyond(forward: bool): Position {
    if forward then After else Before
  }

  /** The cursor contract: the nearest row in reach, or the boundary when there is none. */
  ghost predicate Moves(rows: Rows, pos: Position, forward: bool, r: Option<Entry>, pos': Position) {
    var keys := Reach(rows.Keys, pos, forward);
    match r
    case None => keys == {} && pos' == Beyond(forward)
    case Some((key, value)) => IsFirst(keys, forward, key) && rows[key] == value && pos' == At(key)
  }

  lemma AheadOrder(forward: bool, a: Bytes, b: Bytes, c: Bytes)
    ensures !Ahead(forward, a, a)
    ensures a == b || Ahead(forward, a, b) || Ahead(forward, b, a)
    ensures !(Ahead(forward, a, b) && Ahead(forward, b, a))
    ensures Ahead(forward, a, b) && Ahead(forward, b, c) ==> Ahead(forward, a, c)
  {
    Irreflexive(a);
    Trichotomy(a, b);
    if Less(a, b) && Less(b, c) {
      Transitive(a, b, c);
    }
    if Less(c, b) && Less(b, a) {
      Transitive(c, b, a);
    }
  }

  /** The contract leaves no choice. */
  lemma MovesOnce(rows: Rows, pos: Position, forward: bool, r1: Option<Entry>, p1: Position, r2: Option<Entry>,
                  p2: Position)
    requires Moves(rows, pos, forward, r1, p1) && Moves(rows, pos, forward, r2, p2)
    ensures r1 == r2 && p1 == p2
  {
    if r1.Some? && r2.Some? {
      AheadOrder(forward, r1.value.0, r2.value.0, r1.value.0);
    }
  }

  /** What lies beyond a key in reach is in reach. */
  lemma ReachOn(pos: Position, forward: bool, key: Bytes, k: Bytes)
    requires InReach(pos, forward, key) && Ahead(forward, key, k)
    ensures InReach(pos, forward, k)
  {
    if pos.Start? || pos.At? {
      AheadOrder(forward, pos.key, key, k);
    }
  }

  /** Moving to the first key leaves the rest in reach. */
  lemma ReachAfter(keys: set<Bytes>, pos: Position, forward: bool, key: Bytes)
    requires IsFirst(Reach(keys, pos, forward), forward, key)
    ensures Reach(keys, At(key), forward) == Reach(keys, pos, forward) - {key}
  {
    AheadOrder(forward, key, key, key);
    forall k | k in keys
      ensures k in Reach(keys, At(key), forward) <==> k in Reach(keys, pos, forward) && k != key
    {
      if Ahead(forward, key, k) {
        ReachOn(pos, forward, key, k);
      }
    }
  }

  /** The first key of a range. */
  method FirstIn(keys: set<Bytes>, forward: bool) returns (k: Option<Bytes>)
    ensures k.None? <==> keys == {}
    ensures k.Some? ==> IsFirst(keys, forward, k.value)
  {
    k := None;
    var rest := keys;
    while rest != {}
      invariant rest <= keys
      invariant k.None? ==> rest == keys
      invariant k.Some? ==> IsFirst(keys - rest, forward, k.value)
      decreases rest
    {
      var x :| x in rest;
      if k.Some? {
        forall y | y in keys - rest
          ensures Ahead(forward, x, k.value) ==> Ahead(forward, x, y)
        {
          AheadOrder(forward, x, k.value, y);
        }
        AheadOrder(forward, k.value, x, x);
      }
      if k.None? || Ahead(forward, x, k.value) {
        k := Some(x);
      }
      rest := rest - {x};
      assert keys - rest == keys - (rest + {x}) + {x};
    }
    assert keys - rest == keys;
  }

  /** The in-memory cursor. A table never written has no rows and no position to keep. */
  class MemoryCursor {
    const rows: Option<Rows>
    var position: Position

    ghost function Contents(): Rows {
      if rows.Some? then rows.value else map[]
    }

    constructor (rows: Option<Rows>, key: Bytes)
      ensures this.rows == rows && position == Start(key)
    {
      this.rows := rows;
      position := Start(key);
    }

    method Move(forward: bool) returns (r: Option<Entry>)
      modifies this
      ensures if rows.Some? then Moves(Contents(), old(position), forward, r, position)
              else r == None && position == old(position)
    {
      if rows.None? {
        return None;
      }
      var key := FirstIn(Reach(rows.value.Keys, position, forward), forward);
      if key.Some? {
        position := At(key.value);
        r := Some((key.value, rows.value[key.value]));
      } else {
        position := Beyond(forward);
        r := None;
      }
    }
  }
}
