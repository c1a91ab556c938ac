/** Lazy forward scans of one table: by bounds or by prefix. */
module Scan {
  import opened Wrappers
  import opened Lex
  import opened Cursor

  datatype Bound = Included(key: Bytes) | Excluded(key: Bytes) | Unbounded

  datatype ScanError = InvalidRange | Fault | ShortKey | BadCell

  predicate AboveLower(lower: Bound, k: Bytes) {
    match lower
    case Included(a) => AtMost(a, k)
    case Excluded(a) => Less(a, k)
    case Unbounded => true
  }

  predicate BelowUpper(upper: Bound, k: Bytes) {
    match upper
    case Included(b) => AtMost(k, b)
    case Excluded(b) => Less(k, b)
    case Unbounded => true
  }

  /** Reversed bounds are rejected. */
  predicate Reversed(lower: Bound, upper: Bound) {
    !lower.Unbounded? && !upper.Unbounded? && Less(upper.key, lower.key)
  }

  /** Bounds at one key that shut it out. */
  predicate EmptyRange(lower: Bound, upper: Bound) {
    !lower.Unbounded? && !upper.Unbounded? && lower.key == upper.key && !(lower.Included? && upper.Included?)
  }

  /** Where a scan starts: before the least key above the lower bound. */
  function StartOf(lower: Bound): Bytes {
    if lower.Unbounded? then [] else lower.key
  }

  /** Keys from the start on, but an excluded start, are those above the lower bound. */
  lemma {:induction false} FromStart(lower: Bound, upper: Bound, k: Bytes)
    ensures InReach(Start(StartOf(lower)), true, k) && !(lower.Excluded? && lower.key == k) <==> AboveLower(lower, k)
    ensures EmptyRange(lower, upper) ==> !(AboveLower(lower, k) && BelowUpper(upper, k))
  {
    if lower.Unbounded? {
      assert k == [] || Less([], k);
    } else {
      Irreflexive(k);
      Trichotomy(lower.key, k);
    }
  }

  class Scan {
    const cursor: MemoryCursor
    const upper: Bound
    const prefix: Option<Bytes>
    var excludedStart: Option<Bytes>
    var done: bool
    /** The keys still to come. */
    ghost var left: set<Bytes>

    /** The keys the cursor may still reach. */
    ghost function Reachable(): set<Bytes>
      reads this, cursor
    {
      Reach(cursor.Contents().Keys, cursor.position, true)
    }

    predicate Inside(k: Bytes) {
      BelowUpper(upper, k) && (prefix.Some? ==> prefix.value <= k)
    }

    ghost predicate Valid()
      reads this, cursor
    {
      && (done ==> left == {})
      && (!done ==> left == set k | k in Reachable() && Inside(k) && excludedStart != Some(k))
      && (excludedStart.Some? ==> cursor.position == Start(excludedStart.value))
      && (prefix.Some? ==> forall k :: k in Reachable() ==> AtMost(prefix.value, k))
    }

    /** A scan between bounds that are not reversed. */
    constructor Range(rows: Option<Rows>, lower: Bound, upper: Bound)
      requires !Reversed(lower, upper)
      ensures Valid() && fresh(cursor) && cursor.rows == rows
      ensures left == set k | k in cursor.Contents() && AboveLower(lower, k) && BelowUpper(upper, k)
    {
      cursor := new MemoryCursor(rows, StartOf(lower));
      excludedStart := if lower.Excluded? then Some(lower.key) else None;
      this.upper, prefix := upper, None;
      done := EmptyRange(lower, upper);
      new;
      left := set k | k in cursor.Contents() && AboveLower(lower, k) && BelowUpper(upper, k);
      forall k | k in cursor.Contents()
        ensures done ==> k !in left
        ensures InReach(cursor.position, true, k) && excludedStart != Some(k) <==> AboveLower(lower, k)
      {
        FromStart(lower, upper, k);
      }
    }

    /** Scan between two bounds, unless they are reversed. */
    static method Open(rows: Option<Rows>, lower: Bound, upper: Bound) returns (r: Result<Scan, ScanError>)
      ensures r == Err(InvalidRange) <==> !lower.Unbounded? && !upper.Unbounded? && Less(upper.key, lower.key)
      ensures r.Err? && r.error != InvalidRange ==> FAULTS && r.error == Fault
      ensures r.Ok? ==> !Reversed(lower, upper) && fresh(r.value) && fresh(r.value.cursor) && r.value.Valid()
      ensures r.Ok? ==> r.value.cursor.rows == rows
      ensures r.Ok? ==>
                r.value.left == set k | k in r.value.cursor.Contents() && AboveLower(lower, k) && BelowUpper(upper, k)
    {
      if Reversed(lower, upper) {
        return Err(InvalidRange);
      }
      var failed := Fails();
      if failed {
        return Err(Fault);
      }
      var scan := new Scan.Range(rows, lower, upper);
      r := Ok(scan);
    }

    /** All keys under a prefix, whatever bytes it ends in. */
    constructor Prefix(rows: Option<Rows>, prefix: Bytes)
      ensures Valid() && fresh(cursor) && cursor.rows == rows
      ensures left == set k | k in cursor.Contents() && prefix <= k
    {
      cursor := new MemoryCursor(rows, prefix);
      excludedStart, upper, this.prefix, done := None, Unbounded, Some(prefix), false;
      new;
      left := set k | k in cursor.Contents() && prefix <= k;
      forall k | k in cursor.Contents() && prefix <= k
        ensures InReach(cursor.position, true, k)
      {
        assert k == prefix || FirstDiff(prefix, k) == |prefix|;
      }
    }

    /** The next row, passing over an excluded start. */
    method Advance() returns (r: Option<Entry>)
      requires excludedStart.Some? ==> cursor.position == Start(excludedStart.value)
      modifies this`excludedStart, cursor
      ensures excludedStart == None
      ensures var keys := old(Reachable()) - (if old(excludedStart).Some? then {old(excludedStart).value} else {});
              match r
              case None => keys == {} && Reachable() == {}
              case Some((key, value)) =>
                IsFirst(keys, true, key) && Reachable() == keys - {key} && cursor.Contents()[key] == value
    {
      var start := excludedStart;
      r := Step();
      excludedStart := None;
      if start.Some? && r.Some? && r.value.0 == start.value {
        r := Step();
      } else if start.Some? && start.value in old(Reachable()) {
        AheadOrder(true, start.value, r.value.0, start.value);
      }
    }

    method Step() returns (r: Option<Entry>)
      modifies cursor
      ensures match r
              case None => old(Reachable()) == {} && Reachable() == {}
              case Some((key, value)) =>
                && IsFirst(old(Reachable()), true, key) && Reachable() == old(Reachable()) - {key}
                && cursor.Contents()[key] == value
    {
      ghost var before := cursor.position;
      r := cursor.Move(true);
      if r.Some? {
        ReachAfter(cursor.Contents().Keys, before, true, r.value.0);
      }
    }

    method Next() returns (r: Option<Result<Entry, ScanError>>)
      requires Valid()
      modifies this, cursor
      ensures Valid()
      ensures match r
              case None => old(left) == {} && left == {} && done
              case Some(Err(e)) => FAULTS && e == Fault && left == {} && done
              case Some(Ok((key, value))) =>
                && IsFirst(old(left), true, key) && left == old(left) - {key}
                && key in cursor.Contents() && cursor.Contents()[key] == value
    {
      if done {
        return None;
      }
      var failed := Fails();
      if failed {
        done, left := true, {};
        return Some(Err(Fault));
      }
      ghost var keys := Reachable() - (if excludedStart.Some? then {excludedStart.value} else {});
      assert left <= keys;
      var row := Advance();
      if row.None? {
        done := true;
        return None;
      }
      var key := row.value.0;
      if Inside(key) {
        left := left - {key};
        r := Some(Ok(row.value));
      } else {
        PastEnd(key);
        assert forall k :: k in keys ==> k == key || Ahead(true, key, k);
        assert left == {};
        done := true;
        r := None;
      }
    }

    /** Beyond a row outside the upper bound or the prefix, no row is inside. */
    lemma PastEnd(key: Bytes)
      requires !Inside(key) && (prefix.Some? ==> AtMost(prefix.value, key))
      ensures forall k: Bytes :: Less(key, k) ==> !Inside(k)
    {
      forall k: Bytes | Less(key, k) && Inside(k)
        ensures false
      {
        if BelowUpper(upper, key) {
          PrefixConvex(prefix.value, prefix.value, key, k);
        } else {
          if Less(k, upper.key) {
            Transitive(key, k, upper.key);
          }
        }
      }
    }
  }
}
