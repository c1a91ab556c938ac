/** The branch prefix scan: origin rows merged with staged cells. */
module CellScan {
  import opened Wrappers
  import opened Lex
  import opened Cursor
  import opened Scan
  import opened CellKeys
  import opened Terms
  import opened Overlay

  type Parser = Bytes -> Option<CellValue>

  /** Staged cells by encoded key. */
  type Shadow = map<Bytes, Option<CellValue>>

  /** The encoded keys a scan shows: origin rows that nothing shadows, and staged values. */
  ghost function Visible(rows: Rows, staged: Shadow): set<Bytes> {
    (set b | b in rows && b !in staged) + (set b | b in staged && staged[b].Some?)
  }

  /** The cell under an encoded key: staged, or parsed from the origin's row. */
  ghost function CellAt(parse: Parser, rows: Rows, staged: Shadow, b: Bytes): Option<CellValue> {
    if b in staged then staged[b] else if b in rows then parse(rows[b]) else None
  }

  /** An origin row that a scan has to show and cannot parse. */
  ghost predicate Unparsed(parse: Parser, rows: Rows, staged: Shadow, b: Bytes) {
    b in rows && b !in staged && parse(rows[b]).None?
  }

  /** Why a scan may end early: storage, or an origin row among these that is no cell. */
  ghost predicate Excused(parse: Parser, rows: Rows, staged: Shadow, all: set<Bytes>, e: ScanError) {
    || (FAULTS && e == ScanError.Fault)
    || (e == ShortKey && exists b :: b in all && b in rows && |b| < 8)
    || (e == BadCell && exists b :: b in all && Unparsed(parse, rows, staged, b))
  }

  ghost function Encoded(entries: Entries): Shadow {
    map b | b in (set k | k in entries :: Encode(k)) && Decoded(b) in entries :: entries[Decoded(b)]
  }

  /** The key an encoding stands for. */
  ghost function Decoded(b: Bytes): CellKey {
    if |b| >= 8 then CellKeys.Decode(b).value else CellKey(0, [])
  }

  lemma {:induction false} EncodedAt(entries: Entries, k: CellKey)
    ensures Encode(k) in Encoded(entries) <==> k in entries
    ensures k in entries ==> Encoded(entries)[Encode(k)] == entries[k]
  {
    CellKeys.DecodeEncode(k);
    if Encode(k) in Encoded(entries) {
      var k' :| k' in entries && Encode(k') == Encode(k);
      CellKeys.DecodeEncode(k');
    }
  }

  class CellScan {
    const origin: Scan
    const entries: Entries
    const parse: Parser
    /** The origin row looked at but not taken. */
    var peeked: Option<Entry>
    /** Staged keys still to come. */
    var staged: set<CellKey>
    var done: bool

    ghost function Table(): Rows {
      origin.cursor.Contents()
    }

    ghost predicate Shows(b: Bytes, value: CellValue) {
      CellAt(parse, Table(), Encoded(entries), b) == Some(value)
    }

    /** Why a scan with these keys to come may end early. */
    ghost predicate Excuses(all: set<Bytes>, e: ScanError) {
      Excused(parse, Table(), Encoded(entries), all, e)
    }

    /** Origin keys still to come, including the one looked at. */
    ghost function OriginLeft(): set<Bytes>
      reads this, origin
    {
      origin.left + if peeked.Some? then {peeked.value.0} else {}
    }

    /** Staged values still to come; tombstones are none. */
    ghost function StagedValues(): set<Bytes>
      reads this
    {
      set k | k in staged && k in entries && entries[k].Some? :: Encode(k)
    }

    /** Merged keys still to come. */
    ghost function Left(): set<Bytes>
      reads this, origin
    {
      (set b | b in OriginLeft() && b !in Encoded(entries)) +
      StagedValues()
    }

    ghost predicate Valid()
      reads this, origin, origin.cursor
    {
      && origin.Valid()
      && staged <= entries.Keys
      && (peeked.Some? ==> peeked.value.0 in Table() && Table()[peeked.value.0] == peeked.value.1)
      && (peeked.Some? ==> peeked.value.0 !in origin.left && IsFirst(OriginLeft(), true, peeked.value.0))
      && (forall k :: k in entries && Encode(k) in OriginLeft() ==> k in staged)
      && OriginLeft() <= Table().Keys
    }

    /** The cells whose encoded key starts with `prefix`. */
    constructor (rows: Option<Rows>, entries: Entries, parse: Parser, prefix: Bytes)
      ensures Valid() && fresh(origin) && fresh(origin.cursor) && !done && this.entries == entries
      ensures this.parse == parse
      ensures Table() == if rows.Some? then rows.value else map[]
      ensures Left() == set b | b in Visible(Table(), Encoded(entries)) && prefix <= b
    {
      this.entries, this.parse := entries, parse;
      var scan := new Scan.Prefix(rows, prefix);
      origin := scan;
      var first, end := PrefixRange(prefix);
      staged := set k | k in entries && InRange(k, first, end);
      peeked, done := None, false;
      new;
      forall b
        ensures b in Left() <==> b in Visible(Table(), Encoded(entries)) && prefix <= b
      {
        if b in Encoded(entries) {
          var k :| k in entries && Encode(k) == b;
          EncodedAt(entries, k);
        }
        if k :| k in staged && k in entries && entries[k].Some? && Encode(k) == b {
          EncodedAt(entries, k);
        }
      }
    }

    /** Look at the next origin row without taking it. */
    method Peek() returns (fault: bool)
      requires Valid()
      modifies this`peeked, origin, origin.cursor
      ensures fault ==> FAULTS
      ensures !fault ==> Valid() && OriginLeft() == old(OriginLeft()) && (peeked.None? ==> OriginLeft() == {})
    {
      fault := false;
      if peeked.None? {
        var row := origin.Next();
        if row.Some? && row.value.Err? {
          return true;
        }
        peeked := if row.Some? then Some(row.value.value) else None;
      }
    }

    /** The least staged key. */
    method FirstStaged() returns (k: Option<CellKey>)
      ensures k.None? <==> staged == {}
      ensures k.Some? ==> k.value in staged
      ensures k.Some? ==> forall x :: x in staged ==> x == k.value || Less(Encode(k.value), Encode(x))
    {
      var keys := set x | x in staged :: Encode(x);
      var b := FirstIn(keys, true);
      if b.None? {
        assert forall x :: x in staged ==> Encode(x) in keys;
        return None;
      }
      var x :| x in staged && Encode(x) == b.value;
      k := Some(x);
      forall y | y in staged
        ensures y == x || Less(Encode(x), Encode(y))
      {
        assert Encode(y) in keys;
        CellKeys.DecodeEncode(x);
        CellKeys.DecodeEncode(y);
      }
    }

    /** Taking the origin row that comes before every staged key. */
    lemma OriginFirst(k: Option<CellKey>)
      requires Valid() && peeked.Some?
      requires if k.None? then staged == {} else k.value in staged && Less(peeked.value.0, Encode(k.value))
      requires k.Some? ==> forall x :: x in staged ==> x == k.value || Less(Encode(k.value), Encode(x))
      ensures IsFirst(Left(), true, peeked.value.0)
      ensures peeked.value.0 !in Encoded(entries)
      ensures peeked.value.0 !in StagedValues()
    {
      var b := peeked.value.0;
      forall x | x in staged
        ensures Less(b, Encode(x))
      {
        if x != k.value {
          Transitive(b, Encode(k.value), Encode(x));
        }
      }
      Irreflexive(b);
    }

    /** A staged key at or before the origin row is the least merged key, if it has a value. */
    lemma StagedFirst(k: CellKey)
      requires Valid() && k in staged && (peeked.None? ==> OriginLeft() == {})
      requires peeked.Some? ==> !Less(peeked.value.0, Encode(k))
      requires forall x :: x in staged ==> x == k || Less(Encode(k), Encode(x))
      ensures entries[k].Some? ==> IsFirst(Left(), true, Encode(k))
      ensures entries[k].Some? ==> Shows(Encode(k), entries[k].value)
      ensures forall b :: b in OriginLeft() ==> b == Encode(k) || Less(Encode(k), b)
    {
      var e := Encode(k);
      EncodedAt(entries, k);
      if peeked.Some? {
        Trichotomy(peeked.value.0, e);
        forall b | b in OriginLeft()
          ensures b == e || Less(e, b)
        {
          if b != peeked.value.0 && e != peeked.value.0 {
            Transitive(e, peeked.value.0, b);
          }
        }
      }
      if entries[k].Some? {
        assert e in StagedValues();
      }
    }

    /** The next merged cell in encoded key order. */
    method Advance() returns (r: Result<Option<(CellKey, CellValue)>, ScanError>)
      requires Valid()
      modifies this`peeked, this`staged, origin, origin.cursor
      ensures match r
              case Err(e) => Excuses(old(Left()), e)
              case Ok(None) => Valid() && old(Left()) == {} && Left() == {}
              case Ok(Some((key, value))) =>
                && Valid() && IsFirst(old(Left()), true, Encode(key)) && Left() == old(Left()) - {Encode(key)}
                && Shows(Encode(key), value)
    {
      while true
        invariant Valid() && Left() == old(Left())
        decreases staged
      {
        var fault := Peek();
        if fault {
          return Err(ScanError.Fault);
        }
        var k := FirstStaged();
        if peeked.None? && k.None? {
          return Ok(None);
        }
        if peeked.Some? && (k.None? || Less(peeked.value.0, Encode(k.value))) {
          OriginFirst(k);
          r := TakeOrigin();
          return;
        }
        StagedFirst(k.value);
        TakeStaged(k.value);
        if entries[k.value].Some? {
          return Ok(Some((k.value, entries[k.value].value)));
        }
      }
    }

    /** Take the origin row looked at; its key must decode and its value parse. */
    method TakeOrigin() returns (r: Result<Option<(CellKey, CellValue)>, ScanError>)
      requires Valid() && peeked.Some?
      requires IsFirst(Left(), true, peeked.value.0) && peeked.value.0 !in Encoded(entries)
      requires peeked.value.0 !in StagedValues()
      modifies this`peeked
      ensures match r
              case Err(e) => Excuses(old(Left()), e)
              case Ok(None) => false
              case Ok(Some((key, value))) =>
                && Valid() && IsFirst(old(Left()), true, Encode(key)) && Left() == old(Left()) - {Encode(key)}
                && Shows(Encode(key), value)
    {
      var (b, row) := peeked.value;
      peeked := None;
      var key := CellKeys.Decode(b);
      if key.None? {
        assert b in old(Left()) && b in Table() && |b| < 8;
        return Err(ShortKey);
      }
      var value := parse(row);
      if value.None? {
        assert b in old(Left()) && Unparsed(parse, Table(), Encoded(entries), b);
        return Err(BadCell);
      }
      CellKeys.EncodeDecode(b);
      assert Left() == old(Left()) - {b};
      r := Ok(Some((key.value, value.value)));
    }

    /** Take a staged key, with the origin row it shadows. */
    method TakeStaged(k: CellKey)
      requires Valid() && k in staged
      requires peeked.Some? ==> !Less(peeked.value.0, Encode(k))
      requires peeked.None? ==> OriginLeft() == {}
      requires forall x :: x in staged ==> x == k || Less(Encode(k), Encode(x))
      requires forall b :: b in OriginLeft() ==> b == Encode(k) || Less(Encode(k), b)
      modifies this`peeked, this`staged
      ensures Valid() && staged == old(staged) - {k}
      ensures Left() == if entries[k].Some? then old(Left()) - {Encode(k)} else old(Left())
    {
      EncodedAt(entries, k);
      Irreflexive(Encode(k));
      if peeked.Some? && peeked.value.0 == Encode(k) {
        peeked := None;
      }
      staged := staged - {k};
      assert OriginLeft() == old(OriginLeft()) - {Encode(k)};
      assert StagedValues() == old(StagedValues()) - {Encode(k)};
    }

    method Next() returns (r: Option<Result<(CellKey, CellValue), ScanError>>)
      requires !done ==> Valid()
      modifies this, origin, origin.cursor
      ensures !done ==> Valid()
      ensures old(done) ==> r == None && done
      ensures !old(done) ==>
                match r
                case None => old(Left()) == {} && done
                case Some(Err(e)) => done && Excuses(old(Left()), e)
                case Some(Ok((key, value))) =>
                  && !done && IsFirst(old(Left()), true, Encode(key)) && Left() == old(Left()) - {Encode(key)}
                  && Shows(Encode(key), value)
    {
      if done {
        return None;
      }
      var row := Advance();
      match row
      case Ok(None) =>
        done := true;
        r := None;
      case Ok(Some(cell)) =>
        r := Some(Ok(cell));
      case Err(e) =>
        done := true;
        r := Some(Err(e));
    }

    /** Every cell to the end, or to the first error. */
    method Collect() returns (cells: seq<(CellKey, CellValue)>, error: Option<ScanError>)
      requires Valid() && !done
      modifies this, origin, origin.cursor
      ensures exists left :: Listed(this, cells, old(Left()), left) && (error.None? ==> left == {})
      ensures error.Some? ==> Excuses(old(Left()), error.value)
    {
      cells, error := [], None;
      while true
        invariant Valid() && !done && Left() <= old(Left())
        invariant Listed(this, cells, old(Left()), Left())
        decreases |Left()|
      {
        ghost var left := Left();
        var row := Next();
        if row.None? {
          return;
        }
        if row.value.Err? {
          error := Some(row.value.error);
          return;
        }
        ListMore(this, cells, old(Left()), left, row.value.value);
        cells := cells + [row.value.value];
      }
    }
  }

  /** Cells listed so far: merged, ascending, complete up to here, and before everything to come. */
  ghost predicate Listed(scan: CellScan, cells: seq<(CellKey, CellValue)>, all: set<Bytes>, left: set<Bytes>) {
    && (forall i, j :: 0 <= i < j < |cells| ==> KeyLess(cells[i].0, cells[j].0))
    && (forall c :: c in cells ==> Encode(c.0) in all && scan.Shows(Encode(c.0), c.1))
    && (forall i, b :: 0 <= i < |cells| && b in left ==> Less(Encode(cells[i].0), b))
    && (forall b :: b in all && b !in left ==> exists c :: c in cells && Encode(c.0) == b)
  }

  lemma {:induction false} ListMore(scan: CellScan, cells: seq<(CellKey, CellValue)>, all: set<Bytes>,
                                    left: set<Bytes>, cell: (CellKey, CellValue))
    requires Listed(scan, cells, all, left) && left <= all
    requires IsFirst(left, true, Encode(cell.0)) && scan.Shows(Encode(cell.0), cell.1)
    ensures Listed(scan, cells + [cell], all, left - {Encode(cell.0)})
  {
    forall i | 0 <= i < |cells|
      ensures KeyLess(cells[i].0, cell.0)
    {
      KeyOrder(cells[i].0, cell.0);
    }
    forall b | b in all && b !in left - {Encode(cell.0)}
      ensures exists c :: c in cells + [cell] && Encode(c.0) == b
    {
      if b == Encode(cell.0) {
        assert cell in cells + [cell];
      } else {
        var c :| c in cells && Encode(c.0) == b;
        assert c in cells + [cell];
      }
    }
  }

  /** What a scan under a prefix lists: exactly the cells there, ascending, once each, with tombstones
      hidden; or, after an error, some of them. */
  ghost predicate Lists(cells: seq<(CellKey, CellValue)>, parse: Parser, rows: Rows, staged: Shadow, prefix: Bytes,
                        whole: bool)
  {
    && (forall i, j :: 0 <= i < j < |cells| ==> KeyLess(cells[i].0, cells[j].0))
    && (forall c :: c in cells ==> prefix <= Encode(c.0) && CellAt(parse, rows, staged, Encode(c.0)) == Some(c.1))
    && (whole ==> forall b :: b in Visible(rows, staged) && prefix <= b ==> exists c :: c in cells && Encode(c.0) == b)
  }

  method ScanAll(rows: Option<Rows>, entries: Entries, parse: Parser, prefix: Bytes)
    returns (cells: seq<(CellKey, CellValue)>, error: Option<ScanError>)
    ensures Lists(cells, parse, if rows.Some? then rows.value else map[], Encoded(entries), prefix, error.None?)
    ensures error.Some? ==> Excused(parse, if rows.Some? then rows.value else map[], Encoded(entries),
                                    Visible(if rows.Some? then rows.value else map[], Encoded(entries)), error.value)
  {
    var scan := new CellScan(rows, entries, parse, prefix);
    ghost var all := scan.Left();
    cells, error := scan.Collect();
    ghost var left :| Listed(scan, cells, all, left) && (error.None? ==> left == {});
    ListedIsLists(scan, cells, all, left, prefix, error.None?);
    if error.Some? {
      ExcusedMore(parse, scan.Table(), Encoded(entries), all, Visible(scan.Table(), Encoded(entries)), error.value);
    }
  }

  lemma {:induction false} ListedIsLists(scan: CellScan, cells: seq<(CellKey, CellValue)>, all: set<Bytes>,
                                         left: set<Bytes>, prefix: Bytes, whole: bool)
    requires Listed(scan, cells, all, left) && (whole ==> left == {})
    requires all == set b | b in Visible(scan.Table(), Encoded(scan.entries)) && prefix <= b
    ensures Lists(cells, scan.parse, scan.Table(), Encoded(scan.entries), prefix, whole)
  {
    if whole {
      forall b | b in Visible(scan.Table(), Encoded(scan.entries)) && prefix <= b
        ensures exists c :: c in cells && Encode(c.0) == b
      {
        assert b in all;
      }
    }
  }

  lemma {:induction false} ExcusedMore(parse: Parser, rows: Rows, staged: Shadow, some: set<Bytes>, all: set<Bytes>,
                                       e: ScanError)
    requires Excused(parse, rows, staged, some, e) && some <= all
    ensures Excused(parse, rows, staged, all, e)
  {
  }
}
