/** Filters, their plans, and what evaluating a plan over the postings gives. */
module Query {
  import opened Wrappers
  import opened Lex
  import opened CellKeys
  import opened Order
  import opened Terms
  import opened TermRange
  import opened Scan
  import opened Postings

  datatype Filter =
    | Eq(field: Bytes, value: CellValue)
    | In(field: Bytes, values: seq<CellValue>)
    | Range(field: Bytes, lower: ValueBound, upper: ValueBound)

  datatype QueryError = InvalidArgument(error: TermError) | InvalidQuery

  datatype Plan = TermRead(term: Bytes) | TermReads(terms: seq<Bytes>) | ScanTerms(range: KeyRange) | NoMatch

  // ---- Admission ----

  function TermsFor(field: Bytes, values: seq<CellValue>): Result<seq<Bytes>, TermError> {
    if values == [] then Ok([])
    else
      var init, last := TermsFor(field, values[..|values| - 1]), FromCellName(field, values[|values| - 1]);
      if init.Err? then init else if last.Err? then Err(last.error) else Ok(init.value + [last.value])
  }

  function PlanOf(filter: Filter): Result<Plan, QueryError> {
    match filter
    case Eq(field, value) =>
      var t := FromCellName(field, value);
      if t.Err? then Err(InvalidArgument(t.error)) else Ok(TermRead(t.value))
    case In(field, values) =>
      if values == [] then (if ValidName(field) then Ok(NoMatch) else Err(InvalidArgument(InvalidName)))
      else if exists i :: 0 <= i < |values| && values[i].ty != values[0].ty then Err(InvalidQuery)
      else
        var ts := TermsFor(field, values);
        if ts.Err? then Err(InvalidArgument(ts.error)) else Ok(TermReads(ts.value))
    case Range(field, lower, upper) =>
      match Between(field, lower, upper)
      case Err(Term(e)) => Err(InvalidArgument(e))
      case Err(_) => Err(InvalidQuery)
      case Ok(None) => Ok(NoMatch)
      case Ok(Some(range)) => Ok(ScanTerms(range))
  }

  /** The leaf's shape: values of one type, and a range with a bound whose bounds have one type. */
  ghost predicate WellShaped(filter: Filter) {
    match filter
    case Eq(_, _) => true
    case In(_, values) => forall i, j :: 0 <= i < |values| && 0 <= j < |values| ==> values[i].ty == values[j].ty
    case Range(_, lower, upper) =>
      && (!lower.Open? || !upper.Open?)
      && (!lower.Open? && !upper.Open? ==> lower.v.ty == upper.v.ty)
  }

  /** Some value of the leaf has a type without an ordered form. */
  ghost predicate Unordered(filter: Filter) {
    match filter
    case Eq(_, value) => value.ty == RawBytes
    case In(_, values) => exists i :: 0 <= i < |values| && values[i].ty == RawBytes
    case Range(_, lower, upper) => (!lower.Open? && lower.v.ty == RawBytes) || (!upper.Open? && upper.v.ty == RawBytes)
  }

  ghost predicate Admissible(filter: Filter) {
    WellShaped(filter) && Spelled(filter.field) && !Unordered(filter)
  }

  /** Why a filter is refused: its shape first, then its name, then its type. */
  ghost function Refusal(filter: Filter): QueryError {
    if !WellShaped(filter) then InvalidQuery
    else if !Spelled(filter.field) then InvalidArgument(InvalidName)
    else InvalidArgument(UnsupportedType)
  }

  /** Exactly the admissible filters have plans, and any other is refused for the first thing wrong. */
  lemma {:induction false} AdmissionExact(filter: Filter)
    ensures PlanOf(filter).Ok? <==> Admissible(filter)
    ensures PlanOf(filter).Err? ==> PlanOf(filter).error == Refusal(filter)
  {
    NameExact(filter.field);
    if filter.In? && filter.values != [] {
      assert WellShaped(filter) ==> forall i :: 0 <= i < |filter.values| ==> filter.values[i].ty == filter.values[0].ty;
      if WellShaped(filter) {
        TermsForExact(filter.field, filter.values);
      }
    }
  }

  lemma {:induction false} TermsForExact(field: Bytes, values: seq<CellValue>)
    requires values != [] && forall i :: 0 <= i < |values| ==> values[i].ty == values[0].ty
    ensures TermsFor(field, values).Ok? <==> Prefix(field, values[0].ty).Ok?
    ensures TermsFor(field, values).Err? ==> Prefix(field, values[0].ty) == Err(TermsFor(field, values).error)
    decreases |values|
  {
    if |values| > 1 {
      TermsForExact(field, values[..|values| - 1]);
    }
  }

  // ---- Evaluation ----

  /** Some term of the list holds the record. */
  ghost predicate InSome(index: FlatIndex, terms: seq<Bytes>, id: RecordId) {
    exists i :: 0 <= i < |terms| && id in PostingsOf(index, terms[i])
  }

  predicate Within(range: KeyRange, t: Bytes) {
    AboveLower(range.0, t) && BelowUpper(range.1, t)
  }

  /** Some held term of the range holds the record. */
  ghost predicate InScan(index: FlatIndex, range: KeyRange, id: RecordId) {
    exists t :: t in index && Within(range, t) && id in PostingsOf(index, t)
  }

  ghost predicate Selected(index: FlatIndex, plan: Plan, id: RecordId) {
    match plan
    case TermRead(t) => id in PostingsOf(index, t)
    case TermReads(ts) => InSome(index, ts, id)
    case ScanTerms(range) => InScan(index, range, id)
    case NoMatch => false
  }

  // ---- Meaning ----

  /** A stored attribute satisfies the leaf: same type, and the value it stands for as asked. */
  predicate Satisfies(filter: Filter, v: CellValue) {
    match filter
    case Eq(_, value) => v.ty == value.ty && SameValue(v.ty, v.stored, value.stored)
    case In(_, values) =>
      exists i :: 0 <= i < |values| && v.ty == values[i].ty && SameValue(v.ty, v.stored, values[i].stored)
    case Range(_, lower, upper) =>
      !(lower.Open? && upper.Open?) && v.ty == TypeOfBounds(lower, upper) && ValueBetween(v.ty, v.stored, lower, upper)
  }

  /** The record has an attribute under the filter's name that satisfies it. */
  ghost predicate Matches(cells: CellMap, filter: Filter, id: RecordId) {
    var k := CellKey(id, filter.field);
    k in cells && cells[k].indexable && Satisfies(filter, cells[k])
  }

  /** The filter's values are valid values of their types. */
  ghost predicate ValidFilter(utf8: Bytes -> bool, filter: Filter) {
    match filter
    case Eq(_, value) => Validate(utf8, value.ty, value.stored)
    case In(_, values) => forall i :: 0 <= i < |values| ==> Validate(utf8, values[i].ty, values[i].stored)
    case Range(_, lower, upper) => ValidBound(utf8, lower) && ValidBound(utf8, upper)
  }

  /** Every attribute has a term. */
  ghost predicate Indexable(cells: CellMap) {
    forall k :: k in cells && cells[k].indexable ==> FromCellName(k.name, cells[k]).Ok?
  }

  /** One term's postings are the records whose attribute has that name, type and value. */
  lemma {:induction false} TermMatches(utf8: Bytes -> bool, cells: CellMap, field: Bytes, v: CellValue, id: RecordId)
    requires ValidCells(utf8, cells) && Validate(utf8, v.ty, v.stored) && FromCellName(field, v).Ok?
    ensures id in Rebuilt(cells, FromCellName(field, v).value) <==> Matches(cells, Eq(field, v), id)
  {
    var term, k := FromCellName(field, v).value, CellKey(id, field);
    if x :| x in cells && TermOf(x, Some(cells[x])) == Ok(Some(term)) && x.id == id {
      TermInjective(utf8, x.name, cells[x].ty, cells[x].stored, field, v.ty, v.stored);
      assert x == k;
      ValueOrder(utf8, v.ty, v.stored, v.stored);
    }
    if Matches(cells, Eq(field, v), id) {
      ValueOrder(utf8, v.ty, cells[k].stored, v.stored);
      assert TermOf(k, Some(cells[k])) == Ok(Some(term));
    }
  }

  lemma {:induction false} TermsForAt(field: Bytes, values: seq<CellValue>, i: nat)
    requires TermsFor(field, values).Ok? && i < |values|
    ensures |TermsFor(field, values).value| == |values|
    ensures FromCellName(field, values[i]) == Ok(TermsFor(field, values).value[i])
    decreases |values|
  {
    if i < |values| - 1 {
      TermsForAt(field, values[..|values| - 1], i);
    } else if i > 0 {
      TermsForAt(field, values[..|values| - 1], i - 1);
    }
  }

  /** A held term in the range belongs to a record whose attribute is in the range. */
  lemma {:induction false} ScanSound(utf8: Bytes -> bool, index: FlatIndex, cells: CellMap, field: Bytes,
                                     lower: ValueBound, upper: ValueBound, id: RecordId)
    requires ValidCells(utf8, cells) && IsIndex(index, cells) && ValidBound(utf8, lower) && ValidBound(utf8, upper)
    requires Between(field, lower, upper).Ok? && Between(field, lower, upper).value.Some?
    requires InScan(index, Between(field, lower, upper).value.value, id)
    ensures Matches(cells, Range(field, lower, upper), id)
  {
    var range := Between(field, lower, upper).value.value;
    var t :| t in index && Within(range, t) && id in PostingsOf(index, t);
    assert id in Rebuilt(cells, t);
    var x :| x in cells && TermOf(x, Some(cells[x])) == Ok(Some(t)) && x.id == id;
    RangeExact(utf8, field, lower, upper, x.name, cells[x].ty, cells[x].stored);
    assert x == CellKey(id, field);
  }

  /** An attribute in the range has its term held in the range. */
  lemma {:induction false} ScanComplete(utf8: Bytes -> bool, index: FlatIndex, cells: CellMap, field: Bytes,
                                        lower: ValueBound, upper: ValueBound, id: RecordId)
    requires ValidCells(utf8, cells) && Indexable(cells) && IsIndex(index, cells)
    requires ValidBound(utf8, lower) && ValidBound(utf8, upper)
    requires Between(field, lower, upper).Ok? && Matches(cells, Range(field, lower, upper), id)
    ensures Between(field, lower, upper).value.Some? && InScan(index, Between(field, lower, upper).value.value, id)
  {
    var k := CellKey(id, field);
    var t := FromCellName(field, cells[k]).value;
    RangeExact(utf8, field, lower, upper, field, cells[k].ty, cells[k].stored);
    assert TermOf(k, Some(cells[k])) == Ok(Some(t));
    assert id in Rebuilt(cells, t);
    assert t in index && Within(Between(field, lower, upper).value.value, t) && id in PostingsOf(index, t);
  }

  /** The plan reads exactly the postings of the matching values. */
  lemma {:induction false} PlanMatches(utf8: Bytes -> bool, index: FlatIndex, cells: CellMap, filter: Filter,
                                       id: RecordId)
    requires ValidCells(utf8, cells) && Indexable(cells) && IsIndex(index, cells) && ValidFilter(utf8, filter)
    requires PlanOf(filter).Ok?
    ensures Matches(cells, filter, id) <==> Selected(index, PlanOf(filter).value, id)
  {
    match filter
    case Eq(field, value) =>
      TermMatches(utf8, cells, field, value, id);
    case Range(field, lower, upper) =>
      if Matches(cells, filter, id) {
        ScanComplete(utf8, index, cells, field, lower, upper, id);
      }
      if Selected(index, PlanOf(filter).value, id) {
        ScanSound(utf8, index, cells, field, lower, upper, id);
      }
    case In(field, values) =>
      if values != [] {
        var ts := TermsFor(field, values).value;
        forall i | 0 <= i < |values|
          ensures |ts| == |values| && (id in PostingsOf(index, ts[i]) <==> Matches(cells, Eq(field, values[i]), id))
        {
          TermsForAt(field, values, i);
          TermMatches(utf8, cells, field, values[i], id);
        }
        assert |ts| == |values| by {
          TermsForAt(field, values, 0);
        }
      }
  }
}
