/** Key ranges inside one name and type, and how the storage scan meets them. */
module TermRange {
  import opened Wrappers
  import opened Lex
  import opened Order
  import opened Terms
  import opened Scan

  datatype ValueBound = Incl(v: CellValue) | Excl(v: CellValue) | Open

  datatype RangeError = NoBound | TypeMismatch | Term(error: TermError)

  type KeyRange = (Bound, Bound)

  /** The least upper bound that no key under `prefix` reaches. */
  function PastSpec(prefix: Bytes): Bound {
    if prefix == [] then Unbounded
    else
      var init, last := prefix[..|prefix| - 1], prefix[|prefix| - 1];
      if last < 255 then Excluded(init + [last as int + 1]) else PastSpec(init)
  }

  /** From the prefix on, keys below the bound are exactly the keys starting with the prefix. */
  method Past(prefix: Bytes) returns (upper: Bound)
    ensures upper == PastSpec(prefix)
    ensures forall k: Bytes :: AtMost(prefix, k) ==> (BelowUpper(upper, k) <==> prefix <= k)
  {
    forall k: Bytes | AtMost(prefix, k)
      ensures BelowUpper(PastSpec(prefix), k) <==> prefix <= k
    {
      PastCovers(prefix, k);
    }
    var rest: Bytes := prefix;
    while rest != []
      invariant PastSpec(rest) == PastSpec(prefix)
      decreases |rest|
    {
      var last := rest[|rest| - 1];
      rest := rest[..|rest| - 1];
      if last < 255 {
        return Excluded(rest + [last as int + 1]);
      }
    }
    upper := Unbounded;
  }

  /** From the prefix on, keys below that bound are the keys starting with the prefix. */
  lemma {:induction false} PastCovers(prefix: Bytes, k: Bytes)
    requires AtMost(prefix, k)
    ensures BelowUpper(PastSpec(prefix), k) <==> prefix <= k
    decreases |prefix|
  {
    if prefix != [] {
      var n := |prefix| - 1;
      Trichotomy(prefix, k);
      if prefix[n] < 255 {
        BelowSuccessor(prefix, n, k);
      } else {
        assert prefix == prefix[..n] + [255];
        MaxTail(prefix[..n], k);
        PastCovers(prefix[..n], k);
      }
    }
  }

  /** Nothing at or above a prefix ending in 0xff leaves it without leaving the part before. */
  lemma {:induction false} MaxTail(init: Bytes, k: Bytes)
    requires AtMost(init + [255], k)
    ensures AtMost(init, k)
    ensures init + [255] <= k <==> init <= k
  {
    StartsRun(init, [255]);
    if init + [255] != k {
      Transitive(init, init + [255], k);
      if init <= k {
        var rest := k[|init|..];
        assert k == init + rest;
        LessAfter(init, [255], rest);
      }
    }
  }

  function TypeOfBounds(lower: ValueBound, upper: ValueBound): CellType
    requires !(lower.Open? && upper.Open?)
  {
    if lower.Open? then upper.v.ty else lower.v.ty
  }

  predicate BoundsOk(lower: ValueBound, upper: ValueBound) {
    !(lower.Open? && upper.Open?) && (!lower.Open? && !upper.Open? ==> lower.v.ty == upper.v.ty)
  }

  function LowerKey(run: Bytes, lower: ValueBound): Bound {
    match lower
    case Incl(v) => Included(run + v.stored)
    case Excl(v) => Excluded(run + v.stored)
    case Open => Included(run)
  }

  function UpperKey(run: Bytes, upper: ValueBound): Bound {
    match upper
    case Incl(v) => Included(run + v.stored)
    case Excl(v) => Excluded(run + v.stored)
    case Open => PastSpec(run)
  }

  /** No key lies between the bounds. */
  predicate NoKey(lower: Bound, upper: Bound) {
    if lower.Unbounded? || upper.Unbounded? then false
    else if lower.Included? && upper.Included? then Less(upper.key, lower.key)
    else AtMost(upper.key, lower.key)
  }

  /** The key range of `name` between two values: shape first, then name and type, then emptiness. */
  function Between(name: Bytes, lower: ValueBound, upper: ValueBound): Result<Option<KeyRange>, RangeError> {
    if lower.Open? && upper.Open? then Err(NoBound)
    else if !BoundsOk(lower, upper) then Err(TypeMismatch)
    else
      var run := Prefix(name, TypeOfBounds(lower, upper));
      if run.Err? then Err(Term(run.error))
      else
        var low, high := LowerKey(run.value, lower), UpperKey(run.value, upper);
        if NoKey(low, high) then Ok(None) else Ok(Some((low, high)))
  }

  /** The value is between the bounds, in value order. */
  predicate ValueBetween(ty: CellType, stored: Bytes, lower: ValueBound, upper: ValueBound) {
    && (match lower
        case Incl(v) => ValueAtMost(ty, v.stored, stored)
        case Excl(v) => ValueLess(ty, v.stored, stored)
        case Open => true)
    && (match upper
        case Incl(v) => ValueAtMost(ty, stored, v.stored)
        case Excl(v) => ValueLess(ty, stored, v.stored)
        case Open => true)
  }

  /** A bound's value is valid for its type. */
  predicate ValidBound(utf8: Bytes -> bool, bound: ValueBound) {
    bound.Open? || Validate(utf8, bound.v.ty, bound.v.stored)
  }

  /** Appended to a run, two values compare as they do alone. */
  lemma {:induction false} RunOrder(run: Bytes, a: Bytes, b: Bytes)
    ensures Less(run + a, run + b) <==> Less(a, b)
    ensures AtMost(run + a, run + b) <==> AtMost(a, b)
  {
    LessAfter(run, a, b);
    assert (run + a)[|run|..] == a && (run + b)[|run|..] == b;
  }

  /** A term of the run lies between the bounds exactly when its value does. */
  lemma {:induction false} InsideRun(utf8: Bytes -> bool, run: Bytes, ty: CellType, lower: ValueBound,
                                     upper: ValueBound, v: Bytes)
    requires Validate(utf8, ty, v) && ValidBound(utf8, lower) && ValidBound(utf8, upper)
    requires (lower.Open? || lower.v.ty == ty) && (upper.Open? || upper.v.ty == ty)
    ensures AboveLower(LowerKey(run, lower), run + v) && BelowUpper(UpperKey(run, upper), run + v)
            <==> ValueBetween(ty, v, lower, upper)
  {
    if !lower.Open? {
      RunOrder(run, lower.v.stored, v);
      ValueOrder(utf8, ty, lower.v.stored, v);
    }
    if !upper.Open? {
      RunOrder(run, v, upper.v.stored);
      ValueOrder(utf8, ty, v, upper.v.stored);
    }
    StartsRun(run, v);
    PastCovers(run, run + v);
  }

  lemma {:induction false} StartsRun(run: Bytes, v: Bytes)
    ensures AtMost(run, run + v)
  {
    if v != [] {
      assert FirstDiff(run, run + v) == |run|;
    } else {
      assert run + v == run;
    }
  }

  /** A key between the bounds starts with the run's prefix. */
  lemma {:induction false} OnlyTheRun(run: Bytes, lower: ValueBound, upper: ValueBound, k: Bytes)
    requires AboveLower(LowerKey(run, lower), k) && BelowUpper(UpperKey(run, upper), k)
    ensures run <= k
  {
    var a := if lower.Open? then run else run + lower.v.stored;
    assert AtMost(a, k);
    if lower.Open? {
      assert run + [] == run;
    }
    StartsRun(run, if lower.Open? then [] else lower.v.stored);
    if upper.Open? {
      if run != a && a != k {
        Transitive(run, a, k);
      }
      PastCovers(run, k);
    } else {
      PrefixConvex(run, a, k, run + upper.v.stored);
    }
  }

  /** A valid term lies in the range exactly when it has that name and type and its value is between
      the bounds; no range at all means no term qualifies. */
  lemma {:induction false} RangeExact(utf8: Bytes -> bool, name: Bytes, lower: ValueBound, upper: ValueBound, n: Bytes,
                                      t: CellType, v: Bytes)
    requires Between(name, lower, upper).Ok? && TermOk(utf8, n, t, v)
    requires ValidBound(utf8, lower) && ValidBound(utf8, upper)
    ensures var r := Between(name, lower, upper).value;
            (r.Some? && AboveLower(r.value.0, Run(n, t) + v) && BelowUpper(r.value.1, Run(n, t) + v))
            <==> n == name && t == TypeOfBounds(lower, upper) && ValueBetween(t, v, lower, upper)
  {
    var ty := TypeOfBounds(lower, upper);
    var run, k := Run(name, ty), Run(n, t) + v;
    var low, high := LowerKey(run, lower), UpperKey(run, upper);
    if AboveLower(low, k) && BelowUpper(high, k) {
      OnlyTheRun(run, lower, upper, k);
      RunsApart(utf8, name, ty, n, t, v);
    }
    if n == name && t == ty {
      InsideRun(utf8, run, ty, lower, upper, v);
    }
    if NoKey(low, high) {
      NothingBetween(low, high, k);
    }
  }

  lemma {:induction false} NothingBetween(lower: Bound, upper: Bound, k: Bytes)
    requires NoKey(lower, upper)
    ensures !(AboveLower(lower, k) && BelowUpper(upper, k))
  {
    if AboveLower(lower, k) && BelowUpper(upper, k) {
      Irreflexive(k);
      Irreflexive(upper.key);
      Trichotomy(lower.key, k);
      Trichotomy(k, upper.key);
      Trichotomy(upper.key, lower.key);
      if Less(lower.key, k) && Less(k, upper.key) {
        Transitive(lower.key, k, upper.key);
      }
    }
  }

  /** The storage scan never rejects a range that was returned, nor finds it shut at a single key. */
  lemma {:induction false} RangeAccepted(name: Bytes, lower: ValueBound, upper: ValueBound)
    requires Between(name, lower, upper).Ok? && Between(name, lower, upper).value.Some?
    ensures var (low, high) := Between(name, lower, upper).value.value;
            !Reversed(low, high) && !EmptyRange(low, high)
  {
    var (low, high) := Between(name, lower, upper).value.value;
    if !low.Unbounded? && !high.Unbounded? {
      Trichotomy(low.key, high.key);
    }
  }
}
