/** Ordered index keys: name, separator, type tag, order-encoded value. */
module Terms {
  import opened Wrappers
  import opened Lex
  import opened Words
  import opened Order

  datatype TermError = InvalidName | UnsupportedType | BadValue | NaN | InvalidEncoding

  /** A typed cell value in stored form; attributes are indexable, fields are not. */
  datatype CellValue = CellValue(ty: CellType, indexable: bool, stored: Bytes)

  // ---- Names ----

  predicate IsAlpha(b: byte) {
    65 <= b <= 90 || 97 <= b <= 122
  }

  predicate IsRest(b: byte) {
    IsAlpha(b) || 48 <= b <= 57 || b == 95 || b == 45 || b == 46 || b == 58
  }

  /** `["$"] ALPHA *rest`: no zero byte, so the separator is unambiguous. */
  predicate ValidName(name: Bytes) {
    var body := if name != [] && name[0] == 36 then name[1..] else name;
    body != [] && IsAlpha(body[0]) && forall i :: 1 <= i < |body| ==> IsRest(body[i])
  }

  predicate Letter(c: byte) {
    (65 <= c && c <= 90) || (97 <= c && c <= 122)
  }

  predicate Following(c: byte) {
    Letter(c) || (48 <= c && c <= 57) || c in {45, 46, 58, 95}
  }

  /** A letter, then letters, digits, `_`, `-`, `.` and `:`. */
  predicate Word(body: Bytes) {
    |body| >= 1 && Letter(body[0]) && forall i :: 1 <= i < |body| ==> Following(body[i])
  }

  /** A user or attribute name: a word, with or without a leading `$`. */
  ghost predicate Spelled(name: Bytes) {
    exists body :: Word(body) && (name == body || name == [36] + body)
  }

  lemma {:induction false} BodyOf(name: Bytes) returns (body: Bytes)
    requires ValidName(name)
    ensures Word(body) && (name == body || name == [36] + body)
  {
    body := name;
    if name[0] == 36 {
      body := name[1..];
    }
    assert body != [] && IsAlpha(body[0]) && forall i :: 1 <= i < |body| ==> IsRest(body[i]);
    forall i | 1 <= i < |body|
      ensures Following(body[i])
    {
      assert IsRest(body[i]);
    }
  }

  lemma {:induction false} WordIsBody(name: Bytes, body: Bytes)
    requires Word(body) && (name == body || name == [36] + body)
    ensures ValidName(name)
  {
    assert name != body ==> name[1..] == body;
    forall i | 1 <= i < |body|
      ensures IsRest(body[i])
    {
      assert Following(body[i]);
    }
  }

  lemma {:induction false} NameExact(name: Bytes)
    ensures ValidName(name) <==> Spelled(name)
  {
    if ValidName(name) {
      var body := BodyOf(name);
    }
    if body :| Word(body) && (name == body || name == [36] + body) {
      WordIsBody(name, body);
    }
  }

  lemma {:induction false} NameHasNoZero(name: Bytes, i: nat)
    requires ValidName(name) && i < |name|
    ensures name[i] != 0
  {
    var body := if name[0] == 36 then name[1..] else name;
    var k := if name[0] == 36 then i - 1 else i;
    if k >= 0 {
      assert body[k] == name[i];
      assert if k == 0 then IsAlpha(body[k]) else IsRest(body[k]);
    }
  }

  /** Everything but variable-length bytes has an ordered codec. */
  predicate Supported(ty: CellType) {
    !ty.RawBytes?
  }

  // ---- Values ----

  predicate WidthOk(ty: CellType, value: Bytes) {
    TypeWidth(ty).Some? ==> |value| == TypeWidth(ty).value
  }

  /** A valid stored value; `utf8` decides text. */
  predicate Validate(utf8: Bytes -> bool, ty: CellType, stored: Bytes) {
    && WidthOk(ty, stored)
    && match ty
       case Bool => stored[0] <= 1
       case Str => utf8(stored)
       case Float(f) => !IsNaN(f, DecodeFloat(stored)) && !IsNegativeZero(DecodeFloat(stored))
       case _ => true
  }

  predicate IsSigned(ty: CellType) {
    ty.Int? || ty.Decimal? || ty.Date32? || ty.Timestamp64?
  }

  /** Native big-endian bytes to the stored form. */
  function StoredForm(ty: CellType, native: Bytes): Bytes
    requires WidthOk(ty, native)
  {
    if IsSigned(ty) then FlipSign(native)
    else if ty.Float? then EncodeFloat(native)
    else native
  }

  /** The stored form back to native bytes. */
  function Native(ty: CellType, stored: Bytes): (native: Bytes)
    requires WidthOk(ty, stored)
    ensures WidthOk(ty, native)
  {
    if IsSigned(ty) then FlipSign(stored)
    else if ty.Float? then DecodeFloat(stored)
    else stored
  }

  /** A value of the type, in native bytes: text is UTF-8, a float is a number, a truth value is one byte. */
  ghost predicate ProperValue(utf8: Bytes -> bool, ty: CellType, native: Bytes) {
    && WidthOk(ty, native)
    && match ty
       case Bool => native == [0] || native == [1]
       case Str => utf8(native)
       case Float(f) => Magnitude(native) <= ExponentMax(f) * FractionUnit(f)
       case _ => true
  }

  /** Exactly the stored forms of proper values are valid. */
  lemma {:induction false} ValidExact(utf8: Bytes -> bool, ty: CellType, stored: Bytes)
    ensures Validate(utf8, ty, stored) <==>
            exists native :: ProperValue(utf8, ty, native) && stored == StoredForm(ty, native)
  {
    if Validate(utf8, ty, stored) {
      NativeStored(utf8, ty, stored);
      NativeProper(utf8, ty, stored);
    }
    if native :| ProperValue(utf8, ty, native) && stored == StoredForm(ty, native) {
      StoredValid(utf8, ty, native);
    }
  }

  lemma {:induction false} NativeProper(utf8: Bytes -> bool, ty: CellType, stored: Bytes)
    requires Validate(utf8, ty, stored)
    ensures ProperValue(utf8, ty, Native(ty, stored))
  {
    match ty
    case Float(f) => NaNExact(f, DecodeFloat(stored));
    case Bool => assert stored == [stored[0]];
    case _ =>
  }

  lemma {:induction false} StoredValid(utf8: Bytes -> bool, ty: CellType, native: Bytes)
    requires ProperValue(utf8, ty, native)
    ensures Validate(utf8, ty, StoredForm(ty, native))
  {
    match ty
    case Float(f) =>
      NaNExact(f, native);
      FloatValid(utf8, f, native);
    case _ =>
  }

  /** Every valid stored value is the stored form of its native bytes. */
  lemma {:induction false} NativeStored(utf8: Bytes -> bool, ty: CellType, stored: Bytes)
    requires Validate(utf8, ty, stored)
    ensures StoredForm(ty, Native(ty, stored)) == stored
  {
    if IsSigned(ty) {
      FlipValue(stored);
    } else if ty.Float? {
      NegativeZeroBytes(DecodeFloat(stored));
      FlipValue(stored);
      ComplementValue(stored);
    }
  }

  /** Value order on native bytes: two's-complement and unsigned integers, the numbers floats stand
      for, and byte order for text, fixed bytes and booleans. */
  predicate NativeLess(ty: CellType, a: Bytes, b: Bytes)
    requires WidthOk(ty, a) && WidthOk(ty, b)
  {
    if IsSigned(ty) then Signed(a) < Signed(b)
    else if ty.Float? then NumberLess(NumberOf(ty.f, a), NumberOf(ty.f, b))
    else if ty.Uint? then FromBytes(a) < FromBytes(b)
    else Less(a, b)
  }

  predicate IsNumber(ty: CellType, native: Bytes)
    requires WidthOk(ty, native)
  {
    ty.Float? ==> !IsNaN(ty.f, native)
  }

  /** Byte order of stored forms is value order. */
  lemma {:induction false} StoredOrder(ty: CellType, a: Bytes, b: Bytes)
    requires WidthOk(ty, a) && WidthOk(ty, b) && IsNumber(ty, a) && IsNumber(ty, b)
    ensures Less(StoredForm(ty, a), StoredForm(ty, b)) <==> NativeLess(ty, a, b)
  {
    if IsSigned(ty) {
      SignedOrder(a, b);
    } else if ty.Float? {
      FloatNumericOrder(ty.f, a, b);
    } else if ty.Uint? {
      WordOrder(a, b);
    }
  }

  /** The value stored as `a` is less than the one stored as `b`. */
  predicate ValueLess(ty: CellType, a: Bytes, b: Bytes) {
    WidthOk(ty, a) && WidthOk(ty, b) && NativeLess(ty, Native(ty, a), Native(ty, b))
  }

  predicate ValueAtMost(ty: CellType, a: Bytes, b: Bytes) {
    WidthOk(ty, a) && WidthOk(ty, b) && !NativeLess(ty, Native(ty, b), Native(ty, a))
  }

  predicate SameValue(ty: CellType, a: Bytes, b: Bytes) {
    ValueAtMost(ty, a, b) && ValueAtMost(ty, b, a)
  }

  /** Valid stored values compare bytewise as the values they stand for. */
  lemma {:induction false} ValueOrder(utf8: Bytes -> bool, ty: CellType, a: Bytes, b: Bytes)
    requires Validate(utf8, ty, a) && Validate(utf8, ty, b)
    ensures ValueLess(ty, a, b) <==> Less(a, b)
    ensures ValueAtMost(ty, a, b) <==> AtMost(a, b)
    ensures SameValue(ty, a, b) <==> a == b
  {
    NativeStored(utf8, ty, a);
    NativeStored(utf8, ty, b);
    StoredOrder(ty, Native(ty, a), Native(ty, b));
    StoredOrder(ty, Native(ty, b), Native(ty, a));
    Trichotomy(a, b);
    Irreflexive(a);
  }

  /** A float's stored form is valid exactly when the float is a number. */
  lemma {:induction false} FloatValid(utf8: Bytes -> bool, f: FloatWidth, native: Bytes)
    requires WidthOk(Float(f), native)
    ensures Validate(utf8, Float(f), EncodeFloat(native)) <==> !IsNaN(f, native)
  {
    FloatRoundTrip(native);
    ZerosValue(|native|);
    SignIsHalf(Zeros(|native|));
    assert FractionUnit(f) > 0 && ExponentMax(f) > 0;
    if IsNegativeZero(native) {
      assert !IsNaN(f, native);
    }
  }

  // ---- Terms ----

  function Run(name: Bytes, ty: CellType): Bytes {
    name + [0, 128 + TypeId(ty)]
  }

  /** What every term of one name and type starts with, and no other. */
  function Prefix(name: Bytes, ty: CellType): Result<Bytes, TermError> {
    if !ValidName(name) then Err(InvalidName)
    else if !Supported(ty) then Err(UnsupportedType)
    else Ok(Run(name, ty))
  }

  /** The term a stored value is indexed under: its payload copied verbatim. */
  function FromCellName(name: Bytes, v: CellValue): Result<Bytes, TermError> {
    var run := Prefix(name, v.ty);
    if run.Err? then Err(run.error) else Ok(run.value + v.stored)
  }

  /** A name, type and value that make a term. */
  predicate TermOk(utf8: Bytes -> bool, name: Bytes, ty: CellType, stored: Bytes) {
    ValidName(name) && Supported(ty) && Validate(utf8, ty, stored)
  }

  /** Reject NaN, and make either zero all zero bits. */
  method ValidateFloat(f: FloatWidth, bytes: Bytes) returns (r: Result<Bytes, TermError>)
    requires WidthOk(Float(f), bytes)
    ensures r == if IsNaN(f, bytes) then Err(NaN) else if Magnitude(bytes) == 0 then Ok(Zeros(|bytes|)) else Ok(bytes)
  {
    if IsNaN(f, bytes) {
      return Err(NaN);
    }
    r := Ok(if Magnitude(bytes) == 0 then Zeros(|bytes|) else bytes);
  }

  /** Construction from native bytes, transforming a copy in place. It accepts exactly the valid
      values and gives the term of their stored form. */
  method NewTerm(utf8: Bytes -> bool, name: Bytes, ty: CellType, native: Bytes) returns (r: Result<Bytes, TermError>)
    ensures r.Ok? <==> WidthOk(ty, native) && TermOk(utf8, name, ty, StoredForm(ty, native))
    ensures r.Ok? ==> forall indexable :: FromCellName(name, CellValue(ty, indexable, StoredForm(ty, native))) == r
    ensures Prefix(name, ty).Ok? && WidthOk(ty, native) && ty.Float? ==> (r == Err(NaN) <==> IsNaN(ty.f, native))
  {
    var run := Prefix(name, ty);
    if run.Err? {
      return Err(run.error);
    }
    if !WidthOk(ty, native) {
      return Err(BadValue);
    }
    var ordered := native;
    if IsSigned(ty) {
      ordered := FlipSign(ordered);
    } else if ty.Float? {
      FloatValid(utf8, ty.f, native);
      var zeroed := ValidateFloat(ty.f, ordered);
      if zeroed.Err? {
        return Err(zeroed.error);
      }
      ordered := zeroed.value;
      if ordered[0] >= 128 {
        ordered := ComplementEach(ordered);
      } else {
        ordered := FlipSign(ordered);
      }
      SameStored(native, zeroed.value, ordered);
    }
    if !Validate(utf8, ty, ordered) {
      return Err(BadValue);
    }
    r := Ok(run.value + ordered);
  }

  method ComplementEach(bytes: Bytes) returns (r: Bytes)
    ensures r == Complement(bytes)
  {
    r := bytes;
    for i := 0 to |bytes|
      invariant |r| == |bytes|
      invariant forall k :: 0 <= k < |r| ==> r[k] == if k < i then 255 - bytes[k] as int else bytes[k]
    {
      r := r[i := 255 - r[i] as int];
    }
  }

  /** Zeroing first and then ordering by sign is the float stored form. */
  lemma {:induction false} SameStored(native: Bytes, zeroed: Bytes, ordered: Bytes)
    requires native != []
    requires zeroed == if Magnitude(native) == 0 then Zeros(|native|) else native
    requires ordered == if Negative(zeroed) then Complement(zeroed) else FlipSign(zeroed)
    ensures ordered == EncodeFloat(native)
  {
    NegativeZeroBytes(native);
    SignIsHalf(native);
    ZerosValue(|native|);
    if Magnitude(native) == 0 && !Negative(native) {
      SameWord(native, Zeros(|native|));
    }
  }

  // ---- Decoding ----

  /** The first zero byte, or the end. */
  function FirstZero(b: Bytes): (i: nat)
    ensures i <= |b| && (forall k :: 0 <= k < i ==> b[k] != 0) && (i < |b| ==> b[i] == 0)
  {
    if b == [] || b[0] == 0 then 0
    else
      var i := FirstZero(b[1..]);
      assert forall k :: 0 < k < i + 1 ==> b[k] == b[1..][k - 1];
      i + 1
  }

  /** Strict decoding into name, type and value. */
  function Decode(utf8: Bytes -> bool, b: Bytes): Result<(Bytes, CellType, Bytes), TermError> {
    var i := FirstZero(b);
    if i == |b| then Err(InvalidEncoding)
    else if !ValidName(b[..i]) then Err(InvalidName)
    else if i + 1 == |b| || b[i + 1] < 128 then Err(InvalidEncoding)
    else
      var ty := TypeOfId(b[i + 1] - 128);
      if ty.None? then Err(BadValue)
      else if !Supported(ty.value) then Err(UnsupportedType)
      else if !Validate(utf8, ty.value, b[i + 2..]) then Err(BadValue)
      else Ok((b[..i], ty.value, b[i + 2..]))
  }

  /** What decodes is the encoding of a valid name, type and value. */
  lemma {:induction false} DecodeSound(utf8: Bytes -> bool, b: Bytes)
    requires Decode(utf8, b).Ok?
    ensures var (name, ty, v) := Decode(utf8, b).value; TermOk(utf8, name, ty, v) && b == Run(name, ty) + v
  {
    var i := FirstZero(b);
    var ty := TypeOfId(b[i + 1] - 128).value;
    TypeIdRoundTrip(ty, b[i + 1] - 128);
    assert b == b[..i] + [0, 128 + TypeId(ty)] + b[i + 2..];
  }

  /** Every valid name, type and value decodes from its encoding. */
  lemma {:induction false} DecodeComplete(utf8: Bytes -> bool, name: Bytes, ty: CellType, v: Bytes)
    requires TermOk(utf8, name, ty, v)
    ensures Decode(utf8, Run(name, ty) + v) == Ok((name, ty, v))
  {
    var b := Run(name, ty) + v;
    SplitAt(utf8, b, FirstZero(b), name, ty, v);
    TypeIdRoundTrip(ty, 0);
  }

  /** A term's parts sit around its first zero byte. */
  lemma {:induction false} SplitAt(utf8: Bytes -> bool, b: Bytes, i: nat, name: Bytes, ty: CellType, v: Bytes)
    requires TermOk(utf8, name, ty, v) && b == Run(name, ty) + v
    requires i <= |b| && (forall k :: 0 <= k < i ==> b[k] != 0) && (i < |b| ==> b[i] == 0)
    ensures i + 1 < |b| && name == b[..i] && b[i + 1] == 128 + TypeId(ty) && v == b[i + 2..]
  {
    assert b[|name|] == 0;
    if i < |name| {
      NameHasNoZero(name, i);
    }
    assert i == |name|;
  }

  /** Encoding is injective in name, type and value. */
  lemma {:induction false} TermInjective(utf8: Bytes -> bool, n1: Bytes, t1: CellType, v1: Bytes, n2: Bytes,
                                         t2: CellType, v2: Bytes)
    requires TermOk(utf8, n1, t1, v1) && TermOk(utf8, n2, t2, v2)
    requires Run(n1, t1) + v1 == Run(n2, t2) + v2
    ensures n1 == n2 && t1 == t2 && v1 == v2
  {
    RunsApart(utf8, n1, t1, n2, t2, v2);
    assert (Run(n1, t1) + v1)[|Run(n1, t1)|..] == v1;
    assert (Run(n2, t2) + v2)[|Run(n2, t2)|..] == v2;
  }

  /** A run holds the terms of its own name and type and no others. */
  lemma {:induction false} RunsApart(utf8: Bytes -> bool, name: Bytes, ty: CellType, n: Bytes, t: CellType, v: Bytes)
    requires ValidName(name) && TermOk(utf8, n, t, v)
    ensures Run(name, ty) <= Run(n, t) + v <==> name == n && ty == t
  {
    var b := Run(n, t) + v;
    if Run(name, ty) <= b {
      var i := |name|;
      assert b[i] == Run(name, ty)[i] == 0 && b[i + 1] == Run(name, ty)[i + 1];
      forall k | 0 <= k < i
        ensures b[k] != 0
      {
        NameHasNoZero(name, k);
        assert b[k] == Run(name, ty)[k] == name[k];
      }
      SplitAt(utf8, b, i, n, t, v);
      assert b[..i] == Run(name, ty)[..i] == name;
      TypeIdRoundTrip(ty, 0);
      TypeIdRoundTrip(t, 0);
    }
  }
}
