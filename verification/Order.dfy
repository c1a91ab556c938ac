/** Cell types and the stored forms that make byte order value order. */
module Order {
  import opened Wrappers
  import opened Lex
  import opened Words

  datatype Width = W4 | W8 | W16 | W32
  datatype FloatWidth = F32 | F64

  datatype CellType =
    | Bool
    | Str
    | RawBytes
    | Bytes20
    | FixedBytes(w: Width)
    | Uint(w: Width)
    | Int(w: Width)
    | Decimal(w: Width)
    | Float(f: FloatWidth)
    | Date32
    | Timestamp64

  function Index(w: Width): nat {
    match w case W4 => 0 case W8 => 1 case W16 => 2 case W32 => 3
  }

  function FromIndex(i: nat): Width {
    if i == 0 then W4 else if i == 1 then W8 else if i == 2 then W16 else W32
  }

  function WidthBytes(w: Width): nat {
    match w case W4 => 4 case W8 => 8 case W16 => 16 case W32 => 32
  }

  function TypeId(ty: CellType): (id: nat)
    ensures 1 <= id <= 29
  {
    match ty
    case Bool => 1
    case Str => 2
    case RawBytes => 3
    case Bytes20 => 4
    case FixedBytes(w) => 8 + Index(w)
    case Uint(w) => 12 + Index(w)
    case Int(w) => 16 + Index(w)
    case Decimal(w) => 20 + Index(w)
    case Float(F32) => 24
    case Float(F64) => 25
    case Date32 => 28
    case Timestamp64 => 29
  }

  function TypeOfId(id: nat): Option<CellType> {
    if id == 1 then Some(Bool)
    else if id == 2 then Some(Str)
    else if id == 3 then Some(RawBytes)
    else if id == 4 then Some(Bytes20)
    else if 8 <= id <= 11 then Some(FixedBytes(FromIndex(id - 8)))
    else if 12 <= id <= 15 then Some(Uint(FromIndex(id - 12)))
    else if 16 <= id <= 19 then Some(Int(FromIndex(id - 16)))
    else if 20 <= id <= 23 then Some(Decimal(FromIndex(id - 20)))
    else if id == 24 then Some(Float(F32))
    else if id == 25 then Some(Float(F64))
    else if id == 28 then Some(Date32)
    else if id == 29 then Some(Timestamp64)
    else None
  }

  lemma TypeIdRoundTrip(ty: CellType, id: nat)
    ensures TypeOfId(TypeId(ty)) == Some(ty)
    ensures TypeOfId(id).Some? ==> TypeId(TypeOfId(id).value) == id
  {
  }

  /** The value width in bytes; `str` and `bytes` vary. */
  function TypeWidth(ty: CellType): Option<nat> {
    match ty
    case Str => None
    case RawBytes => None
    case Bool => Some(1)
    case Bytes20 => Some(20)
    case FixedBytes(w) => Some(WidthBytes(w))
    case Uint(w) => Some(WidthBytes(w))
    case Int(w) => Some(WidthBytes(w))
    case Decimal(w) => Some(WidthBytes(w))
    case Float(F32) => Some(4)
    case Date32 => Some(4)
    case Float(F64) => Some(8)
    case Timestamp64 => Some(8)
  }

  // ---- Byte transformations ----

  /** Flip the sign bit of a big-endian word. */
  function FlipSign(b: Bytes): (r: Bytes)
    requires b != []
    ensures |r| == |b|
  {
    [if b[0] >= 128 then b[0] as int - 128 else b[0] as int + 128] + b[1..]
  }

  function Complement(b: Bytes): (r: Bytes)
    ensures |r| == |b|
  {
    seq(|b|, i requires 0 <= i < |b| => 255 - b[i] as int)
  }

  function Zeros(n: nat): (r: Bytes)
    ensures |r| == n
  {
    seq(n, _ => 0)
  }

  predicate Negative(b: Bytes)
    requires b != []
  {
    b[0] >= 128
  }

  /** IEEE big-endian to stored form; negative zero becomes positive zero. */
  function EncodeFloat(be: Bytes): (r: Bytes)
    requires be != []
    ensures |r| == |be|
  {
    if be[0] == 128 && be[1..] == Zeros(|be| - 1) then FlipSign(Zeros(|be|))
    else if !Negative(be) then FlipSign(be)
    else Complement(be)
  }

  function DecodeFloat(stored: Bytes): (r: Bytes)
    requires stored != []
    ensures |r| == |stored|
  {
    if stored[0] >= 128 then FlipSign(stored) else Complement(stored)
  }

  // ---- Values ----

  /** Half the range of an `n`-byte word: the weight of its sign bit. */
  function Half(n: nat): (h: nat)
    requires n > 0
    ensures 2 * h == Power256(n) && h > 0
  {
    128 * Power256(n - 1)
  }

  /** The part of a word below its sign bit. */
  function Magnitude(b: Bytes): nat
    requires b != []
  {
    (b[0] % 128) * Power256(|b| - 1) + FromBytes(b[1..])
  }

  /** Two's-complement value. */
  function Signed(b: Bytes): int
    requires b != []
  {
    if Negative(b) then FromBytes(b) - Power256(|b|) else FromBytes(b)
  }

  /** Sign and magnitude of a float's bits, both zeros alike. */
  function FloatKey(b: Bytes): int
    requires b != []
  {
    if Negative(b) then -(Magnitude(b) as int) else Magnitude(b)
  }

  function FractionUnit(f: FloatWidth): nat {
    match f case F32 => 0x80_0000 case F64 => 0x10_0000_0000_0000
  }

  function ExponentMax(f: FloatWidth): nat {
    match f case F32 => 255 case F64 => 2047
  }

  /** All exponent bits set and a nonzero fraction. */
  predicate IsNaN(f: FloatWidth, be: Bytes)
    requires be != []
  {
    Magnitude(be) / FractionUnit(f) == ExponentMax(f) && Magnitude(be) % FractionUnit(f) != 0
  }

  predicate IsNegativeZero(be: Bytes)
    requires be != []
  {
    Negative(be) && Magnitude(be) == 0
  }

  /** The first byte carries the top of a word. */
  lemma {:induction false} HeadValue(b: Bytes)
    requires b != []
    ensures FromBytes(b) == b[0] * Power256(|b| - 1) + FromBytes(b[1..])
    ensures FromBytes(b[1..]) < Power256(|b| - 1)
    decreases |b|
  {
    ToFromBytes(b[1..]);
    if |b| > 1 {
      var init := b[..|b| - 1];
      HeadValue(init);
      assert init[1..] == b[1..][..|b| - 2];
      assert b[1..][|b| - 2] == b[|b| - 1];
      assert Power256(|b| - 1) == 256 * Power256(|b| - 2);
    } else {
      assert b[..0] == [];
    }
  }

  lemma {:induction false} Distribute(x: int, y: int, p: int)
    ensures (x + y) * p == x * p + y * p
  {
  }

  lemma {:induction false} Scale(x: int, y: int, p: nat)
    requires x <= y
    ensures x * p <= y * p
  {
  }

  /** The sign bit is the top half of the range. */
  lemma {:induction false} SignIsHalf(b: Bytes)
    requires b != []
    ensures FromBytes(b) == Magnitude(b) + if Negative(b) then Half(|b|) else 0
    ensures Magnitude(b) < Half(|b|)
  {
    HeadValue(b);
    var p := Power256(|b| - 1);
    Distribute(b[0] % 128, if Negative(b) then 128 else 0, p);
    assert b[0] == b[0] % 128 + if Negative(b) then 128 else 0;
    Scale(b[0] % 128, 127, p);
  }

  /** Flipping the sign bit keeps the magnitude. */
  lemma {:induction false} FlipValue(b: Bytes)
    requires b != []
    ensures Magnitude(FlipSign(b)) == Magnitude(b) && Negative(FlipSign(b)) == !Negative(b)
    ensures FlipSign(FlipSign(b)) == b
  {
    assert FlipSign(b)[1..] == b[1..];
    assert FlipSign(b)[0] % 128 == b[0] % 128;
    assert b == [b[0]] + b[1..];
  }

  /** Complementing every bit reverses the range. */
  lemma {:induction false} ComplementValue(b: Bytes)
    ensures FromBytes(Complement(b)) == Power256(|b|) - 1 - FromBytes(b)
    ensures Complement(Complement(b)) == b
    decreases |b|
  {
    if b != [] {
      var n := |b| - 1;
      ComplementValue(b[..n]);
      assert Complement(b)[..n] == Complement(b[..n]);
    }
  }

  lemma {:induction false} ZerosValue(n: nat)
    ensures FromBytes(Zeros(n)) == 0
    decreases n
  {
    if n > 0 {
      ZerosValue(n - 1);
      assert Zeros(n)[..n - 1] == Zeros(n - 1);
    }
  }

  // ---- Order ----

  /** Stored signed integers compare as two's-complement values. */
  lemma {:induction false} SignedOrder(a: Bytes, b: Bytes)
    requires a != [] && |a| == |b|
    ensures Less(FlipSign(a), FlipSign(b)) <==> Signed(a) < Signed(b)
  {
    FlipValue(a);
    FlipValue(b);
    SignIsHalf(a);
    SignIsHalf(b);
    SignIsHalf(FlipSign(a));
    SignIsHalf(FlipSign(b));
    WordOrder(FlipSign(a), FlipSign(b));
  }

  /** Negative zero is the sign bit alone. */
  lemma {:induction false} NegativeZeroBytes(b: Bytes)
    requires b != []
    ensures IsNegativeZero(b) <==> b[0] == 128 && b[1..] == Zeros(|b| - 1)
  {
    var p := Power256(|b| - 1);
    ZerosValue(|b| - 1);
    if IsNegativeZero(b) {
      if b[0] % 128 >= 1 {
        Scale(1, b[0] % 128, p);
        assert false;
      }
      ToFromBytes(b[1..]);
      ToFromBytes(Zeros(|b| - 1));
    }
  }

  /** The stored value of a float: above half for non-negative ones, mirrored below for negative ones. */
  lemma {:induction false} FloatValue(b: Bytes)
    requires b != []
    ensures FromBytes(EncodeFloat(b)) ==
            if Negative(b) && Magnitude(b) > 0 then Half(|b|) - 1 - Magnitude(b) else Half(|b|) + Magnitude(b)
  {
    NegativeZeroBytes(b);
    SignIsHalf(b);
    if IsNegativeZero(b) || !Negative(b) {
      var z := if Negative(b) then Zeros(|b|) else b;
      ZerosValue(|b|);
      SignIsHalf(z);
      FlipValue(z);
      SignIsHalf(FlipSign(z));
    } else {
      ComplementValue(b);
    }
  }

  lemma {:induction false} SameWord(a: Bytes, b: Bytes)
    requires |a| == |b|
    ensures a == b <==> FromBytes(a) == FromBytes(b)
  {
    ToFromBytes(a);
    ToFromBytes(b);
  }

  /** Stored floats compare as their values, with the zeros identified. */
  lemma {:induction false} FloatOrder(a: Bytes, b: Bytes)
    requires a != [] && |a| == |b|
    ensures Less(EncodeFloat(a), EncodeFloat(b)) <==> FloatKey(a) < FloatKey(b)
    ensures EncodeFloat(a) == EncodeFloat(b) <==> FloatKey(a) == FloatKey(b)
  {
    FloatValue(a);
    FloatValue(b);
    SignIsHalf(a);
    SignIsHalf(b);
    WordOrder(EncodeFloat(a), EncodeFloat(b));
    SameWord(EncodeFloat(a), EncodeFloat(b));
  }

  /** Decoding gives the float back, except that negative zero was normalized. */
  lemma {:induction false} FloatRoundTrip(b: Bytes)
    requires b != []
    ensures DecodeFloat(EncodeFloat(b)) == if IsNegativeZero(b) then Zeros(|b|) else b
  {
    NegativeZeroBytes(b);
    FlipValue(b);
    ComplementValue(b);
    FlipValue(Zeros(|b|));
  }

  // ---- The numbers floats stand for ----

  /** What a float that is not NaN stands for, in units of the least subnormal. */
  datatype Number = MinusInfinity | Finite(units: int) | PlusInfinity

  predicate NumberLess(a: Number, b: Number) {
    match (a, b)
    case (Finite(x), Finite(y)) => x < y
    case (MinusInfinity, _) => b != MinusInfinity
    case (_, PlusInfinity) => a != PlusInfinity
    case _ => false
  }

  function Pow2(n: nat): (p: nat)
    ensures p > 0
  {
    if n == 0 then 1 else 2 * Pow2(n - 1)
  }

  /** Exponent and fraction as a multiple of the least subnormal: no hidden bit below the first
      exponent, one above it. */
  function Scaled(f: FloatWidth, magnitude: nat): nat {
    var e, fraction := magnitude / FractionUnit(f), magnitude % FractionUnit(f);
    if e == 0 then fraction else (FractionUnit(f) + fraction) * Pow2(e - 1)
  }

  function NumberOf(f: FloatWidth, be: Bytes): Number
    requires be != []
  {
    if Magnitude(be) / FractionUnit(f) >= ExponentMax(f) then (if Negative(be) then MinusInfinity else PlusInfinity)
    else Finite(if Negative(be) then -(Scaled(f, Magnitude(be)) as int) else Scaled(f, Magnitude(be)))
  }

  lemma {:induction false} Pow2Rises(m: nat, n: nat)
    requires m <= n
    ensures Pow2(m) <= Pow2(n)
    decreases n
  {
    if m < n {
      Pow2Rises(m, n - 1);
    }
  }

  /** A magnitude of one exponent reaches at least the unit, and stays below twice the unit, at it. */
  lemma {:induction false} ScaledBounds(f: FloatWidth, m: nat)
    ensures var e := m / FractionUnit(f);
            && Scaled(f, m) < FractionUnit(f) * Pow2(e)
            && (e > 0 ==> FractionUnit(f) * Pow2(e - 1) <= Scaled(f, m))
  {
    var u, e, r := FractionUnit(f), m / FractionUnit(f), m % FractionUnit(f);
    if e > 0 {
      var p := Pow2(e - 1);
      Distribute(u, r, p);
      Scale(0, r, p);
      StrictScale(r, u, p);
      assert u * Pow2(e) == u * p + u * p;
    }
  }

  lemma {:induction false} StrictScale(x: int, y: int, p: nat)
    requires x < y && p > 0
    ensures x * p < y * p
  {
  }

  /** Greater bits, greater number. */
  lemma {:induction false} ScaledRises(f: FloatWidth, a: nat, b: nat)
    requires a < b
    ensures Scaled(f, a) < Scaled(f, b)
  {
    var u := FractionUnit(f);
    var ea, eb := a / u, b / u;
    ScaledBounds(f, a);
    ScaledBounds(f, b);
    if ea == eb {
      assert a % u < b % u;
      if ea > 0 {
        StrictScale(u + a % u, u + b % u, Pow2(ea - 1));
      }
    } else {
      assert ea < eb;
      Pow2Rises(ea, eb - 1);
      Scale(Pow2(ea), Pow2(eb - 1), u);
    }
  }

  lemma {:induction false} ScaledZero(f: FloatWidth)
    ensures Scaled(f, 0) == 0
  {
    assert 0 / FractionUnit(f) == 0 && 0 % FractionUnit(f) == 0;
  }

  function FloatBytes(f: FloatWidth): nat {
    match f case F32 => 4 case F64 => 8
  }

  lemma {:induction false} HalfUnits(f: FloatWidth)
    ensures Half(FloatBytes(f)) == (ExponentMax(f) + 1) * FractionUnit(f)
  {
    assert Power256(3) == 0x100_0000;
    U64Bytes();
  }

  /** The exponent of a float is at most the largest one, which only infinities and NaN have. */
  lemma {:induction false} TopExponent(f: FloatWidth, b: Bytes)
    requires |b| == FloatBytes(f) && !IsNaN(f, b)
    ensures var m, top := Magnitude(b), ExponentMax(f) * FractionUnit(f);
            m <= top && (m / FractionUnit(f) >= ExponentMax(f) <==> m == top)
  {
    SignIsHalf(b);
    HalfUnits(f);
    var m, u := Magnitude(b), FractionUnit(f);
    assert m == (m / u) * u + m % u;
  }

  /** Order of sign and magnitude is numeric order: infinities at the ends, the zeros one number. */
  lemma {:induction false} KeyIsNumber(f: FloatWidth, a: Bytes, b: Bytes)
    requires |a| == |b| == FloatBytes(f) && !IsNaN(f, a) && !IsNaN(f, b)
    ensures NumberLess(NumberOf(f, a), NumberOf(f, b)) <==> FloatKey(a) < FloatKey(b)
    ensures NumberOf(f, a) == NumberOf(f, b) <==> FloatKey(a) == FloatKey(b)
  {
    TopExponent(f, a);
    TopExponent(f, b);
    ScaledZero(f);
    var m, n := Magnitude(a), Magnitude(b);
    if m < n {
      ScaledRises(f, m, n);
    } else if n < m {
      ScaledRises(f, n, m);
    }
    if m > 0 {
      ScaledRises(f, 0, m);
    }
    if n > 0 {
      ScaledRises(f, 0, n);
    }
  }

  /** Stored floats compare as the numbers they stand for, infinities included. */
  lemma {:induction false} FloatNumericOrder(f: FloatWidth, a: Bytes, b: Bytes)
    requires |a| == |b| == FloatBytes(f) && !IsNaN(f, a) && !IsNaN(f, b)
    ensures Less(EncodeFloat(a), EncodeFloat(b)) <==> NumberLess(NumberOf(f, a), NumberOf(f, b))
    ensures EncodeFloat(a) == EncodeFloat(b) <==> NumberOf(f, a) == NumberOf(f, b)
  {
    FloatOrder(a, b);
    KeyIsNumber(f, a, b);
  }

  /** The bits above infinity's, and no others, are no number. */
  lemma {:induction false} NaNExact(f: FloatWidth, b: Bytes)
    requires |b| == FloatBytes(f)
    ensures IsNaN(f, b) <==> Magnitude(b) > ExponentMax(f) * FractionUnit(f)
  {
    SignIsHalf(b);
    HalfUnits(f);
    var m, u := Magnitude(b), FractionUnit(f);
    assert m == (m / u) * u + m % u;
  }
}
