/** Stored cell values: a type tag, with the top bit for attributes, before the value bytes. */
module CellValues {
  import opened Wrappers
  import opened Lex
  import opened Words
  import opened CellKeys
  import opened Order
  import opened Terms

  /** How cells become rows, and back. */
  datatype Codec = Codec(key: CellKey -> Bytes, unkey: Bytes -> Option<CellKey>, value: CellValue -> Bytes,
                         parse: Bytes -> Option<CellValue>, ok: CellValue -> bool)

  ghost predicate LawfulCodec(c: Codec) {
    && (forall k :: c.unkey(c.key(k)) == Some(k))
    && (forall k, l :: c.key(k) == c.key(l) ==> k == l)
    && (forall v :: c.ok(v) ==> c.parse(c.value(v)) == Some(v))
    && (forall b :: c.parse(b).Some? ==> c.ok(c.parse(b).value) && c.value(c.parse(b).value) == b)
  }

  /** A well-formed value is valid for its type, and an attribute has an ordered type. */
  ghost predicate TypedAt(c: Codec, utf8: Bytes -> bool, v: CellValue) {
    c.ok(v) ==> Validate(utf8, v.ty, v.stored) && !(v.indexable && v.ty.RawBytes?)
  }

  /** Keys are encoded as complete cell addresses. */
  ghost predicate KeyedAt(c: Codec, k: CellKey) {
    c.key(k) == Encode(k)
  }

  ghost predicate Keyed(c: Codec) {
    forall k {:trigger KeyedAt(c, k)} :: KeyedAt(c, k)
  }

  /** What the layers above rely on, beyond the round trips. */
  ghost predicate Fits(c: Codec, utf8: Bytes -> bool) {
    (forall v {:trigger TypedAt(c, utf8, v)} :: TypedAt(c, utf8, v)) && Keyed(c)
  }

  function EncodeValue(v: CellValue): Bytes {
    [TypeId(v.ty) + if v.indexable then 128 else 0] + v.stored
  }

  predicate ValueOk(utf8: Bytes -> bool, v: CellValue) {
    !(v.indexable && v.ty.RawBytes?) && Validate(utf8, v.ty, v.stored)
  }

  function ParseValue(utf8: Bytes -> bool, b: Bytes): Option<CellValue> {
    if b == [] || TypeOfId(b[0] % 128).None? then None
    else
      var v := CellValue(TypeOfId(b[0] % 128).value, b[0] >= 128, b[1..]);
      if ValueOk(utf8, v) then Some(v) else None
  }

  lemma {:induction false} ParseEncode(utf8: Bytes -> bool, v: CellValue)
    requires ValueOk(utf8, v)
    ensures ParseValue(utf8, EncodeValue(v)) == Some(v)
  {
    var b := EncodeValue(v);
    TypeIdRoundTrip(v.ty, 0);
    assert b[0] % 128 == TypeId(v.ty) && b[1..] == v.stored;
    assert CellValue(TypeOfId(b[0] % 128).value, b[0] >= 128, b[1..]) == v;
  }

  lemma {:induction false} EncodeParse(utf8: Bytes -> bool, b: Bytes)
    requires ParseValue(utf8, b).Some?
    ensures EncodeValue(ParseValue(utf8, b).value) == b && ValueOk(utf8, ParseValue(utf8, b).value)
  {
    TypeIdRoundTrip(Bool, b[0] % 128);
    assert b == [b[0]] + b[1..];
  }

  /** The row of a valid value of a type that may carry the flag. */
  ghost predicate ValueRow(utf8: Bytes -> bool, b: Bytes, ty: CellType, indexable: bool, stored: Bytes) {
    && b == [TypeId(ty) + if indexable then 128 else 0] + stored
    && Validate(utf8, ty, stored) && (indexable ==> Supported(ty))
  }

  /** Exactly the rows of valid values parse. */
  lemma {:induction false} ParseExact(utf8: Bytes -> bool, b: Bytes)
    ensures ParseValue(utf8, b).Some? <==> exists ty, indexable, stored :: ValueRow(utf8, b, ty, indexable, stored)
  {
    if ParseValue(utf8, b).Some? {
      EncodeParse(utf8, b);
      var v := ParseValue(utf8, b).value;
      assert ValueRow(utf8, b, v.ty, v.indexable, v.stored);
    }
    if ty, indexable, stored :| ValueRow(utf8, b, ty, indexable, stored) {
      ParseEncode(utf8, CellValue(ty, indexable, stored));
    }
  }

  function CodecOf(utf8: Bytes -> bool): Codec {
    Codec(k => Encode(k), b => CellKeys.Decode(b), v => EncodeValue(v), b => ParseValue(utf8, b), v => ValueOk(utf8, v))
  }

  /** A record's cells are those whose encoded key starts with its ID. */
  lemma {:induction false} PrefixIsRecord(id: RecordId, k: CellKey)
    ensures ToBytes(id, 8) <= Encode(k) <==> k.id == id
  {
    U64Bytes();
    FromToBytes(id, 8);
    FromToBytes(k.id, 8);
    assert Encode(k)[..8] == ToBytes(k.id, 8);
    assert ToBytes(id, 8) <= Encode(k) <==> Encode(k)[..8] == ToBytes(id, 8);
  }

  lemma {:induction false} RowsFit(utf8: Bytes -> bool)
    ensures Fits(CodecOf(utf8), utf8)
  {
    forall v: CellValue
      ensures TypedAt(CodecOf(utf8), utf8, v)
    {
      assert CodecOf(utf8).ok(v) == ValueOk(utf8, v);
    }
    forall k: CellKey
      ensures KeyedAt(CodecOf(utf8), k)
    {
    }
  }

  /** The rows the engine writes are a lawful codec. */
  lemma {:induction false} RowsLawful(utf8: Bytes -> bool)
    ensures LawfulCodec(CodecOf(utf8))
  {
    forall k: CellKey
      ensures CellKeys.Decode(Encode(k)) == Some(k)
    {
      DecodeEncode(k);
    }
    forall k: CellKey, l: CellKey | Encode(k) == Encode(l)
      ensures k == l
    {
      DecodeEncode(k);
      DecodeEncode(l);
    }
    forall v | ValueOk(utf8, v)
      ensures ParseValue(utf8, EncodeValue(v)) == Some(v)
    {
      ParseEncode(utf8, v);
    }
    forall b: Bytes | ParseValue(utf8, b).Some?
      ensures ValueOk(utf8, ParseValue(utf8, b).value) && EncodeValue(ParseValue(utf8, b).value) == b
    {
      EncodeParse(utf8, b);
    }
  }
}
