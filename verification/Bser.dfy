/**
 BSER, Watchman's binary JSON: the values, the bytes `w_bser_dump` emits for them, and the
 value the parser reads from bytes. Integers are in the byte order of the host, taken here
 to be little-endian.
 */
module Bser {
  import opened Options

  type byte = x: int | 0 <= x < 256
  type Bytes = seq<byte>
  type Word = n: int | 0 <= n < 0x1_0000_0000
  type Int64 = i: int | -0x8000_0000_0000_0000 <= i < 0x8000_0000_0000_0000
  type Double = b: Bytes | |b| == 8 witness [0, 0, 0, 0, 0, 0, 0, 0]

  const ARRAY: byte := 0x00
  const OBJECT: byte := 0x01
  const BYTESTRING: byte := 0x02
  const INT8: byte := 0x03
  const INT16: byte := 0x04
  const INT32: byte := 0x05
  const INT64: byte := 0x06
  const REAL: byte := 0x07
  const TRUE: byte := 0x08
  const FALSE: byte := 0x09
  const NULL: byte := 0x0a
  const TEMPLATE: byte := 0x0b
  const SKIP: byte := 0x0c
  const UTF8STRING: byte := 0x0d

  const MAX_CONTAINER: nat := 0xffff_ffff
  const MAX_DEPTH: nat := 500

  datatype StringType = Byte | Unicode
  datatype Text = Text(s: Bytes, t: StringType)

  /** A document. An object lists its fields in the iteration order of its hash table; an array
      carries the keys of its template, or none. */
  datatype Json =
    | Null | True | False
    | Integer(i: Int64)
    | Real(bits: Double)
    | Str(text: Text)
    | Array(elems: seq<Json>, templ: seq<Text>)
    | Object(fields: seq<Field>)
  datatype Field = Field(key: Bytes, value: Json)

  /** The negotiated version and capability bits. */
  datatype Ctx = Ctx(version: nat, capabilities: Word)

  predicate Supported(c: Ctx) { c.version == 1 || c.version == 2 }

  // ----- Integers

  function Modulus(w: nat): (m: nat)
    ensures m > 0
  {
    if w == 0 then 1 else 256 * Modulus(w - 1)
  }

  function ToBytes(n: nat, w: nat): (b: Bytes)
    ensures |b| == w
  {
    if w == 0 then [] else [n % 256] + ToBytes(n / 256, w - 1)
  }

  function FromBytes(b: Bytes): (n: nat)
    ensures n < Modulus(|b|)
  {
    if b == [] then 0 else b[0] + 256 * FromBytes(b[1..])
  }

  lemma Moduli()
    ensures Modulus(1) == 0x100 && Modulus(2) == 0x1_0000 && Modulus(4) == 0x1_0000_0000
    ensures Modulus(8) == 0x1_0000_0000_0000_0000
  {
    assert Modulus(3) == 0x100_0000 && Modulus(5) == 0x100_0000_0000;
    assert Modulus(6) == 0x1_0000_0000_0000 && Modulus(7) == 0x100_0000_0000_0000;
  }

  /** Two's complement. */
  function Signed(n: nat, w: nat): (i: Int64)
    requires n < Modulus(w) && w in {1, 2, 4, 8}
  {
    Moduli();
    if 2 * n < Modulus(w) then n else n - Modulus(w)
  }

  function IntSize(i: int): nat {
    if -0x80 <= i < 0x80 then 1
    else if -0x8000 <= i < 0x8000 then 2
    else if -0x8000_0000 <= i < 0x8000_0000 then 4
    else 8
  }

  function IntTag(w: nat): byte {
    if w == 1 then INT8 else if w == 2 then INT16 else if w == 4 then INT32 else INT64
  }

  function TagWidth(tag: byte): (w: Option<nat>)
    ensures w.Some? ==> w.value in {1, 2, 4, 8}
  {
    if tag == INT8 then Some(1) else if tag == INT16 then Some(2)
    else if tag == INT32 then Some(4) else if tag == INT64 then Some(8) else None
  }

  function EncodeInt(i: int): (b: Bytes)
    ensures 2 <= |b| <= 9
  {
    var w := IntSize(i);
    [IntTag(w)] + ToBytes(i % Modulus(w), w)
  }

  lemma {:induction false} FromToBytes(n: nat, w: nat)
    requires n < Modulus(w)
    ensures FromBytes(ToBytes(n, w)) == n
  {
    if w > 0 {
      FromToBytes(n / 256, w - 1);
    }
  }

  lemma SignedRoundTrip(i: Int64)
    ensures var w := IntSize(i); var n := FromBytes(ToBytes(i % Modulus(w), w)); n < Modulus(w) && Signed(n, w) == i
  {
    Moduli();
    var w := IntSize(i);
    FromToBytes(i % Modulus(w), w);
  }

  // ----- What the encoder emits

  /** The bytes a `char*` view of the string shows: up to the first NUL. */
  function CStr(s: Bytes): (r: Bytes)
    ensures |r| <= |s| && r == s[..|r|] && 0 !in r
  {
    if s == [] || s[0] == 0 then [] else [s[0]] + CStr(s[1..])
  }

  function Lookup(fields: seq<Field>, key: Bytes): (r: Option<Json>)
    ensures r.Some? ==> exists i :: 0 <= i < |fields| && fields[i].key == key && fields[i].value == r.value
  {
    if fields == [] then None
    else if fields[0].key == key then Some(fields[0].value)
    else
      var r := Lookup(fields[1..], key);
      assert r.Some? ==> forall i :: 0 <= i < |fields[1..]| ==> fields[1..][i] == fields[i + 1];
      r
  }

  function EncodeBytes(tag: byte, s: Bytes): Bytes {
    [tag] + EncodeInt(|s|) + s
  }

  function StringTag(c: Ctx, t: StringType): byte {
    if t == Unicode && c.version != 1 && c.capabilities % 2 == 0 then UTF8STRING else BYTESTRING
  }

  function EncodeTexts(c: Ctx, ts: seq<Text>): Bytes {
    if ts == [] then [] else EncodeBytes(StringTag(c, ts[0].t), ts[0].s) + EncodeTexts(c, ts[1..])
  }

  function Encode(c: Ctx, v: Json): Bytes
    decreases v, 0
  {
    match v
    case Null => [NULL]
    case True => [TRUE]
    case False => [FALSE]
    case Integer(i) => EncodeInt(i)
    case Real(bits) => [REAL] + bits
    case Str(t) => EncodeBytes(StringTag(c, t.t), t.s)
    case Array(elems, templ) =>
      if templ == [] then [ARRAY] + EncodeInt(|elems|) + EncodeAll(c, elems)
      else [TEMPLATE] + ([ARRAY] + EncodeInt(|templ|) + EncodeTexts(c, templ))
           + EncodeInt(|elems|) + EncodeRows(c, templ, elems)
    case Object(fields) => [OBJECT] + EncodeInt(|fields|) + EncodeFields(c, fields)
  }

  function EncodeAll(c: Ctx, vs: seq<Json>): Bytes
    decreases vs
  {
    if vs == [] then [] else Encode(c, vs[0]) + EncodeAll(c, vs[1..])
  }

  function EncodeFields(c: Ctx, fields: seq<Field>): Bytes
    decreases fields
  {
    if fields == [] then []
    else EncodeBytes(BYTESTRING, CStr(fields[0].key)) + Encode(c, fields[0].value) + EncodeFields(c, fields[1..])
  }

  function EncodeRows(c: Ctx, templ: seq<Text>, rows: seq<Json>): Bytes
    decreases rows
  {
    if rows == [] then [] else EncodeRow(c, templ, rows[0]) + EncodeRows(c, templ, rows[1..])
  }

  /** One object of a templated array: a value or a skip for each key of the template. */
  function EncodeRow(c: Ctx, templ: seq<Text>, row: Json): Bytes
    decreases row, |templ|
  {
    if templ == [] then []
    else EncodeCell(c, templ[0], row) + EncodeRow(c, templ[1..], row)
  }

  function EncodeCell(c: Ctx, key: Text, row: Json): Bytes
    decreases row, 0
  {
    match Member(row, key)
    case None => [SKIP]
    case Some(x) => Encode(c, x)
  }

  /** json_object_get with the template key as a C string; nothing for a non-object. */
  function Member(row: Json, key: Text): (r: Option<Json>)
    ensures r.Some? ==> r.value < row
  {
    if row.Object? then Lookup(row.fields, CStr(key.s)) else None
  }
}
