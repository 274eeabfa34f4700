/** The bytes themselves: integers, low byte first, and the sequences that the format's documentation and the tests of
    the encoder spell out. */
module BserVectors {
  import opened Bser
  import opened Options
  import opened PduFormat

  // ----- Integers

  /** An integer is a tag and the least of one, two, four or eight bytes of its two's complement. */
  lemma IntegerBytes(i: Int64)
    ensures var b := EncodeInt(i);
            && (b[0] == 0x03 && |b| == 2 <==> -0x80 <= i < 0x80)
            && (b[0] == 0x04 && |b| == 3 <==> -0x8000 <= i < 0x8000 && !(-0x80 <= i < 0x80))
            && (b[0] == 0x05 && |b| == 5 <==> -0x8000_0000 <= i < 0x8000_0000 && !(-0x8000 <= i < 0x8000))
            && (b[0] == 0x06 && |b| == 9 <==> !(-0x8000_0000 <= i < 0x8000_0000))
            && FromBytes(b[1..]) == i % Modulus(|b| - 1)
  {
    var w := IntSize(i);
    FromToBytes(i % Modulus(w), w);
    assert EncodeInt(i)[1..] == ToBytes(i % Modulus(w), w);
  }

  /** The low byte comes first. */
  lemma LowByteFirst(low: byte, high: byte)
    requires high < 128 && (high > 0 || low >= 128)
    ensures EncodeInt((low as int) + 256 * (high as int)) == [0x04, low, high]
  {
    Moduli();
    var i := (low as int) + 256 * (high as int);
    assert IntSize(i) == 2 && i % Modulus(2) == i && i / 256 == high && i % 256 == low;
    assert ToBytes(high, 1) == [high] + ToBytes(0, 0);
  }

  // ----- Sequences

  lemma SmallInt(i: int)
    requires -128 <= i < 128
    ensures EncodeInt(i) == [0x03, if i < 0 then i + 256 else i]
  {
    Moduli();
    assert ToBytes(i % 256, 1) == [i % 256] + ToBytes(0, 0);
  }

  /** A string is a tag, its length and its bytes. The tag is 0x0d for a Unicode string that a version 2 peer has not
      ruled out, and 0x02 for every other one. */
  lemma TextBytes(c: Ctx, t: Text)
    requires |t.s| < 128
    ensures EncodeBytes(StringTag(c, t.t), t.s) ==
              [if t.t == Unicode && c.version != 1 && c.capabilities % 2 == 0 then 0x0d else 0x02, 0x03, |t.s|] + t.s
  {
    SmallInt(|t.s|);
  }

  function Bytestring(s: Bytes): Json { Str(Text(s, Byte)) }

  function Pair(c: Ctx, a: Json, b: Json): Bytes { Encode(c, a) + Encode(c, b) }

  lemma TwoElements(c: Ctx, a: Json, b: Json)
    ensures Encode(c, Array([a, b], [])) == [0x00, 0x03, 0x02] + Pair(c, a, b)
  {
    SmallInt(2);
    assert [a, b][1..] == [b] && [b][1..] == [];
    assert EncodeAll(c, [b]) == Encode(c, b) + EncodeAll(c, []);
    assert EncodeAll(c, [a, b]) == Encode(c, a) + EncodeAll(c, [b]);
    assert EncodeAll(c, [a, b]) == Pair(c, a, b);
  }

  const TOM: Bytes := [0x54, 0x6f, 0x6d]
  const JERRY: Bytes := [0x4a, 0x65, 0x72, 0x72, 0x79]

  /** The PDU of ["Tom", "Jerry"] in both versions. */
  lemma TomAndJerry(c: Ctx)
    requires c == Ctx(1, 0) || c == Ctx(2, 0)
    ensures PduBytes(c, Array([Bytestring(TOM), Bytestring(JERRY)], [])) ==
              (if c.version == 1 then [0x00, 0x01] else [0x00, 0x02, 0x00, 0x00, 0x00, 0x00])
              + ([0x03, 0x11] + ([0x00, 0x03, 0x02] + (([0x02, 0x03, 0x03] + TOM) + ([0x02, 0x03, 0x05] + JERRY))))
  {
    hide Encode, EncodeInt, StringTag, PduBytes, Pair;
    var v := Array([Bytestring(TOM), Bytestring(JERRY)], []);
    TwoElements(c, Bytestring(TOM), Bytestring(JERRY));
    Atoms(c, Text(TOM, Byte));
    Atoms(c, Text(JERRY, Byte));
    PairIs(c, Bytestring(TOM), Bytestring(JERRY));
    SmallInt(0x11);
    Framed(c, v, 0x11);
  }

  lemma PairIs(c: Ctx, a: Json, b: Json)
    ensures Pair(c, a, b) == Encode(c, a) + Encode(c, b)
  {}

  lemma Framed(c: Ctx, v: Json, n: byte)
    requires (c == Ctx(1, 0) || c == Ctx(2, 0)) && |Encode(c, v)| == n < 128
    ensures PduBytes(c, v) == (if c.version == 1 then [0x00, 0x01] else [0x00, 0x02, 0x00, 0x00, 0x00, 0x00])
                              + ([0x03, n] + Encode(c, v))
  {
    hide Encode, EncodeInt, ToBytes;
    SmallInt(n);
    NoCapabilities();
  }

  lemma NoCapabilities()
    ensures ToBytes(0, 4) == [0, 0, 0, 0]
  {
    assert ToBytes(0, 3) == [0] + ToBytes(0, 2) && ToBytes(0, 2) == [0] + ToBytes(0, 1);
    assert ToBytes(0, 1) == [0] + ToBytes(0, 0);
  }

  lemma Atoms(c: Ctx, t: Text)
    requires |t.s| < 128
    ensures Encode(c, Str(t)) ==
              [if t.t == Unicode && c.version != 1 && c.capabilities % 2 == 0 then 0x0d else 0x02, 0x03, |t.s|] + t.s
    ensures Encode(c, Null) == [0x0a] && Encode(c, True) == [0x08] && Encode(c, False) == [0x09]
    ensures forall d: Double :: Encode(c, Real(d)) == [0x07] + d
  {
    TextBytes(c, t);
  }

  const NAME: Bytes := [0x6e, 0x61, 0x6d, 0x65]
  const AGE: Bytes := [0x61, 0x67, 0x65]
  const FRED: Bytes := [0x66, 0x72, 0x65, 0x64]
  const PETE: Bytes := [0x70, 0x65, 0x74, 0x65]

  function Person(name: Bytes, age: Int64): Json { Object([Field(NAME, Bytestring(name)), Field(AGE, Integer(age))]) }

  function People(): Json {
    Array([Person(FRED, 20), Person(PETE, 30), Object([Field(AGE, Integer(25))])], [Text(NAME, Byte), Text(AGE, Byte)])
  }

  lemma {:induction false} CStrIs(s: Bytes)
    requires forall i :: 0 <= i < |s| ==> s[i] != 0
    ensures CStr(s) == s
  {
    if s != [] { CStrIs(s[1..]); }
  }

  lemma FullRow(c: Ctx, name: Bytes, age: Int64)
    requires |name| < 128 && 0 <= age < 128
    ensures EncodeRow(c, [Text(NAME, Byte), Text(AGE, Byte)], Person(name, age)) ==
              [0x02, 0x03, |name|] + name + [0x03, age]
  {
    hide Encode, EncodeInt;
    var templ, row := [Text(NAME, Byte), Text(AGE, Byte)], Person(name, age);
    CStrIs(NAME);
    CStrIs(AGE);
    assert row.fields[1..] == [Field(AGE, Integer(age))] && NAME != AGE;
    assert Lookup(row.fields[1..], AGE) == Some(Integer(age));
    assert Member(row, templ[0]) == Some(Bytestring(name)) && Member(row, templ[1]) == Some(Integer(age));
    Atoms(c, Text(name, Byte));
    AgeBytes(c, age);
    assert templ[1..] == [templ[1]] && [templ[1]][1..] == [];
    assert EncodeRow(c, [templ[1]], row) == EncodeCell(c, templ[1], row) + EncodeRow(c, [], row);
  }

  lemma AgeBytes(c: Ctx, age: Int64)
    requires 0 <= age < 128
    ensures Encode(c, Integer(age)) == [0x03, age]
  {
    SmallInt(age);
  }

  lemma AgeRow(c: Ctx, age: Int64)
    requires 0 <= age < 128
    ensures EncodeRow(c, [Text(NAME, Byte), Text(AGE, Byte)], Object([Field(AGE, Integer(age))])) == [0x0c, 0x03, age]
  {
    hide Encode, EncodeInt;
    var templ, row := [Text(NAME, Byte), Text(AGE, Byte)], Object([Field(AGE, Integer(age))]);
    CStrIs(NAME);
    CStrIs(AGE);
    assert Member(row, templ[0]) == None && Member(row, templ[1]) == Some(Integer(age));
    AgeBytes(c, age);
    assert templ[1..] == [templ[1]] && [templ[1]][1..] == [];
    assert EncodeRow(c, [templ[1]], row) == EncodeCell(c, templ[1], row) + EncodeRow(c, [], row);
  }

  /** The documented example of a templated array. */
  lemma TemplateSequence(c: Ctx)
    ensures Encode(c, People()) ==
              [0x0b] + ([0x00] + [0x03, 0x02] + (([0x02, 0x03, 0x04] + NAME) + ([0x02, 0x03, 0x03] + AGE)))
              + [0x03, 0x03]
              + (([0x02, 0x03, 0x04] + FRED + [0x03, 0x14])
                 + ([0x02, 0x03, 0x04] + PETE + [0x03, 0x1e]) + [0x0c, 0x03, 0x19])
  {
    hide EncodeInt, EncodeRow, EncodeBytes, StringTag, EncodeRows, EncodeTexts;
    var templ, rows := People().templ, People().elems;
    TemplateKeys(c, templ);
    FullRow(c, FRED, 20);
    FullRow(c, PETE, 30);
    AgeRow(c, 25);
    ThreeRows(c, templ, rows[0], rows[1], rows[2]);
    SmallInt(2);
    SmallInt(3);
  }

  lemma TemplateKeys(c: Ctx, templ: seq<Text>)
    requires templ == [Text(NAME, Byte), Text(AGE, Byte)]
    ensures EncodeTexts(c, templ) == ([0x02, 0x03, 0x04] + NAME) + ([0x02, 0x03, 0x03] + AGE)
  {
    hide EncodeBytes, StringTag;
    TextBytes(c, templ[0]);
    TextBytes(c, templ[1]);
    assert templ[1..] == [templ[1]] && [templ[1]][1..] == [];
    assert EncodeTexts(c, [templ[1]]) == EncodeBytes(StringTag(c, Byte), AGE) + EncodeTexts(c, []);
  }

  lemma ThreeRows(c: Ctx, templ: seq<Text>, x: Json, y: Json, z: Json)
    ensures EncodeRows(c, templ, [x, y, z]) == EncodeRow(c, templ, x) + EncodeRow(c, templ, y) + EncodeRow(c, templ, z)
  {
    hide EncodeRow;
    assert [x, y, z][1..] == [y, z] && [y, z][1..] == [z] && [z][1..] == [];
    assert EncodeRows(c, templ, [z]) == EncodeRow(c, templ, z) + EncodeRows(c, templ, []);
    assert EncodeRows(c, templ, [y, z]) == EncodeRow(c, templ, y) + EncodeRows(c, templ, [z]);
  }

  /** An object of one member: its tag, its size, the key as a byte string, the value. */
  lemma ObjectSequence(c: Ctx, key: Bytes, v: Json)
    requires |key| < 128 && forall i :: 0 <= i < |key| ==> key[i] != 0
    ensures Encode(c, Object([Field(key, v)])) == [0x01, 0x03, 0x01, 0x02, 0x03, |key|] + key + Encode(c, v)
  {
    hide EncodeInt, EncodeFields;
    SmallInt(1);
    OneField(c, key, v);
  }

  lemma OneField(c: Ctx, key: Bytes, v: Json)
    requires |key| < 128 && forall i :: 0 <= i < |key| ==> key[i] != 0
    ensures EncodeFields(c, [Field(key, v)]) == [0x02, 0x03, |key|] + key + Encode(c, v)
  {
    hide Encode, EncodeBytes;
    var f := Field(key, v);
    CStrIs(key);
    KeyBytes(key);
    assert [f][1..] == [];
    assert EncodeFields(c, [f]) == EncodeBytes(BYTESTRING, key) + Encode(c, v) + EncodeFields(c, []);
  }

  lemma KeyBytes(key: Bytes)
    requires |key| < 128
    ensures EncodeBytes(BYTESTRING, key) == [0x02, 0x03, |key|] + key
  {
    SmallInt(|key|);
  }
}
