/** Which dumps the parser accepts: exactly those of values within its limits. */
module BserLimits {
  import opened Bser
  import opened BserDecode
  import opened BserMeaning
  import opened BserRoundTrip
  import opened Options

  /** Lengths that json_int_t can hold. */
  const INT64_END: nat := 0x8000_0000_0000_0000

  // ----- No part of a value is larger than its dump

  lemma {:induction false} DumpIsLonger(c: Ctx, vs: seq<Json>)
    ensures |vs| <= |EncodeAll(c, vs)|
    decreases vs
  {
    if vs != [] {
      FirstByte(c, vs[0]);
      DumpIsLonger(c, vs[1..]);
    }
  }

  lemma {:induction false} FieldsDumpIsLonger(c: Ctx, fields: seq<Field>)
    ensures |fields| <= |EncodeFields(c, fields)|
    decreases fields
  {
    if fields != [] { FieldsDumpIsLonger(c, fields[1..]); }
  }

  lemma {:induction false} KeysDumpIsLonger(c: Ctx, ts: seq<Text>)
    ensures |ts| <= |EncodeTexts(c, ts)|
  {
    if ts != [] { KeysDumpIsLonger(c, ts[1..]); }
  }

  lemma CellIsLonger(c: Ctx, key: Text, row: Json)
    ensures |EncodeCell(c, key, row)| >= 1
  {
    var m := Member(row, key);
    if m.Some? { FirstByte(c, m.value); }
  }

  lemma {:induction false} RowsDumpIsLonger(c: Ctx, templ: seq<Text>, rows: seq<Json>)
    requires templ != []
    ensures |rows| <= |EncodeRows(c, templ, rows)|
    decreases rows
  {
    if rows != [] {
      CellIsLonger(c, templ[0], rows[0]);
      assert |EncodeRow(c, templ, rows[0])| >= 1;
      RowsDumpIsLonger(c, templ, rows[1..]);
    }
  }

  // ----- Atoms

  lemma SizeRefused(n: nat, tail: Bytes)
    requires MAX_CONTAINER < n < INT64_END
    ensures ExpectSize(EncodeInt(n) + tail).Err?
  {
    IntegerRoundTrip(n, tail);
  }

  lemma BytesRefused(tag: byte, s: Bytes, tail: Bytes)
    requires MAX_CONTAINER < |s| < INT64_END
    ensures var b := EncodeBytes(tag, s) + tail; b[0] == tag && ParseString(b[1..]).Err?
  {
    assert (EncodeBytes(tag, s) + tail)[1..] == EncodeInt(|s|) + (s + tail);
    SizeRefused(|s|, s + tail);
  }

  lemma TextRefused(c: Ctx, t: Text, depth: nat, tail: Bytes)
    requires !TextFits(t) && |t.s| < INT64_END
    ensures ExpectValue(EncodeBytes(StringTag(c, t.t), t.s) + tail, depth).Err?
  {
    BytesRefused(StringTag(c, t.t), t.s, tail);
  }

  lemma AtomRefused(c: Ctx, v: Json, depth: nat, tail: Bytes)
    requires !v.Array? && !v.Object? && !Portable(v, MAX_DEPTH - 1 - depth) && |Encode(c, v)| < INT64_END
    ensures ExpectValue(Encode(c, v) + tail, depth).Err?
  {
    var b := Encode(c, v) + tail;
    match v
    case Real(d) =>
      assert b[1..] == d + tail;
      assert (d + tail)[..8] == d;
    case Str(t) => TextRefused(c, t, depth, tail);
  }

  // ----- Containers

  /** A dump is refused if the value exceeds the limits, whatever follows it. */
  lemma {:induction false} Refused(c: Ctx, v: Json, depth: nat, tail: Bytes)
    requires depth < MAX_DEPTH && |Encode(c, v)| < INT64_END && !Portable(v, MAX_DEPTH - 1 - depth)
    ensures ExpectValue(Encode(c, v) + tail, depth).Err?
    decreases v, 1
  {
    match v
    case Array(elems, templ) =>
      if templ == [] { ArrayRefused(c, elems, depth, tail); }
      else { TemplateRefused(c, elems, templ, depth, tail); }
    case Object(fields) => ObjectRefused(c, fields, depth, tail);
    case _ => AtomRefused(c, v, depth, tail);
  }

  lemma {:induction false} ArrayRefused(c: Ctx, elems: seq<Json>, depth: nat, tail: Bytes)
    requires depth < MAX_DEPTH && |Encode(c, Array(elems, []))| < INT64_END
    requires !Portable(Array(elems, []), MAX_DEPTH - 1 - depth)
    ensures ExpectValue(Encode(c, Array(elems, [])) + tail, depth).Err?
    decreases elems, 2
  {
    hide EncodeInt, EncodeAll, ParseElems, ExpectSize;
    var b := Encode(c, Array(elems, [])) + tail;
    var body := EncodeAll(c, elems);
    assert b[1..] == EncodeInt(|elems|) + (body + tail) && b[0] == ARRAY;
    DumpIsLonger(c, elems);
    if |elems| > MAX_CONTAINER {
      SizeRefused(|elems|, body + tail);
    } else if depth + 1 != MAX_DEPTH {
      SizeRoundTrip(|elems|, body + tail);
      ElemsRefused(c, elems, depth + 1, [], tail);
    }
    assert ParseArray(b[1..], depth).Err?;
  }

  lemma {:induction false} ElemsRefused(c: Ctx, vs: seq<Json>, depth: nat, acc: seq<Json>, tail: Bytes)
    requires depth < MAX_DEPTH && |EncodeAll(c, vs)| < INT64_END
    requires exists i :: 0 <= i < |vs| && !Portable(vs[i], MAX_DEPTH - 1 - depth)
    ensures ParseElems(EncodeAll(c, vs) + tail, depth, |vs|, acc).Err?
    decreases vs, 0
  {
    var more := EncodeAll(c, vs[1..]);
    assert EncodeAll(c, vs) + tail == Encode(c, vs[0]) + (more + tail);
    if Portable(vs[0], MAX_DEPTH - 1 - depth) {
      RoundTrip(c, vs[0], depth, more + tail);
      var i :| 0 <= i < |vs| && !Portable(vs[i], MAX_DEPTH - 1 - depth);
      assert vs[1..][i - 1] == vs[i];
      ElemsRefused(c, vs[1..], depth, acc + [Transport(c, vs[0])], tail);
    } else {
      Refused(c, vs[0], depth, more + tail);
    }
  }

  lemma {:induction false} ObjectRefused(c: Ctx, fields: seq<Field>, depth: nat, tail: Bytes)
    requires depth < MAX_DEPTH && |Encode(c, Object(fields))| < INT64_END
    requires !Portable(Object(fields), MAX_DEPTH - 1 - depth)
    ensures ExpectValue(Encode(c, Object(fields)) + tail, depth).Err?
    decreases fields, 2
  {
    hide EncodeInt, EncodeFields, ParseFields, ExpectSize;
    var b := Encode(c, Object(fields)) + tail;
    var body := EncodeFields(c, fields);
    assert b[1..] == EncodeInt(|fields|) + (body + tail) && b[0] == OBJECT;
    FieldsDumpIsLonger(c, fields);
    if |fields| > MAX_CONTAINER {
      SizeRefused(|fields|, body + tail);
    } else if depth + 1 != MAX_DEPTH {
      SizeRoundTrip(|fields|, body + tail);
      FieldsRefused(c, fields, depth + 1, [], tail);
    }
    assert ParseObject(b[1..], depth).Err?;
  }

  lemma KeyIsShorter(key: Bytes)
    ensures |key| <= |EncodeBytes(BYTESTRING, key)|
  {}

  lemma KeyArrives(key: Bytes, tail: Bytes)
    requires |key| < INT64_END
    ensures ExpectString(EncodeBytes(BYTESTRING, key) + tail).Err? <==> |key| > MAX_CONTAINER
    ensures |key| <= MAX_CONTAINER ==> ExpectString(EncodeBytes(BYTESTRING, key) + tail) == Ok(key, tail)
  {
    if |key| > MAX_CONTAINER { BytesRefused(BYTESTRING, key, tail); } else { BytesRoundTrip(BYTESTRING, key, tail); }
  }

  lemma {:induction false} FieldsRefused(c: Ctx, fields: seq<Field>, depth: nat, acc: seq<Field>, tail: Bytes)
    requires depth < MAX_DEPTH && |EncodeFields(c, fields)| < INT64_END
    requires !PortableFields(fields, MAX_DEPTH - 1 - depth)
    ensures ParseFields(EncodeFields(c, fields) + tail, depth, |fields|, acc).Err?
    decreases fields, 0
  {
    hide EncodeBytes, Encode, Portable, ExpectValue, ExpectString, Transport, Emplace;
    var f := fields[0];
    KeyIsShorter(CStr(f.key));
    var more := EncodeFields(c, fields[1..]);
    var b1 := Encode(c, f.value) + (more + tail);
    assert EncodeFields(c, fields) + tail == EncodeBytes(BYTESTRING, CStr(f.key)) + b1;
    KeyArrives(CStr(f.key), b1);
    if |CStr(f.key)| <= MAX_CONTAINER {
      if Portable(f.value, MAX_DEPTH - 1 - depth) {
        RoundTrip(c, f.value, depth, more + tail);
        RestIsNotPortable(fields, MAX_DEPTH - 1 - depth);
        FieldsRefused(c, fields[1..], depth, Emplace(acc, CStr(f.key), Transport(c, f.value)), tail);
      } else {
        Refused(c, f.value, depth, more + tail);
      }
    }
  }

  lemma RestIsNotPortable(fields: seq<Field>, room: int)
    requires fields != [] && |CStr(fields[0].key)| <= MAX_CONTAINER && Portable(fields[0].value, room)
    requires !PortableFields(fields, room)
    ensures !PortableFields(fields[1..], room)
  {
    var i :| 0 <= i < |fields| && !(|CStr(fields[i].key)| <= MAX_CONTAINER && Portable(fields[i].value, room));
    assert fields[1..][i - 1] == fields[i];
  }

  // ----- Templated arrays

  lemma {:induction false} TextsRefused(c: Ctx, ts: seq<Text>, depth: nat, acc: seq<Json>, tail: Bytes)
    requires |EncodeTexts(c, ts)| < INT64_END && exists i :: 0 <= i < |ts| && !TextFits(ts[i])
    ensures ParseElems(EncodeTexts(c, ts) + tail, depth, |ts|, acc).Err?
  {
    var more := EncodeTexts(c, ts[1..]);
    assert EncodeTexts(c, ts) + tail == EncodeBytes(StringTag(c, ts[0].t), ts[0].s) + (more + tail);
    if TextFits(ts[0]) {
      TextRoundTrip(c, ts[0], depth, more + tail);
      var i :| 0 <= i < |ts| && !TextFits(ts[i]);
      assert ts[1..][i - 1] == ts[i];
      TextsRefused(c, ts[1..], depth, acc + [Str(Arrived(c, ts[0]))], tail);
    } else {
      TextRefused(c, ts[0], depth, more + tail);
    }
  }

  lemma TemplateKeysRefused(c: Ctx, templ: seq<Text>, depth: nat, tail: Bytes)
    requires |EncodeTexts(c, templ)| < INT64_END
    requires |templ| > MAX_CONTAINER || depth + 1 == MAX_DEPTH || exists i :: 0 <= i < |templ| && !TextFits(templ[i])
    ensures ExpectArray([ARRAY] + (EncodeInt(|templ|) + (EncodeTexts(c, templ) + tail)), depth).Err?
  {
    var keys := EncodeTexts(c, templ);
    var b := [ARRAY] + (EncodeInt(|templ|) + (keys + tail));
    assert b[1..] == EncodeInt(|templ|) + (keys + tail);
    KeysDumpIsLonger(c, templ);
    if |templ| > MAX_CONTAINER {
      SizeRefused(|templ|, keys + tail);
    } else if depth + 1 != MAX_DEPTH {
      SizeRoundTrip(|templ|, keys + tail);
      TextsRefused(c, templ, depth + 1, [], tail);
    }
  }

  lemma {:induction false} TemplateRefused(c: Ctx, elems: seq<Json>, templ: seq<Text>, depth: nat, tail: Bytes)
    requires templ != [] && depth < MAX_DEPTH && |Encode(c, Array(elems, templ))| < INT64_END
    requires !Portable(Array(elems, templ), MAX_DEPTH - 1 - depth)
    ensures ExpectValue(Encode(c, Array(elems, templ)) + tail, depth).Err?
    decreases elems, 2
  {
    hide EncodeInt, EncodeTexts, EncodeRows, ParseRows, ExpectArray, ExpectSize;
    var b2 := EncodeRows(c, templ, elems) + tail;
    var b1 := EncodeInt(|elems|) + b2;
    EncodedTemplate(c, elems, templ, tail);
    RowsDumpIsLonger(c, templ, elems);
    var b := Encode(c, Array(elems, templ)) + tail;
    assert b[0] == TEMPLATE && b[1..] == [ARRAY] + (EncodeInt(|templ|) + (EncodeTexts(c, templ) + b1));
    if depth + 1 != MAX_DEPTH {
      if |templ| > MAX_CONTAINER || depth + 2 == MAX_DEPTH || exists i :: 0 <= i < |templ| && !TextFits(templ[i]) {
        TemplateKeysRefused(c, templ, depth + 1, b1);
      } else {
        TemplateKeysRoundTrip(c, templ, depth + 1, b1);
        KeysArrive(c, templ);
        if |elems| > MAX_CONTAINER {
          SizeRefused(|elems|, b2);
        } else {
          SizeRoundTrip(|elems|, b2);
          RowsRefused(c, templ, elems, depth + 1, [], tail);
        }
      }
    }
    assert ParseTemplate(b[1..], depth).Err?;
  }

  lemma {:induction false} RowsRefused(
    c: Ctx, templ: seq<Text>, rows: seq<Json>, depth: nat, acc: seq<Json>, tail: Bytes)
    requires templ != [] && depth < MAX_DEPTH && |EncodeRows(c, templ, rows)| < INT64_END
    requires exists i :: 0 <= i < |rows| && !PortableRow(rows[i], templ, MAX_DEPTH - 1 - depth)
    ensures ParseRows(EncodeRows(c, templ, rows) + tail, depth, CKeys(templ), |rows|, acc).Err?
    decreases rows, 0
  {
    var more := EncodeRows(c, templ, rows[1..]);
    assert EncodeRows(c, templ, rows) + tail == EncodeRow(c, templ, rows[0]) + (more + tail);
    if PortableRow(rows[0], templ, MAX_DEPTH - 1 - depth) {
      RoundTripRow(c, templ, rows[0], depth, [], more + tail);
      var i :| 0 <= i < |rows| && !PortableRow(rows[i], templ, MAX_DEPTH - 1 - depth);
      assert rows[1..][i - 1] == rows[i];
      RowsRefused(c, templ, rows[1..], depth, acc + [Object(TransportRow(c, templ, rows[0], []))], tail);
    } else {
      RowRefused(c, templ, rows[0], depth, [], more + tail);
    }
  }

  lemma {:induction false} RowRefused(
    c: Ctx, templ: seq<Text>, row: Json, depth: nat, acc: seq<Field>, tail: Bytes)
    requires depth < MAX_DEPTH && |EncodeRow(c, templ, row)| < INT64_END
    requires !PortableRow(row, templ, MAX_DEPTH - 1 - depth)
    ensures ParseRow(EncodeRow(c, templ, row) + tail, depth, CKeys(templ), acc).Err?
    decreases row, 2, |templ|
  {
    hide Encode, Portable, ParseValue, Transport, Assign;
    var more := EncodeRow(c, templ[1..], row) + tail;
    var b := EncodeRow(c, templ, row) + tail;
    assert b == EncodeCell(c, templ[0], row) + more;
    assert CKeys(templ)[1..] == CKeys(templ[1..]);
    var m := Member(row, templ[0]);
    if m.Some? && !Portable(m.value, MAX_DEPTH - 1 - depth) {
      FirstByte(c, m.value);
      Refused(c, m.value, depth, more);
    } else {
      if m.Some? {
        FirstByte(c, m.value);
        RoundTrip(c, m.value, depth, more);
      } else {
        assert b[1..] == more;
      }
      RestOfRow(row, templ, MAX_DEPTH - 1 - depth);
      RowRefused(c, templ[1..], row, depth, TransportCell(c, templ[0], row, acc), tail);
    }
  }

  lemma RestOfRow(row: Json, templ: seq<Text>, room: int)
    requires templ != [] && !PortableRow(row, templ, room)
    requires var m := Member(row, templ[0]); m.Some? ==> Portable(m.value, room)
    ensures !PortableRow(row, templ[1..], room)
  {
    var i :| 0 <= i < |templ| && !(var m := Member(row, templ[i]); m.Some? ==> Portable(m.value, room));
    assert templ[1..][i - 1] == templ[i];
  }

  // ----- The limits in figures

  /** n arrays, one inside the other. */
  function Nest(n: nat): Json { if n == 0 then Null else Array([Nest(n - 1)], []) }

  lemma {:induction false} NestFits(n: nat, room: int)
    ensures Portable(Nest(n), room) <==> n == 0 || n <= room
  {
    if n > 0 {
      NestFits(n - 1, room - 1);
      var v := Nest(n);
      assert v.elems[0] == Nest(n - 1);
    }
  }

  /** The parser follows 499 arrays inside each other and refuses 500. */
  lemma DepthLimit(c: Ctx, n: nat, tail: Bytes)
    requires |Encode(c, Nest(n))| < INT64_END
    ensures Decode(Encode(c, Nest(n)) + tail).Ok? <==> n < 500
  {
    hide Encode;
    NestFits(n, MAX_DEPTH - 1);
    DumpDecodes(c, Nest(n), tail);
  }

  /** A size is accepted from zero to 2^32 - 1. */
  lemma SizeLimit(n: Int64, tail: Bytes)
    ensures ExpectSize(EncodeInt(n) + tail).Ok? <==> 0 <= n < 0x1_0000_0000
  {
    IntegerRoundTrip(n, tail);
  }

  /** No value starts with the skip mark or with a byte above 0x0d. */
  lemma UnknownTag(tag: byte, rest: Bytes)
    requires tag == 0x0c || tag > 0x0d
    ensures Decode([tag] + rest) == Err(BadType)
  {
    var b := [tag] + rest;
    assert b[0] == tag && b[1..] == rest;
    assert ParseValue(tag, rest, 0) == Err(BadType);
  }

  /** The keys of a template are an array of at least one element, and the keys of an object are strings. */
  lemma Malformed(tag: byte, rest: Bytes)
    ensures tag != 0x00 ==> Decode([0x0b, tag] + rest).Err?
    ensures Decode([0x0b, 0x00, 0x03, 0x00] + rest).Err?
    ensures tag != 0x02 && tag != 0x0d ==> Decode([0x01, 0x03, 0x01, tag] + rest).Err?
  {
    NotAnArray(tag, rest);
    NoTemplateKeys(rest);
    NotAKey(tag, rest);
  }

  lemma NotAnArray(tag: byte, rest: Bytes)
    ensures tag != 0x00 ==> Decode([0x0b, tag] + rest).Err?
  {
    var b := [0x0b, tag] + rest;
    assert b[0] == 0x0b && b[1..] == [tag] + rest;
    assert Decode(b) == ParseValue(0x0b, [tag] + rest, 0) == ParseTemplate([tag] + rest, 0);
  }

  lemma Small(n: byte, rest: Bytes)
    requires n < 128
    ensures ExpectSize([0x03, n] + rest) == Ok(n, rest)
  {
    Moduli();
    var b := [0x03, n] + rest;
    assert b[0] == 0x03 && b[1..] == [n] + rest && ([n] + rest)[..1] == [n] && ([n] + rest)[1..] == rest;
    assert FromBytes([n]) == n by { assert [n][1..] == []; }
  }

  lemma NoTemplateKeys(rest: Bytes)
    ensures Decode([0x0b, 0x00, 0x03, 0x00] + rest).Err?
  {
    hide ExpectSize;
    var b := [0x0b, 0x00, 0x03, 0x00] + rest;
    assert b[0] == 0x0b && b[1..] == [0x00] + ([0x03, 0x00] + rest);
    Small(0, rest);
    var c := [0x00] + ([0x03, 0x00] + rest);
    assert c[0] == 0x00 && c[1..] == [0x03, 0x00] + rest;
    assert ParseElems(rest, 2, 0, []) == Ok([], rest);
    assert ParseArray([0x03, 0x00] + rest, 1) == Ok([], rest);
    assert ExpectArray(c, 1) == Ok([], rest);
    assert Decode(b) == ParseValue(0x0b, c, 0) == ParseTemplate(c, 0);
  }

  lemma NotAKey(tag: byte, rest: Bytes)
    ensures tag != 0x02 && tag != 0x0d ==> Decode([0x01, 0x03, 0x01, tag] + rest).Err?
  {
    hide ExpectSize;
    var b := [0x01, 0x03, 0x01, tag] + rest;
    assert b[0] == 0x01 && b[1..] == [0x03, 0x01] + ([tag] + rest);
    Small(1, [tag] + rest);
    var c := [0x03, 0x01] + ([tag] + rest);
    assert tag != 0x02 && tag != 0x0d ==> ParseFields([tag] + rest, 1, 1, []).Err?;
    assert Decode(b) == ParseValue(0x01, c, 0) == ParseObject(c, 0);
  }

  /** A real is refused exactly if its eleven bits of exponent, above the 52 of the fraction, are all ones. */
  lemma RealLimit(d: Double, rest: Bytes)
    ensures Decode([0x07] + d + rest).Ok? <==> FromBytes(d) / 0x10_0000_0000_0000 % 0x800 != 0x7ff
  {
    var b := [0x07] + d + rest;
    assert b[0] == 0x07 && b[1..] == d + rest && (d + rest)[..8] == d;
    assert Decode(b) == ParseValue(0x07, d + rest, 0) == ParseReal(d + rest);
    Exponent(d);
  }

  lemma Exponent(d: Double)
    ensures FromBytes(d) / 0x10_0000_0000_0000 % 0x800 == 0x7ff <==> !Finite(d)
  {
    var low, x: int, y: int := d[..6], d[6], d[7];
    assert d == low + d[6..] && d[6..] == [d[6], d[7]];
    TwoHighBytes(d[6], d[7]);
    HighBytes(low, d[6..]);
    SixBytes();
    Shifted(FromBytes(low), x, y);
  }

  lemma TwoHighBytes(x: byte, y: byte)
    ensures FromBytes([x, y]) == (x as int) + 256 * (y as int)
  {
    assert [x, y][1..] == [y] && [y][1..] == [];
    assert FromBytes([y]) == y;
  }

  lemma Shifted(n: nat, x: int, y: int)
    requires n < 0x1_0000_0000_0000 && 0 <= x < 256 && 0 <= y < 256
    ensures (n + 0x1_0000_0000_0000 * (x + 256 * y)) / 0x10_0000_0000_0000 % 0x800 == x / 16 + y % 128 * 16
  {
    var h := x + 256 * y;
    assert (n + 0x1_0000_0000_0000 * h) / 0x10_0000_0000_0000 == h / 16;
    assert h / 16 == x / 16 + 16 * y;
    assert (x / 16 + 16 * y) % 0x800 == x / 16 + y % 128 * 16;
  }

  lemma SixBytes()
    ensures Modulus(6) == 0x1_0000_0000_0000
  {
    assert Modulus(5) == 0x100_0000_0000 && Modulus(4) == 0x1_0000_0000 && Modulus(3) == 0x100_0000;
    assert Modulus(2) == 0x1_0000 && Modulus(1) == 0x100;
  }

  lemma {:induction false} HighBytes(low: Bytes, high: Bytes)
    ensures FromBytes(low + high) == FromBytes(low) + Modulus(|low|) * FromBytes(high)
  {
    if low == [] {
      assert low + high == high;
    } else {
      HighBytes(low[1..], high);
      assert (low + high)[1..] == low[1..] + high;
      Scaled(FromBytes(low[1..]), Modulus(|low| - 1), FromBytes(high));
    }
  }

  lemma Scaled(a: nat, m: nat, h: nat)
    ensures 256 * (a + m * h) == 256 * a + 256 * m * h
  {}

  // ----- The theorem

  /** The parser accepts the dump of a value exactly if the value is within the limits, and then it gives back what
      was sent, with the string types that version and capabilities allow. */
  lemma DumpDecodes(c: Ctx, v: Json, tail: Bytes)
    requires |Encode(c, v)| < INT64_END
    ensures Decode(Encode(c, v) + tail) == Ok(Transport(c, v), tail) <==> Portable(v, MAX_DEPTH - 1)
    ensures Decode(Encode(c, v) + tail).Ok? <==> Portable(v, MAX_DEPTH - 1)
    ensures Decode(Encode(c, v) + tail).Ok? ==> Carried(c, v, Decode(Encode(c, v) + tail).value)
  {
    hide Encode, Transport, Carried;
    TransportCarries(c, v);
    if Portable(v, MAX_DEPTH - 1) { RoundTrip(c, v, 0, tail); } else { Refused(c, v, 0, tail); }
  }
}
