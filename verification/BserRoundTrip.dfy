/** Decoding a dump gives the value back, and consumes exactly the dump. */
module BserRoundTrip {
  import opened Bser
  import opened BserDecode
  import opened Options

  // ----- What arrives

  /** String types survive only with version 2 and unless bit 0 of the capabilities disables them. */
  function Arrived(c: Ctx, t: Text): Text {
    if c.version == 1 || c.capabilities % 2 == 1 then Text(t.s, Byte) else t
  }

  /** The value the receiver gets: string types as negotiated, templates expanded and forgotten, object keys cut at a
      NUL. */
  function Transport(c: Ctx, v: Json): Json
    decreases v, 0
  {
    match v
    case Str(t) => Str(Arrived(c, t))
    case Array(elems, templ) =>
      Array(if templ == [] then TransportAll(c, elems) else TransportRows(c, templ, elems), [])
    case Object(fields) => Object(TransportFields(c, fields, []))
    case _ => v
  }

  function TransportAll(c: Ctx, vs: seq<Json>): (r: seq<Json>)
    ensures |r| == |vs|
    decreases vs
  {
    if vs == [] then [] else [Transport(c, vs[0])] + TransportAll(c, vs[1..])
  }

  function TransportFields(c: Ctx, fields: seq<Field>, acc: seq<Field>): seq<Field>
    decreases fields
  {
    if fields == [] then acc
    else TransportFields(c, fields[1..], Emplace(acc, CStr(fields[0].key), Transport(c, fields[0].value)))
  }

  function TransportRows(c: Ctx, templ: seq<Text>, rows: seq<Json>): (r: seq<Json>)
    ensures |r| == |rows|
    decreases rows
  {
    if rows == [] then []
    else [Object(TransportRow(c, templ, rows[0], []))] + TransportRows(c, templ, rows[1..])
  }

  function TransportRow(c: Ctx, templ: seq<Text>, row: Json, acc: seq<Field>): seq<Field>
    decreases row, |templ|
  {
    if templ == [] then acc
    else TransportRow(c, templ[1..], row, TransportCell(c, templ[0], row, acc))
  }

  function TransportCell(c: Ctx, key: Text, row: Json, acc: seq<Field>): seq<Field>
    decreases row, 0
  {
    match Member(row, key)
    case None => acc
    case Some(x) => Assign(acc, CStr(key.s), Transport(c, x))
  }

  // ----- The limits: sizes of at most 2^32 - 1, finite reals, and depth

  predicate TextFits(t: Text) { |t.s| <= MAX_CONTAINER }

  /** v is within the decoder's limits when `room` more containers may be entered. A template
      enters two while its keys are read, and its rows cost nothing. */
  predicate Portable(v: Json, room: int)
    decreases v, 0
  {
    match v
    case Real(d) => Finite(d)
    case Str(t) => TextFits(t)
    case Array(elems, templ) =>
      && |elems| <= MAX_CONTAINER && |templ| <= MAX_CONTAINER
      && if templ == [] then room >= 1 && forall i :: 0 <= i < |elems| ==> Portable(elems[i], room - 1)
         else room >= 2 && (forall i :: 0 <= i < |templ| ==> TextFits(templ[i]))
              && forall i :: 0 <= i < |elems| ==> PortableRow(elems[i], templ, room - 1)
    case Object(fields) => room >= 1 && |fields| <= MAX_CONTAINER && PortableFields(fields, room - 1)
    case _ => true
  }

  predicate PortableFields(fields: seq<Field>, room: int)
    decreases fields
  {
    forall i :: 0 <= i < |fields| ==> |CStr(fields[i].key)| <= MAX_CONTAINER && Portable(fields[i].value, room)
  }

  /** Only the members that the template names are sent. */
  predicate PortableRow(row: Json, templ: seq<Text>, room: int)
    decreases row, 1
  {
    forall i :: 0 <= i < |templ| ==> var m := Member(row, templ[i]); m.Some? ==> Portable(m.value, room)
  }

  // ----- Atoms

  lemma IntegerRoundTrip(i: Int64, tail: Bytes)
    ensures ExpectInteger(EncodeInt(i) + tail) == Ok(i, tail)
  {
    var w := IntSize(i);
    var n := ToBytes(i % Modulus(w), w);
    SignedRoundTrip(i);
    assert (EncodeInt(i) + tail)[1..] == n + tail;
    assert (n + tail)[..w] == n && (n + tail)[w..] == tail;
  }

  lemma SizeRoundTrip(n: nat, tail: Bytes)
    requires n <= MAX_CONTAINER
    ensures ExpectSize(EncodeInt(n) + tail) == Ok(n, tail)
  {
    IntegerRoundTrip(n, tail);
  }

  lemma BytesRoundTrip(tag: byte, s: Bytes, tail: Bytes)
    requires |s| <= MAX_CONTAINER
    ensures var b := EncodeBytes(tag, s) + tail; b[0] == tag && ParseString(b[1..]) == Ok(s, tail)
  {
    assert (EncodeBytes(tag, s) + tail)[1..] == EncodeInt(|s|) + (s + tail);
    SizeRoundTrip(|s|, s + tail);
    assert (s + tail)[..|s|] == s && (s + tail)[|s|..] == tail;
  }

  lemma FirstByte(c: Ctx, v: Json)
    ensures Encode(c, v) != [] && Encode(c, v)[0] != SKIP
  {}

  // ----- Values

  lemma TextRoundTrip(c: Ctx, t: Text, depth: nat, tail: Bytes)
    requires TextFits(t)
    ensures ExpectValue(EncodeBytes(StringTag(c, t.t), t.s) + tail, depth) == Ok(Str(Arrived(c, t)), tail)
  {
    BytesRoundTrip(StringTag(c, t.t), t.s, tail);
  }

  lemma AtomRoundTrip(c: Ctx, v: Json, depth: nat, tail: Bytes)
    requires !v.Array? && !v.Object? && Portable(v, MAX_DEPTH - 1 - depth)
    ensures ExpectValue(Encode(c, v) + tail, depth) == Ok(Transport(c, v), tail)
  {
    var b := Encode(c, v) + tail;
    match v
    case Null => assert b[1..] == tail;
    case True => assert b[1..] == tail;
    case False => assert b[1..] == tail;
    case Integer(i) => IntegerRoundTrip(i, tail);
    case Real(d) =>
      assert b[1..] == d + tail;
      assert (d + tail)[..8] == d && (d + tail)[8..] == tail;
    case Str(t) => TextRoundTrip(c, t, depth, tail);
  }

  /** The receiver reads back exactly what was sent, whatever follows it. */
  lemma {:induction false} RoundTrip(c: Ctx, v: Json, depth: nat, tail: Bytes)
    requires Portable(v, MAX_DEPTH - 1 - depth)
    ensures ExpectValue(Encode(c, v) + tail, depth) == Ok(Transport(c, v), tail)
    decreases v, 1
  {
    match v
    case Array(elems, templ) =>
      if templ == [] { RoundTripArray(c, elems, depth, tail); }
      else { RoundTripTemplate(c, elems, templ, depth, tail); }
    case Object(fields) => RoundTripObject(c, fields, depth, tail);
    case _ => AtomRoundTrip(c, v, depth, tail);
  }

  lemma {:induction false} RoundTripArray(c: Ctx, elems: seq<Json>, depth: nat, tail: Bytes)
    requires Portable(Array(elems, []), MAX_DEPTH - 1 - depth)
    ensures ExpectValue(Encode(c, Array(elems, [])) + tail, depth) == Ok(Array(TransportAll(c, elems), []), tail)
    decreases elems, 2
  {
    hide EncodeInt, EncodeAll, ParseElems, ExpectSize;
    var b := Encode(c, Array(elems, [])) + tail;
    var body := EncodeAll(c, elems);
    assert b[1..] == EncodeInt(|elems|) + (body + tail) && b[0] == ARRAY;
    SizeRoundTrip(|elems|, body + tail);
    RoundTripAll(c, elems, depth + 1, [], tail);
    assert [] + TransportAll(c, elems) == TransportAll(c, elems);
    assert ParseArray(b[1..], depth) == Ok(TransportAll(c, elems), tail);
  }

  lemma {:induction false} RoundTripObject(c: Ctx, fields: seq<Field>, depth: nat, tail: Bytes)
    requires Portable(Object(fields), MAX_DEPTH - 1 - depth)
    ensures ExpectValue(Encode(c, Object(fields)) + tail, depth) == Ok(Object(TransportFields(c, fields, [])), tail)
    decreases fields, 2
  {
    hide EncodeInt, EncodeFields, ParseFields, ExpectSize;
    var b := Encode(c, Object(fields)) + tail;
    var body := EncodeFields(c, fields);
    assert b[1..] == EncodeInt(|fields|) + (body + tail) && b[0] == OBJECT;
    SizeRoundTrip(|fields|, body + tail);
    RoundTripFields(c, fields, depth + 1, [], tail);
    assert ParseObject(b[1..], depth) == Ok(Object(TransportFields(c, fields, [])), tail);
  }

  lemma {:induction false} RoundTripAll(c: Ctx, vs: seq<Json>, depth: nat, acc: seq<Json>, tail: Bytes)
    requires forall i :: 0 <= i < |vs| ==> Portable(vs[i], MAX_DEPTH - 1 - depth)
    ensures ParseElems(EncodeAll(c, vs) + tail, depth, |vs|, acc) == Ok(acc + TransportAll(c, vs), tail)
    decreases vs, 0
  {
    if vs == [] {
      assert EncodeAll(c, vs) + tail == tail;
      assert acc + [] == acc;
    } else {
      var more := EncodeAll(c, vs[1..]);
      assert EncodeAll(c, vs) + tail == Encode(c, vs[0]) + (more + tail);
      RoundTrip(c, vs[0], depth, more + tail);
      RoundTripAll(c, vs[1..], depth, acc + [Transport(c, vs[0])], tail);
      assert acc + [Transport(c, vs[0])] + TransportAll(c, vs[1..]) == acc + TransportAll(c, vs);
    }
  }

  lemma {:induction false} RoundTripFields(c: Ctx, fields: seq<Field>, depth: nat, acc: seq<Field>, tail: Bytes)
    requires PortableFields(fields, MAX_DEPTH - 1 - depth)
    ensures ParseFields(EncodeFields(c, fields) + tail, depth, |fields|, acc)
         == Ok(Object(TransportFields(c, fields, acc)), tail)
    decreases fields, 0
  {
    if fields == [] {
      assert EncodeFields(c, fields) + tail == tail;
    } else {
      var f := fields[0];
      var more := EncodeFields(c, fields[1..]);
      var b1 := Encode(c, f.value) + (more + tail);
      assert EncodeFields(c, fields) + tail == EncodeBytes(BYTESTRING, CStr(f.key)) + b1;
      BytesRoundTrip(BYTESTRING, CStr(f.key), b1);
      RoundTrip(c, f.value, depth, more + tail);
      RoundTripFields(c, fields[1..], depth, Emplace(acc, CStr(f.key), Transport(c, f.value)), tail);
    }
  }

  // ----- Templated arrays

  function ArrivedKeys(c: Ctx, ts: seq<Text>): (r: seq<Json>)
    ensures |r| == |ts| && AllStrings(r)
  {
    if ts == [] then [] else [Str(Arrived(c, ts[0]))] + ArrivedKeys(c, ts[1..])
  }

  lemma {:induction false} RoundTripTexts(c: Ctx, ts: seq<Text>, depth: nat, acc: seq<Json>, tail: Bytes)
    requires forall i :: 0 <= i < |ts| ==> TextFits(ts[i])
    ensures ParseElems(EncodeTexts(c, ts) + tail, depth, |ts|, acc) == Ok(acc + ArrivedKeys(c, ts), tail)
  {
    if ts == [] {
      assert EncodeTexts(c, ts) + tail == tail;
      assert acc + [] == acc;
    } else {
      var more := EncodeTexts(c, ts[1..]);
      assert EncodeTexts(c, ts) + tail == EncodeBytes(StringTag(c, ts[0].t), ts[0].s) + (more + tail);
      TextRoundTrip(c, ts[0], depth, more + tail);
      RoundTripTexts(c, ts[1..], depth, acc + [Str(Arrived(c, ts[0]))], tail);
      assert acc + [Str(Arrived(c, ts[0]))] + ArrivedKeys(c, ts[1..]) == acc + ArrivedKeys(c, ts);
    }
  }

  function CKeys(ts: seq<Text>): (r: seq<Bytes>)
    ensures |r| == |ts|
  {
    if ts == [] then [] else [CStr(ts[0].s)] + CKeys(ts[1..])
  }

  lemma {:induction false} KeysArrive(c: Ctx, ts: seq<Text>)
    ensures Keys(ArrivedKeys(c, ts)) == CKeys(ts)
  {
    if ts != [] {
      KeysArrive(c, ts[1..]);
      assert ArrivedKeys(c, ts)[1..] == ArrivedKeys(c, ts[1..]);
    }
  }

  lemma TemplateKeysRoundTrip(c: Ctx, templ: seq<Text>, depth: nat, tail: Bytes)
    requires |templ| <= MAX_CONTAINER && depth + 1 != MAX_DEPTH && forall i :: 0 <= i < |templ| ==> TextFits(templ[i])
    ensures ExpectArray([ARRAY] + (EncodeInt(|templ|) + (EncodeTexts(c, templ) + tail)), depth)
         == Ok(ArrivedKeys(c, templ), tail)
  {
    var keys := EncodeTexts(c, templ);
    var b := [ARRAY] + (EncodeInt(|templ|) + (keys + tail));
    assert b[1..] == EncodeInt(|templ|) + (keys + tail);
    SizeRoundTrip(|templ|, keys + tail);
    RoundTripTexts(c, templ, depth + 1, [], tail);
    assert [] + ArrivedKeys(c, templ) == ArrivedKeys(c, templ);
  }

  lemma EncodedTemplate(c: Ctx, elems: seq<Json>, templ: seq<Text>, tail: Bytes)
    requires templ != []
    ensures Encode(c, Array(elems, templ)) + tail
         == [TEMPLATE] + ([ARRAY] + (EncodeInt(|templ|) + (EncodeTexts(c, templ)
            + (EncodeInt(|elems|) + (EncodeRows(c, templ, elems) + tail)))))
  {
    hide EncodeInt, EncodeTexts, EncodeRows;
    Regroup([TEMPLATE], [ARRAY], EncodeInt(|templ|), EncodeTexts(c, templ),
            EncodeInt(|elems|), EncodeRows(c, templ, elems), tail);
  }

  lemma Regroup(a: Bytes, b: Bytes, c: Bytes, d: Bytes, e: Bytes, f: Bytes, g: Bytes)
    ensures (a + (b + c + d) + e + f) + g == a + (b + (c + (d + (e + (f + g)))))
  {
    assert (e + f) + g == e + (f + g);
    assert b + c + d + (e + (f + g)) == b + (c + (d + (e + (f + g))));
  }

  lemma {:induction false} RoundTripTemplate(c: Ctx, elems: seq<Json>, templ: seq<Text>, depth: nat, tail: Bytes)
    requires templ != [] && Portable(Array(elems, templ), MAX_DEPTH - 1 - depth)
    ensures ExpectValue(Encode(c, Array(elems, templ)) + tail, depth)
         == Ok(Array(TransportRows(c, templ, elems), []), tail)
    decreases elems, 2
  {
    hide EncodeInt, EncodeTexts, EncodeRows, ParseRows, ExpectArray, ExpectSize;
    var b2 := EncodeRows(c, templ, elems) + tail;
    var b1 := EncodeInt(|elems|) + b2;
    EncodedTemplate(c, elems, templ, tail);
    TemplateKeysRoundTrip(c, templ, depth + 1, b1);
    SizeRoundTrip(|elems|, b2);
    KeysArrive(c, templ);
    RoundTripRows(c, templ, elems, depth + 1, [], tail);
    assert [] + TransportRows(c, templ, elems) == TransportRows(c, templ, elems);
    var b := Encode(c, Array(elems, templ)) + tail;
    assert b[0] == TEMPLATE && b[1..] == [ARRAY] + (EncodeInt(|templ|) + (EncodeTexts(c, templ) + b1));
    assert ParseTemplate(b[1..], depth) == Ok(Array(TransportRows(c, templ, elems), []), tail);
  }

  lemma {:induction false} RoundTripRows(
    c: Ctx, templ: seq<Text>, rows: seq<Json>, depth: nat, acc: seq<Json>, tail: Bytes)
    requires templ != [] && forall i :: 0 <= i < |rows| ==> PortableRow(rows[i], templ, MAX_DEPTH - 1 - depth)
    ensures ParseRows(EncodeRows(c, templ, rows) + tail, depth, CKeys(templ), |rows|, acc)
         == Ok(Array(acc + TransportRows(c, templ, rows), []), tail)
    decreases rows, 0
  {
    if rows == [] {
      assert EncodeRows(c, templ, rows) + tail == tail;
      assert acc + [] == acc;
    } else {
      var more := EncodeRows(c, templ, rows[1..]);
      var o := Object(TransportRow(c, templ, rows[0], []));
      assert EncodeRows(c, templ, rows) + tail == EncodeRow(c, templ, rows[0]) + (more + tail);
      RoundTripRow(c, templ, rows[0], depth, [], more + tail);
      RoundTripRows(c, templ, rows[1..], depth, acc + [o], tail);
      assert acc + [o] + TransportRows(c, templ, rows[1..]) == acc + TransportRows(c, templ, rows);
    }
  }

  lemma {:induction false} RoundTripRow(
    c: Ctx, templ: seq<Text>, row: Json, depth: nat, acc: seq<Field>, tail: Bytes)
    requires PortableRow(row, templ, MAX_DEPTH - 1 - depth)
    ensures ParseRow(EncodeRow(c, templ, row) + tail, depth, CKeys(templ), acc)
         == Ok(TransportRow(c, templ, row, acc), tail)
    decreases row, 2, |templ|
  {
    if templ == [] {
      assert EncodeRow(c, templ, row) + tail == tail;
    } else {
      var more := EncodeRow(c, templ[1..], row) + tail;
      var b := EncodeRow(c, templ, row) + tail;
      assert b == EncodeCell(c, templ[0], row) + more;
      assert CKeys(templ)[1..] == CKeys(templ[1..]);
      var m := Member(row, templ[0]);
      if m.Some? {
        FirstByte(c, m.value);
        RoundTrip(c, m.value, depth, more);
      } else {
        assert b[1..] == more;
      }
      RoundTripRow(c, templ[1..], row, depth, TransportCell(c, templ[0], row, acc), tail);
    }
  }
}
