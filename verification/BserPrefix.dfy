/** What the parser makes of the beginning of an input: only "end of input" can still change. */
module BserPrefix {
  import opened Bser
  import opened BserDecode
  import opened BserRoundTrip

  /** `r`, the answer to some bytes, stays the answer with `more` bytes after them, unless they ended too early. */
  ghost predicate Stands<T(!new)>(r: Parsed<T>, s: Parsed<T>, more: Bytes) {
    if r.Ok? then s == Ok(r.value, r.rest + more) else r.error == Eof || s == r
  }

  lemma TakeStands(b: Bytes, n: nat, more: Bytes)
    ensures Stands(Take(b, n), Take(b + more, n), more)
  {
    if n <= |b| { assert (b + more)[..n] == b[..n] && (b + more)[n..] == b[n..] + more; }
  }

  lemma IntegerStands(tag: byte, b: Bytes, more: Bytes)
    ensures Stands(ParseInteger(tag, b), ParseInteger(tag, b + more), more)
  {
    var w := TagWidth(tag);
    if w.Some? { TakeStands(b, w.value, more); }
  }

  lemma Behind(b: Bytes, more: Bytes)
    requires b != []
    ensures (b + more)[0] == b[0] && (b + more)[1..] == b[1..] + more
  {}

  lemma SizeStands(b: Bytes, more: Bytes)
    ensures Stands(ExpectSize(b), ExpectSize(b + more), more)
  {
    if b != [] {
      Behind(b, more);
      IntegerStands(b[0], b[1..], more);
    }
  }

  lemma StringStands(b: Bytes, more: Bytes)
    ensures Stands(ParseString(b), ParseString(b + more), more)
  {
    hide ExpectSize;
    SizeStands(b, more);
    var n := ExpectSize(b);
    if n.Ok? { TakeStands(n.rest, n.value, more); }
  }

  lemma KeyStands(b: Bytes, more: Bytes)
    ensures Stands(ExpectString(b), ExpectString(b + more), more)
  {
    hide ParseString;
    if b != [] {
      Behind(b, more);
      StringStands(b[1..], more);
    }
  }

  lemma {:induction false} ValueStands(b: Bytes, depth: nat, more: Bytes)
    ensures Stands(ExpectValue(b, depth), ExpectValue(b + more, depth), more)
    decreases |b|, 4
  {
    hide ParseValue;
    if b != [] {
      Behind(b, more);
      TaggedStands(b[0], b[1..], depth, more);
    }
  }

  lemma {:induction false} TaggedStands(tag: byte, b: Bytes, depth: nat, more: Bytes)
    ensures Stands(ParseValue(tag, b, depth), ParseValue(tag, b + more, depth), more)
    decreases |b|, 3
  {
    hide ParseInteger, ParseString, ParseArray, ParseTemplate, ParseObject, ParseReal;
    if TagWidth(tag).Some? { IntegerStands(tag, b, more); }
    else if tag == BYTESTRING || tag == UTF8STRING { StringStands(b, more); }
    else if tag == REAL { RealStands(b, more); }
    else if tag == ARRAY { ArrayStands(b, depth, more); }
    else if tag == TEMPLATE { TemplateStands(b, depth, more); }
    else if tag == OBJECT { ObjectStands(b, depth, more); }
  }

  lemma RealStands(b: Bytes, more: Bytes)
    ensures Stands(ParseReal(b), ParseReal(b + more), more)
  {
    TakeStands(b, 8, more);
  }

  lemma {:induction false} ArrayStands(b: Bytes, depth: nat, more: Bytes)
    ensures Stands(ParseArray(b, depth), ParseArray(b + more, depth), more)
    decreases |b|, 2
  {
    hide ExpectSize, ParseElems;
    SizeStands(b, more);
    var n := ExpectSize(b);
    if n.Ok? { ElemsStand(n.rest, depth + 1, n.value, [], more); }
  }

  lemma {:induction false} ElemsStand(b: Bytes, depth: nat, n: nat, acc: seq<Json>, more: Bytes)
    ensures Stands(ParseElems(b, depth, n, acc), ParseElems(b + more, depth, n, acc), more)
    decreases |b|, 5
  {
    hide ExpectValue;
    if n > 0 {
      ValueStands(b, depth, more);
      var v := ExpectValue(b, depth);
      if v.Ok? { ElemsStand(v.rest, depth, n - 1, acc + [v.value], more); }
    }
  }

  lemma {:induction false} KeysStand(b: Bytes, depth: nat, more: Bytes)
    ensures Stands(ExpectArray(b, depth), ExpectArray(b + more, depth), more)
    decreases |b|, 1
  {
    hide ParseArray;
    if b != [] {
      Behind(b, more);
      ArrayStands(b[1..], depth, more);
    }
  }

  lemma {:induction false} TemplateStands(b: Bytes, depth: nat, more: Bytes)
    ensures Stands(ParseTemplate(b, depth), ParseTemplate(b + more, depth), more)
    decreases |b|, 2
  {
    hide ExpectArray, ExpectSize, ParseRows;
    KeysStand(b, depth + 1, more);
    var t := ExpectArray(b, depth + 1);
    if t.Ok? && t.value != [] && AllStrings(t.value) {
      SizeStands(t.rest, more);
      var n := ExpectSize(t.rest);
      if n.Ok? { RowsStand(n.rest, depth + 1, Keys(t.value), n.value, [], more); }
    }
  }

  lemma {:induction false} RowsStand(b: Bytes, depth: nat, keys: seq<Bytes>, n: nat, acc: seq<Json>, more: Bytes)
    requires keys != []
    ensures Stands(ParseRows(b, depth, keys, n, acc), ParseRows(b + more, depth, keys, n, acc), more)
    decreases |b|, 6
  {
    hide ParseRow;
    if n > 0 {
      RowStands(b, depth, keys, [], more);
      var f := ParseRow(b, depth, keys, []);
      if f.Ok? { RowsStand(f.rest, depth, keys, n - 1, acc + [Object(f.value)], more); }
    }
  }

  lemma {:induction false} RowStands(b: Bytes, depth: nat, keys: seq<Bytes>, acc: seq<Field>, more: Bytes)
    ensures Stands(ParseRow(b, depth, keys, acc), ParseRow(b + more, depth, keys, acc), more)
    decreases |b|, 5
  {
    hide ParseValue, Assign;
    if keys != [] && b != [] {
      Behind(b, more);
      if b[0] == SKIP {
        RowStands(b[1..], depth, keys[1..], acc, more);
      } else {
        TaggedStands(b[0], b[1..], depth, more);
        var v := ParseValue(b[0], b[1..], depth);
        if v.Ok? { RowStands(v.rest, depth, keys[1..], Assign(acc, keys[0], v.value), more); }
      }
    }
  }

  lemma {:induction false} ObjectStands(b: Bytes, depth: nat, more: Bytes)
    ensures Stands(ParseObject(b, depth), ParseObject(b + more, depth), more)
    decreases |b|, 2
  {
    hide ExpectSize, ParseFields;
    SizeStands(b, more);
    var n := ExpectSize(b);
    if n.Ok? { FieldsStand(n.rest, depth + 1, n.value, [], more); }
  }

  lemma {:induction false} FieldsStand(b: Bytes, depth: nat, n: nat, acc: seq<Field>, more: Bytes)
    ensures Stands(ParseFields(b, depth, n, acc), ParseFields(b + more, depth, n, acc), more)
    decreases |b|, 5
  {
    hide ExpectString, ExpectValue, Emplace;
    if n > 0 {
      KeyStands(b, more);
      var k := ExpectString(b);
      if k.Ok? {
        ValueStands(k.rest, depth, more);
        var v := ExpectValue(k.rest, depth);
        if v.Ok? { FieldsStand(v.rest, depth, n - 1, Emplace(acc, k.value, v.value), more); }
      }
    }
  }

  /** Bytes that follow never change an answer: neither the value nor an error, unless it is that the input ended. */
  lemma AnswerStands(b: Bytes, more: Bytes)
    ensures Stands(Decode(b), Decode(b + more), more)
  {
    ValueStands(b, 0, more);
  }

  /** A dump that was cut short is refused, and because it ended. */
  lemma CutDumpIsRefused(c: Ctx, v: Json, k: nat)
    requires Portable(v, MAX_DEPTH - 1) && k < |Encode(c, v)|
    ensures Decode(Encode(c, v)[..k]) == Err(Eof)
  {
    hide Encode, Portable, Decode, Transport;
    var b := Encode(c, v);
    assert b == b[..k] + b[k..];
    AnswerStands(b[..k], b[k..]);
    WholeDump(c, v);
  }

  lemma WholeDump(c: Ctx, v: Json)
    requires Portable(v, MAX_DEPTH - 1)
    ensures Decode(Encode(c, v)) == Ok(Transport(c, v), [])
  {
    RoundTrip(c, v, 0, []);
    assert Encode(c, v) + [] == Encode(c, v);
  }

  /** No dump is the beginning of another. */
  lemma DumpsAreApart(c: Ctx, v: Json, w: Json)
    requires Portable(v, MAX_DEPTH - 1) && Portable(w, MAX_DEPTH - 1) && Encode(c, v) <= Encode(c, w)
    ensures Encode(c, v) == Encode(c, w) && Transport(c, v) == Transport(c, w)
  {
    hide Encode, Portable, Decode, Transport;
    WholeDump(c, v);
    WholeDump(c, w);
    var n := |Encode(c, v)|;
    assert Encode(c, w)[..n] == Encode(c, v);
    if n < |Encode(c, w)| { CutDumpIsRefused(c, w, n); }
  }
}
