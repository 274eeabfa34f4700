/** When what arrives is the document that was sent. */
module BserMeaning {
  import opened Bser
  import opened BserDecode
  import opened BserRoundTrip
  import opened Options

  ghost predicate DistinctKeys(fields: seq<Field>) {
    forall i, j :: 0 <= i < j < |fields| ==> fields[i].key != fields[j].key
  }

  /** Objects are hash tables: no key occurs twice. */
  ghost predicate WellFormed(v: Json)
    decreases v
  {
    match v
    case Array(elems, _) => forall i :: 0 <= i < |elems| ==> WellFormed(elems[i])
    case Object(fields) => DistinctKeys(fields) && forall i :: 0 <= i < |fields| ==> WellFormed(fields[i].value)
    case _ => true
  }

  /** The same document up to templates and the order of hash tables, with the same string types if `typed`. */
  ghost predicate Same(a: Json, b: Json, typed: bool)
    decreases a
  {
    match a
    case Str(t) => b.Str? && b.text.s == t.s && (typed ==> b.text.t == t.t)
    case Array(elems, _) =>
      b.Array? && |b.elems| == |elems| && forall i :: 0 <= i < |elems| ==> Same(elems[i], b.elems[i], typed)
    case Object(fields) =>
      && b.Object?
      && (forall i :: 0 <= i < |fields| ==>
            var g := Lookup(b.fields, fields[i].key); g.Some? && Same(fields[i].value, g.value, typed))
      && (forall j :: 0 <= j < |b.fields| ==> Lookup(fields, b.fields[j].key).Some?)
    case _ => a == b
  }

  /** No object key holds a NUL, templated arrays hold only objects with keys of the template, and, if `bytes`, all
      strings are byte strings. */
  ghost predicate Faithful(v: Json, bytes: bool)
    decreases v
  {
    match v
    case Str(t) => bytes ==> t.t == Byte
    case Array(elems, templ) =>
      forall i :: 0 <= i < |elems| ==>
        Faithful(elems[i], bytes) && (templ != [] ==> elems[i].Object? && Covered(elems[i].fields, templ))
    case Object(fields) => forall i :: 0 <= i < |fields| ==> 0 !in fields[i].key && Faithful(fields[i].value, bytes)
    case _ => true
  }

  ghost predicate Covered(fields: seq<Field>, templ: seq<Text>) {
    forall i :: 0 <= i < |fields| ==> fields[i].key in CKeys(templ)
  }

  /** String types are asked for, and the version or the capabilities rule them out. */
  predicate Untyped(c: Ctx, typed: bool) { typed && (c.version == 1 || c.capabilities % 2 == 1) }

  // ----- Lookups

  lemma {:induction false} LookupOwn(fields: seq<Field>, i: nat)
    requires i < |fields|
    ensures Lookup(fields, fields[i].key).Some?
    ensures DistinctKeys(fields) ==> Lookup(fields, fields[i].key) == Some(fields[i].value)
  {
    if i > 0 {
      LookupOwn(fields[1..], i - 1);
      assert fields[1..][i - 1] == fields[i];
      assert DistinctKeys(fields) ==> DistinctKeys(fields[1..]);
    }
  }

  lemma {:induction false} LookupAppend(fields: seq<Field>, f: Field, k: Bytes)
    ensures Lookup(fields + [f], k) ==
      if Lookup(fields, k).Some? then Lookup(fields, k) else if f.key == k then Some(f.value) else None
  {
    if fields == [] {
      assert fields + [f] == [f];
    } else {
      LookupAppend(fields[1..], f, k);
      assert (fields + [f])[1..] == fields[1..] + [f];
    }
  }

  lemma {:induction false} LookupAssign(fields: seq<Field>, key: Bytes, v: Json, k: Bytes)
    ensures Lookup(Assign(fields, key, v), k) == if k == key then Some(v) else Lookup(fields, k)
  {
    if fields != [] && fields[0].key != key {
      LookupAssign(fields[1..], key, v, k);
      assert Assign(fields, key, v)[1..] == Assign(fields[1..], key, v);
    }
  }

  function Mapped(c: Ctx, v: Option<Json>): Option<Json> {
    if v.Some? then Some(Transport(c, v.value)) else None
  }

  /** The fields as the wire names them. */
  function Cut(fields: seq<Field>): seq<Field> {
    if fields == [] then [] else [Field(CStr(fields[0].key), fields[0].value)] + Cut(fields[1..])
  }

  lemma {:induction false} ArrivedField(c: Ctx, fields: seq<Field>, acc: seq<Field>, k: Bytes)
    ensures Lookup(TransportFields(c, fields, acc), k) ==
      if Lookup(acc, k).Some? then Lookup(acc, k) else Mapped(c, Lookup(Cut(fields), k))
  {
    if fields != [] {
      var key := CStr(fields[0].key);
      var v := Transport(c, fields[0].value);
      ArrivedField(c, fields[1..], Emplace(acc, key, v), k);
      LookupAppend(acc, Field(key, v), k);
      assert Cut(fields)[1..] == Cut(fields[1..]);
    }
  }

  lemma {:induction false} CStrOfClean(s: Bytes)
    requires 0 !in s
    ensures CStr(s) == s
  {
    if s != [] {
      assert forall x :: x in s[1..] ==> x in s;
      CStrOfClean(s[1..]);
    }
  }

  lemma {:induction false} CutClean(fields: seq<Field>, k: Bytes)
    ensures Lookup(Cut(fields), k).Some? ==> 0 !in k
    ensures (forall i :: 0 <= i < |fields| ==> 0 !in fields[i].key) ==> Cut(fields) == fields
  {
    if fields != [] {
      CutClean(fields[1..], k);
      assert Cut(fields)[1..] == Cut(fields[1..]);
      if forall i :: 0 <= i < |fields| ==> 0 !in fields[i].key {
        assert forall i :: 0 <= i < |fields[1..]| ==> fields[1..][i] == fields[i + 1];
        CStrOfClean(fields[0].key);
      }
    }
  }

  lemma {:induction false} ArrivedCell(c: Ctx, templ: seq<Text>, row: Json, acc: seq<Field>, k: Bytes)
    ensures Lookup(TransportRow(c, templ, row, acc), k) ==
      if k in CKeys(templ) && row.Object? && Lookup(row.fields, k).Some?
      then Mapped(c, Lookup(row.fields, k)) else Lookup(acc, k)
    decreases |templ|
  {
    if templ != [] {
      ArrivedCell(c, templ[1..], row, TransportCell(c, templ[0], row, acc), k);
      var m := Member(row, templ[0]);
      if m.Some? { LookupAssign(acc, CStr(templ[0].s), Transport(c, m.value), k); }
      assert CKeys(templ) == [CStr(templ[0].s)] + CKeys(templ[1..]);
    }
  }

  // ----- The theorem

  ghost predicate Clean(fields: seq<Field>) {
    forall i :: 0 <= i < |fields| ==> 0 !in fields[i].key
  }

  lemma CleanFieldsArrive(c: Ctx, fields: seq<Field>, i: nat)
    requires DistinctKeys(fields) && Clean(fields) && i < |fields|
    ensures Lookup(TransportFields(c, fields, []), fields[i].key) == Some(Transport(c, fields[i].value))
  {
    CutClean(fields, fields[i].key);
    ArrivedField(c, fields, [], fields[i].key);
    LookupOwn(fields, i);
  }

  lemma ArrivedKeysAreSent(c: Ctx, fields: seq<Field>, j: nat)
    requires Clean(fields) && j < |TransportFields(c, fields, [])|
    ensures Lookup(fields, TransportFields(c, fields, [])[j].key).Some?
  {
    var g := TransportFields(c, fields, []);
    LookupOwn(g, j);
    CutClean(fields, g[j].key);
    ArrivedField(c, fields, [], g[j].key);
  }

  lemma ArrivedKeysAreClean(c: Ctx, fields: seq<Field>, k: Bytes)
    requires Lookup(TransportFields(c, fields, []), k).Some?
    ensures 0 !in k
  {
    ArrivedField(c, fields, [], k);
    CutClean(fields, k);
  }

  /** The values of the fields arrive as they were sent. */
  ghost predicate ValuesArrive(c: Ctx, fields: seq<Field>, typed: bool) {
    forall i :: 0 <= i < |fields| ==> Same(fields[i].value, Transport(c, fields[i].value), typed)
  }

  lemma CleanObjectArrives(c: Ctx, fields: seq<Field>, typed: bool)
    requires DistinctKeys(fields)
    ensures Same(Object(fields), Object(TransportFields(c, fields, [])), typed) <==>
              Clean(fields) && ValuesArrive(c, fields, typed)
  {
    hide Transport, TransportFields, WellFormed;
    var o, g := Object(fields), TransportFields(c, fields, []);
    if Same(o, Object(g), typed) {
      forall i | 0 <= i < |fields| ensures 0 !in fields[i].key { ArrivedKeysAreClean(c, fields, fields[i].key); }
    }
    if Clean(fields) {
      forall i | 0 <= i < |fields| ensures Lookup(g, fields[i].key) == Some(Transport(c, fields[i].value)) {
        CleanFieldsArrive(c, fields, i);
      }
      forall j | 0 <= j < |g| ensures Lookup(fields, g[j].key).Some? { ArrivedKeysAreSent(c, fields, j); }
    }
  }

  lemma {:induction false} ObjectArrives(c: Ctx, fields: seq<Field>, typed: bool)
    requires WellFormed(Object(fields))
    ensures Same(Object(fields), Object(TransportFields(c, fields, [])), typed) <==>
              Faithful(Object(fields), Untyped(c, typed))
    decreases fields, 1
  {
    hide Same, Transport, TransportFields;
    CleanObjectArrives(c, fields, typed);
    forall i | 0 <= i < |fields|
      ensures Same(fields[i].value, Transport(c, fields[i].value), typed) <==>
                Faithful(fields[i].value, Untyped(c, typed))
    {
      Arrives(c, fields[i].value, typed);
    }
  }

  lemma {:induction false} KeysAreClean(templ: seq<Text>, k: Bytes)
    requires k in CKeys(templ)
    ensures 0 !in k
  {
    if CKeys(templ)[0] != k { KeysAreClean(templ[1..], k); }
  }

  lemma RowFieldArrives(c: Ctx, templ: seq<Text>, fields: seq<Field>, i: nat)
    requires DistinctKeys(fields) && i < |fields|
    ensures Lookup(TransportRow(c, templ, Object(fields), []), fields[i].key)
         == if fields[i].key in CKeys(templ) then Some(Transport(c, fields[i].value)) else None
  {
    ArrivedCell(c, templ, Object(fields), [], fields[i].key);
    LookupOwn(fields, i);
  }

  lemma RowKeysAreSent(c: Ctx, templ: seq<Text>, fields: seq<Field>, j: nat)
    requires j < |TransportRow(c, templ, Object(fields), [])|
    ensures Lookup(fields, TransportRow(c, templ, Object(fields), [])[j].key).Some?
  {
    var g := TransportRow(c, templ, Object(fields), []);
    LookupOwn(g, j);
    ArrivedCell(c, templ, Object(fields), [], g[j].key);
  }

  lemma CoveredRowArrives(c: Ctx, templ: seq<Text>, fields: seq<Field>, typed: bool)
    requires DistinctKeys(fields)
    ensures Same(Object(fields), Object(TransportRow(c, templ, Object(fields), [])), typed) <==>
              Covered(fields, templ) && ValuesArrive(c, fields, typed)
  {
    hide Transport, TransportRow;
    var g := TransportRow(c, templ, Object(fields), []);
    forall i | 0 <= i < |fields|
      ensures Lookup(g, fields[i].key)
              == if fields[i].key in CKeys(templ) then Some(Transport(c, fields[i].value)) else None
    {
      RowFieldArrives(c, templ, fields, i);
    }
    forall j | 0 <= j < |g| ensures Lookup(fields, g[j].key).Some? { RowKeysAreSent(c, templ, fields, j); }
  }

  lemma CoveredIsClean(fields: seq<Field>, templ: seq<Text>)
    requires Covered(fields, templ)
    ensures Clean(fields)
  {
    forall i | 0 <= i < |fields| ensures 0 !in fields[i].key { KeysAreClean(templ, fields[i].key); }
  }

  lemma {:induction false} RowArrives(c: Ctx, templ: seq<Text>, row: Json, typed: bool)
    requires WellFormed(row)
    ensures Same(row, Object(TransportRow(c, templ, row, [])), typed) <==>
            row.Object? && Covered(row.fields, templ) && Faithful(row, Untyped(c, typed))
    decreases row, 1
  {
    hide Transport, TransportRow, Covered;
    if row.Object? {
      var fields := row.fields;
      CoveredRowArrives(c, templ, fields, typed);
      if Covered(fields, templ) { CoveredIsClean(fields, templ); }
      forall i | 0 <= i < |fields|
        ensures Same(fields[i].value, Transport(c, fields[i].value), typed) <==>
                  Faithful(fields[i].value, Untyped(c, typed))
      {
        Arrives(c, fields[i].value, typed);
      }
    }
  }

  lemma {:induction false} AllAt(c: Ctx, vs: seq<Json>, i: nat)
    requires i < |vs|
    ensures TransportAll(c, vs)[i] == Transport(c, vs[i])
  {
    if i > 0 { AllAt(c, vs[1..], i - 1); }
  }

  lemma {:induction false} RowsAt(c: Ctx, templ: seq<Text>, rows: seq<Json>, i: nat)
    requires i < |rows|
    ensures TransportRows(c, templ, rows)[i] == Object(TransportRow(c, templ, rows[i], []))
  {
    if i > 0 { RowsAt(c, templ, rows[1..], i - 1); }
  }

  /** What arrives is the document that was sent exactly when no object key holds a NUL and every templated array holds
      only objects that use only keys of the template; and it arrives with its string types exactly when, besides,
      these are negotiated or there are only byte strings. */
  lemma {:induction false} Arrives(c: Ctx, v: Json, typed: bool)
    requires WellFormed(v)
    ensures Same(v, Transport(c, v), typed) <==> Faithful(v, Untyped(c, typed))
    decreases v, 2
  {
    match v
    case Array(elems, templ) =>
      forall i | 0 <= i < |elems|
        ensures Same(elems[i], Transport(c, v).elems[i], typed) <==>
                && Faithful(elems[i], Untyped(c, typed))
                && (templ != [] ==> elems[i].Object? && Covered(elems[i].fields, templ))
      {
        if templ == [] {
          AllAt(c, elems, i);
          Arrives(c, elems[i], typed);
        } else {
          RowsAt(c, templ, elems, i);
          RowArrives(c, templ, elems[i], typed);
        }
      }
    case Object(fields) => ObjectArrives(c, fields, typed);
    case _ =>
  }

  // ----- String types

  /** Every string value of the document is such a text. */
  ghost predicate AllTexts(v: Json, ok: Text -> bool)
    decreases v
  {
    match v
    case Str(t) => ok(t)
    case Array(elems, _) => forall i :: 0 <= i < |elems| ==> AllTexts(elems[i], ok)
    case Object(fields) => TextsIn(fields, ok)
    case _ => true
  }

  ghost predicate TextsIn(fields: seq<Field>, ok: Text -> bool)
    decreases fields
  {
    forall i :: 0 <= i < |fields| ==> AllTexts(fields[i].value, ok)
  }

  /** What arrives holds no string but those sent, each as `Arrived` says. */
  lemma {:induction false} TextsArrive(c: Ctx, v: Json, sent: Text -> bool, ok: Text -> bool)
    requires AllTexts(v, sent) && forall t :: sent(t) ==> ok(Arrived(c, t))
    ensures AllTexts(Transport(c, v), ok)
    decreases v, 2
  {
    match v
    case Array(elems, templ) =>
      forall i | 0 <= i < |elems| ensures AllTexts(Transport(c, v).elems[i], ok) {
        if templ == [] {
          AllAt(c, elems, i);
          TextsArrive(c, elems[i], sent, ok);
        } else {
          RowsAt(c, templ, elems, i);
          RowTextsArrive(c, templ, elems[i], [], sent, ok);
        }
      }
    case Object(fields) => FieldTextsArrive(c, fields, [], sent, ok);
    case _ =>
  }

  lemma {:induction false} FieldTextsArrive(
    c: Ctx, fields: seq<Field>, acc: seq<Field>, sent: Text -> bool, ok: Text -> bool)
    requires TextsIn(fields, sent) && TextsIn(acc, ok) && forall t :: sent(t) ==> ok(Arrived(c, t))
    ensures TextsIn(TransportFields(c, fields, acc), ok)
    decreases fields, 1
  {
    if fields != [] {
      TextsArrive(c, fields[0].value, sent, ok);
      FieldTextsArrive(c, fields[1..], Emplace(acc, CStr(fields[0].key), Transport(c, fields[0].value)), sent, ok);
    }
  }

  lemma {:induction false} RowTextsArrive(
    c: Ctx, templ: seq<Text>, row: Json, acc: seq<Field>, sent: Text -> bool, ok: Text -> bool)
    requires AllTexts(row, sent) && TextsIn(acc, ok) && forall t :: sent(t) ==> ok(Arrived(c, t))
    ensures TextsIn(TransportRow(c, templ, row, acc), ok)
    decreases row, 1, |templ|
  {
    if templ != [] {
      var m := Member(row, templ[0]);
      if m.Some? {
        var i :| 0 <= i < |row.fields| && row.fields[i].value == m.value;
        assert AllTexts(m.value, sent);
        TextsArrive(c, m.value, sent, ok);
        AssignTexts(acc, CStr(templ[0].s), Transport(c, m.value), ok);
      }
      RowTextsArrive(c, templ[1..], row, TransportCell(c, templ[0], row, acc), sent, ok);
    }
  }

  lemma {:induction false} AssignTexts(fields: seq<Field>, key: Bytes, v: Json, ok: Text -> bool)
    requires TextsIn(fields, ok) && AllTexts(v, ok)
    ensures TextsIn(Assign(fields, key, v), ok)
  {
    if fields != [] && fields[0].key != key { AssignTexts(fields[1..], key, v, ok); }
  }

  lemma {:induction false} AnyText(v: Json)
    ensures AllTexts(v, _ => true)
    decreases v
  {
    match v
    case Array(elems, _) => forall i | 0 <= i < |elems| ensures AllTexts(elems[i], _ => true) { AnyText(elems[i]); }
    case Object(fields) =>
      forall i | 0 <= i < |fields| ensures AllTexts(fields[i].value, _ => true) { AnyText(fields[i].value); }
    case _ =>
  }

  /** r holds the strings of v as version and capabilities have it. With version 1 or bit 0 set all of them are byte
      strings; otherwise r has no string, with its type, that v has not. And r is v, with its string types or without,
      exactly if nothing is lost on the way. */
  ghost predicate Carried(c: Ctx, v: Json, r: Json) {
    && (c.version == 1 || c.capabilities % 2 == 1 ==> AllTexts(r, (t: Text) => t.t == Byte))
    && (c.version != 1 && c.capabilities % 2 == 0 ==>
          forall sent: Text -> bool :: AllTexts(v, sent) ==> AllTexts(r, sent))
    && (WellFormed(v) ==> forall typed: bool :: Same(v, r, typed) <==> Faithful(v, Untyped(c, typed)))
  }

  lemma TransportCarries(c: Ctx, v: Json)
    ensures Carried(c, v, Transport(c, v))
  {
    if c.version == 1 || c.capabilities % 2 == 1 {
      AnyText(v);
      TextsArrive(c, v, _ => true, (t: Text) => t.t == Byte);
    } else {
      forall sent: Text -> bool | AllTexts(v, sent) ensures AllTexts(Transport(c, v), sent) {
        TextsArrive(c, v, sent, sent);
      }
    }
    if WellFormed(v) {
      forall typed: bool ensures Same(v, Transport(c, v), typed) <==> Faithful(v, Untyped(c, typed)) {
        Arrives(c, v, typed);
      }
    }
  }
}
