/** No input makes the parser build a value much larger or deeper than the input itself. */
module BserBounds {
  import opened Bser
  import opened BserDecode

  function Nodes(v: Json): nat
    decreases v, 0
  {
    match v
    case Array(elems, _) => 1 + NodesAll(elems)
    case Object(fields) => 1 + NodesFields(fields)
    case _ => 1
  }

  function NodesAll(vs: seq<Json>): nat
    decreases vs
  {
    if vs == [] then 0 else Nodes(vs[0]) + NodesAll(vs[1..])
  }

  function NodesFields(fs: seq<Field>): nat
    decreases fs
  {
    if fs == [] then 0 else Nodes(fs[0].value) + NodesFields(fs[1..])
  }

  /** Containers nested no more than n deep. */
  predicate Nested(v: Json, n: int)
    decreases v
  {
    match v
    case Array(elems, _) => n >= 1 && forall i :: 0 <= i < |elems| ==> Nested(elems[i], n - 1)
    case Object(fields) => n >= 1 && forall i :: 0 <= i < |fields| ==> Nested(fields[i].value, n - 1)
    case _ => n >= 0
  }

  predicate NestedAll(vs: seq<Json>, n: int) { forall i :: 0 <= i < |vs| ==> Nested(vs[i], n) }

  predicate NestedFields(fs: seq<Field>, n: int) { forall i :: 0 <= i < |fs| ==> Nested(fs[i].value, n) }

  lemma {:induction false} Deeper(v: Json, n: int)
    requires Nested(v, n)
    ensures Nested(v, n + 1)
    decreases v
  {
    match v
    case Array(elems, _) => forall i | 0 <= i < |elems| ensures Nested(elems[i], n) { Deeper(elems[i], n - 1); }
    case Object(fields) =>
      forall i | 0 <= i < |fields| ensures Nested(fields[i].value, n) { Deeper(fields[i].value, n - 1); }
    case _ =>
  }

  lemma {:induction false} NodesAppend(vs: seq<Json>, v: Json)
    ensures NodesAll(vs + [v]) == NodesAll(vs) + Nodes(v)
  {
    if vs == [] {
      assert vs + [v] == [v];
    } else {
      NodesAppend(vs[1..], v);
      assert (vs + [v])[1..] == vs[1..] + [v];
    }
  }

  lemma {:induction false} EmplaceBound(fs: seq<Field>, key: Bytes, v: Json, n: int)
    requires NestedFields(fs, n) && Nested(v, n)
    ensures NodesFields(Emplace(fs, key, v)) <= NodesFields(fs) + Nodes(v) && NestedFields(Emplace(fs, key, v), n)
  {
    FieldsAppend(fs, Field(key, v));
  }

  lemma {:induction false} FieldsAppend(fs: seq<Field>, f: Field)
    ensures NodesFields(fs + [f]) == NodesFields(fs) + Nodes(f.value)
  {
    if fs == [] {
      assert fs + [f] == [f];
    } else {
      FieldsAppend(fs[1..], f);
      assert (fs + [f])[1..] == fs[1..] + [f];
    }
  }

  lemma {:induction false} AssignBound(fs: seq<Field>, key: Bytes, v: Json, n: int)
    requires NestedFields(fs, n) && Nested(v, n)
    ensures NodesFields(Assign(fs, key, v)) <= NodesFields(fs) + Nodes(v) && NestedFields(Assign(fs, key, v), n)
  {
    if fs == [] {
      assert NodesFields([Field(key, v)]) == Nodes(v);
    } else if fs[0].key == key {
      assert ([Field(key, v)] + fs[1..])[1..] == fs[1..];
    } else {
      AssignBound(fs[1..], key, v, n);
      assert ([fs[0]] + Assign(fs[1..], key, v))[1..] == Assign(fs[1..], key, v);
    }
  }

  /** The nesting a value parsed at this depth can have: a template adds two levels for one of depth. */
  function Room(depth: nat): int { 2 * (MAX_DEPTH - 1 - depth) }

  /** On any bytes, at any depth: a parsed value has fewer than twice as many nodes as bytes read. */
  lemma {:induction false} ValueBound(b: Bytes, depth: nat)
    requires depth < MAX_DEPTH
    ensures var r := ExpectValue(b, depth);
            r.Ok? ==> Nodes(r.value) <= 2 * (|b| - |r.rest|) - 1 && Nested(r.value, Room(depth))
    decreases |b|, 4
  {
    if b != [] { TaggedBound(b[0], b[1..], depth); }
  }

  lemma {:induction false} TaggedBound(tag: byte, b: Bytes, depth: nat)
    requires depth < MAX_DEPTH
    ensures var r := ParseValue(tag, b, depth);
            r.Ok? ==> Nodes(r.value) <= 2 * (|b| - |r.rest|) + 1 && Nested(r.value, Room(depth))
    decreases |b|, 3
  {
    if tag == ARRAY { ArrayBound(b, depth); }
    else if tag == TEMPLATE { TemplateBound(b, depth); }
    else if tag == OBJECT { ObjectBound(b, depth); }
  }

  lemma {:induction false} ArrayBound(b: Bytes, depth: nat)
    requires depth < MAX_DEPTH
    ensures var r := ParseArray(b, depth);
            r.Ok? ==> NodesAll(r.value) <= 2 * (|b| - |r.rest|) && NestedAll(r.value, Room(depth) - 1)
    decreases |b|, 2
  {
    hide ExpectSize, ParseElems;
    var n := ExpectSize(b);
    if depth + 1 != MAX_DEPTH && n.Ok? {
      ElemsBound(n.rest, depth + 1, n.value, []);
      var r := ParseElems(n.rest, depth + 1, n.value, []);
      if r.Ok? {
        forall i | 0 <= i < |r.value| ensures Nested(r.value[i], Room(depth) - 1) {
          Deeper(r.value[i], Room(depth + 1));
        }
      }
    }
  }

  lemma {:induction false} ElemsBound(b: Bytes, depth: nat, n: nat, acc: seq<Json>)
    requires depth < MAX_DEPTH && NestedAll(acc, Room(depth))
    ensures var r := ParseElems(b, depth, n, acc);
            r.Ok? ==> NodesAll(r.value) <= NodesAll(acc) + 2 * (|b| - |r.rest|) && NestedAll(r.value, Room(depth))
    decreases |b|, 5
  {
    if n > 0 {
      var v := ExpectValue(b, depth);
      ValueBound(b, depth);
      if v.Ok? {
        NodesAppend(acc, v.value);
        ElemsBound(v.rest, depth, n - 1, acc + [v.value]);
      }
    }
  }

  lemma {:induction false} TemplateBound(b: Bytes, depth: nat)
    requires depth < MAX_DEPTH
    ensures var r := ParseTemplate(b, depth);
            r.Ok? ==> Nodes(r.value) <= 2 * (|b| - |r.rest|) + 1 && Nested(r.value, Room(depth))
    decreases |b|, 2
  {
    hide ExpectSize, ParseRows, Nodes, ExpectArray;
    if depth + 1 != MAX_DEPTH {
      var t := ExpectArray(b, depth + 1);
      if t.Ok? && t.value != [] && AllStrings(t.value) {
        var n := ExpectSize(t.rest);
        if n.Ok? { RowsBound(n.rest, depth + 1, Keys(t.value), n.value, []); }
      }
    }
  }

  lemma {:induction false} RowsBound(b: Bytes, depth: nat, keys: seq<Bytes>, n: nat, acc: seq<Json>)
    requires depth < MAX_DEPTH && keys != [] && NestedAll(acc, Room(depth) + 1)
    ensures var r := ParseRows(b, depth, keys, n, acc);
            r.Ok? ==> Nodes(r.value) <= 1 + NodesAll(acc) + 2 * (|b| - |r.rest|) && Nested(r.value, Room(depth) + 2)
    decreases |b|, 6
  {
    hide ParseRow;
    if n > 0 {
      var f := ParseRow(b, depth, keys, []);
      RowBound(b, depth, keys, []);
      if f.Ok? {
        NodesAppend(acc, Object(f.value));
        RowsBound(f.rest, depth, keys, n - 1, acc + [Object(f.value)]);
      }
    }
  }

  lemma {:induction false} RowBound(b: Bytes, depth: nat, keys: seq<Bytes>, acc: seq<Field>)
    requires depth < MAX_DEPTH && NestedFields(acc, Room(depth))
    ensures var r := ParseRow(b, depth, keys, acc);
            r.Ok? ==> NodesFields(r.value) + |keys| <= NodesFields(acc) + 2 * (|b| - |r.rest|)
                      && NestedFields(r.value, Room(depth))
    decreases |b|, 5
  {
    if keys != [] && b != [] {
      if b[0] == SKIP {
        RowBound(b[1..], depth, keys[1..], acc);
      } else {
        var v := ParseValue(b[0], b[1..], depth);
        TaggedBound(b[0], b[1..], depth);
        if v.Ok? {
          AssignBound(acc, keys[0], v.value, Room(depth));
          RowBound(v.rest, depth, keys[1..], Assign(acc, keys[0], v.value));
        }
      }
    }
  }

  lemma {:induction false} ObjectBound(b: Bytes, depth: nat)
    requires depth < MAX_DEPTH
    ensures var r := ParseObject(b, depth);
            r.Ok? ==> Nodes(r.value) <= 2 * (|b| - |r.rest|) + 1 && Nested(r.value, Room(depth))
    decreases |b|, 2
  {
    hide ExpectSize, ParseFields, Nodes;
    var n := ExpectSize(b);
    if depth + 1 != MAX_DEPTH && n.Ok? {
      FieldsBound(n.rest, depth + 1, n.value, []);
      var r := ParseFields(n.rest, depth + 1, n.value, []);
      if r.Ok? { Deeper(r.value, Room(depth) - 1); }
    }
  }

  lemma {:induction false} FieldsBound(b: Bytes, depth: nat, n: nat, acc: seq<Field>)
    requires depth < MAX_DEPTH && NestedFields(acc, Room(depth))
    ensures var r := ParseFields(b, depth, n, acc);
            r.Ok? ==> Nodes(r.value) <= 1 + NodesFields(acc) + 2 * (|b| - |r.rest|) && Nested(r.value, Room(depth) + 1)
    decreases |b|, 5
  {
    hide ExpectString, ExpectValue, Emplace;
    if n > 0 {
      var k := ExpectString(b);
      if k.Ok? {
        var v := ExpectValue(k.rest, depth);
        ValueBound(k.rest, depth);
        if v.Ok? {
          EmplaceBound(acc, k.value, v.value, Room(depth));
          FieldsBound(v.rest, depth, n - 1, Emplace(acc, k.value, v.value));
        }
      }
    }
  }

  /** Whatever the input: at most 2 * consumed - 1 nodes, containers at most 998 deep. */
  lemma DecodeBound(b: Bytes)
    ensures var r := Decode(b); r.Ok? ==> Nodes(r.value) <= 2 * (|b| - |r.rest|) - 1 && Nested(r.value, 998)
  {
    ValueBound(b, 0);
  }
}
