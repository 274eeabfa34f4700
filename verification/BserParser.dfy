/** The recursive-descent parser of bser.cpp: a position that advances, and a depth that is bumped
    around each container. Each method computes what BserDecode says of the bytes at its position. */
module BserParser {
  import opened Bser
  import opened Options
  import D = BserDecode

  /** A value, or the exception thrown. */
  datatype Result<+T> = Got(value: T) | Threw(error: D.ParseError)

  lemma {:induction false} KeyAt(vs: seq<Json>, i: nat)
    requires D.AllStrings(vs) && i < |vs|
    ensures D.Keys(vs)[i] == CStr(vs[i].text.s)
  {
    if i > 0 { KeyAt(vs[1..], i - 1); }
  }

  class Parser {
    const data: Bytes
    var buf: nat
    var depth: nat

    constructor (data: Bytes)
      ensures this.data == data && buf == 0 && depth == 0
    {
      this.data, buf, depth := data, 0, 0;
    }

    ghost predicate Valid()
      reads this
    {
      buf <= |data| && depth < MAX_DEPTH
    }

    ghost function Rest(): Bytes
      requires buf <= |data|
      reads this
    {
      data[buf..]
    }

    /** The parser did what the specification says: same value and position, or same error. */
    ghost predicate Agrees<T>(r: Result<T>, p: D.Parsed<T>, before: nat)
      reads this
    {
      match p
      case Ok(v, rest) => r == Got(v) && buf <= |data| && rest == data[buf..] && depth == before
      case Err(e) => r == Threw(e)
    }

    method Ensure(needed: nat) returns (r: Result<nat>)
      requires Valid()
      modifies this`buf
      ensures r == if needed > |data| - old(buf) then Threw(D.Eof) else Got(old(buf))
      ensures buf == if r.Got? then old(buf) + needed else old(buf)
    {
      if needed > |data| - buf {
        return Threw(D.Eof);
      }
      r := Got(buf);
      buf := buf + needed;
    }

    method ParseInteger(tag: byte) returns (r: Result<Int64>)
      requires Valid()
      modifies this`buf
      ensures Agrees(r, D.ParseInteger(tag, old(Rest())), old(depth))
    {
      var w := TagWidth(tag);
      if w.None? {
        return Threw(D.BadType);
      }
      var at := Ensure(w.value);
      if at.Threw? {
        return Threw(at.error);
      }
      var n := data[at.value..buf];
      assert old(Rest())[..w.value] == n && old(Rest())[w.value..] == data[buf..];
      r := Got(Signed(FromBytes(n), w.value));
    }

    method ExpectInteger() returns (r: Result<Int64>)
      requires Valid()
      modifies this`buf
      ensures Agrees(r, D.ExpectInteger(old(Rest())), old(depth))
    {
      var at := Ensure(1);
      if at.Threw? {
        return Threw(at.error);
      }
      assert old(Rest())[1..] == Rest();
      r := ParseInteger(data[at.value]);
    }

    method ExpectSize() returns (r: Result<nat>)
      requires Valid()
      modifies this`buf
      ensures Agrees(r, D.ExpectSize(old(Rest())), old(depth))
    {
      var n := ExpectInteger();
      if n.Threw? {
        return Threw(n.error);
      }
      if n.value < 0 {
        return Threw(D.NegativeSize);
      }
      if n.value > MAX_CONTAINER {
        return Threw(D.TooLarge);
      }
      r := Got(n.value);
    }

    method ParseString() returns (r: Result<Bytes>)
      requires Valid()
      modifies this`buf
      ensures Agrees(r, D.ParseString(old(Rest())), old(depth))
    {
      var n := ExpectSize();
      if n.Threw? {
        return Threw(n.error);
      }
      ghost var b := Rest();
      var at := Ensure(n.value);
      if at.Threw? {
        return Threw(at.error);
      }
      assert b[..n.value] == data[at.value..buf] && b[n.value..] == Rest();
      r := Got(data[at.value..buf]);
    }

    method ExpectString() returns (r: Result<Bytes>)
      requires Valid()
      modifies this`buf
      ensures Agrees(r, D.ExpectString(old(Rest())), old(depth))
    {
      var at := Ensure(1);
      if at.Threw? {
        return Threw(at.error);
      }
      assert old(Rest())[1..] == Rest();
      if data[at.value] != BYTESTRING && data[at.value] != UTF8STRING {
        return Threw(D.BadType);
      }
      r := ParseString();
    }

    method ParseReal() returns (r: Result<Json>)
      requires Valid()
      modifies this`buf
      ensures Agrees(r, D.ParseReal(old(Rest())), old(depth))
    {
      var at := Ensure(8);
      if at.Threw? {
        return Threw(at.error);
      }
      var d: Double := data[at.value..buf];
      assert old(Rest())[..8] == d && old(Rest())[8..] == Rest();
      if !D.Finite(d) {
        return Threw(D.NotFinite);
      }
      r := Got(Real(d));
    }

    method ExpectValue() returns (r: Result<Json>)
      requires Valid()
      modifies this
      ensures Agrees(r, D.ExpectValue(old(Rest()), old(depth)), old(depth))
      decreases |data| - buf, 4
    {
      var at := Ensure(1);
      if at.Threw? {
        return Threw(at.error);
      }
      assert old(Rest())[1..] == Rest();
      r := ParseValue(data[at.value]);
    }

    method ParseValue(tag: byte) returns (r: Result<Json>)
      requires Valid()
      modifies this
      ensures Agrees(r, D.ParseValue(tag, old(Rest()), old(depth)), old(depth))
      decreases |data| - buf, 3
    {
      if TagWidth(tag).Some? {
        var n := ParseInteger(tag);
        r := if n.Threw? then Threw(n.error) else Got(Integer(n.value));
      } else if tag == BYTESTRING || tag == UTF8STRING {
        var s := ParseString();
        r := if s.Threw? then Threw(s.error)
             else Got(Str(Text(s.value, if tag == BYTESTRING then Byte else Unicode)));
      } else if tag == REAL {
        r := ParseReal();
      } else if tag == TRUE {
        r := Got(True);
      } else if tag == FALSE {
        r := Got(False);
      } else if tag == NULL {
        r := Got(Null);
      } else if tag == ARRAY {
        var vs := ParseArray();
        r := if vs.Threw? then Threw(vs.error) else Got(Array(vs.value, []));
      } else if tag == TEMPLATE {
        r := ParseTemplate();
      } else if tag == OBJECT {
        r := ParseObject();
      } else {
        r := Threw(D.BadType);
      }
    }

    method ParseArray() returns (r: Result<seq<Json>>)
      requires Valid()
      modifies this
      ensures Agrees(r, D.ParseArray(old(Rest()), old(depth)), old(depth))
      decreases |data| - buf, 2
    {
      hide D.ExpectValue, D.ExpectSize;
      depth := depth + 1;
      if depth == MAX_DEPTH {
        return Threw(D.TooDeep);
      }
      var count := ExpectSize();
      if count.Threw? {
        return Threw(count.error);
      }
      ghost var spec := D.ParseElems(Rest(), depth, count.value, []);
      var rv := [];
      var i := 0;
      while i < count.value
        invariant 0 <= i <= count.value && Valid() && depth == old(depth) + 1 && old(buf) < buf
        invariant D.ParseElems(Rest(), depth, count.value - i, rv) == spec
      {
        var v := ExpectValue();
        if v.Threw? {
          return Threw(v.error);
        }
        rv := rv + [v.value];
        i := i + 1;
      }
      depth := depth - 1;
      r := Got(rv);
    }

    method ExpectArray() returns (r: Result<seq<Json>>)
      requires Valid()
      modifies this
      ensures Agrees(r, D.ExpectArray(old(Rest()), old(depth)), old(depth))
      decreases |data| - buf, 1
    {
      var at := Ensure(1);
      if at.Threw? {
        return Threw(at.error);
      }
      assert old(Rest())[1..] == Rest();
      if data[at.value] != ARRAY {
        return Threw(D.BadType);
      }
      r := ParseArray();
    }

    method ParseTemplate() returns (r: Result<Json>)
      requires Valid()
      modifies this
      ensures Agrees(r, D.ParseTemplate(old(Rest()), old(depth)), old(depth))
      decreases |data| - buf, 2
    {
      hide D.ExpectArray, D.ExpectSize, D.ParseRow;
      depth := depth + 1;
      if depth == MAX_DEPTH {
        return Threw(D.TooDeep);
      }
      var templ := ExpectArray();
      if templ.Threw? {
        return Threw(templ.error);
      }
      if templ.value == [] {
        return Threw(D.EmptyTemplate);
      }
      var i := 0;
      while i < |templ.value|
        invariant 0 <= i <= |templ.value| && forall j :: 0 <= j < i ==> templ.value[j].Str?
      {
        if !templ.value[i].Str? {
          return Threw(D.KeyNotString);
        }
        i := i + 1;
      }
      var count := ExpectSize();
      if count.Threw? {
        return Threw(count.error);
      }
      ghost var keys := D.Keys(templ.value);
      ghost var spec := D.ParseRows(Rest(), depth, keys, count.value, []);
      var rv := [];
      i := 0;
      while i < count.value
        invariant 0 <= i <= count.value && Valid() && depth == old(depth) + 1 && old(buf) < buf
        invariant D.ParseRows(Rest(), depth, keys, count.value - i, rv) == spec
      {
        var item := ParseRow(templ.value);
        if item.Threw? {
          return Threw(item.error);
        }
        rv := rv + [Object(item.value)];
        i := i + 1;
      }
      depth := depth - 1;
      r := Got(Array(rv, []));
    }

    /** The inner loop of parseTemplate: one object. */
    method ParseRow(templ: seq<Json>) returns (r: Result<seq<Field>>)
      requires Valid() && D.AllStrings(templ)
      modifies this
      ensures Agrees(r, D.ParseRow(old(Rest()), old(depth), D.Keys(templ), []), old(depth))
      decreases |data| - buf, 5
    {
      hide D.ParseValue, D.Assign;
      ghost var keys := D.Keys(templ);
      ghost var spec := D.ParseRow(Rest(), depth, keys, []);
      var item: seq<Field> := [];
      var i := 0;
      assert keys[0..] == keys;
      while i < |templ|
        invariant 0 <= i <= |templ| && Valid() && depth == old(depth) && old(buf) <= buf
        invariant D.ParseRow(Rest(), depth, keys[i..], item) == spec
      {
        ghost var b := Rest();
        var at := Ensure(1);
        if at.Threw? {
          return Threw(at.error);
        }
        assert b[1..] == Rest() && keys[i..][1..] == keys[i + 1..] && keys[i..][0] == keys[i];
        if data[at.value] != SKIP {
          var v := ParseValue(data[at.value]);
          if v.Threw? {
            return Threw(v.error);
          }
          KeyAt(templ, i);
          item := D.Assign(item, CStr(templ[i].text.s), v.value);
        }
        i := i + 1;
      }
      r := Got(item);
    }

    method ParseObject() returns (r: Result<Json>)
      requires Valid()
      modifies this
      ensures Agrees(r, D.ParseObject(old(Rest()), old(depth)), old(depth))
      decreases |data| - buf, 2
    {
      hide D.ExpectString, D.ExpectValue, D.ExpectSize, D.Emplace;
      depth := depth + 1;
      if depth == MAX_DEPTH {
        return Threw(D.TooDeep);
      }
      var count := ExpectSize();
      if count.Threw? {
        return Threw(count.error);
      }
      ghost var spec := D.ParseFields(Rest(), depth, count.value, []);
      var rv: seq<Field> := [];
      var i := 0;
      while i < count.value
        invariant 0 <= i <= count.value && Valid() && depth == old(depth) + 1 && old(buf) < buf
        invariant D.ParseFields(Rest(), depth, count.value - i, rv) == spec
      {
        var key := ExpectString();
        if key.Threw? {
          return Threw(key.error);
        }
        var v := ExpectValue();
        if v.Threw? {
          return Threw(v.error);
        }
        rv := D.Emplace(rv, key.value, v.value);
        i := i + 1;
      }
      depth := depth - 1;
      r := Got(Object(rv));
    }
  }

  /** bunser: "document too short" for an empty range, which the parser would also report as the end. */
  method Bunser(data: Bytes) returns (r: Result<Json>)
    ensures match D.Decode(data) { case Ok(v, _) => r == Got(v) case Err(e) => r == Threw(e) }
  {
    if data == [] {
      return Threw(D.Eof);
    }
    var p := new Parser(data);
    assert p.Rest() == data;
    r := p.ExpectValue();
  }
}
