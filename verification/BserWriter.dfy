/** The encoder of bser.cpp run against its two sinks: the counter of the measuring pass, and the
    buffer in front of the stream. */
module BserWriter {
  import opened Bser
  import opened Options
  import opened Stream
  import opened PduBuffer
  import opened PduFormat

  const INT_MAX: nat := 0x7fff_ffff

  /** jbuffer_write_data: accumulate in the buffer, send it when it is full. */
  class JBuffer {
    const stm: Stream
    const jr: PduBuffer

    constructor (stm: Stream, jr: PduBuffer)
      ensures this.stm == stm && this.jr == jr
    {
      this.stm, this.jr := stm, jr;
    }

    ghost predicate Valid()
      reads jr
    {
      jr.Valid() && jr.buf.Length <= INT_MAX
    }

    /** Every byte written so far, in order: those the peer has and those still buffered. */
    ghost function Total(): Bytes
      requires Valid()
      reads jr, jr.buf, stm
    {
      stm.sent + jr.Unread()
    }

    method Flush() returns (ok: bool)
      requires Valid()
      modifies stm`sent, stm`writeSizes, stm`failed, jr`rpos, jr`wpos
      ensures Valid() && Total() == old(Total()) && (old(stm.failed) ==> stm.failed)
      ensures if ok then jr.Unread() == [] && jr.wpos == 0 else stm.failed
    {
      while jr.wpos - jr.rpos > 0
        invariant Valid() && Total() == old(Total()) && (old(stm.failed) ==> stm.failed) && jr.buf == old(jr.buf)
        decreases jr.wpos - jr.rpos
      {
        var x := Send();
        if x == 0 {
          return false;
        }
      }
      jr.Clear();
      ok := true;
    }

    /** One write of what is buffered: what the peer takes leaves the buffer. */
    method Send() returns (x: nat)
      requires Valid() && jr.rpos < jr.wpos
      modifies stm`sent, stm`writeSizes, stm`failed, jr`rpos
      ensures Valid() && Total() == old(Total()) && (old(stm.failed) ==> stm.failed)
      ensures jr.rpos == old(jr.rpos) + x && (x == 0 ==> stm.failed)
    {
      ghost var sent, unread := stm.sent, jr.Unread();
      x := stm.Write(jr.buf, jr.rpos, jr.wpos);
      jr.rpos := jr.rpos + x;
      Moved(sent, unread, x);
    }

    lemma Moved(sent: Bytes, unread: Bytes, x: nat)
      requires x <= |unread|
      ensures (sent + unread[..x]) + unread[x..] == sent + unread
    {}

    method Write(buffer: Bytes) returns (rc: int)
      requires Valid() && |buffer| <= INT_MAX
      modifies stm`sent, stm`writeSizes, stm`failed, jr`rpos, jr`wpos, jr.buf
      ensures Valid() && (old(stm.failed) ==> stm.failed) && (rc == 0 || rc == -1)
      ensures rc == 0 ==> Total() == old(Total()) + buffer
      ensures rc != 0 ==> stm.failed && old(Total()) <= Total() <= old(Total()) + buffer
    {
      hide JBuffer.Valid, JBuffer.Total;
      var done := 0;
      while done < |buffer|
        invariant 0 <= done <= |buffer| && Valid() && (old(stm.failed) ==> stm.failed) && jr.buf == old(jr.buf)
        invariant Total() == old(Total()) + buffer[..done]
        decreases |buffer| - done
      {
        var room := Fill(buffer[done..]);
        if room == 0 {
          return -1;
        }
        assert buffer[..done + room] == buffer[..done] + buffer[done..][..room];
        done := done + room;
      }
      assert buffer[..done] == buffer;
      rc := 0;
    }

    /** One turn of the loop: as much of `rest` as fits, after a flush when nothing fits; 0 if that fails. */
    method Fill(rest: Bytes) returns (room: nat)
      requires Valid() && 0 < |rest|
      modifies stm`sent, stm`writeSizes, stm`failed, jr`rpos, jr`wpos, jr.buf
      ensures Valid() && (old(stm.failed) ==> stm.failed) && room <= |rest|
      ensures Total() == old(Total()) + rest[..room]
      ensures room == 0 ==> stm.failed
    {
      room := jr.buf.Length - jr.wpos;
      if room == 0 {
        var ok := Flush();
        if !ok {
          return 0;
        }
        room := jr.buf.Length - jr.wpos;
      }
      if |rest| < room {
        room := |rest|;
      }
      Copy(rest[..room]);
    }

    /** memcpy to the write position. */
    method Copy(chunk: Bytes)
      requires Valid() && |chunk| <= jr.buf.Length - jr.wpos
      modifies jr`wpos, jr.buf
      ensures Valid() && Total() == old(Total()) + chunk
    {
      ghost var unread := jr.Unread();
      forall i | 0 <= i < |chunk| {
        jr.buf[jr.wpos + i] := chunk[i];
      }
      jr.wpos := jr.wpos + |chunk|;
      assert jr.Unread() == unread + chunk;
    }
  }

  /** No single piece handed to the buffer is longer than its signed sizes can say: strings, keys, and the keys of
      templates. */
  ghost predicate Short(v: Json)
    decreases v, 1
  {
    match v
    case Str(t) => |t.s| <= INT_MAX
    case Array(elems, templ) =>
      if templ == [] then forall i :: 0 <= i < |elems| ==> Short(elems[i])
      else ShortTexts(templ) && forall i :: 0 <= i < |elems| ==> ShortRow(templ, elems[i])
    case Object(fields) => forall i :: 0 <= i < |fields| ==> ShortField(fields[i])
    case _ => true
  }

  ghost predicate ShortTexts(ts: seq<Text>) { forall i :: 0 <= i < |ts| ==> |ts[i].s| <= INT_MAX }

  ghost predicate ShortField(f: Field)
    decreases f
  {
    |CStr(f.key)| <= INT_MAX && Short(f.value)
  }

  ghost predicate ShortRow(templ: seq<Text>, row: Json)
    decreases row, 2
  {
    forall i :: 0 <= i < |templ| ==> ShortCell(templ[i], row)
  }

  ghost predicate ShortCell(key: Text, row: Json)
    decreases row, 0
  {
    Member(row, key).Some? ==> Short(Member(row, key).value)
  }

  /** bser_ctx_t with the data its dump callback gets: first `measure`, then the buffer. */
  class Dumper {
    const c: Ctx
    const out: JBuffer
    var measuring: bool
    var size: nat
    /** The bytes handed to the current callback. */
    ghost var emitted: Bytes
    /** What the buffer had seen before writing began. */
    ghost var base: Bytes

    constructor (c: Ctx, out: JBuffer)
      requires out.Valid()
      ensures this.c == c && this.out == out && measuring && size == 0 && emitted == [] && base == out.Total()
    {
      this.c, this.out, measuring, size, emitted, base := c, out, true, 0, [], out.Total();
    }

    ghost predicate Valid()
      reads this, out.jr, out.jr.buf, out.stm
    {
      && out.Valid() && out.stm as object != out.jr
      && (measuring ==> size == |emitted| && out.Total() == base)
      && (!measuring ==> out.Total() == base + emitted)
    }

    /** The outcome of emitting `bytes`: all of them and 0, or some of them and -1 after a failed send. */
    twostate predicate Emits(rc: int, bytes: Bytes)
      reads this, out.jr, out.jr.buf, out.stm
    {
      && Valid() && measuring == old(measuring) && base == old(base) && out.jr.buf == old(out.jr.buf)
      && (old(out.stm.failed) ==> out.stm.failed)
      && (rc == 0 || rc == -1)
      && (rc == 0 ==> emitted == old(emitted) + bytes)
      && (rc != 0 ==> !measuring && out.stm.failed && old(emitted) <= emitted <= old(emitted) + bytes)
    }

    /** ctx->dump */
    method Emit(bytes: Bytes) returns (rc: int)
      requires Valid() && |bytes| <= INT_MAX
      modifies this`size, this`emitted, out.stm`sent, out.stm`writeSizes, out.stm`failed,
               out.jr`rpos, out.jr`wpos, out.jr.buf
      ensures Emits(rc, bytes)
    {
      if measuring {
        size := size + |bytes|;
        emitted := emitted + bytes;
        return 0;
      }
      ghost var before := out.Total();
      rc := out.Write(bytes);
      emitted := out.Total()[|base|..];
      assert before[|base|..] == old(emitted);
    }

    method BserInt(i: int) returns (rc: int)
      requires Valid() && Supported(c)
      modifies this`size, this`emitted, out.stm`sent, out.stm`writeSizes, out.stm`failed,
               out.jr`rpos, out.jr`wpos, out.jr.buf
      ensures Emits(rc, EncodeInt(i))
    {
      var w := IntSize(i);
      rc := Emit([IntTag(w)]);
      if rc != 0 {
        return -1;
      }
      rc := Emit(ToBytes(i % Modulus(w), w));
    }

    /** A type tag and a count. */
    method Counted(tag: byte, n: nat) returns (rc: int)
      requires Valid() && Supported(c)
      modifies this`size, this`emitted, out.stm`sent, out.stm`writeSizes, out.stm`failed,
               out.jr`rpos, out.jr`wpos, out.jr.buf
      ensures Emits(rc, [tag] + EncodeInt(n))
    {
      hide EncodeInt, Dumper.Valid;
      rc := Emit([tag]);
      if rc != 0 {
        return -1;
      }
      rc := BserInt(n);
    }

    method BserString(tag: byte, s: Bytes) returns (rc: int)
      requires Valid() && Supported(c) && |s| <= INT_MAX
      modifies this`size, this`emitted, out.stm`sent, out.stm`writeSizes, out.stm`failed,
               out.jr`rpos, out.jr`wpos, out.jr.buf
      ensures Emits(rc, EncodeBytes(tag, s))
    {
      hide EncodeInt;
      rc := Counted(tag, |s|);
      if rc != 0 {
        return -1;
      }
      rc := Emit(s);
    }

    /** Part of the bytes are out; `rest` completes them to `target`. */
    twostate predicate Owing(target: Bytes, rest: Bytes)
      reads this, out.jr, out.jr.buf, out.stm
    {
      && Valid() && measuring == old(measuring) && base == old(base) && out.jr.buf == old(out.jr.buf)
      && (old(out.stm.failed) ==> out.stm.failed)
      && old(emitted) <= emitted && emitted + rest == target
    }

    method Dump(v: Json) returns (rc: int)
      requires Valid() && Supported(c) && Short(v)
      modifies this`size, this`emitted, out.stm`sent, out.stm`writeSizes, out.stm`failed,
               out.jr`rpos, out.jr`wpos, out.jr.buf
      ensures Emits(rc, Encode(c, v))
      decreases v, 2
    {
      match v
      case Null => rc := Emit([NULL]);
      case True => rc := Emit([TRUE]);
      case False => rc := Emit([FALSE]);
      case Integer(i) => rc := BserInt(i);
      case Real(bits) =>
        rc := Emit([REAL]);
        if rc == 0 {
          rc := Emit(bits);
        }
      case Str(t) => rc := BserString(StringTag(c, t.t), t.s);
      case Array(elems, templ) =>
        if templ == [] {
          rc := BserArray(elems);
        } else {
          rc := BserTemplate(elems, templ);
        }
      case Object(fields) => rc := BserObject(fields);
    }

    method BserArray(elems: seq<Json>) returns (rc: int)
      requires Valid() && Supported(c) && forall i :: 0 <= i < |elems| ==> Short(elems[i])
      modifies this`size, this`emitted, out.stm`sent, out.stm`writeSizes, out.stm`failed,
               out.jr`rpos, out.jr`wpos, out.jr.buf
      ensures Emits(rc, Encode(c, Array(elems, [])))
      decreases elems, 1
    {
      hide EncodeInt, EncodeBytes, Dumper.Valid;
      ghost var target := emitted + Encode(c, Array(elems, []));
      rc := Counted(ARRAY, |elems|);
      if rc != 0 {
        return -1;
      }
      var i := 0;
      assert elems[0..] == elems;
      while i < |elems|
        invariant 0 <= i <= |elems| && Owing(target, EncodeAll(c, elems[i..]))
      {
        assert elems[i..][0] == elems[i] && elems[i..][1..] == elems[i + 1..];
        rc := Dump(elems[i]);
        if rc != 0 {
          return -1;
        }
        i := i + 1;
      }
      rc := 0;
    }

    method BserObject(fields: seq<Field>) returns (rc: int)
      requires Valid() && Supported(c) && forall i :: 0 <= i < |fields| ==> ShortField(fields[i])
      modifies this`size, this`emitted, out.stm`sent, out.stm`writeSizes, out.stm`failed,
               out.jr`rpos, out.jr`wpos, out.jr.buf
      ensures Emits(rc, Encode(c, Object(fields)))
      decreases fields, 1
    {
      hide EncodeInt, EncodeBytes, Dumper.Valid;
      ghost var target := emitted + Encode(c, Object(fields));
      rc := Counted(OBJECT, |fields|);
      if rc != 0 {
        return -1;
      }
      var i := 0;
      assert fields[0..] == fields;
      while i < |fields|
        invariant 0 <= i <= |fields| && Owing(target, EncodeFields(c, fields[i..]))
      {
        assert fields[i..][0] == fields[i] && fields[i..][1..] == fields[i + 1..];
        rc := BserField(fields[i]);
        if rc != 0 {
          return -1;
        }
        i := i + 1;
      }
      rc := 0;
    }

    method BserField(f: Field) returns (rc: int)
      requires Valid() && Supported(c) && ShortField(f)
      modifies this`size, this`emitted, out.stm`sent, out.stm`writeSizes, out.stm`failed,
               out.jr`rpos, out.jr`wpos, out.jr.buf
      ensures Emits(rc, EncodeBytes(BYTESTRING, CStr(f.key)) + Encode(c, f.value))
      decreases f, 3
    {
      hide Encode, Dumper.Valid;
      rc := BserString(BYTESTRING, CStr(f.key));
      if rc != 0 {
        return -1;
      }
      rc := Dump(f.value);
    }

    method BserTemplate(elems: seq<Json>, templ: seq<Text>) returns (rc: int)
      requires Valid() && Supported(c) && templ != [] && ShortTexts(templ)
      requires forall i :: 0 <= i < |elems| ==> ShortRow(templ, elems[i])
      modifies this`size, this`emitted, out.stm`sent, out.stm`writeSizes, out.stm`failed,
               out.jr`rpos, out.jr`wpos, out.jr.buf
      ensures Emits(rc, Encode(c, Array(elems, templ)))
      decreases elems, 2
    {
      hide EncodeInt, EncodeTexts, EncodeRows, Dumper.Valid;
      rc := Emit([TEMPLATE]);
      if rc != 0 {
        return -1;
      }
      rc := TemplateKeys(templ);
      if rc != 0 {
        return -1;
      }
      rc := BserInt(|elems|);
      if rc != 0 {
        return -1;
      }
      rc := TemplateRows(elems, templ);
    }

    method TemplateRows(elems: seq<Json>, templ: seq<Text>) returns (rc: int)
      requires Valid() && Supported(c) && forall i :: 0 <= i < |elems| ==> ShortRow(templ, elems[i])
      modifies this`size, this`emitted, out.stm`sent, out.stm`writeSizes, out.stm`failed,
               out.jr`rpos, out.jr`wpos, out.jr.buf
      ensures Emits(rc, EncodeRows(c, templ, elems))
      decreases elems, 1
    {
      hide EncodeRow, Dumper.Valid;
      ghost var target := emitted + EncodeRows(c, templ, elems);
      var i := 0;
      assert elems[0..] == elems;
      while i < |elems|
        invariant 0 <= i <= |elems| && Owing(target, EncodeRows(c, templ, elems[i..]))
      {
        assert elems[i..][0] == elems[i] && elems[i..][1..] == elems[i + 1..];
        rc := TemplateRow(templ, elems[i]);
        if rc != 0 {
          return -1;
        }
        i := i + 1;
      }
      rc := 0;
    }

    /** bser_array on the template itself. */
    method TemplateKeys(templ: seq<Text>) returns (rc: int)
      requires Valid() && Supported(c) && ShortTexts(templ)
      modifies this`size, this`emitted, out.stm`sent, out.stm`writeSizes, out.stm`failed,
               out.jr`rpos, out.jr`wpos, out.jr.buf
      ensures Emits(rc, [ARRAY] + EncodeInt(|templ|) + EncodeTexts(c, templ))
    {
      hide EncodeInt, Dumper.Valid;
      ghost var target := emitted + ([ARRAY] + EncodeInt(|templ|) + EncodeTexts(c, templ));
      rc := Counted(ARRAY, |templ|);
      if rc != 0 {
        return -1;
      }
      var i := 0;
      assert templ[0..] == templ;
      while i < |templ|
        invariant 0 <= i <= |templ| && Owing(target, EncodeTexts(c, templ[i..]))
      {
        assert templ[i..][0] == templ[i] && templ[i..][1..] == templ[i + 1..];
        rc := BserString(StringTag(c, templ[i].t), templ[i].s);
        if rc != 0 {
          return -1;
        }
        i := i + 1;
      }
      rc := 0;
    }

    /** One object of a templated array. */
    method TemplateRow(templ: seq<Text>, row: Json) returns (rc: int)
      requires Valid() && Supported(c) && ShortRow(templ, row)
      modifies this`size, this`emitted, out.stm`sent, out.stm`writeSizes, out.stm`failed,
               out.jr`rpos, out.jr`wpos, out.jr.buf
      ensures Emits(rc, EncodeRow(c, templ, row))
      decreases row, 3
    {
      hide EncodeCell, Dumper.Valid;
      ghost var target := emitted + EncodeRow(c, templ, row);
      var i := 0;
      assert templ[0..] == templ;
      while i < |templ|
        invariant 0 <= i <= |templ| && Owing(target, EncodeRow(c, templ[i..], row))
      {
        assert templ[i..][0] == templ[i] && templ[i..][1..] == templ[i + 1..];
        rc := TemplateCell(templ[i], row);
        if rc != 0 {
          return -1;
        }
        i := i + 1;
      }
      rc := 0;
    }

    method TemplateCell(key: Text, row: Json) returns (rc: int)
      requires Valid() && Supported(c) && ShortCell(key, row)
      modifies this`size, this`emitted, out.stm`sent, out.stm`writeSizes, out.stm`failed,
               out.jr`rpos, out.jr`wpos, out.jr.buf
      ensures Emits(rc, EncodeCell(c, key, row))
      decreases row, 2
    {
      hide Encode, Dumper.Valid, Dumper.Emits;
      var val := Member(row, key);
      if val.None? {
        rc := Emit([SKIP]);
      } else {
        rc := Dump(val.value);
      }
    }

    /** The second half of w_bser_write_pdu: magic, capabilities, the measured size, the value. */
    method WriteMeasured(v: Json) returns (rc: int)
      requires Valid() && Supported(c) && size == |Encode(c, v)| && Short(v) && !measuring
      modifies this`size, this`emitted, out.stm`sent, out.stm`writeSizes, out.stm`failed,
               out.jr`rpos, out.jr`wpos, out.jr.buf
      ensures Emits(rc, PduBytes(c, v))
    {
      hide EncodeInt, Encode, HeaderBytes, Magic, Dumper.Valid;
      rc := WriteHeader(size);
      if rc != 0 {
        return -1;
      }
      rc := Dump(v);
    }

    method WriteHeader(n: nat) returns (rc: int)
      requires Valid() && Supported(c) && !measuring
      modifies this`size, this`emitted, out.stm`sent, out.stm`writeSizes, out.stm`failed,
               out.jr`rpos, out.jr`wpos, out.jr.buf
      ensures Emits(rc, Magic(c.version) + HeaderBytes(c, n))
    {
      hide EncodeInt, Dumper.Valid;
      rc := Emit(Magic(c.version));
      if rc != 0 {
        return -1;
      }
      if c.version == 2 {
        rc := Emit(ToBytes(c.capabilities, 4));
        if rc != 0 {
          return -1;
        }
      }
      rc := BserInt(n);
    }
  }

  /** w_bser_write_pdu: a measuring pass, then a writing pass. */
  method WritePdu(c: Ctx, v: Json, out: JBuffer) returns (rc: int)
    requires out.Valid() && Short(v)
    modifies out.stm`sent, out.stm`writeSizes, out.stm`failed, out.jr`rpos, out.jr`wpos, out.jr.buf
    ensures out.Valid() && (old(out.stm.failed) ==> out.stm.failed)
    ensures rc == 0 ==> Supported(c) && out.Total() == old(out.Total()) + PduBytes(c, v)
    ensures rc != 0 ==> (!Supported(c) && out.Total() == old(out.Total()))
                        || (out.stm.failed && old(out.Total()) <= out.Total() <= old(out.Total()) + PduBytes(c, v))
  {
    hide EncodeInt, Encode, PduBytes;
    if !Supported(c) {
      return -1;
    }
    var ctx := new Dumper(c, out);
    var _ := ctx.Dump(v);
    ctx.measuring := false;
    ctx.emitted := [];
    rc := ctx.WriteMeasured(v);
  }

  // ----- Short encodings have short pieces

  lemma {:induction false} ShortEncoding(c: Ctx, v: Json)
    requires |Encode(c, v)| <= INT_MAX
    ensures Short(v)
    decreases v, 1
  {
    match v
    case Array(elems, templ) =>
      if templ == [] {
        ShortAll(c, elems);
      } else {
        ShortKeys(c, templ);
        ShortRows(c, templ, elems);
      }
    case Object(fields) => ShortFields(c, fields);
    case _ =>
  }

  lemma {:induction false} ShortAll(c: Ctx, vs: seq<Json>)
    requires |EncodeAll(c, vs)| <= INT_MAX
    ensures forall i :: 0 <= i < |vs| ==> Short(vs[i])
    decreases vs, 0
  {
    if vs != [] {
      ShortEncoding(c, vs[0]);
      ShortAll(c, vs[1..]);
      assert forall i :: 0 < i < |vs| ==> vs[i] == vs[1..][i - 1];
    }
  }

  lemma {:induction false} ShortFields(c: Ctx, fs: seq<Field>)
    requires |EncodeFields(c, fs)| <= INT_MAX
    ensures forall i :: 0 <= i < |fs| ==> ShortField(fs[i])
    decreases fs, 0
  {
    if fs != [] {
      ShortEncoding(c, fs[0].value);
      ShortFields(c, fs[1..]);
      assert forall i :: 0 < i < |fs| ==> fs[i] == fs[1..][i - 1];
    }
  }

  lemma {:induction false} ShortKeys(c: Ctx, ts: seq<Text>)
    requires |EncodeTexts(c, ts)| <= INT_MAX
    ensures ShortTexts(ts)
  {
    if ts != [] {
      ShortKeys(c, ts[1..]);
      assert forall i :: 0 < i < |ts| ==> ts[i] == ts[1..][i - 1];
    }
  }

  lemma {:induction false} ShortRows(c: Ctx, templ: seq<Text>, rows: seq<Json>)
    requires |EncodeRows(c, templ, rows)| <= INT_MAX
    ensures forall i :: 0 <= i < |rows| ==> ShortRow(templ, rows[i])
    decreases rows, 0
  {
    if rows != [] {
      ShortCells(c, templ, rows[0]);
      ShortRows(c, templ, rows[1..]);
      assert forall i :: 0 < i < |rows| ==> rows[i] == rows[1..][i - 1];
    }
  }

  lemma {:induction false} ShortCells(c: Ctx, templ: seq<Text>, row: Json)
    requires |EncodeRow(c, templ, row)| <= INT_MAX
    ensures ShortRow(templ, row)
    decreases row, 2, |templ|
  {
    if templ != [] {
      var x := Member(row, templ[0]);
      if x.Some? { ShortEncoding(c, x.value); }
      ShortCells(c, templ[1..], row);
      assert forall i :: 0 < i < |templ| ==> templ[i] == templ[1..][i - 1];
    }
  }
}
