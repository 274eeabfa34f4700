/** Both ends of the wire: bserEncodeToStream on one side, decodeNext on the other. */
module PduWire {
  import opened Bser
  import opened BserLimits
  import opened BserMeaning
  import opened BserRoundTrip
  import opened BserWriter
  import opened Options
  import opened PduBuffer
  import opened PduFormat
  import opened Stream

  method BserEncodeToStream(c: Ctx, v: Json, jr: PduBuffer, stm: Stream) returns (ok: bool)
    requires jr.Valid() && jr.buf.Length <= INT_MAX && Short(v)
    modifies stm`sent, stm`writeSizes, stm`failed, jr`rpos, jr`wpos, jr.buf
    ensures jr.Valid() && (old(stm.failed) ==> stm.failed)
    ensures ok ==> Supported(c) && jr.Unread() == [] && stm.sent == old(stm.sent + jr.Unread()) + PduBytes(c, v)
    ensures !ok ==> !Supported(c) || stm.failed
    ensures !ok ==> stm.sent + jr.Unread() <= old(stm.sent + jr.Unread()) + PduBytes(c, v)
  {
    var data := new JBuffer(stm, jr);
    var res := WritePdu(c, v, data);
    if res != 0 {
      return false;
    }
    ok := data.Flush();
  }

  /** How the reader takes the bytes of a PDU apart, whatever follows them. */
  lemma PduParts(c: Ctx, v: Json, rest: Bytes)
    requires Supported(c) && |Encode(c, v)| <= LIMIT
    ensures var b := PduBytes(c, v) + rest;
            && Detected(b) == (if c.version == 2 then IsBserV2 else IsBser)
            && Header(b[2..], Version(b))
               == Some(Info(if c.version == 2 then c.capabilities else 0, |Encode(c, v)|, Encode(c, v) + rest))
            && Announced(b) == |Encode(c, v)|
  {
    hide Encode, EncodeInt, Header;
    var size := |Encode(c, v)|;
    var b := PduBytes(c, v) + rest;
    assert b[..2] == Magic(c.version);
    assert b[2..] == HeaderBytes(c, size) + (Encode(c, v) + rest);
    HeaderRoundTrip(c, size, Encode(c, v) + rest);
  }

  /** The reader's verdict on the bytes of one PDU followed by anything: the value that was sent, exactly if it is
      within the parser's limits. */
  lemma OnePdu(c: Ctx, v: Json, rest: Bytes, r: Next, n: nat)
    requires Supported(c) && |Encode(c, v)| <= LIMIT
    requires Answers(r, n, PduBytes(c, v) + rest)
    ensures r == (if Portable(v, MAX_DEPTH - 1) then Value(Transport(c, v)) else Failed)
    ensures r.Value? ==> Carried(c, v, r.value)
    ensures |Encode(c, v)| <= n <= |Encode(c, v)| + |rest|
  {
    hide Encode, PduBytes, Header, Detected, Version, Transport, Portable, Carried;
    PduParts(c, v, rest);
    var size := |Encode(c, v)|;
    var body := Encode(c, v) + rest;
    assert body[..n] == Encode(c, v) + body[size..n];
    DumpDecodes(c, v, body[size..n]);
  }

  /** A whole exchange, for every way the two streams split the bytes. Unless a call fails, the reader gets the value
      that was sent exactly when the value is within the parser's limits and the first read brings more than one byte.
      If it brings one, what the reader's buffer held before decides. */
  method Exchange(c: Ctx, v: Json, jw: PduBuffer, out: Stream, jr: PduBuffer, inp: Stream) returns (r: Option<Next>)
    requires Supported(c) && |PduBytes(c, v)| <= LIMIT
    requires jw.Valid() && jw.buf.Length <= INT_MAX && jw.Unread() == [] && out.sent == []
    requires jr.Valid() && jr.buf.Length >= 11 && jr.Unread() == [] && StaleLength(jr.buf[2..]) <= LIMIT
    requires jw != jr && jw.buf != jr.buf && out != inp
    modifies out, jw, jw.buf, inp, jr, jr.buf
    ensures !out.failed && !inp.failed ==>
              && r.Some?
              && if Head(old(inp.readSizes)) == 1 then Alone(r.value, old(jr.buf[2..]))
                 else r.value == if Portable(v, MAX_DEPTH - 1) then Value(Transport(c, v)) else Failed
    ensures !out.failed && !inp.failed && r.value.Value? ==> Carried(c, v, r.value.value)
  {
    hide Encode, Transport, Portable, PduBytes, Announced, Answers, Carried;
    PduIsLong(c, v);
    ShortEncoding(c, v);
    var ok := BserEncodeToStream(c, v, jw, out);
    if !ok {
      return None;
    }
    inp.incoming := out.sent;
    PduParts(c, v, []);
    assert PduBytes(c, v) + [] == PduBytes(c, v) == jr.Unread() + inp.incoming;
    var x, n := jr.DecodeNext(inp);
    if !inp.failed && Head(old(inp.readSizes)) != 1 {
      OnePdu(c, v, [], x, n);
    }
    r := Some(x);
  }

  /** A reader that takes in the whole header of a version 1 PDU at once keeps the length where the next lone byte
      finds it. */
  lemma HeaderStaysBehind(c: Ctx, size: nat, rest: Bytes)
    requires c.version != 2 && size <= MAX_CONTAINER
    ensures BunserInt(HeaderBytes(c, size) + rest).Done?
    ensures forall r: Next :: Alone(r, HeaderBytes(c, size) + rest) ==> r.Overrun?
  {
    hide BunserInt, EncodeInt, HeaderBytes;
    HeaderRoundTrip(c, size, rest);
    BunserIntIsParsed(HeaderBytes(c, size) + rest, []);
    assert HeaderBytes(c, size) + rest + [] == HeaderBytes(c, size) + rest;
  }

  lemma PduIsLong(c: Ctx, v: Json)
    ensures |PduBytes(c, v)| >= 2 && |Encode(c, v)| <= |PduBytes(c, v)|
  {
  }
}
