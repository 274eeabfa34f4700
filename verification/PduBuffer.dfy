/** The I/O buffer of PDU.cpp: bytes between a read and a write position, shunted down and grown in place. */
module PduBuffer {
  import opened Bser
  import opened Options
  import opened Stream
  import opened PduFormat
  import D = BserDecode
  import BserParser

  /** Lengths up to here can be doubled within 32 bits. */
  const LIMIT: nat := 0x4000_0000

  /** What decodeNext comes to. `Overrun`: an error handler is about to print `extent` bytes where only `room` are left
      in the allocation, and the call does not return. */
  datatype Next = Failed | Value(value: Json) | NotBser | Overrun(extent: nat, room: nat)

  datatype PduType = NeedData | IsJson | IsBser | IsBserV2

  class PduBuffer {
    var buf: array<byte>
    var rpos: nat
    var wpos: nat

    /** `allocd`; the positions are in order and the allocation fits 32 bits. */
    ghost predicate Valid()
      reads this
    {
      0 <= rpos <= wpos <= buf.Length && 0 < buf.Length < 0x1_0000_0000
    }

    /** The bytes written to the buffer and not yet taken out. */
    ghost function Unread(): Bytes
      requires Valid()
      reads this, buf
    {
      buf[rpos..wpos]
    }

    constructor (size: nat)
      requires 0 < size < 0x1_0000_0000
      ensures Valid() && Unread() == [] && fresh(buf)
    {
      buf := new byte[size];
      rpos, wpos := 0, 0;
    }

    method Clear()
      requires Valid()
      modifies this`rpos, this`wpos
      ensures Valid() && Unread() == [] && rpos == wpos == 0
    {
      rpos, wpos := 0, 0;
    }

    method ShuntDown() returns (avail: nat)
      requires Valid()
      modifies this`rpos, this`wpos, buf
      ensures Valid() && Unread() == old(Unread()) && avail == buf.Length - wpos
      ensures rpos == 0 && (old(rpos == wpos) ==> buf[..] == old(buf[..]))
    {
      if rpos > 0 && rpos == wpos {
        rpos, wpos := 0, 0;
      }
      if rpos > 0 && rpos < wpos {
        var n := wpos - rpos;
        forall i | 0 <= i < n {
          buf[i] := buf[rpos + i];
        }
        rpos, wpos := 0, n;
      }
      avail := buf.Length - wpos;
    }

    /** realloc: the same bytes in a larger array. */
    method Grow(size: nat)
      requires Valid() && buf.Length <= size < 0x1_0000_0000
      modifies this`buf
      ensures Valid() && Unread() == old(Unread()) && buf.Length == size && fresh(buf)
    {
      var bigger := new byte[size];
      forall i | 0 <= i < buf.Length {
        bigger[i] := buf[i];
      }
      buf := bigger;
    }

    /** Reads once more; the bytes buffered and the bytes still coming stay the same bytes in order. */
    method FillBuffer(stm: Stream) returns (ok: bool)
      requires Valid() && |Unread()| < LIMIT
      modifies this, buf, stm`incoming, stm`readSizes, stm`failed
      ensures Valid() && (buf == old(buf) || fresh(buf))
      ensures Unread() + stm.incoming == old(Unread() + stm.incoming)
      ensures |Unread()| == old(|Unread()|) + |old(stm.incoming)| - |stm.incoming|
      ensures ok <==> |Unread()| > old(|Unread()|)
      ensures rpos == 0
      ensures old(|Unread()|) == 0 && old(buf.Length) >= 2 ==>
                (|Unread()| == 1 <==> Min(Head(old(stm.readSizes)), |old(stm.incoming)|) == 1)
      ensures old(rpos == wpos) && old(buf.Length) >= 2 && |Unread()| == 1 ==>
                buf == old(buf) && buf[2..] == old(buf[2..])
      ensures !ok ==> stm.failed || stm.incoming == []
      ensures old(stm.failed) ==> stm.failed
    {
      OpenRoom();
      ghost var unread, coming, before := Unread(), stm.incoming, buf[..];
      var r := ReadMore(stm);
      Rejoined(unread, coming, r);
      if wpos == 1 && buf.Length >= 2 { assert buf[2..] == buf[1..][1..] == before[2..]; }
      ok := r > 0;
    }

    lemma Rejoined(a: Bytes, b: Bytes, r: nat)
      requires r <= |b|
      ensures (a + b[..r]) + b[r..] == a + b
    {}

    /** The unread bytes go to the front, and the allocation doubles if they fill it. */
    method OpenRoom()
      requires Valid() && |Unread()| < LIMIT
      modifies this, buf
      ensures Valid() && (buf == old(buf) || fresh(buf)) && Unread() == old(Unread())
      ensures rpos == 0 && wpos < buf.Length
      ensures |Unread()| < old(buf.Length) ==> buf == old(buf)
      ensures old(rpos == wpos) ==> buf[..] == old(buf[..])
    {
      var avail := ShuntDown();
      if avail == 0 {
        Grow(buf.Length * 2);
      }
    }

    /** One read to the end of the allocation: what comes is appended to what is unread. */
    method ReadMore(stm: Stream) returns (r: nat)
      requires Valid() && wpos < buf.Length
      modifies this`wpos, buf, stm`incoming, stm`readSizes, stm`failed
      ensures Valid() && wpos == old(wpos) + r
      ensures r == Min(Head(old(stm.readSizes)), Min(buf.Length - old(wpos), |old(stm.incoming)|))
      ensures Unread() == old(Unread()) + old(stm.incoming)[..r] && stm.incoming == old(stm.incoming)[r..]
      ensures buf[wpos..] == old(buf[..])[wpos..]
      ensures stm.failed == (old(stm.failed) || (r == 0 && old(stm.incoming) != []))
    {
      ghost var before := buf[..];
      r := stm.Read(buf, wpos, buf.Length - wpos);
      assert buf[rpos..wpos] == buf[..wpos][rpos..] == before[rpos..wpos];
      assert buf[rpos..wpos + r] == buf[rpos..wpos] + buf[wpos..wpos + r];
      assert buf[wpos + r..] == before[wpos + r..];
      wpos := wpos + r;
    }

    /** Takes the capabilities of a version 2 header. */
    method ReadCapabilities(stm: Stream) returns (capabilities: Option<nat>)
      requires Valid()
      modifies this, buf, stm`incoming, stm`readSizes, stm`failed
      ensures Valid() && (buf == old(buf) || fresh(buf)) && (old(stm.failed) ==> stm.failed)
      ensures wpos <= old(wpos) || wpos <= |old(Unread() + stm.incoming)|
      ensures capabilities.Some? ==>
                && |old(Unread() + stm.incoming)| >= 4 && Unread() + stm.incoming == old(Unread() + stm.incoming)[4..]
                && capabilities.value == FromBytes(old(Unread() + stm.incoming)[..4])
      ensures capabilities.None? ==> stm.failed || |old(Unread() + stm.incoming)| < 4
    {
      ghost var all := Unread() + stm.incoming;
      while wpos - rpos < 4
        invariant Valid() && (buf == old(buf) || fresh(buf)) && (old(stm.failed) ==> stm.failed)
        invariant Unread() + stm.incoming == all
        invariant wpos <= old(wpos) || wpos <= |all|
        decreases |stm.incoming|
      {
        var ok := FillBuffer(stm);
        if !ok {
          return None;
        }
      }
      assert all[..4] == buf[rpos..rpos + 4];
      capabilities := Some(FromBytes(buf[rpos..rpos + 4]));
      rpos := rpos + 4;
      assert all[4..] == Unread() + stm.incoming;
    }

    /** The loop that waits for a whole length. */
    method ReadLength(stm: Stream) returns (len: Option<Int64>)
      requires Valid()
      modifies this, buf, stm`incoming, stm`readSizes, stm`failed
      ensures Valid() && (buf == old(buf) || fresh(buf)) && (old(stm.failed) ==> stm.failed)
      ensures wpos <= old(wpos) || wpos <= |old(Unread() + stm.incoming)|
      ensures len.Some? ==> D.ExpectInteger(old(Unread() + stm.incoming)) == D.Ok(len.value, Unread() + stm.incoming)
      ensures len.None? ==> stm.failed || D.ExpectInteger(old(Unread() + stm.incoming)).Err?
    {
      hide BunserInt, D.ExpectInteger;
      ghost var all := Unread() + stm.incoming;
      while true
        invariant Valid() && (buf == old(buf) || fresh(buf)) && (old(stm.failed) ==> stm.failed)
        invariant Unread() + stm.incoming == all
        invariant wpos <= old(wpos) || wpos <= |all|
        decreases |stm.incoming|
      {
        var r := BunserInt(buf[rpos..wpos]);
        BunserIntIsParsed(Unread(), stm.incoming);
        if r.Done? {
          rpos := rpos + r.needed;
          assert all[r.needed..] == Unread() + stm.incoming;
          return Some(r.value);
        }
        if r.Bad? {
          return None;
        }
        ghost var unread, coming := Unread(), stm.incoming;
        var ok := FillBuffer(stm);
        if !ok {
          assert stm.incoming == [] ==> coming == [] && unread + [] == unread == all;
          return None;
        }
      }
    }

    /** Reads the header; what is left is the body and whatever follows it. */
    method DecodePduInfo(stm: Stream, version: nat) returns (len: Option<Int64>, capabilities: nat)
      requires Valid()
      modifies this, buf, stm`incoming, stm`readSizes, stm`failed
      ensures Valid() && (buf == old(buf) || fresh(buf)) && (old(stm.failed) ==> stm.failed)
      ensures wpos <= old(wpos) || wpos <= |old(Unread() + stm.incoming)|
      ensures len.Some? ==>
                Header(old(Unread() + stm.incoming), version)
                == Some(Info(capabilities, len.value, Unread() + stm.incoming))
      ensures len.None? ==> stm.failed || Header(old(Unread() + stm.incoming), version).None?
    {
      capabilities := 0;
      if version == 2 {
        var read := ReadCapabilities(stm);
        if read.None? {
          return None, 0;
        }
        capabilities := read.value;
      }
      len := ReadLength(stm);
    }

    /** Reads one PDU whose magic is buffered. `n` is how many bytes after the header the parser is given:
        at least the announced length, at most all there are. */
    method ReadBserPdu(stm: Stream, version: nat) returns (r: Option<Json>, ghost n: nat)
      requires Valid() && wpos - rpos >= 2 && wpos <= LIMIT && |Unread() + stm.incoming| <= LIMIT
      requires var h := Header((Unread() + stm.incoming)[2..], version); h.Some? ==> h.value.len <= LIMIT
      modifies this, buf, stm`incoming, stm`readSizes, stm`failed
      ensures Valid() && (buf == old(buf) || fresh(buf)) && (old(stm.failed) ==> stm.failed)
      ensures var h := Header(old(Unread() + stm.incoming)[2..], version);
              if h.None? || h.value.len > |h.value.body| then r.None?
              else stm.failed || (h.value.len <= n <= |h.value.body| && Unread() == []
                                  && r == Parsed(h.value.body[..n]))
    {
      n := 0;
      ghost var all := Unread() + stm.incoming;
      rpos := rpos + 2;
      assert Unread() + stm.incoming == all[2..];
      var val, _ := DecodePduInfo(stm, version);
      if val.None? {
        return None, n;
      }
      r, n := TakeBody(stm, val.value);
    }

    /** Reads and parses a body of val bytes. */
    method TakeBody(stm: Stream, val: Int64) returns (r: Option<Json>, ghost n: nat)
      requires Valid() && wpos <= LIMIT && val <= LIMIT
      modifies this, buf, stm`incoming, stm`readSizes, stm`failed
      ensures Valid() && (buf == old(buf) || fresh(buf)) && (old(stm.failed) ==> stm.failed)
      ensures var body := old(Unread() + stm.incoming);
              if val > |body| then r.None?
              else stm.failed || (val <= n <= |body| && Unread() == [] && r == Parsed(body[..n]))
    {
      n := 0;
      ReserveRoom(val);
      ghost var body := Unread() + stm.incoming;
      var ok := ReadBody(stm, val);
      if !ok {
        return None, n;
      }
      n := wpos - rpos;
      assert body[..n] == buf[rpos..wpos];
      var obj := BserParser.Bunser(buf[rpos..wpos]);
      r := if obj.Got? then Some(obj.value) else None;
      rpos := wpos;
    }

    /** Makes room for val more bytes. */
    method ReserveRoom(val: Int64)
      requires Valid() && wpos <= LIMIT && val <= LIMIT
      modifies this`buf
      ensures Valid() && (buf == old(buf) || fresh(buf)) && Unread() == old(Unread())
      ensures buf.Length - wpos >= val
    {
      if val > buf.Length - wpos {
        var ideal := IdealSize(val);
        Grow(ideal);
      }
    }

    /** Doubles the allocation's size until val more bytes fit. */
    method IdealSize(val: Int64) returns (ideal: nat)
      requires 0 < buf.Length < 0x1_0000_0000 && wpos <= LIMIT && val <= LIMIT
      ensures buf.Length <= ideal < 0x1_0000_0000 && ideal - wpos >= val
    {
      ideal := buf.Length;
      while ideal - wpos < val
        invariant buf.Length <= ideal && (ideal == buf.Length || ideal < 2 * (wpos + val))
        decreases 2 * (wpos + val) - ideal
      {
        ideal := ideal * 2;
      }
    }

    /** Reads until val bytes are buffered. */
    method ReadBody(stm: Stream, val: Int64) returns (ok: bool)
      requires Valid() && buf.Length - wpos >= val
      modifies this`wpos, buf, stm`incoming, stm`readSizes, stm`failed
      ensures Valid() && Unread() + stm.incoming == old(Unread() + stm.incoming) && (old(stm.failed) ==> stm.failed)
      ensures ok ==> wpos - rpos >= val
      ensures !ok ==> stm.failed || val > |Unread() + stm.incoming|
    {
      ghost var start := wpos;
      while wpos - rpos < val
        invariant Valid() && start <= wpos && Unread() + stm.incoming == old(Unread() + stm.incoming)
        invariant old(stm.failed) ==> stm.failed
        decreases |stm.incoming|
      {
        ghost var unread, coming := Unread(), stm.incoming;
        var r := ReadMore(stm);
        Rejoined(unread, coming, r);
        if r == 0 {
          return false;
        }
      }
      ok := true;
    }

    method DetectPdu() returns (t: PduType)
      requires Valid()
      ensures t == Detected(Unread())
    {
      if wpos - rpos < 2 {
        return NeedData;
      }
      assert Unread()[..2] == [buf[rpos], buf[rpos + 1]];
      if buf[rpos] == 0x00 && buf[rpos + 1] == 0x01 {
        return IsBser;
      }
      if buf[rpos] == 0x00 && buf[rpos + 1] == 0x02 {
        return IsBserV2;
      }
      t := IsJson;
    }

    /** Fills once if fewer than two bytes are buffered, and then decides on what is there. */
    method ReadAndDetectPdu(stm: Stream) returns (t: Option<PduType>, capabilities: nat)
      requires Valid() && buf.Length >= 2 && |Unread() + stm.incoming| <= LIMIT
      modifies this, buf, stm`incoming, stm`readSizes, stm`failed
      ensures Valid() && (buf == old(buf) || fresh(buf)) && (old(stm.failed) ==> stm.failed)
      ensures rpos == 0 && Unread() + stm.incoming == old(Unread() + stm.incoming)
      ensures t.None? ==> stm.failed || |old(Unread() + stm.incoming)| < 2
                          || (Detected(old(Unread() + stm.incoming)) == IsBserV2 && |old(Unread() + stm.incoming)| < 6)
      ensures t.Some? && t.value != NeedData ==> |Unread()| >= 2 && t.value == Detected(old(Unread() + stm.incoming))
      ensures t == Some(IsBserV2) ==>
                |old(Unread() + stm.incoming)| >= 6 && capabilities == FromBytes(old(Unread() + stm.incoming)[2..6])
      ensures t == Some(NeedData) <==> FirstByteAlone(old(|Unread()|), old(stm.readSizes), old(|stm.incoming|))
      ensures t == Some(NeedData) ==> buf == old(buf) && wpos == 1 && buf[2..] == old(buf[2..])
    {
      ghost var all := Unread() + stm.incoming;
      capabilities := 0;
      var _ := ShuntDown();
      var d := DetectPdu();
      if d == NeedData {
        var ok := FillBuffer(stm);
        if !ok {
          return None, 0;
        }
        d := DetectPdu();
      }
      assert |Unread()| >= 2 ==> Unread()[..2] == all[..2];
      if d == IsBserV2 {
        var read := AwaitCapabilities(stm);
        if read.None? {
          return None, 0;
        }
        capabilities := read.value;
      }
      t := Some(d);
    }

    /** Waits for the capabilities behind the magic of version 2, which stays unread. */
    method AwaitCapabilities(stm: Stream) returns (r: Option<nat>)
      requires Valid() && rpos == 0 && |Unread()| >= 2
      modifies this, buf, stm`incoming, stm`readSizes, stm`failed
      ensures Valid() && (buf == old(buf) || fresh(buf)) && (old(stm.failed) ==> stm.failed)
      ensures rpos == 0 && Unread() + stm.incoming == old(Unread() + stm.incoming)
      ensures r.None? ==> stm.failed || |old(Unread() + stm.incoming)| < 6
      ensures r.Some? ==>
                |Unread()| >= 6 && r.value == FromBytes(old(Unread() + stm.incoming)[2..6])
    {
      ghost var all := Unread() + stm.incoming;
      while wpos - rpos < 6
        invariant Valid() && (buf == old(buf) || fresh(buf)) && (old(stm.failed) ==> stm.failed)
        invariant rpos == 0 && Unread() + stm.incoming == all && |Unread()| >= 2
        decreases |stm.incoming|
      {
        var ok := FillBuffer(stm);
        if !ok {
          return None;
        }
      }
      InFront(Unread(), stm.incoming);
      assert Unread()[2..6] == buf[rpos + 2..rpos + 6];
      r := Some(FromBytes(buf[rpos + 2..rpos + 6]));
    }

    lemma InFront(a: Bytes, b: Bytes)
      requires |a| >= 6
      ensures (a + b)[2..6] == a[2..6]
    {}

    /** readBserPdu when a single byte is buffered: the read position passes the write position, and the unsigned
        difference of the two makes everything in the allocation look available. No byte is read from the stream. If
        the stale bytes behind the first two do not start with the tag of an integer the call fails. Otherwise the
        parser refuses its empty input, and the handler prints the bytes from the read to the write position, a
        number that has wrapped round. */
    method ReadPastEnd() returns (r: Next)
      requires Valid() && rpos == 0 && wpos == 1 && buf.Length >= 11
      requires StaleLength(buf[2..]) <= LIMIT
      modifies this`rpos, this`buf
      ensures Alone(r, old(buf[2..]))
      ensures r == Failed ==> rpos == 2 && buf == old(buf)
      ensures r.Overrun? ==> rpos <= buf.Length && r.extent == Difference(wpos, rpos) && r.room == buf.Length - rpos
    {
      rpos := rpos + 2;
      assert Difference(wpos, rpos) == 0xffff_ffff;
      var val := BunserInt(buf[2..]);
      if val.Bad? {
        return Failed;
      }
      rpos := rpos + val.needed;
      Reallocate(val.value);
      assert Difference(wpos, rpos) >= val.value;
      r := Overrun(Difference(wpos, rpos), buf.Length - rpos);
    }

    /** The allocation grows for the announced length; the contents do not matter here. */
    method Reallocate(val: Int64)
      requires wpos == 1 && 0 < buf.Length < 0x1_0000_0000 && val <= LIMIT
      modifies this`buf
      ensures old(buf.Length) <= buf.Length < 0x1_0000_0000
    {
      if val > buf.Length - wpos {
        var ideal := IdealSize(val);
        buf := new byte[ideal];
      }
    }

    /** decodeNext. When the first read of an empty buffer brings a single byte the type stays undecided and the
        reader of version 1 is entered all the same; the stale bytes in the buffer then decide between a failure and
        an overrun. */
    method DecodeNext(stm: Stream) returns (r: Next, ghost n: nat)
      requires Valid() && buf.Length >= 11 && |Unread() + stm.incoming| <= LIMIT
      requires Announced(Unread() + stm.incoming) <= LIMIT && StaleLength(buf[2..]) <= LIMIT
      modifies this, buf, stm`incoming, stm`readSizes, stm`failed
      ensures old(stm.failed) ==> stm.failed
      ensures FirstByteAlone(old(|Unread()|), old(stm.readSizes), old(|stm.incoming|)) || Valid()
      ensures !stm.failed ==>
                if FirstByteAlone(old(|Unread()|), old(stm.readSizes), old(|stm.incoming|))
                then Alone(r, old(buf[2..]))
                else Answers(r, n, old(Unread() + stm.incoming))
    {
      n := 0;
      ghost var all := Unread() + stm.incoming;
      var t, _ := ReadAndDetectPdu(stm);
      if t.None? {
        return Failed, n;
      }
      if t.value == IsJson {
        return NotBser, n;
      }
      if t.value == NeedData {
        r := ReadPastEnd();
        return r, n;
      }
      var v;
      v, n := ReadBserPdu(stm, if t.value == IsBserV2 then 2 else 1);
      r := if v.Some? then Value(v.value) else Failed;
    }
  }

  /** The difference of two uint32_t. */
  function Difference(a: nat, b: nat): nat { (a - b) % 0x1_0000_0000 }

  /** What the bytes after the first two of the allocation would announce. */
  function StaleLength(b: Bytes): int {
    var r := BunserInt(b);
    if r.Done? then r.value else 0
  }

  /** The first read of an empty buffer brings exactly one byte. */
  predicate FirstByteAlone(unread: nat, sizes: seq<nat>, coming: nat) {
    unread == 0 && Min(Head(sizes), coming) == 1
  }

  /** The outcome of such a read, when the bytes `stale` are left behind the first two of the allocation: a failure
      exactly if they do not start with the tag of an integer, and otherwise an overrun. */
  predicate Alone(r: Next, stale: Bytes) {
    if BunserInt(stale).Bad? then r == Failed else r.Overrun? && r.extent > r.room
  }

  function Version(b: Bytes): nat { if Detected(b) == IsBserV2 then 2 else 1 }

  /** The length a PDU at the front of b announces. */
  function Announced(b: Bytes): int {
    if |b| < 2 then 0
    else
      var h := Header(b[2..], Version(b));
      if h.None? then 0 else h.value.len
  }

  /** The answer to the bytes b, of which the parser got the first n after the header. */
  predicate Answers(r: Next, n: nat, b: Bytes) {
    match Detected(b)
    case NeedData => r == Failed
    case IsJson => r == NotBser
    case _ =>
      var h := Header(b[2..], Version(b));
      if h.None? || h.value.len > |h.value.body| then r == Failed
      else h.value.len <= n <= |h.value.body|
           && r == match Parsed(h.value.body[..n]) { case Some(v) => Value(v) case None => Failed }
  }

  /** The two magic bytes decide; anything else is JSON. */
  function Detected(b: Bytes): PduType {
    if |b| < 2 then NeedData
    else if b[..2] == [0x00, 0x01] then IsBser
    else if b[..2] == [0x00, 0x02] then IsBserV2
    else IsJson
  }

  /** Without a BSER magic the bytes are JSON; with fewer than two there is nothing to decide on. */
  lemma OthersAreJson(r: Next, n: nat, b: Bytes)
    requires Answers(r, n, b)
    ensures r == NotBser <==> |b| >= 2 && (b[0] != 0x00 || (b[1] != 0x01 && b[1] != 0x02))
    ensures |b| < 2 ==> r == Failed
  {
    if |b| >= 2 { assert b[..2] == [b[0], b[1]]; }
  }

  /** What the parser makes of the bytes of a body. */
  function Parsed(b: Bytes): Option<Json> {
    match D.Decode(b)
    case Ok(v, _) => Some(v)
    case Err(_) => None
  }
}
