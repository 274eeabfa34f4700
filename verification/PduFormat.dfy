/** The framing of one PDU: magic, capabilities (version 2), length, body. */
module PduFormat {
  import opened Bser
  import opened BserDecode
  import opened BserRoundTrip
  import opened Options

  function Magic(version: nat): Bytes { if version == 2 then [0x00, 0x02] else [0x00, 0x01] }

  /** What follows the magic, up to the body. */
  function HeaderBytes(c: Ctx, size: nat): Bytes {
    (if c.version == 2 then ToBytes(c.capabilities, 4) else []) + EncodeInt(size)
  }

  /** The bytes w_bser_write_pdu emits. */
  function PduBytes(c: Ctx, v: Json): Bytes {
    Magic(c.version) + HeaderBytes(c, |Encode(c, v)|) + Encode(c, v)
  }

  // ----- Reading the header

  datatype IntRead = Need(needed: nat) | Bad | Done(value: Int64, needed: nat)

  /** bunser_int on the bytes available so far. */
  function BunserInt(b: Bytes): (r: IntRead)
    ensures r.Done? ==> r.needed <= |b|
  {
    if b == [] then Need(1)
    else
      match TagWidth(b[0])
      case None => Bad
      case Some(w) => if |b| < 1 + w then Need(1 + w) else Done(Signed(FromBytes(b[1..1 + w]), w), 1 + w)
  }

  /** More bytes never change an answer, and the answer is the one the parser gives. */
  lemma BunserIntIsParsed(b: Bytes, more: Bytes)
    ensures match BunserInt(b)
            case Done(v, n) => ExpectInteger(b + more) == Ok(v, (b + more)[n..])
            case Bad => ExpectInteger(b + more) == Err(BadType)
            case Need(n) => |b| < n <= 9 && (more == [] ==> ExpectInteger(b) == Err(Eof))
  {
    if b != [] {
      var all := b + more;
      var w := TagWidth(b[0]);
      assert all[0] == b[0];
      if w.Some? && |b| >= 1 + w.value {
        assert all[1..][..w.value] == b[1..1 + w.value];
        assert all[1..][w.value..] == all[1 + w.value..];
      }
      if more == [] { assert all == b; }
    }
  }

  datatype Info = Info(capabilities: nat, len: Int64, body: Bytes)

  /** The capabilities of a version 2 header, the announced length, and all the bytes after the header. */
  function Header(b: Bytes, version: nat): Option<Info> {
    var after := if version != 2 then b else if |b| < 4 then [] else b[4..];
    match ExpectInteger(after)
    case Ok(n, rest) => Some(Info(if version == 2 && |b| >= 4 then FromBytes(b[..4]) else 0, n, rest))
    case Err(_) => None
  }

  lemma HeaderRoundTrip(c: Ctx, size: nat, body: Bytes)
    requires size <= MAX_CONTAINER
    ensures Header(HeaderBytes(c, size) + body, c.version)
            == Some(Info(if c.version == 2 then c.capabilities else 0, size, body))
  {
    hide EncodeInt, ExpectInteger, ToBytes;
    IntegerRoundTrip(size, body);
    if c.version == 2 {
      assert (HeaderBytes(c, size) + body)[4..] == EncodeInt(size) + body;
      assert (HeaderBytes(c, size) + body)[..4] == ToBytes(c.capabilities, 4);
      Moduli();
      FromToBytes(c.capabilities, 4);
    } else {
      assert HeaderBytes(c, size) + body == EncodeInt(size) + body;
    }
  }
}
