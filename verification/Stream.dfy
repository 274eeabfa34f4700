/** A stream that may deliver and accept fewer bytes than asked for, or fail, at any call. */
module Stream {
  import opened Bser

  function Min(a: nat, b: nat): nat { if a < b then a else b }

  /** The next entry of a schedule of transfer sizes; an empty schedule transfers nothing. */
  function Head(sizes: seq<nat>): nat { if sizes == [] then 0 else sizes[0] }

  function Tail(sizes: seq<nat>): seq<nat> { if sizes == [] then [] else sizes[1..] }

  class Stream {
    /** Bytes sent by the peer and not read yet. */
    var incoming: Bytes
    /** Bytes the peer has received. */
    var sent: Bytes
    /** How many bytes each coming read and write moves, at most. */
    var readSizes: seq<nat>
    var writeSizes: seq<nat>
    /** A call failed: it moved nothing although there was something to move. */
    ghost var failed: bool

    constructor (incoming: Bytes, readSizes: seq<nat>, writeSizes: seq<nat>)
      ensures this.incoming == incoming && this.readSizes == readSizes && this.writeSizes == writeSizes
      ensures sent == [] && !failed
    {
      this.incoming, this.readSizes, this.writeSizes := incoming, readSizes, writeSizes;
      sent, failed := [], false;
    }

    /** Reads at most n bytes to dst[at..]. Reading zero bytes is never asked for. */
    method Read(dst: array<byte>, at: nat, n: nat) returns (r: nat)
      requires 0 < n && at + n <= dst.Length
      modifies this`incoming, this`readSizes, this`failed, dst
      ensures r == Min(Head(old(readSizes)), Min(n, |old(incoming)|))
      ensures incoming == old(incoming)[r..] && readSizes == Tail(old(readSizes))
      ensures dst[..at] == old(dst[..at]) && dst[at..at + r] == old(incoming)[..r]
      ensures dst[at + r..] == old(dst[at + r..])
      ensures failed == (old(failed) || (r == 0 && old(incoming) != []))
    {
      r := Min(Head(readSizes), Min(n, |incoming|));
      ghost var before := dst[..];
      forall i | 0 <= i < r {
        dst[at + i] := incoming[i];
      }
      assert forall i :: 0 <= i < dst.Length ==> dst[i] == if at <= i < at + r then incoming[i - at] else before[i];
      assert dst[..at] == before[..at] && dst[at..at + r] == incoming[..r] && dst[at + r..] == before[at + r..];
      readSizes := Tail(readSizes);
      failed := failed || (r == 0 && incoming != []);
      incoming := incoming[r..];
    }

    /** Sends at most all of src[from..to], and returns how many bytes were taken. */
    method Write(src: array<byte>, from: nat, to: nat) returns (r: nat)
      requires from < to <= src.Length
      modifies this`sent, this`writeSizes, this`failed
      ensures r == Min(Head(old(writeSizes)), to - from) && sent == old(sent) + src[from..from + r]
      ensures failed == (old(failed) || r == 0)
    {
      r := Min(Head(writeSizes), to - from);
      writeSizes := Tail(writeSizes);
      failed := failed || r == 0;
      sent := sent + src[from..from + r];
    }
  }
}
