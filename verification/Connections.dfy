/** The `connection` class, one mutex-protected section per method, proved against `Framing`. */
module Connections {
  import opened Basics
  import opened Wire
  import opened Marshalling
  import F = Framing

  class Connection {
    var dead: bool
    var wbuf: array?<byte>
    var wsz: int
    var wsolong: int
    var rbuf: array?<byte>
    var rsz: nat
    var rsolong: nat

    ghost function WPdu(): F.WPdu
      reads this, wbuf
    {
      if wbuf == null then F.Idle else F.Busy(wbuf[..], wsz, wsolong)
    }

    ghost function RPdu(): F.RPdu
      requires Shape()
      reads this, rbuf
    {
      if rbuf == null then F.Empty else F.Filling(rsz, rbuf[..rsolong])
    }

    ghost predicate Shape()
      reads this, rbuf
    {
      if rbuf == null then rsz == rsolong == 0 else rsolong <= rsz && rbuf.Length == rsz + F.SIZE_BYTES
    }

    ghost predicate Valid()
      reads this, wbuf, rbuf
    {
      && Shape() && F.WPduOk(WPdu()) && F.RPduOk(RPdu())
      && (wbuf != null && !dead ==> wsolong >= 0)
      && (wbuf != null && rbuf != null ==> wbuf != rbuf)
    }

    constructor ()
      ensures Valid() && !dead && WPdu() == F.Idle && RPdu() == F.Empty
    {
      dead := false;
      wbuf, wsz, wsolong := null, 0, 0;
      rbuf, rsz, rsolong := null, 0, 0;
    }

    /** `writepdu`, given what `write` did; `sent` is what entered the stream. */
    method WritePdu(res: F.WriteRes) returns (ok: bool, sent: Bytes)
      requires Valid() && wbuf != null && wsolong >= 0 && F.WriteFits(WPdu(), res)
      modifies this`wsz, this`wsolong, wbuf
      ensures Shape() && WPdu() == F.WritePdu(old(WPdu()), res) && sent == F.Written(old(WPdu()), res)
      ensures ok == (wsolong >= 0)
    {
      sent := [];
      if wsolong == wsz {
        return true, [];
      }
      if wsolong == 0 {
        PutSize();
      }
      match res
      case WriteError =>
        wsolong, wsz := -1, 0;
        ok := false;
      case WouldBlock =>
        ok := true;
      case Wrote(n) =>
        sent := wbuf[wsolong..wsolong + n];
        wsolong := wsolong + n;
        ok := true;
    }

    /** The size in network order goes over the first four bytes of the buffer. */
    method PutSize()
      requires wbuf != null && F.SIZE_BYTES <= wbuf.Length == wsz < F.INT_LIMIT
      modifies wbuf
      ensures wbuf[..] == F.Framed(old(wbuf[..]))
    {
      Bytes4(wsz);
      wbuf[0] := (wsz / 0x100_0000 % 0x100) as byte;
      wbuf[1] := (wsz / 0x1_0000 % 0x100) as byte;
      wbuf[2] := (wsz / 0x100 % 0x100) as byte;
      wbuf[3] := (wsz % 0x100) as byte;
    }

    /** `send` once it has left the waiting loop, up to its first wait. */
    method SendStart(b: array<byte>, res: F.WriteRes) returns (sent: Bytes)
      requires Valid() && !dead && wbuf == null && b != rbuf && F.MIN_PDU <= b.Length < F.INT_LIMIT
      requires F.WriteFits(F.Busy(b[..], b.Length, 0), res)
      modifies this`dead, this`wbuf, this`wsz, this`wsolong, b
      ensures Valid() && WPdu() == F.WritePdu(F.Busy(old(b[..]), b.Length, 0), res)
      ensures sent == F.Written(F.Busy(old(b[..]), b.Length, 0), res) && dead == (wsolong < 0)
    {
      wbuf, wsz, wsolong := b, b.Length, 0;
      var ok;
      ok, sent := WritePdu(res);
      if !ok {
        dead := true;
      }
    }

    /** The end of `send`, when its PDU is out or the connection is dead. */
    method SendEnd() returns (ret: bool)
      requires Valid() && wbuf != null && F.SendOver(dead, WPdu())
      modifies this`wbuf, this`wsz, this`wsolong
      ensures Valid() && WPdu() == F.Idle && ret == F.SendResult(dead, old(WPdu()))
    {
      ret := !dead && wsolong == wsz;
      wsz, wsolong, wbuf := 0, 0, null;
    }

    /** `write_cb`: with no PDU to write only the callback is dropped. */
    method WriteCb(res: F.WriteRes) returns (sent: Bytes)
      requires Valid() && !dead && (wbuf != null ==> F.WriteFits(WPdu(), res))
      modifies this`dead, this`wsz, this`wsolong, wbuf
      ensures Valid()
      ensures old(wbuf) == null ==> !dead && WPdu() == F.Idle && sent == []
      ensures old(wbuf) != null ==>
                WPdu() == F.WritePdu(old(WPdu()), res) && sent == F.Written(old(WPdu()), res) && dead == (wsolong < 0)
    {
      sent := [];
      if wbuf != null {
        var ok;
        ok, sent := WritePdu(res);
        if !ok {
          dead := true;
        }
      }
    }

    /** `readpdu`, given what its one or two `read` calls returned. */
    method ReadPdu(hdr: F.ReadRes, body: F.ReadRes) returns (ok: bool)
      requires Valid() && F.ReadFits(RPdu(), hdr, body) && !F.Complete(RPdu())
      modifies this`rbuf, this`rsz, this`rsolong, rbuf
      ensures Shape() && (fresh(rbuf) || rbuf == null || rbuf == old(rbuf))
      ensures (RPdu(), ok) == F.ReadPdu(old(RPdu()), hdr, body)
    {
      if rsz == 0 {
        if !hdr.Data? || |hdr.bs| != F.SIZE_BYTES || !(F.SIZE_BYTES < F.SizeOf(hdr.bs) <= F.MAX_PDU) {
          return false;
        }
        StartPdu(hdr.bs);
      }
      match body
      case Data(bs) =>
        Store(bs);
        ok := true;
      case NotNow =>
        ok := true;
      case ReadError =>
        rbuf, rsz, rsolong := null, 0, 0;
        ok := false;
    }

    /** A buffer for the announced size, with the size field in front. */
    method StartPdu(h: Bytes)
      requires |h| == F.SIZE_BYTES < F.SizeOf(h)
      modifies this`rbuf, this`rsz, this`rsolong
      ensures Shape() && fresh(rbuf) && RPdu() == F.Filling(F.SizeOf(h), h)
    {
      rsz := F.SizeOf(h);
      rbuf := new byte[rsz + F.SIZE_BYTES];
      rsolong := 0;
      Store(h);
      assert [] + h == h;
    }

    /** Bytes from `read` land behind those already stored. */
    method Store(bs: Bytes)
      requires Shape() && rbuf != null && rsolong + |bs| <= rsz
      modifies this`rsolong, rbuf
      ensures Shape() && rbuf[..rsolong] == old(rbuf[..rsolong]) + bs
    {
      forall i | 0 <= i < |bs| {
        rbuf[rsolong + i] := bs[i];
      }
      rsolong := rsolong + |bs|;
    }

    /** `read_cb`: `got` is the complete PDU shown to `got_pdu`, whose answer is `accept`. */
    method ReadCb(hdr: F.ReadRes, body: F.ReadRes, accept: bool) returns (got: Option<Bytes>)
      requires Valid() && (dead || F.Complete(RPdu()) || F.ReadFits(RPdu(), hdr, body))
      modifies this`dead, this`rbuf, this`rsz, this`rsolong, rbuf
      ensures Valid()
      ensures old(dead) ==> dead && RPdu() == old(RPdu()) && got == None
      ensures !old(dead) ==>
                var was := old(RPdu());
                var (r, succ) := if F.Complete(was) then (was, true) else F.ReadPdu(was, hdr, body);
                && dead == !succ
                && got == (if F.Complete(r) then Some(r.got) else None)
                && RPdu() == if F.Complete(r) && accept then F.Empty else r
    {
      got := None;
      if dead {
        return;
      }
      if rbuf == null || rsolong < rsz {
        var succ := ReadPdu(hdr, body);
        if !succ {
          dead := true;
        }
      }
      if rbuf != null && rsz == rsolong {
        got := Some(rbuf[..rsolong]);
        if accept {
          rbuf, rsz, rsolong := null, 0, 0;
        }
      }
    }
  }
}
