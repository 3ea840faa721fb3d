/** Framing survives every schedule of partial writes, partial reads, refusals and deaths. */
module FramingTheorems {
  import opened Basics
  import opened Wire
  import opened WireProofs
  import opened Framing
  import opened FramingSystem

  lemma FramedIsWellFramed(b: Bytes)
    requires MIN_PDU <= |b| < INT_LIMIT
    ensures WellFramed(Framed(b)) && HasOwnSize(Framed(b))
  {
    var f := Framed(b);
    assert f[..SIZE_BYTES] == BigEndian(|b|, SIZE_BYTES) && f[SIZE_BYTES..] == b[SIZE_BYTES..];
    assert BigEndian(|b|, SIZE_BYTES) + [] == BigEndian(|b|, SIZE_BYTES);
    assert Pow256(2) == 0x1_0000 && Pow256(SIZE_BYTES) == 0x1_0000_0000;
    IntReads(SIZE_BYTES, |b|, []);
  }

  // ----- sending -----

  /** A frame is under way: what `writepdu` offers is the last begun frame. */
  ghost predicate UnderWay(s: Sys) {
    && s.wpdu.Busy? && !s.senderDead && WPduOk(s.wpdu) && s.wpdu.solong >= 0
    && s.begun != [] && s.begun[|s.begun| - 1] == Offered(s.wpdu) && HasOwnSize(Offered(s.wpdu))
    && s.stream == Flat(s.begun[..|s.begun| - 1]) + Offered(s.wpdu)[..s.wpdu.solong]
    && forall i :: 0 <= i < |s.begun| ==> WellFramed(s.begun[i]) && MIN_PDU <= |s.begun[i]| < INT_LIMIT
  }

  lemma LastFrame(fs: seq<Bytes>)
    requires fs != []
    ensures Flat(fs) == Flat(fs[..|fs| - 1]) + fs[|fs| - 1]
  {
    assert fs == fs[..|fs| - 1] + [fs[|fs| - 1]];
    FlatAppend(fs[..|fs| - 1], fs[|fs| - 1]);
  }

  lemma PartOfFrame(front: Bytes, f: Bytes, n: nat, m: nat)
    requires n + m <= |f|
    ensures front + f[..n] + f[n..n + m] == front + f[..n + m]
    ensures front + f[..n] <= front + f
  {
    assert f[..n] + f[n..n + m] == f[..n + m];
  }

  lemma WroteKeepsSender(s: Sys, s': Sys, m: nat)
    requires UnderWay(s) && s.wpdu.solong + m <= s.wpdu.sz && s'.begun == s.begun && !s'.senderDead
    requires s'.wpdu == Busy(Offered(s.wpdu), s.wpdu.sz, s.wpdu.solong + m)
    requires s'.stream == s.stream + Offered(s.wpdu)[s.wpdu.solong..s.wpdu.solong + m]
    ensures SenderInv(s')
  {
    PartOfFrame(Flat(s.begun[..|s.begun| - 1]), Offered(s.wpdu), s.wpdu.solong, m);
  }

  lemma FailedKeepsSender(s: Sys, s': Sys)
    requires UnderWay(s) && s'.begun == s.begun && s'.stream == s.stream && s'.senderDead && WPduOk(s'.wpdu)
    ensures SenderInv(s')
  {
    PartOfFrame(Flat(s.begun[..|s.begun| - 1]), Offered(s.wpdu), s.wpdu.solong, 0);
    LastFrame(s.begun);
  }

  lemma WriteKeepsSender(s: Sys, res: WriteRes)
    requires UnderWay(s) && WriteFits(s.wpdu, res)
    ensures SenderInv(Write(s, res)) && s.stream <= Write(s, res).stream
  {
    var s' := Write(s, res);
    assert s.stream + [] == s.stream;
    if s.wpdu.solong < s.wpdu.sz && res.WriteError? {
      FailedKeepsSender(s, s');
    } else if s.wpdu.solong < s.wpdu.sz && res.Wrote? {
      WroteKeepsSender(s, s', res.n);
    } else {
      WroteKeepsSender(s, s', 0);
    }
  }

  lemma BeginIsUnderWay(s: Sys, b: Bytes)
    requires SenderInv(s) && !s.senderDead && s.wpdu.Idle? && MIN_PDU <= |b| < INT_LIMIT
    ensures UnderWay(s.(wpdu := Fresh(b), begun := s.begun + [Framed(b)]))
  {
    FramedIsWellFramed(b);
    assert (s.begun + [Framed(b)])[..|s.begun|] == s.begun;
    assert Flat(s.begun) + [] == Flat(s.begun);
  }

  lemma MidwayIsUnderWay(s: Sys)
    requires SenderInv(s) && !s.senderDead && s.wpdu.Busy?
    ensures UnderWay(s)
  {
  }

  predicate SameSender(s: Sys, s': Sys) {
    s'.senderDead == s.senderDead && s'.wpdu == s.wpdu && s'.stream == s.stream && s'.begun == s.begun
  }

  lemma SenderFrame(s: Sys, s': Sys)
    requires SenderInv(s) && SameSender(s, s')
    ensures SenderInv(s')
  {
  }

  /** The sender stops: a complete frame leaves the whole of it in the stream, a dead one a part. */
  lemma SenderRests(s: Sys, s': Sys)
    requires SenderInv(s) && s'.stream == s.stream && s'.begun == s.begun && WriterOk(s')
    requires s'.senderDead || (s'.wpdu.Idle? && s.wpdu.Busy? && !s.senderDead && s.wpdu.solong == s.wpdu.sz)
    ensures SenderInv(s')
  {
    StreamIsPrefix(s);
    if !s'.senderDead {
      LastFrame(s.begun);
      assert s.wpdu.buf[..s.wpdu.solong] == s.wpdu.buf;
    }
  }

  lemma StreamIsPrefix(s: Sys)
    requires SenderInv(s)
    ensures s.stream <= Flat(s.begun)
  {
    if s.begun != [] {
      LastFrame(s.begun);
    }
  }

  ghost predicate Grows(s: Sys, s': Sys) {
    s.stream <= s'.stream && s.begun <= s'.begun
  }

  lemma SenderStep(s: Sys, a: Step)
    requires SenderInv(s) && Enabled(s, a)
    ensures SenderInv(Apply(s, a)) && Grows(s, Apply(s, a))
  {
    var s' := Apply(s, a);
    if a.Begin? {
      BeginIsUnderWay(s, a.b);
      WriteKeepsSender(s.(wpdu := Fresh(a.b), begun := s.begun + [Framed(a.b)]), a.wres);
    } else if a.WriteReady? && s.wpdu.Busy? {
      MidwayIsUnderWay(s);
      WriteKeepsSender(s, a.wres);
    } else if a.Finish? || a.SenderDies? {
      SenderRests(s, s');
    } else {
      SenderFrame(s, s');
    }
  }

  lemma ConfirmedStep(s: Sys, a: Step)
    requires SenderInv(s) && ConfirmedInv(s) && Enabled(s, a)
    ensures ConfirmedInv(Apply(s, a))
  {
    var s' := Apply(s, a);
    SenderStep(s, a);
    forall i | i in s'.confirmed ensures 0 <= i < |s'.begun| && |Flat(s'.begun[..i + 1])| <= |s'.stream| {
      if i in s.confirmed {
        assert s'.begun[..i + 1] == s.begun[..i + 1];
      } else {
        assert s.begun[..i + 1] == s.begun;
        LastFrame(s.begun);
      }
    }
  }

  // ----- receiving -----

  lemma OfferKeepsReceiver(s: Sys, accept: bool)
    requires ReceiverInv(s) && !s.receiverDead
    ensures ReceiverInv(Offer(s, accept))
  {
    if Complete(s.rpdu) && accept {
      FlatAppend(s.delivered, s.rpdu.got);
      assert Flat(s.delivered) + s.rpdu.got + [] == Flat(s.delivered) + s.rpdu.got;
    }
  }

  lemma HeldAfterRead(r: RPdu, hdr: ReadRes, body: ReadRes)
    requires RPduOk(r) && ReadFits(r, hdr, body)
    ensures var (r', succ) := ReadPdu(r, hdr, body);
            if succ then Held(r') == Held(r) + Taken(r, hdr, body) else r'.Empty?
  {
  }

  lemma TakeMore(stream: Bytes, taken: nat, bs: Bytes, flat: Bytes, held: Bytes)
    requires taken + |bs| <= |stream| && stream[taken..taken + |bs|] == bs && stream[..taken] == flat + held
    ensures stream[..taken + |bs|] == flat + (held + bs) && flat <= stream
  {
    assert stream[..taken + |bs|] == stream[..taken] + bs;
  }

  lemma ReadKeepsReceiver(s: Sys, s': Sys, hdr: ReadRes, body: ReadRes)
    requires ReceiverInv(s) && !s.receiverDead && ReadFits(s.rpdu, hdr, body)
    requires InStream(s, Taken(s.rpdu, hdr, body)) && s'.taken == s.taken + |Taken(s.rpdu, hdr, body)|
    requires s'.stream == s.stream && s'.delivered == s.delivered
    requires (s'.rpdu, !s'.receiverDead) == ReadPdu(s.rpdu, hdr, body)
    ensures ReceiverInv(s')
  {
    HeldAfterRead(s.rpdu, hdr, body);
    TakeMore(s.stream, s.taken, Taken(s.rpdu, hdr, body), Flat(s.delivered), Held(s.rpdu));
  }

  lemma ReceiverFrame(s: Sys, s': Sys)
    requires ReceiverInv(s) && s.stream <= s'.stream
    requires s'.taken == s.taken && s'.rpdu == s.rpdu && s'.delivered == s.delivered
    requires s'.receiverDead || !s.receiverDead
    ensures ReceiverInv(s')
  {
    assert s'.stream[..s.taken] == s.stream[..s.taken];
    assert Flat(s.delivered) <= s.stream;
  }

  lemma ReadStep(s: Sys, hdr: ReadRes, body: ReadRes, accept: bool)
    requires ReceiverInv(s) && Enabled(s, ReadReady(hdr, body, accept)) && !s.receiverDead
    ensures ReceiverInv(Apply(s, ReadReady(hdr, body, accept)))
  {
    if Complete(s.rpdu) {
      OfferKeepsReceiver(s, accept);
    } else {
      var (r, succ) := ReadPdu(s.rpdu, hdr, body);
      var mid := s.(rpdu := r, receiverDead := !succ, taken := s.taken + |Taken(s.rpdu, hdr, body)|);
      ReadKeepsReceiver(s, mid, hdr, body);
      HeldAfterRead(s.rpdu, hdr, body);
      if succ {
        OfferKeepsReceiver(mid, accept);
      }
    }
  }

  lemma ReceiverStep(s: Sys, a: Step)
    requires SenderInv(s) && ReceiverInv(s) && Enabled(s, a)
    ensures ReceiverInv(Apply(s, a))
  {
    if a.ReadReady? && !s.receiverDead {
      ReadStep(s, a.hdr, a.body, a.accept);
    } else {
      SenderStep(s, a);
      ReceiverFrame(s, Apply(s, a));
    }
  }

  lemma {:induction false} RunKeepsInv(s: Sys, run: seq<Step>)
    requires Inv(s) && Legal(s, run)
    ensures Inv(After(s, run))
    decreases |run|
  {
    if run != [] {
      SenderStep(s, run[0]);
      ConfirmedStep(s, run[0]);
      ReceiverStep(s, run[0]);
      RunKeepsInv(Apply(s, run[0]), run[1..]);
    }
  }

  lemma ReachableInv(run: seq<Step>)
    requires Legal(Init, run)
    ensures Inv(After(Init, run))
  {
    assert Flat([]) == [] && Flat([]) + [] == [];
    RunKeepsInv(Init, run);
  }

  // ----- main results -----

  /**
   In every run the PDUs accepted by the receiver are, byte for byte and in order, a prefix of the
   frames whose sending began, and the stream never mixes two frames.
   */
  lemma DeliveredIsPrefixOfBegun(run: seq<Step>)
    requires Legal(Init, run)
    ensures var s := After(Init, run);
            s.delivered <= s.begun && s.stream <= Flat(s.begun)
  {
    ReachableInv(run);
    var s := After(Init, run);
    StreamIsPrefix(s);
    DeliveredIsPrefix(s);
  }

  lemma DeliveredIsPrefix(s: Sys)
    requires Inv(s)
    ensures s.delivered <= s.begun
  {
    StreamIsPrefix(s);
    assert Flat(s.delivered) <= s.stream;
    FramesAreUnique(s.delivered, s.begun);
  }

  /** `send` returns true only when its whole frame is in the stream, right behind the earlier ones. */
  lemma ConfirmedIsInStream(run: seq<Step>, i: nat)
    requires Legal(Init, run) && i in After(Init, run).confirmed
    ensures var s := After(Init, run);
            i < |s.begun| && FrameAt(s.stream, |Flat(s.begun[..i])|, s.begun[i])
  {
    ReachableInv(run);
    ConfirmedAt(After(Init, run), i);
  }

  predicate FrameAt(stream: Bytes, at: nat, f: Bytes) {
    at + |f| <= |stream| && stream[at..at + |f|] == f
  }

  lemma ConfirmedAt(s: Sys, i: nat)
    requires SenderInv(s) && ConfirmedInv(s) && i in s.confirmed
    ensures i < |s.begun| && FrameAt(s.stream, |Flat(s.begun[..i])|, s.begun[i])
  {
    StreamIsPrefix(s);
    var fs := s.begun[..i + 1];
    LastFrame(fs);
    assert fs[..i] == s.begun[..i];
    FlatPrefix(s.begun, i + 1);
    FrameInside(s.stream, Flat(s.begun), Flat(s.begun[..i]), s.begun[i]);
  }

  lemma FrameInside(stream: Bytes, all: Bytes, front: Bytes, f: Bytes)
    requires stream <= all && front + f <= all && |front| + |f| <= |stream|
    ensures FrameAt(stream, |front|, f)
  {
    assert stream[..|front| + |f|] == front + f;
    assert stream[|front|..|front| + |f|] == stream[..|front| + |f|][|front|..];
  }

  /** Nothing is lost on the way: once the stream is drained and nobody died, everything begun was delivered. */
  lemma DrainedMeansDelivered(run: seq<Step>)
    requires Legal(Init, run)
    requires var s := After(Init, run);
             !s.senderDead && s.wpdu.Idle? && !s.receiverDead && s.rpdu.Empty? && s.taken == |s.stream|
    ensures var s := After(Init, run);
            s.delivered == s.begun
  {
    ReachableInv(run);
    var s := After(Init, run);
    assert s.stream[..s.taken] == s.stream;
    FramesAreUnique(s.delivered, s.begun);
    FramesAreUnique(s.begun, s.delivered);
  }

  /** A size field read by the receiver is always the size of the next begun frame: never small, never negative. */
  lemma SizeFieldIsReal(run: seq<Step>, h: Bytes)
    requires Legal(Init, run) && |h| == SIZE_BYTES
    requires var s := After(Init, run);
             !s.receiverDead && s.rpdu.Empty? && InStream(s, h)
    ensures var s := After(Init, run);
            |s.delivered| < |s.begun| && MIN_PDU <= SizeOf(h) == |s.begun[|s.delivered|]| < INT_LIMIT
  {
    ReachableInv(run);
    NextSizeField(After(Init, run), h);
  }

  lemma NextSizeField(s: Sys, h: Bytes)
    requires Inv(s) && !s.receiverDead && s.rpdu.Empty? && |h| == SIZE_BYTES && InStream(s, h)
    ensures |s.delivered| < |s.begun| && h == s.begun[|s.delivered|][..SIZE_BYTES]
  {
    StreamIsPrefix(s);
    DeliveredIsPrefix(s);
    var k := |s.delivered|;
    assert s.stream[..s.taken] == Flat(s.delivered);
    assert k < |s.begun| by {
      assert k == |s.begun| ==> s.begun == s.delivered;
    }
    assert s.begun[..k + 1] == s.delivered + [s.begun[k]];
    FlatAppend(s.delivered, s.begun[k]);
    FlatPrefix(s.begun, k + 1);
    NextBytes(s.stream, Flat(s.begun), Flat(s.delivered), s.begun[k], h);
  }

  lemma NextBytes(stream: Bytes, all: Bytes, done: Bytes, next: Bytes, bs: Bytes)
    requires stream <= all && done + next <= all && |bs| <= |next|
    requires |done| + |bs| <= |stream| && stream[|done|..|done| + |bs|] == bs
    ensures bs == next[..|bs|]
  {
    assert stream[|done|..|done| + |bs|] == all[|done|..|done| + |bs|] == (done + next)[|done|..|done| + |bs|];
  }
}
