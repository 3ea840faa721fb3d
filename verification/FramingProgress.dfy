/**
 What a live connection does get done: which frames `send` confirms, what each call of `write` and
 `read` moves, and what alone makes an end of the connection die.
 */
module FramingProgress {
  import opened Basics
  import opened Wire
  import opened Framing
  import opened FramingSystem
  import opened FramingTheorems

  // ----- sending -----

  /** The number of frames whose `send` has ended. */
  function Ended(s: Sys): int {
    if s.wpdu.Idle? then |s.begun| else |s.begun| - 1
  }

  /** While the sender lives, `send` has returned true for exactly the frames that are done. */
  ghost predicate ConfirmsAll(s: Sys) {
    && (s.wpdu.Busy? ==> s.begun != [])
    && (forall i :: i in s.confirmed ==> 0 <= i < Ended(s))
    && (!s.senderDead ==> forall i :: 0 <= i < Ended(s) ==> i in s.confirmed)
  }

  lemma StepConfirms(s: Sys, a: Step)
    requires SenderInv(s) && ConfirmsAll(s) && Enabled(s, a)
    ensures ConfirmsAll(Apply(s, a))
  {
  }

  lemma {:induction false} RunConfirms(s: Sys, run: seq<Step>)
    requires SenderInv(s) && ConfirmsAll(s) && Legal(s, run)
    ensures ConfirmsAll(After(s, run))
    decreases |run|
  {
    if run != [] {
      SenderStep(s, run[0]);
      StepConfirms(s, run[0]);
      RunConfirms(Apply(s, run[0]), run[1..]);
    }
  }

  /**
   In every run, as long as the sender lives, `send` has returned true for every frame but the one
   under way.
   */
  lemma LiveSenderConfirms(run: seq<Step>, i: nat)
    requires Legal(Init, run) && !After(Init, run).senderDead
    ensures var s := After(Init, run);
            i in s.confirmed <==> i < |s.begun| && (s.wpdu.Busy? ==> i != |s.begun| - 1)
  {
    assert Flat([]) == [];
    RunConfirms(Init, run);
  }

  /** `send` returns true exactly if the connection lives when its wait is over; the frame is then in the stream. */
  lemma SendReturnsTrueIff(s: Sys)
    requires SenderInv(s) && ConfirmsAll(s) && Enabled(s, Finish)
    ensures |s.begun| - 1 in Apply(s, Finish).confirmed <==> !s.senderDead
    ensures !s.senderDead ==> s.stream == Flat(s.begun)
    ensures Apply(s, Finish).wpdu.Idle?
  {
    if !s.senderDead {
      LastFrame(s.begun);
      assert s.wpdu.buf[..s.wpdu.solong] == s.wpdu.buf;
    }
  }

  /** The buffer goes out from its start, with its size in the first four bytes in network order. */
  lemma BeginWrites(s: Sys, b: Bytes, res: WriteRes)
    requires Enabled(s, Begin(b, res))
    ensures var s', n := Apply(s, Begin(b, res)), if res.Wrote? then res.n else 0;
            && n <= |b|
            && s'.stream == s.stream + (BigEndian(|b|, 4) + b[4..])[..n]
            && s'.begun == s.begun + [BigEndian(|b|, 4) + b[4..]]
            && (s'.senderDead <==> res.WriteError?)
  {
  }

  /** A ready descriptor moves exactly as many further bytes of the frame as `write` took; only an error is fatal. */
  lemma WriteReadyWrites(s: Sys, res: WriteRes)
    requires SenderInv(s) && Enabled(s, WriteReady(res))
    ensures var s' := Apply(s, WriteReady(res));
            && s.stream <= s'.stream
            && |s'.stream| == |s.stream| + (if s.wpdu.Busy? && res.Wrote? then res.n else 0)
            && s'.begun == s.begun
            && (s'.senderDead <==> res.WriteError? && s.wpdu.Busy? && s.wpdu.solong < s.wpdu.sz)
  {
  }

  // ----- receiving -----

  /** The bytes one call of `read_cb` takes from the stream. */
  function Fetched(s: Sys, hdr: ReadRes, body: ReadRes): Bytes {
    if Complete(s.rpdu) then []
    else (if s.rpdu.Empty? && hdr.Data? then hdr.bs else []) + (if body.Data? then body.bs else [])
  }

  /** Whole: the first four bytes are the number of all of them. */
  predicate IsWhole(held: Bytes) {
    |held| >= 4 && SizeOf(held[..4]) == |held|
  }

  /**
   A live receiver keeps every byte it has fetched until they make a whole PDU.  That PDU is
   delivered if it is accepted, and kept for the next time if it is not.
   */
  lemma LiveReceiverDelivers(s: Sys, hdr: ReadRes, body: ReadRes, accept: bool)
    requires ReceiverInv(s) && !s.receiverDead && Enabled(s, ReadReady(hdr, body, accept))
    requires !Apply(s, ReadReady(hdr, body, accept)).receiverDead
    ensures var s', held := Apply(s, ReadReady(hdr, body, accept)), Held(s.rpdu) + Fetched(s, hdr, body);
            && s'.taken == s.taken + |Fetched(s, hdr, body)|
            && if IsWhole(held) && accept then s'.delivered == s.delivered + [held] && s'.rpdu.Empty?
               else s'.delivered == s.delivered && Held(s'.rpdu) == held
  {
    if Complete(s.rpdu) {
      assert s.rpdu.got + [] == s.rpdu.got;
    } else {
      HeldAfterRead(s.rpdu, hdr, body);
      var t := Target(s.rpdu, hdr);
      assert Fetched(s, hdr, body) == Taken(s.rpdu, hdr, body);
    }
  }

  /**
   A receiver dies exactly of a size field that is short, missing, too small or above 10 MB, or of
   an error while it reads the rest; never while a whole PDU waits to be accepted.
   */
  lemma ReceiverDiesIff(s: Sys, hdr: ReadRes, body: ReadRes, accept: bool)
    requires ReceiverInv(s) && !s.receiverDead && Enabled(s, ReadReady(hdr, body, accept))
    ensures Apply(s, ReadReady(hdr, body, accept)).receiverDead <==>
            !Complete(s.rpdu) &&
            (body.ReadError? ||
             (s.rpdu.Empty? && !(hdr.Data? && |hdr.bs| == 4 && 4 < SizeOf(hdr.bs) <= 10485760)))
  {
  }

  /** Whatever else happens does not touch a receiver, and only its own death ends it. */
  lemma OthersLeaveReceiver(s: Sys, a: Step)
    requires Enabled(s, a) && !a.ReadReady?
    ensures var s' := Apply(s, a);
            && s'.rpdu == s.rpdu && s'.taken == s.taken && s'.delivered == s.delivered
            && s'.receiverDead == (s.receiverDead || a.ReceiverDies?)
  {
  }
}
