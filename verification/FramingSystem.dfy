/**
 One direction of a connection: any number of threads calling `send` at one end, the poll
 threads at both ends, and the receiver's `got_pdu` at the other.  The stream between them is
 reliable while it lasts; either end may die at any moment.
 */
module FramingSystem {
  import opened Basics
  import opened Wire
  import opened Framing

  datatype Sys = Sys(
    senderDead: bool,
    wpdu: WPdu,
    /** Bytes accepted by `write` so far. */
    stream: Bytes,
    /** Bytes returned by `read` so far. */
    taken: nat,
    receiverDead: bool,
    rpdu: RPdu,
    /** The frames whose sending has begun, in that order. */
    begun: seq<Bytes>,
    /** Those of them for which `send` returned true. */
    confirmed: set<int>,
    /** The PDUs that `got_pdu` accepted. */
    delivered: seq<Bytes>
  )

  datatype Step =
    | Begin(b: Bytes, wres: WriteRes)
    | WriteReady(wres: WriteRes)
    | Finish
    | SenderDies
    | ReadReady(hdr: ReadRes, body: ReadRes, accept: bool)
    | ReceiverDies

  const Init := Sys(false, Idle, [], 0, false, Empty, [], {}, [])

  /** What the second half of `send` sees right after taking over `wpdu_`. */
  function Fresh(b: Bytes): (w: WPdu)
    requires MIN_PDU <= |b| < INT_LIMIT
    ensures w.Busy? && WPduOk(w)
  {
    Busy(b, |b|, 0)
  }

  predicate WriterOk(s: Sys) {
    WPduOk(s.wpdu) && (s.wpdu.Busy? && !s.senderDead ==> s.wpdu.solong >= 0)
  }

  ghost predicate Enabled(s: Sys, a: Step) {
    match a
    case Begin(b, wres) =>
      !s.senderDead && s.wpdu.Idle? && MIN_PDU <= |b| < INT_LIMIT && WriteFits(Fresh(b), wres)
    case WriteReady(wres) =>
      !s.senderDead && (s.wpdu.Busy? ==> WriterOk(s) && WriteFits(s.wpdu, wres))
    case Finish =>
      s.wpdu.Busy? && SendOver(s.senderDead, s.wpdu)
    case SenderDies => true
    case ReadReady(hdr, body, accept) =>
      s.receiverDead ||
      (RPduOk(s.rpdu) && (Complete(s.rpdu) || (ReadFits(s.rpdu, hdr, body) && InStream(s, Taken(s.rpdu, hdr, body)))))
    case ReceiverDies => true
  }

  /** `read` returns the next bytes of the stream. */
  predicate InStream(s: Sys, bs: Bytes) {
    s.taken + |bs| <= |s.stream| && s.stream[s.taken..s.taken + |bs|] == bs
  }

  ghost function Apply(s: Sys, a: Step): Sys
    requires Enabled(s, a)
  {
    match a
    case Begin(b, wres) => Write(s.(wpdu := Fresh(b), begun := s.begun + [Framed(b)]), wres)
    case WriteReady(wres) => if s.wpdu.Idle? then s else Write(s, wres)
    case Finish =>
      s.(wpdu := Idle,
         confirmed := if SendResult(s.senderDead, s.wpdu) then s.confirmed + {|s.begun| - 1} else s.confirmed)
    case SenderDies => s.(senderDead := true)
    case ReadReady(hdr, body, accept) =>
      if s.receiverDead then s
      else if Complete(s.rpdu) then Offer(s, accept)
      else
        var (r, succ) := ReadPdu(s.rpdu, hdr, body);
        Offer(s.(rpdu := r, receiverDead := !succ, taken := s.taken + |Taken(s.rpdu, hdr, body)|), accept)
    case ReceiverDies => s.(receiverDead := true)
  }

  /** `writepdu` and what its callers do on failure. */
  function Write(s: Sys, res: WriteRes): Sys
    requires s.wpdu.Busy? && WPduOk(s.wpdu) && s.wpdu.solong >= 0 && WriteFits(s.wpdu, res)
  {
    var w := WritePdu(s.wpdu, res);
    s.(wpdu := w, stream := s.stream + Written(s.wpdu, res), senderDead := s.senderDead || w.solong < 0)
  }

  /** A complete PDU goes to `got_pdu`; a refused one stays and is offered again. */
  function Offer(s: Sys, accept: bool): Sys {
    if Complete(s.rpdu) && accept then s.(rpdu := Empty, delivered := s.delivered + [s.rpdu.got]) else s
  }

  ghost predicate Legal(s: Sys, run: seq<Step>)
    decreases |run|
  {
    run == [] || (Enabled(s, run[0]) && Legal(Apply(s, run[0]), run[1..]))
  }

  ghost function After(s: Sys, run: seq<Step>): Sys
    requires Legal(s, run)
    decreases |run|
  {
    if run == [] then s else After(Apply(s, run[0]), run[1..])
  }

  // ----- what every run keeps -----

  /** How much of the last begun frame is in the stream. */
  ghost predicate SenderInv(s: Sys) {
    && WriterOk(s)
    && (forall i :: 0 <= i < |s.begun| ==> WellFramed(s.begun[i]) && MIN_PDU <= |s.begun[i]| < INT_LIMIT)
    && (s.senderDead ==> s.stream <= Flat(s.begun))
    && (!s.senderDead && s.wpdu.Idle? ==> s.stream == Flat(s.begun))
    && (!s.senderDead && s.wpdu.Busy? ==> Midway(s))
  }

  ghost predicate Midway(s: Sys) {
    && s.wpdu.Busy? && 0 <= s.wpdu.solong <= |s.wpdu.buf| && s.begun != []
    && var n := |s.begun| - 1;
       && s.begun[n] == s.wpdu.buf
       && HasOwnSize(s.wpdu.buf)
       && s.stream == Flat(s.begun[..n]) + s.wpdu.buf[..s.wpdu.solong]
  }

  /** The size is already in front, so writing it again changes nothing. */
  predicate HasOwnSize(b: Bytes) {
    |b| >= SIZE_BYTES && Framed(b) == b
  }

  /** Every confirmed frame lies in the stream, at its place. */
  ghost predicate ConfirmedInv(s: Sys) {
    forall i :: i in s.confirmed ==> 0 <= i < |s.begun| && |Flat(s.begun[..i + 1])| <= |s.stream|
  }

  ghost predicate ReceiverInv(s: Sys) {
    && RPduOk(s.rpdu)
    && s.taken <= |s.stream|
    && (forall i :: 0 <= i < |s.delivered| ==> WellFramed(s.delivered[i]))
    && (if s.receiverDead then Flat(s.delivered) <= s.stream
        else s.stream[..s.taken] == Flat(s.delivered) + Held(s.rpdu))
  }

  /** The bytes read but not delivered. */
  function Held(r: RPdu): Bytes {
    if r.Filling? then r.got else []
  }

  ghost predicate Inv(s: Sys) {
    SenderInv(s) && ConfirmedInv(s) && ReceiverInv(s)
  }

  // ----- concatenation of frames -----

  lemma {:induction false} FlatAppend(fs: seq<Bytes>, f: Bytes)
    ensures Flat(fs + [f]) == Flat(fs) + f
  {
    if fs == [] {
      assert [f][1..] == [];
      assert Flat([f]) == f + [];
    } else {
      assert (fs + [f])[1..] == fs[1..] + [f];
      FlatAppend(fs[1..], f);
    }
  }

  lemma {:induction false} FlatPrefix(fs: seq<Bytes>, i: nat)
    requires i <= |fs|
    ensures Flat(fs[..i]) <= Flat(fs)
  {
    if i > 0 {
      assert fs[..i][1..] == fs[1..][..i - 1];
      FlatPrefix(fs[1..], i - 1);
    }
  }

  /** Frames are self-delimiting: a stream splits into frames in one way only. */
  lemma {:induction false} FramesAreUnique(ds: seq<Bytes>, bs: seq<Bytes>)
    requires forall i :: 0 <= i < |ds| ==> WellFramed(ds[i])
    requires forall i :: 0 <= i < |bs| ==> WellFramed(bs[i])
    requires Flat(ds) <= Flat(bs)
    ensures ds <= bs
  {
    if ds != [] {
      var d, b := ds[0], bs[0];
      SameHead(d, Flat(ds[1..]), b, Flat(bs[1..]), SIZE_BYTES);
      SameHead(d, Flat(ds[1..]), b, Flat(bs[1..]), |d|);
      FramesAreUnique(ds[1..], bs[1..]);
      assert ds == [d] + ds[1..] && bs == [b] + bs[1..];
    }
  }

  /** Two sequences, one a prefix of the other, agree on their first `k` bytes. */
  lemma SameHead(d: Bytes, x: Bytes, b: Bytes, y: Bytes, k: nat)
    requires d + x <= b + y && k <= |d| && k <= |b|
    ensures d[..k] == b[..k]
    ensures k == |d| == |b| ==> d == b && x <= y
  {
    assert (d + x)[..k] == d[..k] && (b + y)[..k] == b[..k];
    if k == |d| == |b| {
      assert (d + x)[k..] == x && (b + y)[k..] == y;
    }
  }
}
