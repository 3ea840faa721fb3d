/**
 Length-prefixed framing over a byte stream: what `connection::send`, `write_cb` and `read_cb`
 do to the PDU being written and the PDU being read, for every outcome of `write` and `read`.
 */
module Framing {
  import opened Basics
  import opened Wire

  const SIZE_BYTES: nat := 4
  const MAX_PDU: nat := 10 * 0x10_0000
  /** Every buffer handed to `send` starts with the RPC header area. */
  const MIN_PDU: nat := 24
  const INT_LIMIT: nat := 0x8000_0000

  /** `wpdu_`: after a failed write the size is 0 and `solong` is -1. */
  datatype WPdu = Idle | Busy(buf: Bytes, sz: int, solong: int)

  /** `rpdu_`: the bytes stored so far, `solong` of them. */
  datatype RPdu = Empty | Filling(sz: int, got: Bytes)

  datatype WriteRes = Wrote(n: nat) | WouldBlock | WriteError

  datatype ReadRes = Data(bs: Bytes) | NotNow | ReadError

  /** The number in a four-byte size field. */
  function SizeOf(h: Bytes): nat {
    GetInt(SIZE_BYTES, In(h, true)).0
  }

  /** The caller's buffer with its first four bytes overwritten by its size. */
  function Framed(b: Bytes): (f: Bytes)
    requires |b| >= SIZE_BYTES
    ensures |f| == |b|
  {
    BigEndian(|b|, SIZE_BYTES) + b[SIZE_BYTES..]
  }

  predicate WPduOk(w: WPdu) {
    w.Busy? ==> (w.solong == -1 && w.sz == 0) || (0 <= w.solong <= w.sz == |w.buf| && MIN_PDU <= w.sz < INT_LIMIT)
  }

  /** `write` takes at most the bytes it was offered. */
  predicate WriteFits(w: WPdu, res: WriteRes)
    requires w.Busy?
  {
    res.Wrote? ==> res.n <= w.sz - w.solong
  }

  /** The buffer `writepdu` offers: the size goes in front as long as nothing was written. */
  function Offered(w: WPdu): (b: Bytes)
    requires w.Busy? && WPduOk(w) && w.solong >= 0
    ensures |b| == |w.buf|
  {
    if w.solong == 0 then Framed(w.buf) else w.buf
  }

  function WritePdu(w: WPdu, res: WriteRes): (r: WPdu)
    requires w.Busy? && WPduOk(w) && w.solong >= 0 && WriteFits(w, res)
    ensures WPduOk(r)
  {
    if w.solong == w.sz then w
    else if res.WriteError? then Busy(Offered(w), 0, -1)
    else Busy(Offered(w), w.sz, if res.Wrote? then w.solong + res.n else w.solong)
  }

  /** The bytes this call of `writepdu` puts into the stream. */
  function Written(w: WPdu, res: WriteRes): Bytes
    requires w.Busy? && WPduOk(w) && w.solong >= 0 && WriteFits(w, res)
  {
    if w.solong < w.sz && res.Wrote? then Offered(w)[w.solong..w.solong + res.n] else []
  }

  /** The condition under which `send` stops waiting. */
  predicate SendOver(dead: bool, w: WPdu)
    requires w.Busy?
  {
    dead || w.solong < 0 || w.solong >= w.sz
  }

  predicate SendResult(dead: bool, w: WPdu)
    requires w.Busy?
  {
    !dead && w.solong == w.sz
  }

  predicate RPduOk(r: RPdu) {
    r.Filling? ==> SIZE_BYTES <= |r.got| <= r.sz <= MAX_PDU && SIZE_BYTES < r.sz && SizeOf(r.got[..SIZE_BYTES]) == r.sz
  }

  predicate Complete(r: RPdu) {
    r.Filling? && r.sz == |r.got|
  }

  /** Does `readpdu` ask for a size field, and is it accepted?  Sizes up to 4 never reach a receiver. */
  predicate HeaderRead(r: RPdu, hdr: ReadRes) {
    r.Empty? && hdr.Data? && |hdr.bs| == SIZE_BYTES && SIZE_BYTES < SizeOf(hdr.bs) <= MAX_PDU
  }

  /** The PDU to which the second `read` of this call adds, if it gets that far. */
  function Target(r: RPdu, hdr: ReadRes): (t: RPdu)
    requires RPduOk(r)
    ensures RPduOk(t)
  {
    if HeaderRead(r, hdr) then
      assert hdr.bs[..SIZE_BYTES] == hdr.bs;
      Filling(SizeOf(hdr.bs), hdr.bs)
    else r
  }

  /** `read` returns at most what was asked for, and never zero bytes as data. */
  predicate ReadFits(r: RPdu, hdr: ReadRes, body: ReadRes)
    requires RPduOk(r)
  {
    && (hdr.Data? ==> 0 < |hdr.bs| <= SIZE_BYTES)
    && var t := Target(r, hdr);
       body.Data? && t.Filling? ==> 0 < |body.bs| <= t.sz - |t.got|
  }

  function ReadPdu(r: RPdu, hdr: ReadRes, body: ReadRes): (res: (RPdu, bool))
    requires RPduOk(r) && ReadFits(r, hdr, body)
    ensures RPduOk(res.0)
  {
    var t := Target(r, hdr);
    if t.Empty? then (Empty, false)
    else if body.Data? then
      assert (t.got + body.bs)[..SIZE_BYTES] == t.got[..SIZE_BYTES];
      (Filling(t.sz, t.got + body.bs), true)
    else if body.NotNow? then (t, true)
    else (Empty, false)
  }

  /** All bytes this call of `readpdu` takes out of the stream, in order. */
  function Taken(r: RPdu, hdr: ReadRes, body: ReadRes): Bytes
    requires RPduOk(r)
  {
    (if r.Empty? && hdr.Data? then hdr.bs else []) +
    (if Target(r, hdr).Filling? && body.Data? then body.bs else [])
  }

  /** A frame carries its own length in front. */
  predicate WellFramed(f: Bytes) {
    |f| >= SIZE_BYTES && SizeOf(f[..SIZE_BYTES]) == |f|
  }

  function Flat(fs: seq<Bytes>): Bytes {
    if fs == [] then [] else fs[0] + Flat(fs[1..])
  }
}
