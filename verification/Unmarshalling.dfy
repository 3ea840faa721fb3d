/** Reading a buffer back: the `unmarshall` class, and whole requests from one side to the other. */
module Unmarshalling {
  import opened Basics
  import opened Wire
  import opened WireProofs
  import opened Marshalling

  /** What `unpack_req_header` reads behind the size field. */
  function ReadReqHeader(u: In): (ReqHeader, In) {
    var (xid, u1) := GetInt(4, u);
    var (proc, u2) := GetInt(4, u1);
    var (cltNonce, u3) := GetInt(4, u2);
    var (srvNonce, u4) := GetInt(4, u3);
    var (xidRep, u5) := GetInt(4, u4);
    (ReqHeader(Signed(xid), Signed(proc), cltNonce, srvNonce, Signed(xidRep)), u5)
  }

  function ReadReplyHeader(u: In): (ReplyHeader, In) {
    var (xid, u1) := GetInt(4, u);
    var (ret, u2) := GetInt(4, u1);
    (ReplyHeader(Signed(xid), Signed(ret)), u2)
  }

  lemma SignedReads(n: int, a: Bytes, rest: Bytes)
    requires IsInt32(n) && a == Packed(n) + rest
    ensures var (w, u) := GetInt(4, In(a, true));
            Signed(w) == n && u == In(rest, true)
  {
    Pow256Values();
    IntReads(4, n % 0x1_0000_0000, rest);
  }

  lemma UnsignedReads(n: nat, a: Bytes, rest: Bytes)
    requires IsUint32(n) && a == Packed(n) + rest
    ensures GetInt(4, In(a, true)) == (n, In(rest, true))
  {
    Pow256Values();
    IntReads(4, n % 0x1_0000_0000, rest);
  }

  lemma Regroup(a: Bytes, b: Bytes, c: Bytes, d: Bytes, e: Bytes, rest: Bytes)
    ensures a + b + c + d + e + rest == a + (b + (c + (d + (e + rest))))
  {
    Assoc(a + b + c + d, e, rest);
    Assoc(a + b + c, d, e + rest);
    Assoc(a + b, c, d + (e + rest));
    Assoc(a, b, c + (d + (e + rest)));
  }

  /** Where the fields of a request lie in its buffer: behind the size, in this order. */
  lemma ReqLayout(h: ReqHeader)
    ensures ReqBytes(h)[0..4] == BigEndian(h.xid % 0x1_0000_0000, 4)
    ensures ReqBytes(h)[4..8] == BigEndian(h.proc % 0x1_0000_0000, 4)
    ensures ReqBytes(h)[8..12] == BigEndian(h.cltNonce % 0x1_0000_0000, 4)
    ensures ReqBytes(h)[12..16] == BigEndian(h.srvNonce % 0x1_0000_0000, 4)
    ensures ReqBytes(h)[16..20] == BigEndian(h.xidRep % 0x1_0000_0000, 4)
  {
  }

  lemma ReplyLayout(h: ReplyHeader)
    ensures ReplyBytes(h)[0..4] == BigEndian(h.xid % 0x1_0000_0000, 4)
    ensures ReplyBytes(h)[4..8] == BigEndian(h.ret % 0x1_0000_0000, 4)
  {
  }

  /** Header round trip: five packed fields come back as they were, signed or unsigned. */
  lemma ReqHeaderReads(h: ReqHeader, rest: Bytes)
    requires ReqHeaderOk(h)
    ensures ReadReqHeader(In(ReqBytes(h) + rest, true)) == (h, In(rest, true))
  {
    var e := Packed(h.xidRep) + rest;
    var d := Packed(h.srvNonce) + e;
    var c := Packed(h.cltNonce) + d;
    Regroup(Packed(h.xid), Packed(h.proc), Packed(h.cltNonce), Packed(h.srvNonce), Packed(h.xidRep), rest);
    ReqFieldsRead(h, Packed(h.xid) + (Packed(h.proc) + c), Packed(h.proc) + c, c, d, e, rest);
  }

  lemma ReqFieldsRead(h: ReqHeader, a: Bytes, b: Bytes, c: Bytes, d: Bytes, e: Bytes, rest: Bytes)
    requires ReqHeaderOk(h)
    requires a == Packed(h.xid) + b && b == Packed(h.proc) + c && c == Packed(h.cltNonce) + d
    requires d == Packed(h.srvNonce) + e && e == Packed(h.xidRep) + rest
    ensures ReadReqHeader(In(a, true)) == (h, In(rest, true))
  {
    SignedReads(h.xid, a, b);
    SignedReads(h.proc, b, c);
    UnsignedReads(h.cltNonce, c, d);
    UnsignedReads(h.srvNonce, d, e);
    SignedReads(h.xidRep, e, rest);
  }

  lemma ReplyHeaderReads(h: ReplyHeader, rest: Bytes)
    requires ReplyHeaderOk(h)
    ensures ReadReplyHeader(In(ReplyBytes(h) + rest, true)) == (h, In(rest, true))
  {
    var b := Packed(h.ret) + rest;
    assert ReplyBytes(h) + rest == Packed(h.xid) + b;
    SignedReads(h.xid, Packed(h.xid) + b, b);
    SignedReads(h.ret, b, rest);
  }

  lemma {:induction false} IntNeeds(k: nat, u: In)
    ensures var u' := GetInt(k, u).1;
            u'.ok ==> u.ok && |u.rest| == |u'.rest| + k
  {
    if k > 0 {
      IntNeeds(k - 1, u);
    }
  }

  lemma ReqHeaderNeeds(u: In)
    ensures ReadReqHeader(u).1.ok ==> |u.rest| >= 20
  {
    var u1 := GetInt(4, u).1;
    var u2 := GetInt(4, u1).1;
    var u3 := GetInt(4, u2).1;
    var u4 := GetInt(4, u3).1;
    IntNeeds(4, u);
    IntNeeds(4, u1);
    IntNeeds(4, u2);
    IntNeeds(4, u3);
    IntNeeds(4, u4);
  }

  /** Reading eight bytes is reading two words. */
  lemma {:induction false} IntJoin(j: nat, k: nat, u: In)
    ensures var (high, u1) := GetInt(j, u);
            var (low, u2) := GetInt(k, u1);
            GetInt(j + k, u) == (high * Pow256(k) + low, u2)
  {
    if k > 0 {
      IntJoin(j, k - 1, u);
      var (high, u1) := GetInt(j, u);
      var (low, u2) := GetInt(k - 1, u1);
      Horner(high, Pow256(k - 1), low, Octet(u2).0);
    }
  }

  lemma Horner(high: nat, p: nat, low: nat, b: nat)
    ensures (high * p + low) * 256 + b == high * (256 * p) + (low * 256 + b)
  {
  }

  class Unmarshall {
    const buf: Bytes
    var ind: nat
    var ok: bool

    /** The read position runs past the end only when reading has failed. */
    ghost predicate Valid()
      reads this
    {
      ok ==> ind <= |buf|
    }

    ghost function State(): In
      reads this
    {
      In(if ind <= |buf| then buf[ind..] else [], ok)
    }

    /** A buffer as it comes from the connection. */
    constructor (b: Bytes)
      ensures Valid() && buf == b && State() == In(b, true)
    {
      buf := b;
      ind := 0;
      ok := true;
    }

    /** `take_in`: the body of another object's buffer. */
    constructor TakeIn(b: Bytes)
      ensures Valid() && buf == b
      ensures |b| >= RPC_HEADER_SZ ==> State() == In(b[RPC_HEADER_SZ..], true)
      ensures |b| < RPC_HEADER_SZ ==> !ok
    {
      buf := b;
      ind := RPC_HEADER_SZ;
      ok := |b| >= RPC_HEADER_SZ;
    }

    method Done() returns (r: bool)
      requires Valid()
      ensures r == OkDone(State())
    {
      r := ok && ind == |buf|;
    }

    method RawByte() returns (x: nat)
      modifies this
      ensures Valid() && (x, State()) == Wire.RawByte(old(State()))
    {
      var c: nat := 0;
      if ind >= |buf| {
        ok := false;
      } else {
        c := buf[ind] as nat;
        ind := ind + 1;
      }
      x := if c < 0x80 then c else 0xFFFF_FF00 + c;
    }

    /** One to four bytes, masked and shifted into place. */
    method GetWord(k: nat) returns (x: nat)
      requires Valid() || k > 0
      modifies this
      ensures Valid() && (x, State()) == Wire.GetInt(k, old(State()))
    {
      x := 0;
      ghost var u := State();
      for i := 0 to k
        invariant i > 0 || old(Valid()) ==> Valid()
        invariant (x, State()) == Wire.GetInt(i, u)
      {
        var c := RawByte();
        x := x * 0x100 + c % 0x100;
      }
    }

    method GetInt(k: nat) returns (x: nat)
      requires Valid() && k in {1, 2, 4, 8}
      modifies this
      ensures Valid() && (x, State()) == Wire.GetInt(k, old(State()))
    {
      if k == 8 {
        Pow256Values();
        IntJoin(4, 4, State());
        var high := GetWord(4);
        var low := GetWord(4);
        x := high * 0x1_0000_0000 + low;
      } else {
        x := GetWord(k);
      }
    }

    method GetStr() returns (s: Bytes)
      requires Valid()
      modifies this
      ensures Valid() && (s, State()) == Wire.GetStr(old(State()))
    {
      var n := GetWord(4);
      s := [];
      if ok {
        if ind + n > |buf| {
          ok := false;
        } else {
          assert buf[ind..][..n] == buf[ind..ind + n] && buf[ind..][n..] == buf[ind + n..];
          s := buf[ind..ind + n];
          ind := ind + n;
        }
      }
    }

    method GetScalar(ty: Ty) returns (v: Value)
      requires Valid() && IsScalar(ty)
      modifies this
      ensures Valid() && (v, State()) == DecodeScalar(ty, old(State()))
    {
      if ty.TBool? {
        var x := RawByte();
        v := Bool(x != 0);
      } else if ty.TStr? {
        var s := GetStr();
        v := Str(s);
      } else {
        var x := GetInt(Width(ty));
        v := Num(FromUnsigned(x, Width(ty), IsSigned(ty)));
      }
    }

    /** `operator>>` at any type. */
    method GetValue(ty: Ty) returns (v: Value)
      requires Valid()
      modifies this
      ensures Valid() && (v, State()) == Decode(ty, old(State()))
      decreases ty
    {
      if ty.TVec? {
        var n := GetWord(4);
        var vs := GetSeq(ty.elem, n);
        v := Vec(vs);
      } else if ty.TMap? {
        var n := GetWord(4);
        var kvs := GetPairs(ty.key, ty.val, n);
        v := Map(kvs);
      } else {
        v := GetScalar(ty);
      }
    }

    method GetSeq(ty: Ty, n: nat) returns (vs: seq<Value>)
      requires Valid()
      modifies this
      ensures Valid() && (vs, State()) == DecodeSeq(ty, n, old(State()))
      decreases TVec(ty), 0
    {
      vs := [];
      ghost var u := State();
      for i := 0 to n
        invariant Valid() && (vs, State()) == DecodeSeq(ty, i, u)
      {
        var z := GetValue(ty);
        vs := vs + [z];
      }
    }

    method GetPairs(key: Ty, val: Ty, n: nat) returns (kvs: seq<(Value, Value)>)
      requires Valid()
      modifies this
      ensures Valid() && (kvs, State()) == DecodePairs(key, val, n, old(State()))
      decreases TMap(key, val), 0
    {
      kvs := [];
      ghost var u := State();
      for i := 0 to n
        invariant Valid() && (kvs, State()) == DecodePairs(key, val, i, u)
      {
        var a := GetValue(key);
        var b := GetValue(val);
        kvs := Put(kvs, a, b);
      }
    }

    /** The bytes behind the size field. */
    ghost function AfterSize(): Bytes {
      if SZ_BYTES <= |buf| then buf[SZ_BYTES..] else []
    }

    method UnpackReqHeader() returns (h: ReqHeader)
      modifies this
      ensures Valid() && ind == RPC_HEADER_SZ
      ensures h == ReadReqHeader(In(AfterSize(), old(ok))).0
      ensures ok == ReadReqHeader(In(AfterSize(), old(ok))).1.ok
      ensures ok ==> |buf| >= RPC_HEADER_SZ
    {
      ind := SZ_BYTES;
      ReqHeaderNeeds(State());
      var xid := GetWord(4);
      var proc := GetWord(4);
      var cltNonce := GetWord(4);
      var srvNonce := GetWord(4);
      var xidRep := GetWord(4);
      h := ReqHeader(Signed(xid), Signed(proc), cltNonce, srvNonce, Signed(xidRep));
      ind := RPC_HEADER_SZ;
    }

    /** A reply between 12 and 24 bytes leaves the position past the end; `take_in` then clears `_ok`. */
    method UnpackReplyHeader() returns (h: ReplyHeader)
      modifies this
      ensures |buf| >= RPC_HEADER_SZ ==> Valid()
      ensures ind == RPC_HEADER_SZ
      ensures h == ReadReplyHeader(In(AfterSize(), old(ok))).0
      ensures ok == ReadReplyHeader(In(AfterSize(), old(ok))).1.ok
    {
      ind := SZ_BYTES;
      var xid := GetWord(4);
      var ret := GetWord(4);
      h := ReplyHeader(Signed(xid), Signed(ret));
      ind := RPC_HEADER_SZ;
    }
  }

  // ----- a request from one side to the other -----

  /**
   What `call_m` and `call1` build and what `dispatch` and the handler wrapper read: the header may be packed
   before or after the arguments, and both come back as they were.
   */
  method PassRequest(h: ReqHeader, tys: seq<Ty>, vs: seq<Value>, headerFirst: bool)
    returns (h': ReqHeader, vs': seq<Value>, done: bool)
    requires ReqHeaderOk(h) && HaveTypes(tys, vs) && RPC_HEADER_SZ + |EncodeArgs(tys, vs)| < SIZE_LIMIT
    ensures h' == h && vs' == vs && done
  {
    var b := BuildRequest(h, tys, vs, headerFirst);
    assert b[SZ_BYTES..] == ReqBytes(h) + b[RPC_HEADER_SZ..] by {
      assert b[SZ_BYTES..RPC_HEADER_SZ] + b[RPC_HEADER_SZ..] == b[SZ_BYTES..];
    }
    ReqHeaderReads(h, b[RPC_HEADER_SZ..]);
    ArgsRoundTrip(tys, vs);
    var req := new Unmarshall(b);
    h' := req.UnpackReqHeader();
    var args := new Unmarshall.TakeIn(b);
    vs' := GetArgs(args, tys);
    done := args.Done();
  }

  lemma HeadAndBody(head: Bytes, body: Bytes)
    requires |head| == RPC_HEADER_SZ
    ensures (head + body)[SZ_BYTES..RPC_HEADER_SZ] == head[SZ_BYTES..]
    ensures (head + body)[RPC_HEADER_SZ..] == body
  {
  }

  /** `m << a1; m << a2; ...` */
  method PutArgs(m: Marshall, tys: seq<Ty>, vs: seq<Value>)
    requires m.Valid() && HaveTypes(tys, vs) && m.ind + |EncodeArgs(tys, vs)| < SIZE_LIMIT
    modifies m, m.buf
    ensures m.Valid() && (fresh(m.buf) || m.buf == old(m.buf))
    ensures m.Out() == old(m.Out()) + EncodeArgs(tys, vs)
    decreases |tys|
  {
    if tys != [] {
      ghost var out := m.Out();
      m.PutValue(tys[0], vs[0]);
      PutArgs(m, tys[1..], vs[1..]);
      Assoc(out, Encode(tys[0], vs[0]), EncodeArgs(tys[1..], vs[1..]));
    }
  }

  /** `args >> a1; args >> a2; ...` */
  method GetArgs(args: Unmarshall, tys: seq<Ty>) returns (vs: seq<Value>)
    requires args.Valid()
    modifies args
    ensures args.Valid() && (vs, args.State()) == DecodeArgs(tys, old(args.State()))
    decreases |tys|
  {
    vs := [];
    if tys != [] {
      var v := args.GetValue(tys[0]);
      vs := GetArgs(args, tys[1..]);
      vs := [v] + vs;
    }
  }

  method BuildRequest(h: ReqHeader, tys: seq<Ty>, vs: seq<Value>, headerFirst: bool) returns (b: Bytes)
    requires ReqHeaderOk(h) && HaveTypes(tys, vs) && RPC_HEADER_SZ + |EncodeArgs(tys, vs)| < SIZE_LIMIT
    ensures |b| >= RPC_HEADER_SZ
    ensures b[SZ_BYTES..RPC_HEADER_SZ] == ReqBytes(h) && b[RPC_HEADER_SZ..] == EncodeArgs(tys, vs)
  {
    var m := new Marshall();
    if headerFirst {
      m.PackReqHeader(h);
    }
    ghost var head := m.Out();
    PutArgs(m, tys, vs);
    HeadAndBody(head, EncodeArgs(tys, vs));
    if !headerFirst {
      m.PackReqHeader(h);
    }
    b := m.buf[..m.ind];
    assert b[RPC_HEADER_SZ..] == m.buf[RPC_HEADER_SZ..][..m.ind - RPC_HEADER_SZ];
  }
}
