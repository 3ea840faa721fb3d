/**
 The two buffer classes of the RPC library: `marshall`, a growing byte array with a header
 area in front of the body, and `unmarshall`, which reads such a buffer back.
 */
module Marshalling {
  import opened Basics
  import opened Wire

  const DEFAULT_RPC_SZ: nat := 1024
  /** Room for the connection's size field. */
  const SZ_BYTES: nat := 4
  /** The size field and the larger of the two headers (five 32-bit fields). */
  const RPC_HEADER_SZ: nat := 24
  /** Sizes stay below this, so that `int` arithmetic on capacities does not overflow. */
  const SIZE_LIMIT: nat := 0x4000_0000

  datatype ReqHeader = ReqHeader(xid: int, proc: int, cltNonce: int, srvNonce: int, xidRep: int)

  datatype ReplyHeader = ReplyHeader(xid: int, ret: int)

  predicate IsInt32(n: int) {
    -0x8000_0000 <= n < 0x8000_0000
  }

  predicate IsUint32(n: int) {
    0 <= n < 0x1_0000_0000
  }

  /** What `marshall::pack` appends: the low 32 bits of its argument, big-endian. */
  function Packed(n: int): (r: Bytes)
    ensures |r| == 4
  {
    BigEndian(n % 0x1_0000_0000, 4)
  }

  /** A 32-bit word read as an `int`. */
  function Signed(w: nat): int {
    FromUnsigned(w, 4, true)
  }

  predicate ReqHeaderOk(h: ReqHeader) {
    IsInt32(h.xid) && IsInt32(h.proc) && IsUint32(h.cltNonce) && IsUint32(h.srvNonce) && IsInt32(h.xidRep)
  }

  function ReqBytes(h: ReqHeader): (r: Bytes)
    ensures |r| == 20
  {
    Packed(h.xid) + Packed(h.proc) + Packed(h.cltNonce) + Packed(h.srvNonce) + Packed(h.xidRep)
  }

  predicate ReplyHeaderOk(h: ReplyHeader) {
    IsInt32(h.xid) && IsInt32(h.ret)
  }

  function ReplyBytes(h: ReplyHeader): (r: Bytes)
    ensures |r| == 8
  {
    Packed(h.xid) + Packed(h.ret)
  }

  lemma Pow256Values()
    ensures Pow256(1) == 0x100 && Pow256(2) == 0x1_0000 && Pow256(4) == 0x1_0000_0000
    ensures Pow256(8) == 0x1_0000_0000_0000_0000
  {
    assert Pow256(3) == 0x100_0000 && Pow256(5) == 0x100_0000_0000;
    assert Pow256(6) == 0x1_0000_0000_0000 && Pow256(7) == 0x100_0000_0000_0000;
  }

  lemma Bytes4(n: nat)
    requires n < 0x1_0000_0000
    ensures BigEndian(n, 4) ==
            [(n / 0x100_0000 % 0x100) as byte, (n / 0x1_0000 % 0x100) as byte,
             (n / 0x100 % 0x100) as byte, (n % 0x100) as byte]
  {
    assert BigEndian(n / 0x100_0000, 1) == [(n / 0x100_0000 % 0x100) as byte];
    assert n / 0x100 / 0x100 == n / 0x1_0000 && n / 0x1_0000 / 0x100 == n / 0x100_0000;
    assert BigEndian(n / 0x1_0000, 2) == BigEndian(n / 0x100_0000, 1) + [(n / 0x1_0000 % 0x100) as byte];
    assert BigEndian(n / 0x100, 3) == BigEndian(n / 0x1_0000, 2) + [(n / 0x100 % 0x100) as byte];
  }

  lemma SmallBytes(n: nat)
    ensures n < 0x100 ==> BigEndian(n, 1) == [n as byte]
    ensures n < 0x1_0000 ==> BigEndian(n, 2) == [(n / 0x100) as byte, (n % 0x100) as byte]
  {
    assert BigEndian(n / 256, 1) == BigEndian(n / 256 / 256, 0) + [(n / 256 % 256) as byte];
  }

  lemma {:induction false} BytesJoin(high: nat, low: nat, j: nat, k: nat)
    requires low < Pow256(k)
    ensures BigEndian(high * Pow256(k) + low, j + k) == BigEndian(high, j) + BigEndian(low, k)
  {
    if k > 0 {
      var p := Pow256(k - 1);
      Split(high, p, low);
      NextByte(high * Pow256(k) + low, j + k - 1, high * p + low / 256, low % 256);
      NextByte(low, k - 1, low / 256, low % 256);
      BytesJoin(high, low / 256, j, k - 1);
    }
  }

  /** Everything but the last byte, and the last byte. */
  lemma Split(high: nat, p: nat, low: nat)
    ensures high * (256 * p) + low == (high * p + low / 256) * 256 + low % 256
  {
    assert high * (256 * p) == (high * p) * 256;
  }

  lemma Bytes8(high: nat, low: nat)
    requires low < 0x1_0000_0000
    ensures BigEndian(high * 0x1_0000_0000 + low, 8) == BigEndian(high, 4) + BigEndian(low, 4)
  {
    Pow256Values();
    BytesJoin(high, low, 4, 4);
  }

  lemma NextByte(n: nat, k: nat, high: nat, low: nat)
    requires n == high * 0x100 + low && low < 0x100
    ensures BigEndian(n, k + 1) == BigEndian(high, k) + [low as byte]
  {
    assert n / 256 == high && n % 256 == low;
  }

  lemma {:induction false} SeqPrefix(ty: Ty, vs: seq<Value>, m: nat, n: nat)
    requires AllHaveType(ty, vs) && m <= n <= |vs|
    ensures |EncodeSeq(ty, vs, m)| <= |EncodeSeq(ty, vs, n)|
  {
    if m < n {
      SeqPrefix(ty, vs, m, n - 1);
    }
  }

  lemma {:induction false} PairsPrefix(key: Ty, val: Ty, kvs: seq<(Value, Value)>, m: nat, n: nat)
    requires PairsHaveType(key, val, kvs) && m <= n <= |kvs|
    ensures |EncodePairs(key, val, kvs, m)| <= |EncodePairs(key, val, kvs, n)|
  {
    if m < n {
      PairsPrefix(key, val, kvs, m, n - 1);
    }
  }

  lemma Assoc(a: Bytes, b: Bytes, c: Bytes)
    ensures a + b + c == a + (b + c)
  {
  }

  /** One turn of the vector loop, behind `out`: what it appends and that it fits. */
  lemma SeqTurn(ty: Ty, vs: seq<Value>, i: nat, out: Bytes)
    requires AllHaveType(ty, vs) && i < |vs|
    ensures out + EncodeSeq(ty, vs, i) + Encode(ty, vs[i]) == out + EncodeSeq(ty, vs, i + 1)
    ensures |out + EncodeSeq(ty, vs, i)| + |Encode(ty, vs[i])| <= |out| + |EncodeSeq(ty, vs, |vs|)|
  {
    SeqPrefix(ty, vs, i + 1, |vs|);
    Assoc(out, EncodeSeq(ty, vs, i), Encode(ty, vs[i]));
  }

  lemma PairsTurn(key: Ty, val: Ty, kvs: seq<(Value, Value)>, i: nat, out: Bytes)
    requires PairsHaveType(key, val, kvs) && i < |kvs|
    ensures out + EncodePairs(key, val, kvs, i) + EncodePair(key, val, kvs[i]) ==
            out + EncodePairs(key, val, kvs, i + 1)
    ensures |out + EncodePairs(key, val, kvs, i)| + |EncodePair(key, val, kvs[i])| <=
            |out| + |EncodePairs(key, val, kvs, |kvs|)|
  {
    PairsPrefix(key, val, kvs, i + 1, |kvs|);
    Assoc(out, EncodePairs(key, val, kvs, i), EncodePair(key, val, kvs[i]));
  }

  class Marshall {
    var buf: array<byte>
    var ind: nat

    ghost predicate Valid()
      reads this
    {
      DEFAULT_RPC_SZ <= buf.Length < 2 * SIZE_LIMIT && ind <= buf.Length
    }

    /** Everything up to the write position. */
    ghost function Out(): Bytes
      requires Valid()
      reads this, buf
    {
      buf[..ind]
    }

    constructor ()
      ensures Valid() && fresh(buf) && ind == RPC_HEADER_SZ
    {
      buf := new byte[DEFAULT_RPC_SZ];
      ind := RPC_HEADER_SZ;
    }

    /** `realloc`: the old bytes stay, the new ones are arbitrary. */
    method Grow(capa: nat)
      requires Valid() && buf.Length <= capa < 2 * SIZE_LIMIT
      modifies this`buf
      ensures Valid() && fresh(buf) && buf.Length == capa
      ensures buf[..old(buf.Length)] == old(buf[..])
    {
      var b := new byte[capa];
      forall i | 0 <= i < buf.Length {
        b[i] := buf[i];
      }
      buf := b;
    }

    method RawByte(x: byte)
      requires Valid() && ind < SIZE_LIMIT
      modifies this, buf
      ensures Valid() && (fresh(buf) || buf == old(buf))
      ensures Out() == old(Out()) + [x]
      ensures buf.Length >= old(buf.Length)
      ensures forall j :: ind <= j < old(buf.Length) ==> buf[j] == old(buf[j])
    {
      if ind >= buf.Length {
        Grow(2 * buf.Length);
      }
      buf[ind] := x;
      ind := ind + 1;
    }

    method RawBytes(p: Bytes)
      requires Valid() && ind + |p| < SIZE_LIMIT
      modifies this, buf
      ensures Valid() && (fresh(buf) || buf == old(buf))
      ensures Out() == old(Out()) + p
    {
      if ind + |p| > buf.Length {
        Grow(if buf.Length > |p| then 2 * buf.Length else buf.Length + |p|);
      }
      forall i | 0 <= i < |p| {
        buf[ind + i] := p[i];
      }
      ind := ind + |p|;
    }

    /** `operator<<(unsigned int)`, and `pack` for the headers. */
    method PutU32(x: nat)
      requires Valid() && x < 0x1_0000_0000 && ind + 4 < SIZE_LIMIT
      modifies this, buf
      ensures Valid() && (fresh(buf) || buf == old(buf))
      ensures Out() == old(Out()) + BigEndian(x, 4)
      ensures buf.Length >= old(buf.Length)
      ensures forall j :: ind <= j < old(buf.Length) ==> buf[j] == old(buf[j])
    {
      Bytes4(x);
      RawByte((x / 0x100_0000 % 0x100) as byte);
      RawByte((x / 0x1_0000 % 0x100) as byte);
      RawByte((x / 0x100 % 0x100) as byte);
      RawByte((x % 0x100) as byte);
    }

    method PutU64(high: nat, low: nat)
      requires Valid() && high < 0x1_0000_0000 && low < 0x1_0000_0000 && ind + 8 < SIZE_LIMIT
      modifies this, buf
      ensures Valid() && (fresh(buf) || buf == old(buf))
      ensures Out() == old(Out()) + BigEndian(high * 0x1_0000_0000 + low, 8)
    {
      Bytes8(high, low);
      Assoc(Out(), BigEndian(high, 4), BigEndian(low, 4));
      PutU32(high);
      PutU32(low);
    }

    /** The integer types: one byte, two bytes, one word, or two words. */
    method PutInt(k: nat, x: nat)
      requires Valid() && k in {1, 2, 4, 8} && x < Pow256(k) && ind + k < SIZE_LIMIT
      modifies this, buf
      ensures Valid() && (fresh(buf) || buf == old(buf))
      ensures Out() == old(Out()) + BigEndian(x, k)
    {
      Pow256Values();
      SmallBytes(x);
      if k == 1 {
        RawByte(x as byte);
      } else if k == 2 {
        RawByte((x / 0x100) as byte);
        RawByte((x % 0x100) as byte);
      } else if k == 4 {
        PutU32(x);
      } else {
        PutU64(x / 0x1_0000_0000, x % 0x1_0000_0000);
      }
    }

    method PutStr(s: Bytes)
      requires Valid() && ind + 4 + |s| < SIZE_LIMIT
      modifies this, buf
      ensures Valid() && (fresh(buf) || buf == old(buf))
      ensures Out() == old(Out()) + (BigEndian(|s|, COUNT_BYTES) + s)
    {
      Assoc(Out(), BigEndian(|s|, COUNT_BYTES), s);
      PutU32(|s|);
      RawBytes(s);
    }

    method PutScalar(ty: Ty, v: Value)
      requires Valid() && IsScalar(ty) && ScalarHasType(ty, v) && ind + |EncodeScalar(ty, v)| < SIZE_LIMIT
      modifies this, buf
      ensures Valid() && (fresh(buf) || buf == old(buf))
      ensures Out() == old(Out()) + EncodeScalar(ty, v)
    {
      Pow256Values();
      if ty.TBool? {
        RawByte(if v.b then 1 else 0);
      } else if ty.TStr? {
        PutStr(v.s);
      } else {
        PutInt(Width(ty), ToUnsigned(v.n, Width(ty)));
      }
    }

    /** `operator<<` at any type. */
    method PutValue(ty: Ty, v: Value)
      requires Valid() && HasType(ty, v) && ind + |Encode(ty, v)| < SIZE_LIMIT
      modifies this, buf
      ensures Valid() && (fresh(buf) || buf == old(buf))
      ensures Out() == old(Out()) + Encode(ty, v)
      decreases ty
    {
      Pow256Values();
      if ty.TVec? {
        Assoc(Out(), BigEndian(|v.vs|, 4), EncodeSeq(ty.elem, v.vs, |v.vs|));
        PutU32(|v.vs|);
        PutSeq(ty.elem, v.vs);
      } else if ty.TMap? {
        Assoc(Out(), BigEndian(|v.kvs|, 4), EncodePairs(ty.key, ty.val, v.kvs, |v.kvs|));
        PutU32(|v.kvs|);
        PutPairs(ty.key, ty.val, v.kvs);
      } else {
        PutScalar(ty, v);
      }
    }

    method PutSeq(ty: Ty, vs: seq<Value>)
      requires Valid() && AllHaveType(ty, vs) && ind + |EncodeSeq(ty, vs, |vs|)| < SIZE_LIMIT
      modifies this, buf
      ensures Valid() && (fresh(buf) || buf == old(buf))
      ensures Out() == old(Out()) + EncodeSeq(ty, vs, |vs|)
      decreases TVec(ty), 0
    {
      ghost var out := Out();
      for i := 0 to |vs|
        invariant Valid() && (fresh(buf) || buf == old(buf))
        invariant Out() == out + EncodeSeq(ty, vs, i)
      {
        SeqTurn(ty, vs, i, out);
        PutValue(ty, vs[i]);
      }
    }

    method PutPairs(key: Ty, val: Ty, kvs: seq<(Value, Value)>)
      requires Valid() && PairsHaveType(key, val, kvs) && ind + |EncodePairs(key, val, kvs, |kvs|)| < SIZE_LIMIT
      modifies this, buf
      ensures Valid() && (fresh(buf) || buf == old(buf))
      ensures Out() == old(Out()) + EncodePairs(key, val, kvs, |kvs|)
      decreases TMap(key, val), 1
    {
      ghost var out := Out();
      assert out + [] == out;
      for i := 0 to |kvs|
        invariant Valid() && (fresh(buf) || buf == old(buf))
        invariant Out() == out + EncodePairs(key, val, kvs, i)
      {
        PairsTurn(key, val, kvs, i, out);
        PutPair(key, val, kvs[i]);
      }
    }

    method PutPair(key: Ty, val: Ty, kv: (Value, Value))
      requires Valid() && HasType(key, kv.0) && HasType(val, kv.1) && ind + |EncodePair(key, val, kv)| < SIZE_LIMIT
      modifies this, buf
      ensures Valid() && (fresh(buf) || buf == old(buf))
      ensures Out() == old(Out()) + EncodePair(key, val, kv)
      decreases TMap(key, val), 0
    {
      Assoc(Out(), Encode(key, kv.0), Encode(val, kv.1));
      PutValue(key, kv.0);
      PutValue(val, kv.1);
    }

    /** Whatever was or will be appended behind the header area stays as it is. */
    method PackReqHeader(h: ReqHeader)
      requires Valid() && ReqHeaderOk(h) && RPC_HEADER_SZ <= ind
      modifies this`ind, buf
      ensures Valid() && ind == old(ind)
      ensures buf[SZ_BYTES..RPC_HEADER_SZ] == ReqBytes(h)
      ensures buf[RPC_HEADER_SZ..] == old(buf[RPC_HEADER_SZ..])
    {
      var saved := ind;
      ind := SZ_BYTES;
      Pack(h.xid);
      Pack(h.proc);
      Pack(h.cltNonce);
      Pack(h.srvNonce);
      Pack(h.xidRep);
      ind := saved;
    }

    method PackReplyHeader(h: ReplyHeader)
      requires Valid() && ReplyHeaderOk(h) && RPC_HEADER_SZ <= ind
      modifies this`ind, buf
      ensures Valid() && ind == old(ind)
      ensures buf[SZ_BYTES..SZ_BYTES + 8] == ReplyBytes(h)
      ensures buf[RPC_HEADER_SZ..] == old(buf[RPC_HEADER_SZ..])
    {
      var saved := ind;
      ind := SZ_BYTES;
      Pack(h.xid);
      Pack(h.ret);
      ind := saved;
    }

    /** `pack`, used only inside the header area, where the buffer never has to grow. */
    method Pack(x: int)
      requires Valid() && SZ_BYTES <= ind && ind + 4 <= RPC_HEADER_SZ
      modifies this`ind, buf
      ensures Valid() && ind == old(ind) + 4
      ensures buf[SZ_BYTES..ind] == old(buf[SZ_BYTES..ind]) + Packed(x)
      ensures buf[RPC_HEADER_SZ..] == old(buf[RPC_HEADER_SZ..])
    {
      var w := x % 0x1_0000_0000;
      Bytes4(w);
      buf[ind] := (w / 0x100_0000 % 0x100) as byte;
      buf[ind + 1] := (w / 0x1_0000 % 0x100) as byte;
      buf[ind + 2] := (w / 0x100 % 0x100) as byte;
      buf[ind + 3] := (w % 0x100) as byte;
      ind := ind + 4;
    }
  }
}
