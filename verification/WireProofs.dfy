/** Round trip and self-delimitation of the wire format, for all types and values. */
module WireProofs {
  import opened Basics
  import opened Wire

  // ----- the format itself -----

  /** Integers go out in network order: each byte is a base-256 digit, the most significant first. */
  lemma {:induction false} DigitAt(n: nat, k: nat, i: nat)
    requires i < k
    ensures Pow256(k - 1 - i) > 0 && BigEndian(n, k)[i] as int == n / Pow256(k - 1 - i) % 256
  {
    if i == k - 1 {
      assert Pow256(0) == 1;
    } else {
      DigitAt(n / 256, k - 1, i);
      DivDiv(n, Pow256(k - 2 - i));
    }
  }

  lemma DivDiv(n: nat, p: nat)
    requires p > 0
    ensures 256 * p > 0 && n / 256 / p == n / (256 * p)
  {
    var q, r := n / 256 / p, n / 256 % p;
    assert n / 256 == q * p + r;
    var low := 256 * r + n % 256;
    assert n == 256 * (q * p + r) + n % 256;
    assert 256 * (q * p) == q * (256 * p);
    QuotientIs(n, 256 * p, q, low);
  }

  lemma QuotientIs(n: nat, d: nat, q: nat, r: nat)
    requires d > 0 && n == q * d + r && r < d
    ensures n / d == q
  {
    var q', r' := n / d, n % d;
    if q' > q {
      Below(q, q', d);
    } else if q' < q {
      Below(q', q, d);
    }
  }

  lemma {:induction false} Below(a: nat, b: nat, d: nat)
    requires a < b
    ensures a * d + d <= b * d
  {
    assert b * d == (b - 1) * d + d;
    if a + 1 < b {
      Below(a, b - 1, d);
    }
  }

  /** A byte for a bool, two's complement for signed integers, four bytes of count before what is counted. */
  lemma FormatIs(ty: Ty, v: Value)
    requires HasType(ty, v)
    ensures ty.TBool? ==> Encode(ty, v) == [if v.b then 1 else 0]
    ensures ty.TU8? ==> Encode(ty, v) == [v.n as byte]
    ensures ty.TI8? ==> Encode(ty, v) == [(if v.n < 0 then v.n + 256 else v.n) as byte]
    ensures ty.TU16? || ty.TI16? ==> Encode(ty, v) == BigEndian(if v.n < 0 then v.n + 0x1_0000 else v.n, 2)
    ensures ty.TU32? || ty.TI32? ==> Encode(ty, v) == BigEndian(if v.n < 0 then v.n + 0x1_0000_0000 else v.n, 4)
    ensures ty.TU64? ==> Encode(ty, v) == BigEndian(v.n, 8)
    ensures ty.TStr? ==> Encode(ty, v) == BigEndian(|v.s|, 4) + v.s
    ensures ty.TVec? ==> Encode(ty, v) == BigEndian(|v.vs|, 4) + EncodeSeq(ty.elem, v.vs, |v.vs|)
    ensures ty.TMap? ==> Encode(ty, v) == BigEndian(|v.kvs|, 4) + EncodePairs(ty.key, ty.val, v.kvs, |v.kvs|)
  {
    assert Pow256(1) == 256 && Pow256(2) == 0x1_0000 && Pow256(3) == 0x100_0000 && Pow256(4) == 0x1_0000_0000;
    if IsInt(ty) && Width(ty) == 1 {
      var u := ToUnsigned(v.n, 1);
      assert BigEndian(u, 1) == BigEndian(u / 256, 0) + [(u % 256) as byte] == [u as byte];
    }
  }

  /** What a map of entries says of a key. */
  function Lookup(kvs: seq<(Value, Value)>, k: Value): Option<Value> {
    if kvs == [] then None else if kvs[0].0 == k then Some(kvs[0].1) else Lookup(kvs[1..], k)
  }

  /** Storing under a key changes that key only, and adds an entry exactly if the key is new. */
  lemma {:induction false} PutIsUpdate(kvs: seq<(Value, Value)>, k: Value, v: Value, x: Value)
    ensures Lookup(Put(kvs, k, v), x) == if x == k then Some(v) else Lookup(kvs, x)
    ensures |Put(kvs, k, v)| == |kvs| + if Lookup(kvs, k).Some? then 0 else 1
  {
    if kvs == [] {
      assert [(k, v)][1..] == [];
    } else if kvs[0].0 == k {
      assert Put(kvs, k, v)[1..] == kvs[1..];
    } else {
      assert Put(kvs, k, v)[1..] == Put(kvs[1..], k, v);
      PutIsUpdate(kvs[1..], k, v, x);
    }
  }

  /** A string is read only as a whole: without its count, or with too few bytes behind it, nothing is. */
  lemma StringIsAllOrNothing(u: In)
    ensures var (n, u1) := GetInt(4, u);
            var (s, u') := GetStr(u);
            if u1.ok && n <= |u1.rest| then |s| == n && s + u'.rest == u1.rest && u'.ok
            else s == [] && u' == In(u1.rest, false)
  {
    var (n, u1) := GetInt(4, u);
    if n <= |u1.rest| {
      assert u1.rest[..n] + u1.rest[n..] == u1.rest;
    }
  }

  // ----- round trip: a decoder reads exactly what was encoded, and leaves the rest -----

  lemma OctetReads(b: byte, rest: Bytes)
    ensures Octet(In([b] + rest, true)) == (b as nat, In(rest, true))
    ensures RawByte(In([b] + rest, true)) == (if b < 0x80 then b as nat else 0xFFFF_FF00 + b as nat, In(rest, true))
  {
    assert ([b] + rest)[1..] == rest;
  }

  lemma {:induction false} IntReads(k: nat, n: nat, rest: Bytes)
    requires n < Pow256(k)
    ensures GetInt(k, In(BigEndian(n, k) + rest, true)) == (n, In(rest, true))
  {
    if k == 0 {
      assert [] + rest == rest;
    } else {
      var high, low := BigEndian(n / 256, k - 1), [(n % 256) as byte];
      assert high + low + rest == high + (low + rest);
      IntReads(k - 1, n / 256, low + rest);
      OctetReads((n % 256) as byte, rest);
    }
  }

  lemma CountReads(n: nat, x: Bytes, rest: Bytes)
    requires n < Pow256(COUNT_BYTES)
    ensures GetInt(COUNT_BYTES, In(BigEndian(n, COUNT_BYTES) + x + rest, true)) == (n, In(x + rest, true))
  {
    assert BigEndian(n, COUNT_BYTES) + x + rest == BigEndian(n, COUNT_BYTES) + (x + rest);
    IntReads(COUNT_BYTES, n, x + rest);
  }

  lemma StrReads(s: Bytes, rest: Bytes)
    requires |s| < Pow256(COUNT_BYTES)
    ensures GetStr(In(BigEndian(|s|, COUNT_BYTES) + s + rest, true)) == (s, In(rest, true))
  {
    CountReads(|s|, s, rest);
    assert (s + rest)[..|s|] == s && (s + rest)[|s|..] == rest;
  }

  lemma ScalarReads(ty: Ty, v: Value, rest: Bytes)
    requires IsScalar(ty) && ScalarHasType(ty, v)
    ensures DecodeScalar(ty, In(EncodeScalar(ty, v) + rest, true)) == (v, In(rest, true))
  {
    if ty.TBool? {
      OctetReads(if v.b then 1 else 0, rest);
    } else if ty.TStr? {
      StrReads(v.s, rest);
    } else {
      IntReads(Width(ty), ToUnsigned(v.n, Width(ty)), rest);
    }
  }

  /** Decoding what was encoded gives the value back and stops right after it. */
  lemma {:induction false} DecodeReads(ty: Ty, v: Value, rest: Bytes)
    requires HasType(ty, v)
    ensures Decode(ty, In(Encode(ty, v) + rest, true)) == (v, In(rest, true))
    decreases ty
  {
    if ty.TVec? {
      CountReads(|v.vs|, EncodeSeq(ty.elem, v.vs, |v.vs|), rest);
      DecodeSeqReads(ty.elem, v.vs, |v.vs|, rest);
      assert v.vs[..|v.vs|] == v.vs;
    } else if ty.TMap? {
      CountReads(|v.kvs|, EncodePairs(ty.key, ty.val, v.kvs, |v.kvs|), rest);
      DecodePairsReads(ty.key, ty.val, v.kvs, |v.kvs|, rest);
      assert v.kvs[..|v.kvs|] == v.kvs;
    } else {
      ScalarReads(ty, v, rest);
    }
  }

  lemma {:induction false} DecodeSeqReads(ty: Ty, vs: seq<Value>, n: nat, rest: Bytes)
    requires AllHaveType(ty, vs) && n <= |vs|
    ensures DecodeSeq(ty, n, In(EncodeSeq(ty, vs, n) + rest, true)) == (vs[..n], In(rest, true))
    decreases TVec(ty), n
  {
    if n == 0 {
      assert [] + rest == rest;
    } else {
      var x, y := EncodeSeq(ty, vs, n - 1), Encode(ty, vs[n - 1]);
      assert x + y + rest == x + (y + rest);
      DecodeSeqReads(ty, vs, n - 1, y + rest);
      DecodeReads(ty, vs[n - 1], rest);
      assert vs[..n - 1] + [vs[n - 1]] == vs[..n];
    }
  }

  lemma {:induction false} PutAppends(kvs: seq<(Value, Value)>, k: Value, v: Value)
    requires forall i :: 0 <= i < |kvs| ==> kvs[i].0 != k
    ensures Put(kvs, k, v) == kvs + [(k, v)]
  {
    if kvs != [] {
      PutAppends(kvs[1..], k, v);
    }
  }

  lemma {:induction false} DecodePairsReads(key: Ty, val: Ty, kvs: seq<(Value, Value)>, n: nat, rest: Bytes)
    requires PairsHaveType(key, val, kvs) && DistinctKeys(kvs) && n <= |kvs|
    ensures DecodePairs(key, val, n, In(EncodePairs(key, val, kvs, n) + rest, true)) == (kvs[..n], In(rest, true))
    decreases TMap(key, val), n
  {
    if n == 0 {
      assert [] + rest == rest;
    } else {
      var x, y := EncodePairs(key, val, kvs, n - 1), EncodePair(key, val, kvs[n - 1]);
      assert x + y + rest == x + (y + rest);
      DecodePairsReads(key, val, kvs, n - 1, y + rest);
      PairReads(key, val, kvs[n - 1], rest);
      PutNext(kvs, n);
    }
  }

  lemma PutNext(kvs: seq<(Value, Value)>, n: nat)
    requires DistinctKeys(kvs) && 0 < n <= |kvs|
    ensures Put(kvs[..n - 1], kvs[n - 1].0, kvs[n - 1].1) == kvs[..n]
  {
    PutAppends(kvs[..n - 1], kvs[n - 1].0, kvs[n - 1].1);
    assert kvs[..n - 1] + [(kvs[n - 1].0, kvs[n - 1].1)] == kvs[..n];
  }

  lemma {:induction false} PairReads(key: Ty, val: Ty, kv: (Value, Value), rest: Bytes)
    requires HasType(key, kv.0) && HasType(val, kv.1)
    ensures DecodePair(key, val, In(EncodePair(key, val, kv) + rest, true)) == (kv, In(rest, true))
    decreases TMap(key, val), 0
  {
    var x, y := Encode(key, kv.0), Encode(val, kv.1);
    assert x + y + rest == x + (y + rest);
    DecodeReads(key, kv.0, y + rest);
    DecodeReads(val, kv.1, rest);
  }

  // ----- self-delimitation: a successful read of a prefix is a read of the whole -----

  function More(u: In, q: Bytes): In {
    u.(rest := u.rest + q)
  }

  /** What a decoder does without `q` it also does with `q` behind, unless it fails without it. */
  ghost predicate Extends<T(!new)>(u: In, short: (T, In), long: (T, In), q: Bytes) {
    short.1.ok ==> u.ok && long == (short.0, More(short.1, q))
  }

  lemma RawByteExtends(u: In, q: Bytes)
    ensures Extends(u, RawByte(u), RawByte(More(u, q)), q)
    ensures Extends(u, Octet(u), Octet(More(u, q)), q)
  {
    if u.rest != [] {
      assert (u.rest + q)[1..] == u.rest[1..] + q;
    }
  }

  lemma {:induction false} IntExtends(k: nat, u: In, q: Bytes)
    ensures Extends(u, GetInt(k, u), GetInt(k, More(u, q)), q)
  {
    if k > 0 {
      IntExtends(k - 1, u, q);
      RawByteExtends(GetInt(k - 1, u).1, q);
    }
  }

  lemma StrExtends(u: In, q: Bytes)
    ensures Extends(u, GetStr(u), GetStr(More(u, q)), q)
  {
    IntExtends(COUNT_BYTES, u, q);
    var (n, u1) := GetInt(COUNT_BYTES, u);
    if n <= |u1.rest| {
      assert (u1.rest + q)[..n] == u1.rest[..n];
      assert (u1.rest + q)[n..] == u1.rest[n..] + q;
    }
  }

  lemma {:induction false} DecodeExtends(ty: Ty, u: In, q: Bytes)
    ensures Extends(u, Decode(ty, u), Decode(ty, More(u, q)), q)
    decreases ty
  {
    if ty.TVec? {
      IntExtends(COUNT_BYTES, u, q);
      var (n, u1) := GetInt(COUNT_BYTES, u);
      DecodeSeqExtends(ty.elem, n, u1, q);
    } else if ty.TMap? {
      IntExtends(COUNT_BYTES, u, q);
      var (n, u1) := GetInt(COUNT_BYTES, u);
      DecodePairsExtends(ty.key, ty.val, n, u1, q);
    } else if ty.TBool? {
      RawByteExtends(u, q);
    } else if ty.TStr? {
      StrExtends(u, q);
    } else {
      IntExtends(Width(ty), u, q);
    }
  }

  lemma {:induction false} DecodeSeqExtends(ty: Ty, n: nat, u: In, q: Bytes)
    ensures Extends(u, DecodeSeq(ty, n, u), DecodeSeq(ty, n, More(u, q)), q)
    decreases TVec(ty), n
  {
    if n > 0 {
      DecodeSeqExtends(ty, n - 1, u, q);
      DecodeExtends(ty, DecodeSeq(ty, n - 1, u).1, q);
    }
  }

  lemma {:induction false} DecodePairsExtends(key: Ty, val: Ty, n: nat, u: In, q: Bytes)
    ensures Extends(u, DecodePairs(key, val, n, u), DecodePairs(key, val, n, More(u, q)), q)
    decreases TMap(key, val), n
  {
    if n > 0 {
      DecodePairsExtends(key, val, n - 1, u, q);
      PairExtends(key, val, DecodePairs(key, val, n - 1, u).1, q);
    }
  }

  lemma {:induction false} PairExtends(key: Ty, val: Ty, u: In, q: Bytes)
    ensures Extends(u, DecodePair(key, val, u), DecodePair(key, val, More(u, q)), q)
    decreases TMap(key, val), 0
  {
    DecodeExtends(key, u, q);
    DecodeExtends(val, Decode(key, u).1, q);
  }

  // ----- argument lists -----

  ghost predicate HaveTypes(tys: seq<Ty>, vs: seq<Value>) {
    |vs| == |tys| && forall i :: 0 <= i < |tys| ==> HasType(tys[i], vs[i])
  }

  /** What `rpcc::call` appends for its arguments. */
  ghost function EncodeArgs(tys: seq<Ty>, vs: seq<Value>): Bytes
    requires HaveTypes(tys, vs)
  {
    if tys == [] then [] else Encode(tys[0], vs[0]) + EncodeArgs(tys[1..], vs[1..])
  }

  /** The sequence of `args >> a1; args >> a2; ...` in a registered handler. */
  function DecodeArgs(tys: seq<Ty>, u: In): (seq<Value>, In)
    decreases |tys|
  {
    if tys == [] then ([], u)
    else
      var (v, u1) := Decode(tys[0], u);
      var (vs, u2) := DecodeArgs(tys[1..], u1);
      ([v] + vs, u2)
  }

  lemma {:induction false} DecodeArgsReads(tys: seq<Ty>, vs: seq<Value>, rest: Bytes)
    requires HaveTypes(tys, vs)
    ensures DecodeArgs(tys, In(EncodeArgs(tys, vs) + rest, true)) == (vs, In(rest, true))
    decreases |tys|
  {
    if tys == [] {
      assert [] + rest == rest;
    } else {
      var x, y := Encode(tys[0], vs[0]), EncodeArgs(tys[1..], vs[1..]);
      assert x + y + rest == x + (y + rest);
      DecodeReads(tys[0], vs[0], y + rest);
      DecodeArgsReads(tys[1..], vs[1..], rest);
      assert [vs[0]] + vs[1..] == vs;
    }
  }

  lemma {:induction false} DecodeArgsExtends(tys: seq<Ty>, u: In, q: Bytes)
    ensures Extends(u, DecodeArgs(tys, u), DecodeArgs(tys, More(u, q)), q)
    decreases |tys|
  {
    if tys != [] {
      DecodeExtends(tys[0], u, q);
      DecodeArgsExtends(tys[1..], Decode(tys[0], u).1, q);
    }
  }

  /**
   Every list of well-typed arguments comes back unchanged with `okdone()` true, and no strict
   prefix of its encoding is accepted.
   */
  lemma ArgsRoundTrip(tys: seq<Ty>, vs: seq<Value>)
    requires HaveTypes(tys, vs)
    ensures var body := EncodeArgs(tys, vs);
            && DecodeArgs(tys, In(body, true)).0 == vs
            && OkDone(DecodeArgs(tys, In(body, true)).1)
            && forall k :: 0 <= k < |body| ==> !OkDone(DecodeArgs(tys, In(body[..k], true)).1)
  {
    var body := EncodeArgs(tys, vs);
    assert body + [] == body;
    DecodeArgsReads(tys, vs, []);
    forall k | 0 <= k < |body| ensures !OkDone(DecodeArgs(tys, In(body[..k], true)).1) {
      assert body[..k] + body[k..] == body;
      DecodeArgsExtends(tys, In(body[..k], true), body[k..]);
    }
  }

  /** Different values of the same types never share an encoding. */
  lemma EncodingIsInjective(tys: seq<Ty>, vs: seq<Value>, ws: seq<Value>)
    requires HaveTypes(tys, vs) && HaveTypes(tys, ws) && EncodeArgs(tys, vs) == EncodeArgs(tys, ws)
    ensures vs == ws
  {
    ArgsRoundTrip(tys, vs);
    ArgsRoundTrip(tys, ws);
  }

  // ----- a typed call over the wire -----

  const UNMARSHAL_ARGS_FAILURE := -2

  /** `h1::fn`: decode the arguments, run the handler, encode its result. */
  ghost function HandlerFn(tys: seq<Ty>, rty: Ty, handler: seq<Value> -> (int, Value), req: Bytes): (int, Bytes)
    requires forall vs :: HasType(rty, handler(vs).1)
  {
    var (vs, u) := DecodeArgs(tys, In(req, true));
    if !OkDone(u) then (UNMARSHAL_ARGS_FAILURE, []) else (handler(vs).0, Encode(rty, handler(vs).1))
  }

  /** A call through `call_m` and `h1::fn` returns what the handler returns on the very same arguments. */
  lemma CallIsTransparent(tys: seq<Ty>, rty: Ty, handler: seq<Value> -> (int, Value), vs: seq<Value>)
    requires HaveTypes(tys, vs) && forall ws :: HasType(rty, handler(ws).1)
    ensures var (ret, body) := HandlerFn(tys, rty, handler, EncodeArgs(tys, vs));
            var (r, u) := Decode(rty, In(body, true));
            ret == handler(vs).0 && r == handler(vs).1 && OkDone(u)
  {
    ArgsRoundTrip(tys, vs);
    var body := Encode(rty, handler(vs).1);
    assert body + [] == body;
    DecodeReads(rty, handler(vs).1, []);
  }

  /** A call whose arguments arrive incomplete does not reach the handler. */
  lemma TruncatedCallFails(tys: seq<Ty>, rty: Ty, handler: seq<Value> -> (int, Value), vs: seq<Value>, k: nat)
    requires HaveTypes(tys, vs) && forall ws :: HasType(rty, handler(ws).1)
    requires k < |EncodeArgs(tys, vs)|
    ensures HandlerFn(tys, rty, handler, EncodeArgs(tys, vs)[..k]) == (-2, [])
  {
    ArgsRoundTrip(tys, vs);
  }
}
