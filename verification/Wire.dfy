/**
 The typed wire format of the RPC library: what `operator<<` on `marshall` appends and what
 `operator>>` on `unmarshall` reads back.  Integers are big-endian; strings, vectors and maps
 carry a 32-bit count.
 */
module Wire {
  import opened Basics

  /** Counts are `unsigned int`. */
  const COUNT_BYTES: nat := 4

  datatype Ty =
    | TBool | TU8 | TU16 | TU32 | TU64 | TI8 | TI16 | TI32
    | TStr
    | TVec(elem: Ty)
    | TMap(key: Ty, val: Ty)

  /** A `std::map` is the sequence of its entries in iteration order, with distinct keys. */
  datatype Value =
    | Bool(b: bool)
    | Num(n: int)
    | Str(s: Bytes)
    | Vec(vs: seq<Value>)
    | Map(kvs: seq<(Value, Value)>)

  ghost predicate DistinctKeys(kvs: seq<(Value, Value)>) {
    forall i, j :: 0 <= i < j < |kvs| ==> kvs[i].0 != kvs[j].0
  }

  predicate IsScalar(ty: Ty) {
    !ty.TVec? && !ty.TMap?
  }

  predicate IsInt(ty: Ty) {
    IsScalar(ty) && !ty.TBool? && !ty.TStr?
  }

  function Width(ty: Ty): nat
    requires IsInt(ty)
  {
    if ty.TU8? || ty.TI8? then 1
    else if ty.TU16? || ty.TI16? then 2
    else if ty.TU32? || ty.TI32? then 4
    else 8
  }

  predicate IsSigned(ty: Ty) {
    ty.TI8? || ty.TI16? || ty.TI32?
  }

  function Pow256(k: nat): nat {
    if k == 0 then 1 else 256 * Pow256(k - 1)
  }

  /** The values of an integer type of `k` bytes. */
  predicate InRange(k: nat, signed: bool, n: int) {
    if signed then 0 <= 2 * n + Pow256(k) && 2 * n < Pow256(k) else 0 <= n < Pow256(k)
  }

  predicate ScalarHasType(ty: Ty, v: Value)
    requires IsScalar(ty)
  {
    if ty.TBool? then v.Bool?
    else if ty.TStr? then v.Str? && |v.s| < Pow256(COUNT_BYTES)
    else v.Num? && InRange(Width(ty), IsSigned(ty), v.n)
  }

  ghost predicate HasType(ty: Ty, v: Value)
    decreases ty
  {
    if ty.TVec? then v.Vec? && |v.vs| < Pow256(COUNT_BYTES) && AllHaveType(ty.elem, v.vs)
    else if ty.TMap? then
      v.Map? && |v.kvs| < Pow256(COUNT_BYTES) && DistinctKeys(v.kvs) && PairsHaveType(ty.key, ty.val, v.kvs)
    else ScalarHasType(ty, v)
  }

  ghost predicate AllHaveType(ty: Ty, vs: seq<Value>)
    decreases TVec(ty), 0
  {
    forall i :: 0 <= i < |vs| ==> HasType(ty, vs[i])
  }

  ghost predicate PairsHaveType(key: Ty, val: Ty, kvs: seq<(Value, Value)>)
    decreases TMap(key, val), 0
  {
    forall i :: 0 <= i < |kvs| ==> HasType(key, kvs[i].0) && HasType(val, kvs[i].1)
  }

  // ----- encoding -----

  /** The `k` low-order bytes of `n`, most significant first. */
  function BigEndian(n: nat, k: nat): (r: Bytes)
    ensures |r| == k
  {
    if k == 0 then [] else BigEndian(n / 256, k - 1) + [(n % 256) as byte]
  }

  /** Two's complement on `k` bytes: a signed value cast to the unsigned type, and back. */
  function ToUnsigned(n: int, k: nat): int {
    if n < 0 then n + Pow256(k) else n
  }

  function FromUnsigned(n: nat, k: nat, signed: bool): int {
    if signed && 2 * n >= Pow256(k) then n - Pow256(k) else n
  }

  function EncodeScalar(ty: Ty, v: Value): Bytes
    requires IsScalar(ty) && ScalarHasType(ty, v)
  {
    if ty.TBool? then [if v.b then 1 else 0]
    else if ty.TStr? then BigEndian(|v.s|, COUNT_BYTES) + v.s
    else BigEndian(ToUnsigned(v.n, Width(ty)), Width(ty))
  }

  ghost function Encode(ty: Ty, v: Value): Bytes
    requires HasType(ty, v)
    decreases ty
  {
    if ty.TVec? then BigEndian(|v.vs|, COUNT_BYTES) + EncodeSeq(ty.elem, v.vs, |v.vs|)
    else if ty.TMap? then BigEndian(|v.kvs|, COUNT_BYTES) + EncodePairs(ty.key, ty.val, v.kvs, |v.kvs|)
    else EncodeScalar(ty, v)
  }

  /** What the first `n` turns of the vector loop append. */
  ghost function EncodeSeq(ty: Ty, vs: seq<Value>, n: nat): Bytes
    requires AllHaveType(ty, vs) && n <= |vs|
    decreases TVec(ty), n
  {
    if n == 0 then [] else EncodeSeq(ty, vs, n - 1) + Encode(ty, vs[n - 1])
  }

  ghost function EncodePairs(key: Ty, val: Ty, kvs: seq<(Value, Value)>, n: nat): Bytes
    requires PairsHaveType(key, val, kvs) && n <= |kvs|
    decreases TMap(key, val), n
  {
    if n == 0 then [] else EncodePairs(key, val, kvs, n - 1) + EncodePair(key, val, kvs[n - 1])
  }

  ghost function EncodePair(key: Ty, val: Ty, kv: (Value, Value)): Bytes
    requires HasType(key, kv.0) && HasType(val, kv.1)
    decreases TMap(key, val), 0
  {
    Encode(key, kv.0) + Encode(val, kv.1)
  }

  // ----- decoding -----

  /** The unread part of the buffer and `_ok`, which is never set again once it is false. */
  datatype In = In(rest: Bytes, ok: bool)

  /** `unmarshall::okdone`: everything was read, and nothing was missing. */
  predicate OkDone(u: In) {
    u.ok && u.rest == []
  }

  /** `unmarshall::rawbyte` returns its `char` as an `unsigned int`, so high bytes are sign-extended. */
  function RawByte(u: In): (nat, In) {
    if u.rest == [] then (0, u.(ok := false))
    else
      var b := u.rest[0] as nat;
      (if b < 0x80 then b else 0xFFFF_FF00 + b, u.(rest := u.rest[1..]))
  }

  /** `rawbyte() & 0xff` */
  function Octet(u: In): (nat, In) {
    var (x, u') := RawByte(u);
    (x % 0x100, u')
  }

  /** `k` octets, shifted together most significant first. */
  function GetInt(k: nat, u: In): (nat, In) {
    if k == 0 then (0, u)
    else
      var (high, u1) := GetInt(k - 1, u);
      var (low, u2) := Octet(u1);
      (high * 256 + low, u2)
  }

  /** `operator>>(std::string)`: nothing is read when the length could not be. */
  function GetStr(u: In): (Bytes, In) {
    var (n, u1) := GetInt(COUNT_BYTES, u);
    if u1.ok then RawBytes(n, u1) else ([], u1)
  }

  /** `unmarshall::rawbytes` */
  function RawBytes(n: nat, u: In): (Bytes, In) {
    if n > |u.rest| then ([], u.(ok := false))
    else (u.rest[..n], u.(rest := u.rest[n..]))
  }

  /** `d[a] = b` on a `std::map`. */
  function Put(kvs: seq<(Value, Value)>, k: Value, v: Value): seq<(Value, Value)> {
    if kvs == [] then [(k, v)]
    else if kvs[0].0 == k then [(k, v)] + kvs[1..]
    else [kvs[0]] + Put(kvs[1..], k, v)
  }

  function DecodeScalar(ty: Ty, u: In): (Value, In)
    requires IsScalar(ty)
  {
    if ty.TBool? then var (x, u') := RawByte(u); (Bool(x != 0), u')
    else if ty.TStr? then var (s, u') := GetStr(u); (Str(s), u')
    else var (x, u') := GetInt(Width(ty), u); (Num(FromUnsigned(x, Width(ty), IsSigned(ty))), u')
  }

  function Decode(ty: Ty, u: In): (Value, In)
    decreases ty
  {
    if ty.TVec? then
      var (n, u1) := GetInt(COUNT_BYTES, u);
      var (vs, u2) := DecodeSeq(ty.elem, n, u1);
      (Vec(vs), u2)
    else if ty.TMap? then
      var (n, u1) := GetInt(COUNT_BYTES, u);
      var (kvs, u2) := DecodePairs(ty.key, ty.val, n, u1);
      (Map(kvs), u2)
    else DecodeScalar(ty, u)
  }

  /** The first `n` turns of the vector loop, which goes on even when reading has failed. */
  function DecodeSeq(ty: Ty, n: nat, u: In): (seq<Value>, In)
    decreases TVec(ty), n
  {
    if n == 0 then ([], u)
    else
      var (vs, u1) := DecodeSeq(ty, n - 1, u);
      var (v, u2) := Decode(ty, u1);
      (vs + [v], u2)
  }

  function DecodePairs(key: Ty, val: Ty, n: nat, u: In): (seq<(Value, Value)>, In)
    decreases TMap(key, val), n
  {
    if n == 0 then ([], u)
    else
      var (kvs, u1) := DecodePairs(key, val, n - 1, u);
      var (kv, u2) := DecodePair(key, val, u1);
      (Put(kvs, kv.0, kv.1), u2)
  }

  function DecodePair(key: Ty, val: Ty, u: In): ((Value, Value), In)
    decreases TMap(key, val), 0
  {
    var (k, u1) := Decode(key, u);
    var (v, u2) := Decode(val, u1);
    ((k, v), u2)
  }
}
