/** Fixed-width integers, byte strings and the little/big-endian and CompactSize
    encodings that the native codec, the sighash code and the storage layer share. */
module Bytes {
  import Arith

  datatype Option<+T> = None | Some(value: T)

  const U32_LIMIT: int := 0x1_0000_0000
  const I64_LIMIT: int := 0x8000_0000_0000_0000
  const U64_LIMIT: int := 0x1_0000_0000_0000_0000

  type u8 = x: int | 0 <= x < 0x100
  type u32 = x: int | 0 <= x < U32_LIMIT
  type i32 = x: int | -0x8000_0000 <= x < 0x8000_0000
  type u64 = x: int | 0 <= x < U64_LIMIT
  type i64 = x: int | -I64_LIMIT <= x < I64_LIMIT

  type Bytes = seq<u8>

  /** A byte vector whose length fits the machine word that measures it. */
  type Buf = b: Bytes | |b| < U64_LIMIT

  /** A 32-byte digest or transaction id. */
  type Digest = b: Bytes | |b| == 32 witness seq(32, _ => 0)

  // ---------- machine casts and saturating arithmetic ----------

  function AsI64(x: int): (r: i64)
    ensures (r - x) % U64_LIMIT == 0
  {
    var m := x % U64_LIMIT;
    if m < I64_LIMIT then m else m - U64_LIMIT
  }

  function SatSubI64(a: i64, b: i64): i64 {
    if a - b < -I64_LIMIT then -I64_LIMIT else if a - b >= I64_LIMIT then I64_LIMIT - 1 else a - b
  }

  function SatU64(x: nat): u64 {
    if x < U64_LIMIT then x else U64_LIMIT - 1
  }

  function SatU32(x: nat): u32 {
    if x < U32_LIMIT then x else U32_LIMIT - 1
  }

  // ---------- endian encodings ----------

  function Pow256(n: nat): (p: nat)
    ensures p > 0
  {
    if n == 0 then 1 else 256 * Pow256(n - 1)
  }

  lemma PowConstants()
    ensures Pow256(2) == 0x1_0000 && Pow256(4) == U32_LIMIT && Pow256(8) == U64_LIMIT
  {
    assert Pow256(2) == 256 * Pow256(1) == 0x1_0000;
    assert Pow256(4) == 256 * Pow256(3) == 0x1_0000 * 0x1_0000;
    assert Pow256(6) == 256 * Pow256(5) == 0x1_0000 * U32_LIMIT;
    assert Pow256(8) == 256 * Pow256(7) == U64_LIMIT;
  }

  function LE(n: nat, v: nat): (b: Bytes)
    ensures |b| == n
  {
    if n == 0 then [] else [v % 256] + LE(n - 1, v / 256)
  }

  function FromLE(b: Bytes): nat {
    if b == [] then 0 else b[0] + 256 * FromLE(b[1..])
  }

  lemma {:induction false} FromLEBound(b: Bytes)
    ensures FromLE(b) < Pow256(|b|)
  {
    if b != [] { FromLEBound(b[1..]); }
  }

  lemma {:induction false} LERoundTrip(n: nat, v: nat)
    requires v < Pow256(n)
    ensures FromLE(LE(n, v)) == v
  {
    if n > 0 {
      assert LE(n, v)[1..] == LE(n - 1, v / 256);
      LERoundTrip(n - 1, v / 256);
    }
  }

  /** The least significant byte comes first: byte `i` is digit `i` in base 256. */
  lemma {:induction false} LEAt(n: nat, v: nat, i: nat)
    requires i < n
    ensures LE(n, v)[i] == v / Pow256(i) % 256
  {
    if i > 0 {
      LEAt(n - 1, v / 256, i - 1);
      Arith.DivDiv(v, 256, Pow256(i - 1));
    }
  }

  /** Byte strings of one length are told apart by the numbers they spell. */
  lemma {:induction false} FromLEInjective(a: Bytes, b: Bytes)
    requires |a| == |b| && FromLE(a) == FromLE(b)
    ensures a == b
  {
    if a != [] {
      FromLEInjective(a[1..], b[1..]);
      assert a == [a[0]] + a[1..] && b == [b[0]] + b[1..];
    }
  }

  /** A signed 32-bit integer's two's-complement representative. */
  function ToU32(v: i32): u32 { if v < 0 then v + U32_LIMIT else v }
  function ToI32(v: u32): i32 { if v < 0x8000_0000 then v else v - U32_LIMIT }
  function ToU64(v: i64): u64 { if v < 0 then v + U64_LIMIT else v }
  function ToI64(v: u64): i64 { if v < I64_LIMIT then v else v - U64_LIMIT }

  function BE(b: Bytes): nat {
    if b == [] then 0 else 256 * BE(b[..|b| - 1]) + b[|b| - 1]
  }

  // ---------- concatenation of encodings ----------

  function Flat<T>(f: T -> Bytes, xs: seq<T>): Bytes {
    if xs == [] then [] else f(xs[0]) + Flat(f, xs[1..])
  }

  lemma {:induction false} FlatSnoc<T>(f: T -> Bytes, xs: seq<T>, x: T)
    ensures Flat(f, xs + [x]) == Flat(f, xs) + f(x)
  {
    if xs == [] {
      assert (xs + [x])[1..] == [];
    } else {
      assert (xs + [x])[1..] == xs[1..] + [x];
      FlatSnoc(f, xs[1..], x);
    }
  }

  /** The loop step of every serialiser: after item k the buffer holds one more encoding. */
  lemma FlatStep<T>(f: T -> Bytes, xs: seq<T>, k: nat)
    requires k < |xs|
    ensures Flat(f, xs[..k + 1]) == Flat(f, xs[..k]) + f(xs[k])
  {
    assert xs[..k + 1] == xs[..k] + [xs[k]];
    FlatSnoc(f, xs[..k], xs[k]);
  }

  // ---------- CompactSize ----------

  function EncodeVarint(v: u64): Bytes {
    if v < 0xfd then [v]
    else if v <= 0xffff then [0xfd] + LE(2, v)
    else if v <= 0xffff_ffff then [0xfe] + LE(4, v)
    else [0xff] + LE(8, v)
  }

  /** One byte, or a tag byte and the number in 2, 4 or 8 bytes: always the shortest form. */
  lemma VarintLayout(v: u64)
    ensures var b := EncodeVarint(v);
            if v < 0xfd then b == [v]
            else if v < 0x1_0000 then |b| == 3 && b[0] == 0xfd && b[1] == v % 256 && b[2] == v / 256
            else if v < U32_LIMIT then |b| == 5 && b[0] == 0xfe && FromLE(b[1..]) == v
            else |b| == 9 && b[0] == 0xff && FromLE(b[1..]) == v
  {
    PowConstants();
    if v >= 0xfd {
      var n := if v < 0x1_0000 then 2 else if v < U32_LIMIT then 4 else 8;
      LERoundTrip(n, v);
      assert EncodeVarint(v)[1..] == LE(n, v);
      if n == 2 { TwoBytes(v); }
    }
  }

  lemma TwoBytes(v: nat)
    requires v < 0x1_0000
    ensures LE(2, v) == [v % 256, v / 256]
  {
    assert LE(2, v) == [v % 256] + LE(1, v / 256);
    assert LE(1, v / 256) == [v / 256] + LE(0, 0);
  }

  /** Result of reading a value off the front of the remaining input. */
  datatype Parsed<+T> = Bad | Got(val: T, rest: Bytes) {
    predicate IsFailure() { Bad? }
    function PropagateFailure<U>(): Parsed<U> requires Bad? { Bad }
    function Extract(): (T, Bytes) requires Got? { (val, rest) }
  }

  function TakeBytes(n: nat, s: Bytes): Parsed<Bytes> {
    if n > |s| then Bad else Got(s[..n], s[n..])
  }

  function TakeLE(n: nat, s: Bytes): Parsed<nat> {
    if n > |s| then Bad else Got(FromLE(s[..n]), s[n..])
  }

  function TakeVarint(s: Bytes): (p: Parsed<u64>)
    ensures p.Got? ==> |p.rest| < |s|
  {
    if s == [] then Bad
    else if s[0] < 0xfd then Got(s[0], s[1..])
    else
      var n := if s[0] == 0xfd then 2 else if s[0] == 0xfe then 4 else 8;
      if n > |s| - 1 then Bad
      else
        FromLEBound(s[1..][..n]); PowConstants();
        Got(FromLE(s[1..][..n]), s[1..][n..])
  }

  lemma TakeBytesOf(b: Bytes, rest: Bytes)
    ensures TakeBytes(|b|, b + rest) == Got(b, rest)
  {
    assert (b + rest)[..|b|] == b && (b + rest)[|b|..] == rest;
  }

  lemma TakeLEOf(n: nat, v: nat, rest: Bytes)
    requires v < Pow256(n)
    ensures TakeLE(n, LE(n, v) + rest) == Got(v, rest)
  {
    LERoundTrip(n, v);
    assert (LE(n, v) + rest)[..n] == LE(n, v) && (LE(n, v) + rest)[n..] == rest;
  }

  lemma WideVarint(n: nat, v: nat, rest: Bytes)
    requires n == 2 || n == 4 || n == 8
    requires v < Pow256(n)
    ensures var tag: u8 := if n == 2 then 0xfd else if n == 4 then 0xfe else 0xff;
            TakeVarint([tag] + LE(n, v) + rest) == Got(v, rest)
  {
    var tag: u8 := if n == 2 then 0xfd else if n == 4 then 0xfe else 0xff;
    var s := [tag] + LE(n, v) + rest;
    assert s[1..] == LE(n, v) + rest;
    assert s[1..][..n] == LE(n, v) && s[1..][n..] == rest;
    LERoundTrip(n, v);
  }

  /** Decoding inverts encoding, whatever follows in the stream. */
  lemma VarintRoundTrip(v: u64, rest: Bytes)
    ensures TakeVarint(EncodeVarint(v) + rest) == Got(v, rest)
  {
    PowConstants();
    if v < 0xfd {
      assert (EncodeVarint(v) + rest)[1..] == rest;
    } else {
      WideVarint(if v <= 0xffff then 2 else if v <= 0xffff_ffff then 4 else 8, v, rest);
    }
  }

  /** Reads `n` consecutive items. */
  function TakeMany<T>(p: Bytes -> Parsed<T>, n: nat, s: Bytes): Parsed<seq<T>> {
    if n == 0 then Got([], s)
    else
      var (x, s1) :- p(s);
      var (xs, s2) :- TakeMany(p, n - 1, s1);
      Got([x] + xs, s2)
  }

  function Image<S, T>(f: S -> T, xs: seq<S>): (r: seq<T>)
    ensures |r| == |xs| && forall i :: 0 <= i < |xs| ==> r[i] == f(xs[i])
  {
    seq(|xs|, i requires 0 <= i < |xs| => f(xs[i]))
  }

  /** If `p` reads back one encoded item, it reads back a whole list of them. */
  lemma {:induction false} TakeManyOf<S, T>(enc: S -> Bytes, view: S -> T, p: Bytes -> Parsed<T>, xs: seq<S>, rest: Bytes)
    requires forall i, r: Bytes :: 0 <= i < |xs| ==> p(enc(xs[i]) + r) == Got(view(xs[i]), r)
    ensures TakeMany(p, |xs|, Flat(enc, xs) + rest) == Got(Image(view, xs), rest)
  {
    if xs != [] {
      var tail := xs[1..];
      forall i, r: Bytes | 0 <= i < |tail| ensures p(enc(tail[i]) + r) == Got(view(tail[i]), r) {
        assert tail[i] == xs[i + 1];
      }
      TakeManyOf(enc, view, p, tail, rest);
      assert Flat(enc, xs) + rest == enc(xs[0]) + (Flat(enc, tail) + rest);
      assert Image(view, xs) == [view(xs[0])] + Image(view, tail);
    }
  }

  /** Appending one more successfully read item: the loop step of every parser. */
  lemma {:induction false} TakeManySnoc<T>(p: Bytes -> Parsed<T>, n: nat, s: Bytes)
    ensures TakeMany(p, n + 1, s) ==
            var (xs, s1) :- TakeMany(p, n, s);
            var (x, s2) :- p(s1);
            Got(xs + [x], s2)
  {
    if p(s).Got? {
      var s1 := p(s).rest;
      if n == 0 {
        assert TakeMany(p, 0, s1) == Got([], s1);
        assert [p(s).val] + [] == [] + [p(s).val];
      } else {
        TakeManySnoc(p, n - 1, s1);
        var before := TakeMany(p, n - 1, s1);
        if before.Got? && p(before.rest).Got? {
          assert [p(s).val] + (before.val + [p(before.rest).val]) == ([p(s).val] + before.val) + [p(before.rest).val];
        }
      }
    }
  }

  /** A prefix that cannot be read makes the longer read fail as well. */
  lemma {:induction false} TakeManyBad<T>(p: Bytes -> Parsed<T>, k: nat, n: nat, s: Bytes)
    requires k <= n && TakeMany(p, k, s).Bad?
    ensures TakeMany(p, n, s).Bad?
  {
    if p(s).Got? { TakeManyBad(p, k - 1, n - 1, p(s).rest); }
  }
}
