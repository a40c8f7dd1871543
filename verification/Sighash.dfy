/** Transaction sizes (BIP141) and the BIP143 signature hash, built once from parts
    with a cache and once from serialised bytes. */
module Sighash {
  import opened Bytes
  import opened TxCodec

  import Arith

  type Hash = Bytes -> Digest

  // ---------- sizes ----------

  function BaseSize(tx: Tx): nat { |Serialize(tx, false)| }
  function TotalSize(tx: Tx): nat { |Serialize(tx, true)| }

  function WeightOf(base: nat, total: nat): u64 { SatU64(SatU64(3 * base) + total) }

  function Weight(tx: Tx): u64 { WeightOf(BaseSize(tx), TotalSize(tx)) }

  /** Rounded up to whole virtual bytes, in wrapping 64-bit arithmetic. */
  function VsizeOf(weight: u64): u64 { ((weight + 3) % U64_LIMIT) / 4 }

  function Vsize(tx: Tx): u64 { VsizeOf(Weight(tx)) }

  /** The block validator measures a transaction with a serialiser of its own. */
  method TxPartsSize(tx: Tx, includeWitness: bool) returns (n: nat)
    ensures n == |Serialize(tx, includeWitness)|
  {
    var buf := LE(4, ToU32(tx.version));
    var anyWitness := AnyWitness(tx.ins);
    var hasWit := includeWitness && anyWitness;
    ghost var version := buf;
    if hasWit { buf := buf + [0x00, 0x01]; }
    assert buf == version + Marker(hasWit);
    buf := AppendPartsBody(buf, tx);
    ghost var body := buf;
    if hasWit { buf := AppendPartsWitness(buf, tx.ins); }
    assert buf == body + Witnesses(tx, hasWit);
    buf := buf + LE(4, tx.locktime);
    n := |buf|;
  }

  lemma Pushed3(buf: Bytes, a: Bytes, b: Bytes, c: Bytes)
    ensures buf + a + b + c == buf + (a + b + c)
  {
    Append3(buf, a, b);
    Append3(buf, a + b, c);
  }

  lemma Pushed5(buf: Bytes, a: Bytes, b: Bytes, c: Bytes, d: Bytes, e: Bytes)
    ensures buf + a + b + c + d + e == buf + (a + b + c + d + e)
  {
    Pushed3(buf, a, b, c);
    Pushed3(buf, a + b + c, d, e);
  }

  method AppendPartsBody(start: Bytes, tx: Tx) returns (buf: Bytes)
    ensures buf == start + EncodeVarint(|tx.ins|) + Flat(EncIn, tx.ins) + EncodeVarint(|tx.outs|) + Flat(EncOut, tx.outs)
  {
    buf := start + EncodeVarint(|tx.ins|);
    ghost var before := buf;
    for k := 0 to |tx.ins|
      invariant buf == before + Flat(EncIn, tx.ins[..k])
    {
      buf := AppendPartsInput(buf, tx.ins[k]);
      FlatStep(EncIn, tx.ins, k);
      Append3(before, Flat(EncIn, tx.ins[..k]), EncIn(tx.ins[k]));
    }
    assert tx.ins[..|tx.ins|] == tx.ins;
    buf := buf + EncodeVarint(|tx.outs|);
    before := buf;
    for k := 0 to |tx.outs|
      invariant buf == before + Flat(EncOut, tx.outs[..k])
    {
      buf := AppendPartsOutput(buf, tx.outs[k]);
      FlatStep(EncOut, tx.outs, k);
      Append3(before, Flat(EncOut, tx.outs[..k]), EncOut(tx.outs[k]));
    }
    assert tx.outs[..|tx.outs|] == tx.outs;
  }

  method AppendPartsInput(start: Bytes, inp: TxIn) returns (buf: Bytes)
    ensures buf == start + EncIn(inp)
  {
    var prevLe := ReverseTxid(inp.prevTxid);
    buf := start + prevLe;
    buf := buf + LE(4, inp.vout);
    buf := buf + EncodeVarint(|inp.scriptSig|);
    buf := buf + inp.scriptSig;
    buf := buf + LE(4, inp.sequence);
    Pushed5(start, prevLe, LE(4, inp.vout), EncodeVarint(|inp.scriptSig|), inp.scriptSig, LE(4, inp.sequence));
  }

  method AppendPartsOutput(start: Bytes, outp: TxOut) returns (buf: Bytes)
    ensures buf == start + EncOut(outp)
  {
    buf := start + LE(8, outp.amount);
    buf := buf + EncodeVarint(|outp.script|);
    buf := buf + outp.script;
    Pushed3(start, LE(8, outp.amount), EncodeVarint(|outp.script|), outp.script);
  }

  method AppendPartsWitness(start: Bytes, ins: Ins) returns (buf: Bytes)
    ensures buf == start + Flat(EncStack, ins)
  {
    buf := start;
    for k := 0 to |ins|
      invariant buf == start + Flat(EncStack, ins[..k])
    {
      buf := AppendPartsStack(buf, ins[k]);
      FlatStep(EncStack, ins, k);
      Append3(start, Flat(EncStack, ins[..k]), EncStack(ins[k]));
    }
    assert ins[..|ins|] == ins;
  }

  method AppendPartsStack(start: Bytes, inp: TxIn) returns (buf: Bytes)
    ensures buf == start + EncStack(inp)
  {
    buf := start + EncodeVarint(|inp.wit|);
    ghost var before := buf;
    for j := 0 to |inp.wit|
      invariant buf == before + Flat(EncItem, inp.wit[..j])
    {
      ghost var done := buf;
      buf := buf + EncodeVarint(|inp.wit[j]|);
      buf := buf + inp.wit[j];
      Append3(done, EncodeVarint(|inp.wit[j]|), inp.wit[j]);
      FlatStep(EncItem, inp.wit, j);
      Append3(before, Flat(EncItem, inp.wit[..j]), EncItem(inp.wit[j]));
    }
    assert inp.wit[..|inp.wit|] == inp.wit;
    Append3(start, EncodeVarint(|inp.wit|), Flat(EncItem, inp.wit));
  }

  method TxPartsWeightVsize(tx: Tx) returns (weight: u64, vsize: u64)
    ensures weight == Weight(tx) && vsize == Vsize(tx)
  {
    var base := TxPartsSize(tx, false);
    var total := TxPartsSize(tx, true);
    weight := WeightOf(base, total);
    vsize := VsizeOf(weight);
  }

  /** Witness bytes cost a quarter of base bytes, so the virtual size lies between the
      base and the total size, and meets them exactly when there is no witness. */
  lemma VsizeBetweenBaseAndTotal(tx: Tx)
    requires 4 * TotalSize(tx) + 3 < U64_LIMIT
    ensures BaseSize(tx) <= Vsize(tx) <= TotalSize(tx)
    ensures BaseSize(tx) == TotalSize(tx) <==> !HasWitness(tx.ins)
    ensures Weight(tx) == 4 * BaseSize(tx) + (TotalSize(tx) - BaseSize(tx))
  {
    var base, total := Measures(tx);
    VsizeArithmetic(base, total);
  }

  lemma Measures(tx: Tx) returns (base: nat, total: nat)
    ensures base == BaseSize(tx) == |Serialize(tx, false)| <= total == TotalSize(tx) == |Serialize(tx, true)|
    ensures base == total <==> !HasWitness(tx.ins)
    ensures Weight(tx) == WeightOf(base, total) && Vsize(tx) == VsizeOf(Weight(tx))
  {
    base, total := BaseSize(tx), TotalSize(tx);
    SizesDiffer(tx);
  }

  /** Three times the stripped size and once the full size, and a quarter of that rounded up. */
  lemma WeightIs(tx: Tx)
    requires 4 * |Serialize(tx, true)| + 3 < U64_LIMIT
    ensures Weight(tx) == 3 * |Serialize(tx, false)| + |Serialize(tx, true)| <= 4 * Vsize(tx) < Weight(tx) + 4
  {
    var base, total := Measures(tx);
    VsizeArithmetic(base, total);
  }

  lemma VsizeArithmetic(base: nat, total: nat)
    requires base <= total && 4 * total + 3 < U64_LIMIT
    ensures WeightOf(base, total) == 3 * base + total
    ensures base <= VsizeOf(3 * base + total) <= total
    ensures 3 * base + total <= 4 * VsizeOf(3 * base + total) < 3 * base + total + 4
  {
    assert (3 * base + total + 3) % U64_LIMIT == 3 * base + total + 3;
  }

  lemma SizesDiffer(tx: Tx)
    ensures var w := HasWitness(tx.ins); TotalSize(tx) == BaseSize(tx) + |Marker(w)| + |Witnesses(tx, w)|
  {
    var w := HasWitness(tx.ins);
    SerializeSplit(tx, false);
    SerializeSplit(tx, true);
    BodySize(tx, w);
    assert Marker(false) == [];
  }

  lemma BodySize(tx: Tx, w: bool)
    ensures |BodyBytes(tx, w)| == |BodyBytes(tx, false)| + |Witnesses(tx, w)|
  {
    var c, d, e, f := |EncodeVarint(|tx.ins|)|, |Flat(EncIn, tx.ins)|, |EncodeVarint(|tx.outs|)|, |Flat(EncOut, tx.outs)|;
    assert |BodyBytes(tx, w)| == c + (d + (e + (f + (|Witnesses(tx, w)| + 4))));
    assert |BodyBytes(tx, false)| == c + (d + (e + (f + 4)));
  }

  // ---------- BIP143, "Specification" ----------

  function PrevoutBytes(i: TxIn): (b: Bytes)
    ensures |b| == 36
  {
    Rev(i.prevTxid) + LE(4, i.vout)
  }

  function SequenceBytes(i: TxIn): (b: Bytes)
    ensures |b| == 4
  {
    LE(4, i.sequence)
  }

  datatype Cache = Cache(hashPrevouts: Digest, hashSequence: Digest, hashOutputs: Digest)

  function CacheOf(tx: Tx, sha256d: Hash): Cache {
    Cache(sha256d(Flat(PrevoutBytes, tx.ins)), sha256d(Flat(SequenceBytes, tx.ins)), sha256d(Flat(EncOut, tx.outs)))
  }

  /** The ten fields of the signed message, in the order the standard lists them. */
  function Preimage(version: i32, cache: Cache, prevout: Bytes, code: Buf, value: u64, sequence: u32,
                    locktime: u32, hashType: u32): Bytes {
    LE(4, ToU32(version)) + cache.hashPrevouts + cache.hashSequence + prevout +
    EncodeVarint(|code|) + code + LE(8, value) + LE(4, sequence) +
    cache.hashOutputs + LE(4, locktime) + LE(4, hashType)
  }

  function TxPreimage(tx: Tx, cache: Cache, n: nat, code: Buf, value: u64, hashType: u32): Bytes
    requires n < |tx.ins|
  {
    Preimage(tx.version, cache, PrevoutBytes(tx.ins[n]), code, value, tx.ins[n].sequence, tx.locktime, hashType)
  }

  method BuildSighashCache(tx: Tx, sha256d: Hash) returns (cache: Cache)
    ensures cache == CacheOf(tx, sha256d)
  {
    var prevouts: Bytes, sequences: Bytes := [], [];
    for k := 0 to |tx.ins|
      invariant prevouts == Flat(PrevoutBytes, tx.ins[..k])
      invariant sequences == Flat(SequenceBytes, tx.ins[..k])
    {
      var prevLe := ReverseTxid(tx.ins[k].prevTxid);
      var item := prevLe + LE(4, tx.ins[k].vout);
      prevouts := prevouts + item;
      sequences := sequences + LE(4, tx.ins[k].sequence);
      FlatStep(PrevoutBytes, tx.ins, k);
      FlatStep(SequenceBytes, tx.ins, k);
    }
    assert tx.ins[..|tx.ins|] == tx.ins;
    var outputs: Bytes := [];
    for k := 0 to |tx.outs|
      invariant outputs == Flat(EncOut, tx.outs[..k])
    {
      outputs := AppendPartsOutput(outputs, tx.outs[k]);
      FlatStep(EncOut, tx.outs, k);
    }
    assert tx.outs[..|tx.outs|] == tx.outs;
    cache := Cache(sha256d(prevouts), sha256d(sequences), sha256d(outputs));
  }

  method Bip143SighashFromParts(tx: Tx, cache: Cache, n: nat, code: Buf, value: u64, hashType: u32, sha256d: Hash)
    returns (r: Option<Digest>)
    ensures r == if n < |tx.ins| then Some(sha256d(TxPreimage(tx, cache, n, code, value, hashType))) else None
  {
    if n >= |tx.ins| { return None; }
    var pre := LE(4, ToU32(tx.version));
    pre := pre + cache.hashPrevouts;
    pre := pre + cache.hashSequence;
    var inp := tx.ins[n];
    var prevLe := ReverseTxid(inp.prevTxid);
    var prevout := prevLe + LE(4, inp.vout);
    pre := pre + prevout;
    pre := pre + EncodeVarint(|code|);
    pre := pre + code;
    pre := pre + LE(8, value);
    pre := pre + LE(4, inp.sequence);
    pre := pre + cache.hashOutputs;
    pre := pre + LE(4, tx.locktime);
    pre := pre + LE(4, hashType);
    return Some(sha256d(pre));
  }

  // ---------- the same hash from serialised bytes ----------

  /** SIGHASH_ALL without ANYONECANPAY. */
  predicate SupportedHashType(t: u32) { t % 32 == 1 && (t / 128) % 2 == 0 }

  /** The lowest byte is 1, 33, 65 or 97: all outputs, and nothing of the bit for a single payer. */
  lemma SupportedExactlyWhen(t: u32)
    ensures SupportedHashType(t) <==> t % 256 == 0x01 || t % 256 == 0x21 || t % 256 == 0x41 || t % 256 == 0x61
  {
    LowByte(t, t / 256, t % 256);
    FourBytes(t % 256);
  }

  lemma LowByte(t: nat, high: nat, low: nat)
    requires t == 256 * high + low && low < 256
    ensures t % 32 == low % 32 && (t / 128) % 2 == low / 128
  {
    Arith.Remainder(t, 32, 8 * high + low / 32, low % 32);
    Arith.Remainder(t, 128, 2 * high + low / 128, low % 128);
    Arith.Remainder(2 * high + low / 128, 2, high, low / 128);
  }

  lemma FourBytes(low: nat)
    requires low < 256
    ensures low % 32 == 1 && low / 128 == 0 <==> low == 0x01 || low == 0x21 || low == 0x41 || low == 0x61
  {
  }

  function ViewPrevoutBytes(v: InView): Bytes { v.prevLe + LE(4, v.vout) }
  function ViewSequenceBytes(v: InView): Bytes { LE(4, v.sequence) }
  function Same(b: Bytes): Bytes { b }

  function ViewCache(v: TxView, sha256d: Hash): Cache {
    Cache(sha256d(Flat(ViewPrevoutBytes, v.inputs)), sha256d(Flat(ViewSequenceBytes, v.inputs)), sha256d(Flat(Same, v.outputsSer)))
  }

  function SighashOfBytes(data: Bytes, n: u32, code: Buf, value: u64, hashType: u32, sha256d: Hash): Option<Digest> {
    if !SupportedHashType(hashType) then None
    else match TakeTx(data)
      case Bad => None
      case Got(v, _) =>
        if n >= |v.inputs| then None
        else Some(sha256d(Preimage(v.version, ViewCache(v, sha256d), ViewPrevoutBytes(v.inputs[n]), code, value,
                                   v.inputs[n].sequence, v.locktime, hashType)))
  }

  method ComputeSighash(data: Bytes, n: u32, code: Buf, value: u64, hashType: u32, sha256d: Hash) returns (r: Option<Digest>)
    ensures r == SighashOfBytes(data, n, code, value, hashType, sha256d)
  {
    if hashType % 32 != 1 || (hashType / 128) % 2 != 0 { return None; }
    var parsed := ParseTxView(data);
    if parsed.None? { return None; }
    var tx := parsed.value;
    if n >= |tx.inputs| { return None; }
    var cache := HashView(tx, sha256d);
    var pre := LE(4, ToU32(tx.version));
    pre := pre + cache.hashPrevouts;
    pre := pre + cache.hashSequence;
    var inp := tx.inputs[n];
    var prevout := inp.prevLe + LE(4, inp.vout);
    pre := pre + prevout;
    pre := pre + EncodeVarint(|code|);
    pre := pre + code;
    pre := pre + LE(8, value);
    pre := pre + LE(4, inp.sequence);
    pre := pre + cache.hashOutputs;
    pre := pre + LE(4, tx.locktime);
    pre := pre + LE(4, hashType);
    return Some(sha256d(pre));
  }

  method HashView(v: TxView, sha256d: Hash) returns (cache: Cache)
    ensures cache == ViewCache(v, sha256d)
  {
    var prevouts: Bytes, sequences: Bytes, outputs: Bytes := [], [], [];
    for k := 0 to |v.inputs|
      invariant prevouts == Flat(ViewPrevoutBytes, v.inputs[..k])
      invariant sequences == Flat(ViewSequenceBytes, v.inputs[..k])
    {
      var item := v.inputs[k].prevLe + LE(4, v.inputs[k].vout);
      prevouts := prevouts + item;
      sequences := sequences + LE(4, v.inputs[k].sequence);
      FlatStep(ViewPrevoutBytes, v.inputs, k);
      FlatStep(ViewSequenceBytes, v.inputs, k);
    }
    assert v.inputs[..|v.inputs|] == v.inputs;
    for k := 0 to |v.outputsSer|
      invariant outputs == Flat(Same, v.outputsSer[..k])
    {
      outputs := outputs + v.outputsSer[k];
      FlatStep(Same, v.outputsSer, k);
    }
    assert v.outputsSer[..|v.outputsSer|] == v.outputsSer;
    cache := Cache(sha256d(prevouts), sha256d(sequences), sha256d(outputs));
  }

  lemma {:induction false} FlatImage<S, T>(f: T -> Bytes, g: S -> T, h: S -> Bytes, xs: seq<S>)
    requires forall i :: 0 <= i < |xs| ==> f(g(xs[i])) == h(xs[i])
    ensures Flat(f, Image(g, xs)) == Flat(h, xs)
  {
    if xs != [] {
      assert Image(g, xs)[1..] == Image(g, xs[1..]);
      FlatImage(f, g, h, xs[1..]);
    }
  }

  lemma ViewCacheAgrees(tx: Tx, sha256d: Hash)
    ensures ViewCache(ViewOf(tx), sha256d) == CacheOf(tx, sha256d)
  {
    FlatImage(ViewPrevoutBytes, ViewIn, PrevoutBytes, tx.ins);
    FlatImage(ViewSequenceBytes, ViewIn, SequenceBytes, tx.ins);
    FlatImage(Same, EncOut, EncOut, tx.outs);
  }

  /** For every transaction with an input, serialised with or without witness data, the
      hash computed from the bytes is the hash computed from the parts. */
  lemma SighashFromBytesIsFromParts(tx: Tx, includeWitness: bool, n: u32, code: Buf, value: u64, hashType: u32, sha256d: Hash)
    requires SupportedHashType(hashType)
    requires n < |tx.ins|
    ensures SighashOfBytes(Serialize(tx, includeWitness), n, code, value, hashType, sha256d)
         == Some(sha256d(TxPreimage(tx, CacheOf(tx, sha256d), n, code, value, hashType)))
  {
    ParseRecoversExactlyWhen(tx, includeWitness);
    ViewCacheAgrees(tx, sha256d);
  }

  // ---------- what a signature commits to ----------

  /** The two strings are not a collision of `h`. */
  predicate NoCollision(h: Hash, a: Bytes, b: Bytes) { h(a) == h(b) ==> a == b }

  /** None of the four pairs of strings hashed for the two transactions collides. */
  predicate NoSighashCollision(h: Hash, x: Tx, xPre: Bytes, y: Tx, yPre: Bytes) {
    && NoCollision(h, xPre, yPre)
    && NoCollision(h, Flat(PrevoutBytes, x.ins), Flat(PrevoutBytes, y.ins))
    && NoCollision(h, Flat(SequenceBytes, x.ins), Flat(SequenceBytes, y.ins))
    && NoCollision(h, Flat(EncOut, x.outs), Flat(EncOut, y.outs))
  }

  lemma AppendCancel(a: Bytes, b: Bytes, c: Bytes, d: Bytes)
    requires a + b == c + d
    requires |a| == |c| || |b| == |d|
    ensures a == c && b == d
  {
    assert |a| == |c|;
    assert (a + b)[..|a|] == a && (c + d)[..|a|] == c;
    assert (a + b)[|a|..] == b && (c + d)[|a|..] == d;
  }

  lemma LEInjective(n: nat, v: nat, w: nat)
    requires v < Pow256(n) && w < Pow256(n) && LE(n, v) == LE(n, w)
    ensures v == w
  {
    LERoundTrip(n, v);
    LERoundTrip(n, w);
  }

  /** Equal messages have equal fields: nothing the standard lists can be exchanged for
      something else without changing the bytes that are hashed. */
  lemma PreimageInjective(v1: i32, c1: Cache, p1: Bytes, s1: Buf, a1: u64, q1: u32, l1: u32, t1: u32,
                          v2: i32, c2: Cache, p2: Bytes, s2: Buf, a2: u64, q2: u32, l2: u32, t2: u32)
    requires |p1| == |p2|
    requires Preimage(v1, c1, p1, s1, a1, q1, l1, t1) == Preimage(v2, c2, p2, s2, a2, q2, l2, t2)
    ensures v1 == v2 && c1 == c2 && p1 == p2 && s1 == s2 && a1 == a2 && q1 == q2 && l1 == l2 && t1 == t2
  {
    PowConstants();
    var k1, k2 := EncodeVarint(|s1|) + s1, EncodeVarint(|s2|) + s2;
    var h1 := LE(4, ToU32(v1)) + c1.hashPrevouts + c1.hashSequence + p1;
    var h2 := LE(4, ToU32(v2)) + c2.hashPrevouts + c2.hashSequence + p2;
    var m1, m2 := h1 + EncodeVarint(|s1|) + s1 + LE(8, a1) + LE(4, q1), h2 + EncodeVarint(|s2|) + s2 + LE(8, a2) + LE(4, q2);
    AppendCancel(m1 + c1.hashOutputs + LE(4, l1), LE(4, t1), m2 + c2.hashOutputs + LE(4, l2), LE(4, t2));
    AppendCancel(m1 + c1.hashOutputs, LE(4, l1), m2 + c2.hashOutputs, LE(4, l2));
    AppendCancel(m1, c1.hashOutputs, m2, c2.hashOutputs);
    CodeAndAmountInjective(h1, s1, a1, q1, h2, s2, a2, q2);
    AppendCancel(LE(4, ToU32(v1)) + c1.hashPrevouts + c1.hashSequence, p1, LE(4, ToU32(v2)) + c2.hashPrevouts + c2.hashSequence, p2);
    AppendCancel(LE(4, ToU32(v1)) + c1.hashPrevouts, c1.hashSequence, LE(4, ToU32(v2)) + c2.hashPrevouts, c2.hashSequence);
    AppendCancel(LE(4, ToU32(v1)), c1.hashPrevouts, LE(4, ToU32(v2)), c2.hashPrevouts);
    LEInjective(4, ToU32(v1), ToU32(v2));
    LEInjective(4, l1, l2);
    LEInjective(4, t1, t2);
  }

  lemma CodeAndAmountInjective(h1: Bytes, s1: Buf, a1: u64, q1: u32, h2: Bytes, s2: Buf, a2: u64, q2: u32)
    requires |h1| == |h2|
    requires h1 + EncodeVarint(|s1|) + s1 + LE(8, a1) + LE(4, q1) == h2 + EncodeVarint(|s2|) + s2 + LE(8, a2) + LE(4, q2)
    ensures h1 == h2 && s1 == s2 && a1 == a2 && q1 == q2
  {
    PowConstants();
    AppendCancel(h1 + EncodeVarint(|s1|) + s1 + LE(8, a1), LE(4, q1), h2 + EncodeVarint(|s2|) + s2 + LE(8, a2), LE(4, q2));
    AppendCancel(h1 + EncodeVarint(|s1|) + s1, LE(8, a1), h2 + EncodeVarint(|s2|) + s2, LE(8, a2));
    Append3(h1, EncodeVarint(|s1|), s1);
    Append3(h2, EncodeVarint(|s2|), s2);
    AppendCancel(h1, EncodeVarint(|s1|) + s1, h2, EncodeVarint(|s2|) + s2);
    VarintRoundTrip(|s1|, s1);
    VarintRoundTrip(|s2|, s2);
    LEInjective(8, a1, a2);
    LEInjective(4, q1, q2);
  }

  /** Encodings that a reader can take off the front determine the list they encode. */
  lemma {:induction false} FlatInjective<S, T>(enc: S -> Bytes, view: S -> T, p: Bytes -> Parsed<T>, xs: seq<S>, ys: seq<S>)
    requires forall i, r: Bytes :: 0 <= i < |xs| ==> p(enc(xs[i]) + r) == Got(view(xs[i]), r)
    requires forall i, r: Bytes :: 0 <= i < |ys| ==> p(enc(ys[i]) + r) == Got(view(ys[i]), r)
    requires p([]).Bad?
    requires Flat(enc, xs) == Flat(enc, ys)
    ensures Image(view, xs) == Image(view, ys)
  {
    FlatNonEmpty(enc, view, p, xs);
    FlatNonEmpty(enc, view, p, ys);
    if xs != [] {
      assert p(enc(xs[0]) + Flat(enc, xs[1..])) == p(enc(ys[0]) + Flat(enc, ys[1..]));
      var xt, yt := xs[1..], ys[1..];
      forall i, r: Bytes | 0 <= i < |xt| ensures p(enc(xt[i]) + r) == Got(view(xt[i]), r) { assert xt[i] == xs[i + 1]; }
      forall i, r: Bytes | 0 <= i < |yt| ensures p(enc(yt[i]) + r) == Got(view(yt[i]), r) { assert yt[i] == ys[i + 1]; }
      FlatInjective(enc, view, p, xt, yt);
      assert Image(view, xs) == [view(xs[0])] + Image(view, xt);
      assert Image(view, ys) == [view(ys[0])] + Image(view, yt);
    }
  }

  lemma FlatNonEmpty<S, T>(enc: S -> Bytes, view: S -> T, p: Bytes -> Parsed<T>, xs: seq<S>)
    requires forall i, r: Bytes :: 0 <= i < |xs| ==> p(enc(xs[i]) + r) == Got(view(xs[i]), r)
    requires p([]).Bad?
    ensures Flat(enc, xs) == [] <==> xs == []
  {
    if xs != [] {
      assert p(enc(xs[0]) + Flat(enc, xs[1..])).Got?;
    }
  }

  /** Items that all take `width` bytes are recovered by position. */
  lemma {:induction false} FixedWidthInjective<T>(enc: T -> Bytes, width: nat, xs: seq<T>, ys: seq<T>)
    requires width > 0
    requires forall x :: x in xs ==> |enc(x)| == width
    requires forall y :: y in ys ==> |enc(y)| == width
    requires Flat(enc, xs) == Flat(enc, ys)
    ensures |xs| == |ys| && forall i :: 0 <= i < |xs| ==> enc(xs[i]) == enc(ys[i])
  {
    if xs != [] && ys != [] {
      AppendCancel(enc(xs[0]), Flat(enc, xs[1..]), enc(ys[0]), Flat(enc, ys[1..]));
      FixedWidthInjective(enc, width, xs[1..], ys[1..]);
      forall i | 0 <= i < |xs| ensures enc(xs[i]) == enc(ys[i]) {
        if i > 0 { assert xs[i] == xs[1..][i - 1] && ys[i] == ys[1..][i - 1]; }
      }
    }
  }

  lemma PrevoutsInjective(xs: seq<TxIn>, ys: seq<TxIn>)
    requires Flat(PrevoutBytes, xs) == Flat(PrevoutBytes, ys)
    ensures |xs| == |ys| && forall i :: 0 <= i < |xs| ==> xs[i].prevTxid == ys[i].prevTxid && xs[i].vout == ys[i].vout
  {
    FixedWidthInjective(PrevoutBytes, 36, xs, ys);
    forall i | 0 <= i < |xs| ensures xs[i].prevTxid == ys[i].prevTxid && xs[i].vout == ys[i].vout {
      PrevoutInjective(xs[i], ys[i]);
    }
  }

  lemma PrevoutInjective(x: TxIn, y: TxIn)
    requires PrevoutBytes(x) == PrevoutBytes(y)
    ensures x.prevTxid == y.prevTxid && x.vout == y.vout
  {
    PowConstants();
    AppendCancel(Rev(x.prevTxid), LE(4, x.vout), Rev(y.prevTxid), LE(4, y.vout));
    LEInjective(4, x.vout, y.vout);
    RevInjective(x.prevTxid, y.prevTxid);
  }

  lemma RevInjective(a: Digest, b: Digest)
    requires Rev(a) == Rev(b)
    ensures a == b
  {
    forall i | 0 <= i < 32 ensures a[i] == b[i] {
      assert Rev(a)[31 - i] == Rev(b)[31 - i];
    }
  }

  lemma SequencesInjective(xs: seq<TxIn>, ys: seq<TxIn>)
    requires Flat(SequenceBytes, xs) == Flat(SequenceBytes, ys)
    ensures |xs| == |ys| && forall i :: 0 <= i < |xs| ==> xs[i].sequence == ys[i].sequence
  {
    FixedWidthInjective(SequenceBytes, 4, xs, ys);
    forall i | 0 <= i < |xs| ensures xs[i].sequence == ys[i].sequence {
      SequenceInjective(xs[i].sequence, ys[i].sequence);
    }
  }

  lemma SequenceInjective(a: u32, b: u32)
    requires LE(4, a) == LE(4, b)
    ensures a == b
  {
    PowConstants();
    LEInjective(4, a, b);
  }

  lemma OutsInjective(xs: Outs, ys: Outs)
    requires Flat(EncOut, xs) == Flat(EncOut, ys)
    ensures xs == ys
  {
    forall x: TxOut, r: Bytes ensures TakeOut(EncOut(x) + r) == Got(EncOut(x), r) {
      TakeOutOf(x, r);
    }
    FlatInjective(EncOut, EncOut, TakeOut, xs, ys);
    assert |xs| == |Image(EncOut, xs)| == |Image(EncOut, ys)| == |ys|;
    forall i | 0 <= i < |xs| ensures xs[i] == ys[i] {
      assert Image(EncOut, xs)[i] == Image(EncOut, ys)[i];
      EncOutInjective(xs[i], ys[i]);
    }
  }

  lemma EncOutInjective(x: TxOut, y: TxOut)
    requires EncOut(x) == EncOut(y)
    ensures x == y
  {
    PowConstants();
    var kx, ky := EncodeVarint(|x.script|), EncodeVarint(|y.script|);
    Append3(LE(8, x.amount), kx, x.script);
    Append3(LE(8, y.amount), ky, y.script);
    AppendCancel(LE(8, x.amount), kx + x.script, LE(8, y.amount), ky + y.script);
    LEInjective(8, x.amount, y.amount);
    VarintRoundTrip(|x.script|, x.script);
    VarintRoundTrip(|y.script|, y.script);
  }

  /** Unless the hash collides on them, two signature hashes agree only if everything
      BIP143 says is signed agrees: version, every outpoint, every sequence, every output, the
      locktime, the hash type, and for the signed input its outpoint, script code and
      amount. */
  lemma SighashCommits(x: Tx, n: nat, xCode: Buf, xValue: u64, xType: u32,
                      y: Tx, m: nat, yCode: Buf, yValue: u64, yType: u32, sha256d: Hash)
    requires n < |x.ins| && m < |y.ins|
    requires NoSighashCollision(sha256d, x, TxPreimage(x, CacheOf(x, sha256d), n, xCode, xValue, xType),
                                y, TxPreimage(y, CacheOf(y, sha256d), m, yCode, yValue, yType))
    requires sha256d(TxPreimage(x, CacheOf(x, sha256d), n, xCode, xValue, xType))
          == sha256d(TxPreimage(y, CacheOf(y, sha256d), m, yCode, yValue, yType))
    ensures x.version == y.version && x.locktime == y.locktime && x.outs == y.outs
    ensures |x.ins| == |y.ins| && forall i :: 0 <= i < |x.ins| ==>
              x.ins[i].prevTxid == y.ins[i].prevTxid && x.ins[i].vout == y.ins[i].vout && x.ins[i].sequence == y.ins[i].sequence
    ensures xCode == yCode && xValue == yValue && xType == yType && PrevoutBytes(x.ins[n]) == PrevoutBytes(y.ins[m])
  {
    PreimageInjective(x.version, CacheOf(x, sha256d), PrevoutBytes(x.ins[n]), xCode, xValue, x.ins[n].sequence, x.locktime, xType,
                      y.version, CacheOf(y, sha256d), PrevoutBytes(y.ins[m]), yCode, yValue, y.ins[m].sequence, y.locktime, yType);
    PrevoutsInjective(x.ins, y.ins);
    SequencesInjective(x.ins, y.ins);
    OutsInjective(x.outs, y.outs);
  }
}
