/** The compact transaction serialiser, its size functions and the native parser
    (BIP144 "Serialization", BIP141 "Transaction size calculations"). */
module TxCodec {
  import opened Bytes

  type Stack = w: seq<Buf> | |w| < U64_LIMIT
  datatype TxIn = TxIn(prevTxid: Digest, vout: u32, sequence: u32, scriptSig: Buf, wit: Stack)
  datatype TxOut = TxOut(amount: u64, script: Buf)

  type Ins = s: seq<TxIn> | |s| < U64_LIMIT
  /** An output is addressed by a 32-bit index. */
  type Outs = s: seq<TxOut> | |s| <= U32_LIMIT

  datatype Tx = Tx(version: i32, locktime: u32, ins: Ins, outs: Outs, txid: Digest, isCoinbase: bool)

  // ---------- the wire format ----------

  function Rev(d: Digest): (r: Digest)
    ensures forall i :: 0 <= i < 32 ==> r[i] == d[31 - i]
  {
    seq(32, i requires 0 <= i < 32 => d[31 - i])
  }

  function EncIn(i: TxIn): Bytes {
    Rev(i.prevTxid) + LE(4, i.vout) + EncodeVarint(|i.scriptSig|) + i.scriptSig + LE(4, i.sequence)
  }

  function EncOut(o: TxOut): Bytes {
    LE(8, o.amount) + EncodeVarint(|o.script|) + o.script
  }

  function EncItem(w: Buf): Bytes { EncodeVarint(|w|) + w }

  function EncStack(i: TxIn): Bytes { EncodeVarint(|i.wit|) + Flat(EncItem, i.wit) }

  predicate HasWitness(ins: Ins) { exists k :: 0 <= k < |ins| && ins[k].wit != [] }

  function Marker(segwit: bool): Bytes { if segwit then [0x00, 0x01] else [] }

  function Witnesses(tx: Tx, segwit: bool): Bytes { if segwit then Flat(EncStack, tx.ins) else [] }

  function Serialize(tx: Tx, includeWitness: bool): Bytes {
    var segwit := includeWitness && HasWitness(tx.ins);
    LE(4, ToU32(tx.version)) + Marker(segwit) +
    EncodeVarint(|tx.ins|) + Flat(EncIn, tx.ins) +
    EncodeVarint(|tx.outs|) + Flat(EncOut, tx.outs) +
    Witnesses(tx, segwit) + LE(4, tx.locktime)
  }

  /** `le[31 - i] = be[i]` for every byte of a transaction id. */
  method ReverseTxid(be: Digest) returns (le: Digest)
    ensures le == Rev(be)
  {
    var out: seq<u8> := seq(32, _ => 0);
    for i := 0 to 32
      invariant |out| == 32
      invariant forall k :: 0 <= k < i ==> out[31 - k] == be[k]
    {
      out := out[31 - i := be[i]];
    }
    assert forall k :: 0 <= k < 32 ==> out[k] == be[31 - k] by {
      forall k | 0 <= k < 32 ensures out[k] == be[31 - k] { assert out[31 - (31 - k)] == be[31 - k]; }
    }
    le := out;
  }

  method AnyWitness(ins: Ins) returns (b: bool)
    ensures b == HasWitness(ins)
  {
    b := false;
    for k := 0 to |ins|
      invariant !b && forall j :: 0 <= j < k ==> ins[j].wit == []
    {
      if ins[k].wit != [] { return true; }
    }
  }

  method SerializeCompactInner(tx: Tx, includeWitness: bool) returns (buf: Bytes)
    ensures buf == Serialize(tx, includeWitness)
  {
    buf := LE(4, ToU32(tx.version));
    var anyWitness := AnyWitness(tx.ins);
    var segwit := includeWitness && anyWitness;
    ghost var version := buf;
    if segwit {
      buf := buf + [0x00, 0x01];
    }
    assert buf == version + Marker(segwit);
    buf := buf + EncodeVarint(|tx.ins|);
    buf := PushInputs(buf, tx.ins);
    buf := buf + EncodeVarint(|tx.outs|);
    buf := PushOutputs(buf, tx.outs);
    ghost var body := buf;
    if segwit {
      buf := PushWitnesses(buf, tx.ins);
    }
    assert buf == body + Witnesses(tx, segwit);
    buf := buf + LE(4, tx.locktime);
  }

  lemma Append3(a: Bytes, b: Bytes, c: Bytes)
    ensures a + b + c == a + (b + c)
  {
  }

  method PushInputs(buf: Bytes, ins: Ins) returns (out: Bytes)
    ensures out == buf + Flat(EncIn, ins)
  {
    out := buf;
    for k := 0 to |ins|
      invariant out == buf + Flat(EncIn, ins[..k])
    {
      var inp := ins[k];
      var prevLe := ReverseTxid(inp.prevTxid);
      var item := prevLe + LE(4, inp.vout) + EncodeVarint(|inp.scriptSig|) + inp.scriptSig + LE(4, inp.sequence);
      out := out + item;
      assert out == buf + Flat(EncIn, ins[..k + 1]) by {
        FlatStep(EncIn, ins, k);
        Append3(buf, Flat(EncIn, ins[..k]), EncIn(ins[k]));
      }
    }
    assert ins[..|ins|] == ins;
  }

  method PushOutputs(buf: Bytes, outs: Outs) returns (out: Bytes)
    ensures out == buf + Flat(EncOut, outs)
  {
    out := buf;
    for k := 0 to |outs|
      invariant out == buf + Flat(EncOut, outs[..k])
    {
      var item := LE(8, outs[k].amount) + EncodeVarint(|outs[k].script|) + outs[k].script;
      out := out + item;
      assert out == buf + Flat(EncOut, outs[..k + 1]) by {
        FlatStep(EncOut, outs, k);
        Append3(buf, Flat(EncOut, outs[..k]), EncOut(outs[k]));
      }
    }
    assert outs[..|outs|] == outs;
  }

  method PushWitnesses(buf: Bytes, ins: Ins) returns (out: Bytes)
    ensures out == buf + Flat(EncStack, ins)
  {
    out := buf;
    for k := 0 to |ins|
      invariant out == buf + Flat(EncStack, ins[..k])
    {
      var item := PushItems(EncodeVarint(|ins[k].wit|), ins[k].wit);
      out := out + item;
      assert out == buf + Flat(EncStack, ins[..k + 1]) by {
        FlatStep(EncStack, ins, k);
        Append3(buf, Flat(EncStack, ins[..k]), EncStack(ins[k]));
      }
    }
    assert ins[..|ins|] == ins;
  }

  method PushItems(buf: Bytes, ws: Stack) returns (out: Bytes)
    ensures out == buf + Flat(EncItem, ws)
  {
    out := buf;
    for k := 0 to |ws|
      invariant out == buf + Flat(EncItem, ws[..k])
    {
      var item := EncodeVarint(|ws[k]|) + ws[k];
      out := out + item;
      assert out == buf + Flat(EncItem, ws[..k + 1]) by {
        FlatStep(EncItem, ws, k);
        Append3(buf, Flat(EncItem, ws[..k]), EncItem(ws[k]));
      }
    }
    assert ws[..|ws|] == ws;
  }

  // ---------- the parser ----------

  /** What the parser keeps of an input: the id as serialised, the index and the sequence. */
  datatype InView = InView(prevLe: Digest, vout: u32, sequence: u32)
  datatype TxView = TxView(version: i32, inputs: seq<InView>, outputsSer: seq<Bytes>, locktime: u32)

  function ViewIn(i: TxIn): InView { InView(Rev(i.prevTxid), i.vout, i.sequence) }

  function ViewOf(tx: Tx): TxView {
    TxView(tx.version, Image(ViewIn, tx.ins), Image(EncOut, tx.outs), tx.locktime)
  }

  function TakeU32(s: Bytes): Parsed<u32> {
    if 4 > |s| then Bad
    else
      FromLEBound(s[..4]); PowConstants();
      Got(FromLE(s[..4]), s[4..])
  }

  function TakeIn(s: Bytes): Parsed<InView> {
    var (prev, s1) :- TakeBytes(32, s);
    var (vout, s2) :- TakeU32(s1);
    var (len, s3) :- TakeVarint(s2);
    var (_, s4) :- TakeBytes(len, s3);
    var (sequence, s5) :- TakeU32(s4);
    Got(InView(prev, vout, sequence), s5)
  }

  function TakeOut(s: Bytes): Parsed<Bytes> {
    var (value, s1) :- TakeBytes(8, s);
    var (len, s2) :- TakeVarint(s1);
    var (script, s3) :- TakeBytes(len, s2);
    Got(value + EncodeVarint(len) + script, s3)
  }

  function TakeItem(s: Bytes): Parsed<Bytes> {
    var (len, s1) :- TakeVarint(s);
    TakeBytes(len, s1)
  }

  function TakeStack(s: Bytes): Parsed<seq<Bytes>> {
    var (n, s1) :- TakeVarint(s);
    TakeMany(TakeItem, n, s1)
  }

  predicate SegwitMarked(s: Bytes) { |s| >= 2 && s[0] == 0x00 && s[1] == 0x01 }

  /** Inputs, outputs, witness stacks and locktime. */
  function TakeBody(version: i32, segwit: bool, s2: Bytes): Parsed<TxView> {
    var (vin, s3) :- TakeVarint(s2);
    var (inputs, s4) :- TakeMany(TakeIn, vin, s3);
    var (vout, s5) :- TakeVarint(s4);
    var (outputs, s6) :- TakeMany(TakeOut, vout, s5);
    var (_, s7) :- if segwit then TakeMany(TakeStack, vin, s6) else Got([], s6);
    var (locktime, s8) :- TakeU32(s7);
    Got(TxView(version, inputs, outputs, locktime), s8)
  }

  datatype Head = Head(version: i32, segwit: bool)

  function TakeHead(data: Bytes): Parsed<Head> {
    var (version, s1) :- TakeU32(data);
    if SegwitMarked(s1) then Got(Head(ToI32(version), true), s1[2..]) else Got(Head(ToI32(version), false), s1)
  }

  function TakeTx(data: Bytes): Parsed<TxView> {
    var (head, s2) :- TakeHead(data);
    TakeBody(head.version, head.segwit, s2)
  }

  /** A read that moves a cursor: the value and the new cursor, or nothing. */
  ghost predicate Reads<T>(p: Parsed<T>, data: Bytes, ok: bool, val: T, j: nat) {
    j <= |data| && if ok then p == Got(val, data[j..]) else p.Bad?
  }

  method ReadBytes(data: Bytes, i: nat, n: nat) returns (ok: bool, b: Bytes, j: nat)
    requires i <= |data|
    ensures Reads(TakeBytes(n, data[i..]), data, ok, b, j)
  {
    if i + n > |data| { return false, [], i; }
    assert data[i..][..n] == data[i..i + n] && data[i..][n..] == data[i + n..];
    return true, data[i..i + n], i + n;
  }

  method ReadU32(data: Bytes, i: nat) returns (ok: bool, v: u32, j: nat)
    requires i <= |data|
    ensures Reads(TakeU32(data[i..]), data, ok, v, j)
  {
    var b;
    ok, b, j := ReadBytes(data, i, 4);
    v := 0;
    if ok {
      FromLEBound(b); PowConstants();
      v := FromLE(b);
    }
  }

  method ReadVarint(data: Bytes, i: nat) returns (ok: bool, v: u64, j: nat)
    requires i <= |data|
    ensures Reads(TakeVarint(data[i..]), data, ok, v, j)
  {
    if i >= |data| { return false, 0, i; }
    var b := data[i];
    assert data[i..][1..] == data[i + 1..];
    if b <= 0xfc { return true, b, i + 1; }
    var n := if b == 0xfd then 2 else if b == 0xfe then 4 else 8;
    if i + 1 + n > |data| { return false, 0, i; }
    assert data[i + 1..][..n] == data[i + 1..i + 1 + n] && data[i + 1..][n..] == data[i + 1 + n..];
    FromLEBound(data[i + 1..i + 1 + n]); PowConstants();
    return true, FromLE(data[i + 1..i + 1 + n]), i + 1 + n;
  }

  method ReadInput(data: Bytes, i: nat) returns (ok: bool, v: InView, j: nat)
    requires i <= |data|
    ensures Reads(TakeIn(data[i..]), data, ok, v, j)
  {
    v := InView(seq(32, _ => 0), 0, 0);
    var prev, vout, len, script, sequence;
    ok, prev, j := ReadBytes(data, i, 32);
    if !ok { return; }
    ok, vout, j := ReadU32(data, j);
    if !ok { return; }
    ok, len, j := ReadVarint(data, j);
    if !ok { return; }
    ok, script, j := ReadBytes(data, j, len);
    if !ok { return; }
    ok, sequence, j := ReadU32(data, j);
    if !ok { return; }
    v := InView(prev, vout, sequence);
  }

  method ReadOutput(data: Bytes, i: nat) returns (ok: bool, o: Bytes, j: nat)
    requires i <= |data|
    ensures Reads(TakeOut(data[i..]), data, ok, o, j)
  {
    o := [];
    var value, len, script;
    ok, value, j := ReadBytes(data, i, 8);
    if !ok { return; }
    ok, len, j := ReadVarint(data, j);
    if !ok { return; }
    ok, script, j := ReadBytes(data, j, len);
    if !ok { return; }
    o := value + EncodeVarint(len) + script;
  }

  method ReadInputs(data: Bytes, i: nat, n: nat) returns (ok: bool, vs: seq<InView>, j: nat)
    requires i <= |data|
    ensures Reads(TakeMany(TakeIn, n, data[i..]), data, ok, vs, j)
  {
    vs, j, ok := [], i, true;
    for k := 0 to n
      invariant ok && Reads(TakeMany(TakeIn, k, data[i..]), data, true, vs, j)
    {
      TakeManySnoc(TakeIn, k, data[i..]);
      var v;
      ok, v, j := ReadInput(data, j);
      if !ok {
        TakeManyBad(TakeIn, k + 1, n, data[i..]);
        return;
      }
      vs := vs + [v];
    }
  }

  method ReadOutputs(data: Bytes, i: nat, n: nat) returns (ok: bool, os: seq<Bytes>, j: nat)
    requires i <= |data|
    ensures Reads(TakeMany(TakeOut, n, data[i..]), data, ok, os, j)
  {
    os, j, ok := [], i, true;
    for k := 0 to n
      invariant ok && Reads(TakeMany(TakeOut, k, data[i..]), data, true, os, j)
    {
      TakeManySnoc(TakeOut, k, data[i..]);
      var o;
      ok, o, j := ReadOutput(data, j);
      if !ok {
        TakeManyBad(TakeOut, k + 1, n, data[i..]);
        return;
      }
      os := os + [o];
    }
  }

  method SkipStack(data: Bytes, i: nat) returns (ok: bool, ghost ws: seq<Bytes>, j: nat)
    requires i <= |data|
    ensures Reads(TakeStack(data[i..]), data, ok, ws, j)
  {
    ws := [];
    var n, w;
    ok, n, j := ReadVarint(data, i);
    if !ok { return; }
    ghost var s := data[j..];
    for k := 0 to n
      invariant ok && Reads(TakeMany(TakeItem, k, s), data, true, ws, j)
    {
      TakeManySnoc(TakeItem, k, s);
      var len;
      ok, len, j := ReadVarint(data, j);
      if ok {
        ok, w, j := ReadBytes(data, j, len);
      }
      if !ok {
        TakeManyBad(TakeItem, k + 1, n, s);
        return;
      }
      ws := ws + [w];
    }
  }

  method SkipWitnesses(data: Bytes, i: nat, n: nat) returns (ok: bool, j: nat)
    requires i <= |data|
    ensures j <= |data|
    ensures if ok then TakeMany(TakeStack, n, data[i..]).Got? && TakeMany(TakeStack, n, data[i..]).rest == data[j..]
            else TakeMany(TakeStack, n, data[i..]).Bad?
  {
    j, ok := i, true;
    ghost var stacks: seq<seq<Bytes>> := [];
    for k := 0 to n
      invariant ok && Reads(TakeMany(TakeStack, k, data[i..]), data, true, stacks, j)
    {
      TakeManySnoc(TakeStack, k, data[i..]);
      ghost var ws;
      ok, ws, j := SkipStack(data, j);
      if !ok {
        TakeManyBad(TakeStack, k + 1, n, data[i..]);
        return;
      }
      stacks := stacks + [ws];
    }
  }

  method ReadBody(data: Bytes, i0: nat, version: i32, segwit: bool) returns (r: Option<TxView>)
    requires i0 <= |data|
    ensures var p := TakeBody(version, segwit, data[i0..]); r == if p.Got? then Some(p.val) else None
  {
    var ok, vin, i := ReadVarint(data, i0);
    if !ok { return None; }
    var inputs, vout, outputs, locktime;
    ok, inputs, i := ReadInputs(data, i, vin);
    if !ok { return None; }
    ok, vout, i := ReadVarint(data, i);
    if !ok { return None; }
    ok, outputs, i := ReadOutputs(data, i, vout);
    if !ok { return None; }
    if segwit {
      ok, i := SkipWitnesses(data, i, vin);
      if !ok { return None; }
    }
    ok, locktime, i := ReadU32(data, i);
    if !ok { return None; }
    return Some(TxView(version, inputs, outputs, locktime));
  }

  method ParseTxView(data: Bytes) returns (r: Option<TxView>)
    ensures r == if TakeTx(data).Got? then Some(TakeTx(data).val) else None
  {
    assert data[0..] == data;
    var ok, version, i := ReadU32(data, 0);
    if !ok { return None; }
    var segwit := false;
    if i + 2 <= |data| && data[i] == 0x00 && data[i + 1] == 0x01 {
      segwit := true;
      assert data[i..][2..] == data[i + 2..];
      i := i + 2;
    }
    r := ReadBody(data, i, ToI32(version), segwit);
  }

  // ---------- the parser inverts the serialiser ----------

  lemma TakeU32Of(v: u32, rest: Bytes)
    ensures TakeU32(LE(4, v) + rest) == Got(v, rest)
  {
    PowConstants();
    TakeLEOf(4, v, rest);
  }

  /** Concatenation regrouped to the right, so that fields come off the front in order. */
  lemma Regroup(a: Bytes, b: Bytes, c: Bytes, d: Bytes, e: Bytes)
    ensures a + b + c + d + e == a + (b + (c + (d + e)))
  {
  }

  lemma TakeInOf(i: TxIn, rest: Bytes)
    ensures TakeIn(EncIn(i) + rest) == Got(ViewIn(i), rest)
  {
    var r4 := LE(4, i.sequence) + rest;
    var r3 := i.scriptSig + r4;
    var r2 := EncodeVarint(|i.scriptSig|) + r3;
    var r1 := LE(4, i.vout) + r2;
    assert EncIn(i) + rest == Rev(i.prevTxid) + r1 by {
      Regroup(Rev(i.prevTxid), LE(4, i.vout), EncodeVarint(|i.scriptSig|), i.scriptSig, r4);
      Regroup(Rev(i.prevTxid) + LE(4, i.vout), EncodeVarint(|i.scriptSig|), i.scriptSig, LE(4, i.sequence), rest);
    }
    TakeBytesOf(Rev(i.prevTxid), r1);
    TakeU32Of(i.vout, r2);
    VarintRoundTrip(|i.scriptSig|, r3);
    TakeBytesOf(i.scriptSig, r4);
    TakeU32Of(i.sequence, rest);
  }

  lemma TakeOutOf(o: TxOut, rest: Bytes)
    ensures TakeOut(EncOut(o) + rest) == Got(EncOut(o), rest)
  {
    var r2 := o.script + rest;
    var r1 := EncodeVarint(|o.script|) + r2;
    assert EncOut(o) + rest == LE(8, o.amount) + r1;
    TakeBytesOf(LE(8, o.amount), r1);
    VarintRoundTrip(|o.script|, r2);
    TakeBytesOf(o.script, rest);
  }

  function ItemBytes(w: Buf): Bytes { w }

  lemma TakeItemOf(w: Buf, rest: Bytes)
    ensures TakeItem(EncItem(w) + rest) == Got(ItemBytes(w), rest)
  {
    assert EncItem(w) + rest == EncodeVarint(|w|) + (w + rest);
    VarintRoundTrip(|w|, w + rest);
    TakeBytesOf(w, rest);
  }

  lemma TakeStackOf(i: TxIn, rest: Bytes)
    ensures TakeStack(EncStack(i) + rest) == Got(Image(ItemBytes, i.wit), rest)
  {
    var ws := i.wit;
    forall k, r: Bytes | 0 <= k < |ws| ensures TakeItem(EncItem(ws[k]) + r) == Got(ItemBytes(ws[k]), r) {
      TakeItemOf(ws[k], r);
    }
    TakeManyOf(EncItem, ItemBytes, TakeItem, ws, rest);
    var n, items := EncodeVarint(|ws|), Flat(EncItem, ws);
    assert n + items + rest == n + (items + rest);
    VarintRoundTrip(|ws|, items + rest);
  }

  lemma TakeInsOf(ins: Ins, rest: Bytes)
    ensures TakeMany(TakeIn, |ins|, Flat(EncIn, ins) + rest) == Got(Image(ViewIn, ins), rest)
  {
    forall k, r: Bytes | 0 <= k < |ins| ensures TakeIn(EncIn(ins[k]) + r) == Got(ViewIn(ins[k]), r) {
      TakeInOf(ins[k], r);
    }
    TakeManyOf(EncIn, ViewIn, TakeIn, ins, rest);
  }

  lemma TakeOutsOf(outs: Outs, rest: Bytes)
    ensures TakeMany(TakeOut, |outs|, Flat(EncOut, outs) + rest) == Got(Image(EncOut, outs), rest)
  {
    forall k, r: Bytes | 0 <= k < |outs| ensures TakeOut(EncOut(outs[k]) + r) == Got(EncOut(outs[k]), r) {
      TakeOutOf(outs[k], r);
    }
    TakeManyOf(EncOut, EncOut, TakeOut, outs, rest);
  }

  function StackItems(i: TxIn): seq<Bytes> { Image(ItemBytes, i.wit) }

  lemma TakeWitnessesOf(ins: Ins, rest: Bytes)
    ensures TakeMany(TakeStack, |ins|, Flat(EncStack, ins) + rest) == Got(Image(StackItems, ins), rest)
  {
    forall k, r: Bytes | 0 <= k < |ins| ensures TakeStack(EncStack(ins[k]) + r) == Got(StackItems(ins[k]), r) {
      TakeStackOf(ins[k], r);
    }
    TakeManyOf(EncStack, StackItems, TakeStack, ins, rest);
  }

  /** The first byte of a non-zero count is non-zero. */
  lemma VarintHead(v: u64)
    ensures |EncodeVarint(v)| > 0
    ensures EncodeVarint(v)[0] == 0 <==> v == 0
    ensures EncodeVarint(v)[0] == 1 <==> v == 1
  {
  }

  /** The bytes that follow the marker. */
  function BodyBytes(tx: Tx, segwit: bool): Bytes {
    EncodeVarint(|tx.ins|) + (Flat(EncIn, tx.ins) +
    (EncodeVarint(|tx.outs|) + (Flat(EncOut, tx.outs) +
    (Witnesses(tx, segwit) + LE(4, tx.locktime)))))
  }

  lemma SerializeSplit(tx: Tx, includeWitness: bool)
    ensures var segwit := includeWitness && HasWitness(tx.ins);
            Serialize(tx, includeWitness) == LE(4, ToU32(tx.version)) + (Marker(segwit) + BodyBytes(tx, segwit))
  {
    var segwit := includeWitness && HasWitness(tx.ins);
    var a, b := LE(4, ToU32(tx.version)), Marker(segwit);
    var c, d, e, f := EncodeVarint(|tx.ins|), Flat(EncIn, tx.ins), EncodeVarint(|tx.outs|), Flat(EncOut, tx.outs);
    var g, h := Witnesses(tx, segwit), LE(4, tx.locktime);
    Regroup(a + b + c + d, e, f, g, h);
    Regroup(a, b, c, d, e + (f + (g + h)));
  }

  lemma ParseBody(tx: Tx, segwit: bool)
    ensures TakeBody(tx.version, segwit, BodyBytes(tx, segwit)) == Got(ViewOf(tx), [])
  {
    var r7: Bytes := LE(4, tx.locktime);
    var r6 := Witnesses(tx, segwit) + r7;
    var r5 := Flat(EncOut, tx.outs) + r6;
    var r4 := EncodeVarint(|tx.outs|) + r5;
    var r3 := Flat(EncIn, tx.ins) + r4;
    VarintRoundTrip(|tx.ins|, r3);
    TakeInsOf(tx.ins, r4);
    VarintRoundTrip(|tx.outs|, r5);
    TakeOutsOf(tx.outs, r6);
    if segwit { TakeWitnessesOf(tx.ins, r7); } else { assert r6 == r7; }
    assert r7 == LE(4, tx.locktime) + [];
    TakeU32Of(tx.locktime, []);
  }

  lemma ParseRecovers(tx: Tx, includeWitness: bool)
    requires tx.ins != [] || |tx.outs| != 1
    ensures TakeTx(Serialize(tx, includeWitness)) == Got(ViewOf(tx), [])
  {
    var segwit := includeWitness && HasWitness(tx.ins);
    SerializeSplit(tx, includeWitness);
    MarkerRecognised(tx, segwit);
    TakeHeadOf(tx.version, segwit, Marker(segwit) + BodyBytes(tx, segwit), BodyBytes(tx, segwit));
    ParseBody(tx, segwit);
  }

  lemma TakeHeadOf(version: i32, segwit: bool, s1: Bytes, body: Bytes)
    requires SegwitMarked(s1) <==> segwit
    requires body == if segwit then s1[2..] else s1
    ensures TakeHead(LE(4, ToU32(version)) + s1) == Got(Head(version, segwit), body)
  {
    TakeU32Of(ToU32(version), s1);
  }

  /** The two bytes after the version are 00 01 exactly when a marker was written. */
  lemma MarkerRecognised(tx: Tx, segwit: bool)
    requires tx.ins != [] || |tx.outs| != 1
    ensures SegwitMarked(Marker(segwit) + BodyBytes(tx, segwit)) <==> segwit
    ensures var s := Marker(segwit) + BodyBytes(tx, segwit); (if segwit then s[2..] else s) == BodyBytes(tx, segwit)
  {
    var n := EncodeVarint(|tx.ins|);
    var m := EncodeVarint(|tx.outs|);
    var tail := Flat(EncOut, tx.outs) + (Witnesses(tx, segwit) + LE(4, tx.locktime));
    var body := BodyBytes(tx, segwit);
    assert body == n + (Flat(EncIn, tx.ins) + (m + tail));
    VarintHead(|tx.ins|);
    VarintHead(|tx.outs|);
    if segwit {
      assert (Marker(true) + body)[2..] == body;
    } else {
      assert Marker(false) + body == body;
      NotMarked(n, Flat(EncIn, tx.ins), m, tail);
    }
  }

  lemma NotMarked(n: Bytes, ins: Bytes, m: Bytes, tail: Bytes)
    requires n != [] && m != [] && (n[0] != 0 || (|n| == 1 && ins == [] && m[0] != 1))
    ensures !SegwitMarked(n + (ins + (m + tail)))
  {
    var body := n + (ins + (m + tail));
    assert body[0] == n[0];
    if n[0] == 0 {
      assert body == n + (m + tail);
      assert body[1] == m[0];
    }
  }

  /** A transaction without inputs and with exactly one output reads as a witness
      marker; what is then parsed can never be the transaction, because too few
      bytes remain. */
  lemma ParseMarkerClash(tx: Tx, includeWitness: bool)
    requires tx.ins == [] && |tx.outs| == 1
    ensures TakeTx(Serialize(tx, includeWitness)) != Got(ViewOf(tx), [])
  {
    var o := EncOut(tx.outs[0]);
    assert Flat(EncOut, tx.outs) == o by {
      assert tx.outs[1..] == [];
      assert Flat(EncOut, tx.outs[1..]) == [];
    }
    var body := BodyBytes(tx, false);
    var s2 := o + LE(4, tx.locktime);
    assert body == [0x00, 0x01] + s2;
    SerializeSplit(tx, includeWitness);
    assert Marker(false) + body == body;
    assert body[2..] == s2;
    TakeHeadOf(tx.version, true, body, s2);
    if TakeTx(Serialize(tx, includeWitness)) == Got(ViewOf(tx), []) {
      assert Image(ViewIn, tx.ins) == [] && Image(EncOut, tx.outs) == [o];
      ShortBodyFails(tx.version, s2, ViewOf(tx), o);
    }
  }

  lemma ShortBodyFails(version: i32, s2: Bytes, v: TxView, o: Bytes)
    requires |s2| <= |o| + 4
    requires v.inputs == [] && v.outputsSer == [o]
    ensures TakeBody(version, true, s2) != Got(v, [])
  {
    if TakeBody(version, true, s2) == Got(v, []) {
      var s3 := TakeVarint(s2).rest;
      var vin := TakeVarint(s2).val;
      NothingRead(vin, s3);
      var s5 := TakeVarint(s3).rest;
      var s6 := TakeMany(TakeOut, TakeVarint(s3).val, s5).rest;
      assert TakeMany(TakeStack, 0, s6) == Got([], s6);
      OneOutputRead(TakeVarint(s3).val, s5, o);
    }
  }

  lemma NothingRead(n: nat, s: Bytes)
    requires TakeMany(TakeIn, n, s).Got? && TakeMany(TakeIn, n, s).val == []
    ensures n == 0 && TakeMany(TakeIn, n, s).rest == s
  {
    TakeManyLength(TakeIn, n, s);
  }

  lemma OneOutputRead(n: nat, s: Bytes, o: Bytes)
    requires TakeMany(TakeOut, n, s).Got? && TakeMany(TakeOut, n, s).val == [o]
    ensures |o| + |TakeMany(TakeOut, n, s).rest| <= |s|
  {
    TakeManyLength(TakeOut, n, s);
    TakeOutLength(s);
    var x, s1 := TakeOut(s).val, TakeOut(s).rest;
    assert TakeMany(TakeOut, 0, s1) == Got([], s1);
    assert TakeMany(TakeOut, n, s) == Got([x] + [], s1);
    assert [x] + [] == [x] && [x][0] == [o][0];
  }

  lemma {:induction false} TakeManyLength<T>(p: Bytes -> Parsed<T>, n: nat, s: Bytes)
    ensures TakeMany(p, n, s).Got? ==> |TakeMany(p, n, s).val| == n
  {
    if n > 0 && p(s).Got? { TakeManyLength(p, n - 1, p(s).rest); }
  }

  /** Re-encoding a length never takes more bytes than it was read from. */
  lemma VarintCanonical(s: Bytes)
    requires TakeVarint(s).Got?
    ensures |EncodeVarint(TakeVarint(s).val)| + |TakeVarint(s).rest| <= |s|
  {
    PowConstants();
    if s[0] >= 0xfd {
      FromLEBound(s[1..][..if s[0] == 0xfd then 2 else if s[0] == 0xfe then 4 else 8]);
    }
  }

  /** A parsed output is never longer than the bytes it consumed. */
  lemma TakeOutLength(s: Bytes)
    requires TakeOut(s).Got?
    ensures |TakeOut(s).val| + |TakeOut(s).rest| <= |s|
  {
    VarintCanonical(s[8..]);
  }

  /** The native parser recovers version, inputs, outputs and locktime exactly when the
      transaction has an input or does not have exactly one output. */
  lemma ParseRecoversExactlyWhen(tx: Tx, includeWitness: bool)
    ensures TakeTx(Serialize(tx, includeWitness)) == Got(ViewOf(tx), []) <==> tx.ins != [] || |tx.outs| != 1
  {
    if tx.ins != [] || |tx.outs| != 1 {
      ParseRecovers(tx, includeWitness);
    } else {
      ParseMarkerClash(tx, includeWitness);
    }
  }
}
