/** What the serialised bytes of a transaction say: where each field stands, and that nothing
    of the transaction is lost. */
module Wire {
  import opened Bytes
  import opened TxCodec
  import opened Sighash

  // ---------- where the fields stand ----------

  /** The id with its last byte first, and the index in four bytes. */
  predicate IsOutpoint(b: Bytes, txid: Digest, vout: u32) {
    |b| == 36 && (forall k :: 0 <= k < 32 ==> b[k] == txid[31 - k]) && FromLE(b[32..]) == vout
  }

  lemma OutpointLayout(b: Bytes, i: TxIn)
    requires b == Rev(i.prevTxid) + LE(4, i.vout)
    ensures IsOutpoint(b, i.prevTxid, i.vout)
  {
    PowConstants();
    LERoundTrip(4, i.vout);
    assert b[32..] == LE(4, i.vout);
  }

  /** Outpoint, length of the script signature, script signature, sequence. */
  lemma InputLayout(i: TxIn)
    ensures var b, n := EncIn(i), EncodeVarint(|i.scriptSig|);
            && |b| == 36 + |n| + |i.scriptSig| + 4 && IsOutpoint(b[..36], i.prevTxid, i.vout)
            && b[36..36 + |n|] == n && b[36 + |n|..36 + |n| + |i.scriptSig|] == i.scriptSig
            && FromLE(b[36 + |n| + |i.scriptSig|..]) == i.sequence
  {
    var b, n := EncIn(i), EncodeVarint(|i.scriptSig|);
    var o := Rev(i.prevTxid) + LE(4, i.vout);
    PowConstants();
    LERoundTrip(4, i.sequence);
    OutpointLayout(o, i);
    Placed(o, n, i.scriptSig, LE(4, i.sequence));
    assert b == o + n + i.scriptSig + LE(4, i.sequence);
  }

  lemma Placed(a: Bytes, b: Bytes, c: Bytes, d: Bytes)
    ensures var s := a + b + c + d;
            && |s| == |a| + |b| + |c| + |d| && s[..|a|] == a && s[|a|..|a| + |b|] == b
            && s[|a| + |b|..|a| + |b| + |c|] == c && s[|a| + |b| + |c|..] == d
  {
  }

  /** Amount, length of the script, script. */
  lemma OutputLayout(o: TxOut)
    ensures var b, n := EncOut(o), EncodeVarint(|o.script|);
            |b| == 8 + |n| + |o.script| && FromLE(b[..8]) == o.amount && b[8..8 + |n|] == n && b[8 + |n|..] == o.script
  {
    PowConstants();
    LERoundTrip(8, o.amount);
    Placed(LE(8, o.amount), EncodeVarint(|o.script|), o.script, []);
    assert EncOut(o) == LE(8, o.amount) + EncodeVarint(|o.script|) + o.script + [];
  }

  lemma InFront(a: Bytes, b: Bytes, c: Bytes, d: Bytes)
    ensures var s := a + (b + (c + d)); a <= s && b + c <= s[|a|..]
  {
    assert b + (c + d) == (b + c) + d;
    assert (a + (b + (c + d)))[|a|..] == b + (c + d);
  }

  lemma Ends(a: Bytes, b: Bytes, c: Bytes, d: Bytes, e: Bytes, l: Bytes)
    ensures var s := a + (b + (c + (d + (e + l)))); |s| >= |l| && s[|s| - |l|..] == l
  {
    var x := a + b + c + d + e;
    assert a + (b + (c + (d + (e + l)))) == x + l;
  }

  /** Four bytes in two's complement. */
  predicate SpellsVersion(b: Bytes, version: i32) {
    |b| == 4 && FromLE(b) == if version < 0 then version + U32_LIMIT else version
  }

  lemma VersionSpelt(version: i32)
    ensures SpellsVersion(LE(4, ToU32(version)), version)
  {
    PowConstants();
    LERoundTrip(4, ToU32(version));
  }

  /** Version, marker, number of inputs in front, and the locktime at the end. */
  lemma TransactionLayout(tx: Tx, includeWitness: bool)
    ensures var b := Serialize(tx, includeWitness);
            && |b| >= 8 && SpellsVersion(b[..4], tx.version) && FromLE(b[|b| - 4..]) == tx.locktime
            && (if includeWitness && HasWitness(tx.ins) then [0, 1] else []) + EncodeVarint(|tx.ins|) <= b[4..]
  {
    var segwit := includeWitness && HasWitness(tx.ins);
    SerializeSplit(tx, includeWitness);
    VersionSpelt(tx.version);
    PowConstants();
    LERoundTrip(4, tx.locktime);
    Framed(LE(4, ToU32(tx.version)), Marker(segwit), EncodeVarint(|tx.ins|), Flat(EncIn, tx.ins), EncodeVarint(|tx.outs|),
           Flat(EncOut, tx.outs), Witnesses(tx, segwit), LE(4, tx.locktime));
  }

  lemma Framed(v: Bytes, m: Bytes, n: Bytes, i: Bytes, k: Bytes, o: Bytes, w: Bytes, l: Bytes)
    requires |v| == 4 == |l|
    ensures var s := v + (m + (n + (i + (k + (o + (w + l))))));
            |s| >= 8 && s[..4] == v && s[|s| - 4..] == l && m + n <= s[4..]
  {
    var tail := i + (k + (o + (w + l)));
    InFront(v, m, n, tail);
    Ends(v + (m + n), i, k, o, w, l);
    assert v + (m + (n + tail)) == (v + (m + n)) + tail;
  }

  // ---------- nothing is lost ----------

  /** An input without its witness. */
  datatype InContent = InContent(prevLe: Bytes, vout: u32, scriptSig: Bytes, sequence: u32)

  function ContentIn(i: TxIn): InContent { InContent(Rev(i.prevTxid), i.vout, i.scriptSig, i.sequence) }

  function ReadIn(s: Bytes): Parsed<InContent> {
    var (prev, s1) :- TakeBytes(32, s);
    var (vout, s2) :- TakeU32(s1);
    var (len, s3) :- TakeVarint(s2);
    var (script, s4) :- TakeBytes(len, s3);
    var (sequence, s5) :- TakeU32(s4);
    Got(InContent(prev, vout, script, sequence), s5)
  }

  lemma ReadInOf(i: TxIn, rest: Bytes)
    ensures ReadIn(EncIn(i) + rest) == Got(ContentIn(i), rest)
  {
    var r4 := LE(4, i.sequence) + rest;
    var r3 := i.scriptSig + r4;
    var r2 := EncodeVarint(|i.scriptSig|) + r3;
    var r1 := LE(4, i.vout) + r2;
    assert EncIn(i) + rest == Rev(i.prevTxid) + r1 by {
      Regroup(Rev(i.prevTxid), LE(4, i.vout), EncodeVarint(|i.scriptSig|), i.scriptSig, r4);
      Regroup(Rev(i.prevTxid) + LE(4, i.vout), EncodeVarint(|i.scriptSig|), i.scriptSig, LE(4, i.sequence), rest);
    }
    TakeBytesOf(Rev(i.prevTxid), r1);
    TakeU32Of(i.vout, r2);
    VarintRoundTrip(|i.scriptSig|, r3);
    TakeBytesOf(i.scriptSig, r4);
    TakeU32Of(i.sequence, rest);
  }

  lemma ReadInsOf(ins: Ins, rest: Bytes)
    ensures TakeMany(ReadIn, |ins|, Flat(EncIn, ins) + rest) == Got(Image(ContentIn, ins), rest)
  {
    forall k, r: Bytes | 0 <= k < |ins| ensures ReadIn(EncIn(ins[k]) + r) == Got(ContentIn(ins[k]), r) { ReadInOf(ins[k], r); }
    TakeManyOf(EncIn, ContentIn, ReadIn, ins, rest);
  }

  /** All that the serialised bytes hold. */
  datatype Content = Content(version: i32, segwit: bool, ins: seq<InContent>, outs: seq<Bytes>, stacks: seq<seq<Bytes>>, locktime: u32)

  function ContentOf(tx: Tx, segwit: bool): Content {
    Content(tx.version, segwit, Image(ContentIn, tx.ins), Image(EncOut, tx.outs), if segwit then Image(StackItems, tx.ins) else [], tx.locktime)
  }

  function ReadBody(head: Head, s2: Bytes): Parsed<Content> {
    var (vin, s3) :- TakeVarint(s2);
    var (ins, s4) :- TakeMany(ReadIn, vin, s3);
    var (vout, s5) :- TakeVarint(s4);
    var (outs, s6) :- TakeMany(TakeOut, vout, s5);
    var (stacks, s7) :- if head.segwit then TakeMany(TakeStack, vin, s6) else Got([], s6);
    var (locktime, s8) :- TakeU32(s7);
    Got(Content(head.version, head.segwit, ins, outs, stacks, locktime), s8)
  }

  /** Reads everything, the script signatures and the stacks too. */
  function ReadAll(data: Bytes): Parsed<Content> {
    var (head, s2) :- TakeHead(data);
    ReadBody(head, s2)
  }

  lemma ReadBodySteps(head: Head, n: u64, m: u64, s2: Bytes, s3: Bytes, s4: Bytes, s5: Bytes, s6: Bytes, s7: Bytes,
                      ins: seq<InContent>, outs: seq<Bytes>, stacks: seq<seq<Bytes>>, locktime: u32)
    requires TakeVarint(s2) == Got(n, s3) && TakeMany(ReadIn, n, s3) == Got(ins, s4)
    requires TakeVarint(s4) == Got(m, s5) && TakeMany(TakeOut, m, s5) == Got(outs, s6)
    requires if head.segwit then TakeMany(TakeStack, n, s6) == Got(stacks, s7) else stacks == [] && s7 == s6
    requires TakeU32(s7) == Got(locktime, [])
    ensures ReadBody(head, s2) == Got(Content(head.version, head.segwit, ins, outs, stacks, locktime), [])
  {
  }

  lemma ReadBodyOf(tx: Tx, segwit: bool)
    ensures ReadBody(Head(tx.version, segwit), BodyBytes(tx, segwit)) == Got(ContentOf(tx, segwit), [])
  {
    var r7: Bytes := LE(4, tx.locktime);
    var r6 := Witnesses(tx, segwit) + r7;
    var r5 := Flat(EncOut, tx.outs) + r6;
    var r4 := EncodeVarint(|tx.outs|) + r5;
    var r3 := Flat(EncIn, tx.ins) + r4;
    VarintRoundTrip(|tx.ins|, r3);
    ReadInsOf(tx.ins, r4);
    VarintRoundTrip(|tx.outs|, r5);
    TakeOutsOf(tx.outs, r6);
    if segwit { TakeWitnessesOf(tx.ins, r7); } else { assert r6 == r7; }
    assert r7 == LE(4, tx.locktime) + [];
    TakeU32Of(tx.locktime, []);
    ReadBodySteps(Head(tx.version, segwit), |tx.ins|, |tx.outs|, BodyBytes(tx, segwit), r3, r4, r5, r6, r7, Image(ContentIn, tx.ins),
                  Image(EncOut, tx.outs), if segwit then Image(StackItems, tx.ins) else [], tx.locktime);
  }

  /** Every field of a transaction with an input is read back from its bytes. */
  lemma ReadAllOf(tx: Tx, includeWitness: bool)
    requires tx.ins != []
    ensures ReadAll(Serialize(tx, includeWitness)) == Got(ContentOf(tx, includeWitness && HasWitness(tx.ins)), [])
  {
    var segwit := includeWitness && HasWitness(tx.ins);
    SerializeSplit(tx, includeWitness);
    MarkerRecognised(tx, segwit);
    ReadBodyOf(tx, segwit);
    ReadFrom(tx.version, segwit, Marker(segwit) + BodyBytes(tx, segwit), BodyBytes(tx, segwit), ContentOf(tx, segwit));
  }

  lemma ReadFrom(version: i32, segwit: bool, s1: Bytes, body: Bytes, content: Content)
    requires SegwitMarked(s1) <==> segwit
    requires body == if segwit then s1[2..] else s1
    requires ReadBody(Head(version, segwit), body) == Got(content, [])
    ensures ReadAll(LE(4, ToU32(version)) + s1) == Got(content, [])
  {
    TakeHeadOf(version, segwit, s1, body);
  }

  /** The inputs agree in everything but their witnesses. */
  predicate SameInput(a: TxIn, b: TxIn) {
    a.prevTxid == b.prevTxid && a.vout == b.vout && a.scriptSig == b.scriptSig && a.sequence == b.sequence
  }

  lemma SameContentSameInput(a: TxIn, b: TxIn)
    requires ContentIn(a) == ContentIn(b)
    ensures SameInput(a, b)
  {
    RevInjective(a.prevTxid, b.prevTxid);
  }

  lemma SameItems(a: TxIn, b: TxIn)
    requires StackItems(a) == StackItems(b)
    ensures a.wit == b.wit
  {
    assert |a.wit| == |StackItems(a)| == |StackItems(b)| == |b.wit|;
    forall k | 0 <= k < |a.wit| ensures a.wit[k] == b.wit[k] { assert StackItems(a)[k] == StackItems(b)[k]; }
  }

  lemma SameOutputs(xs: Outs, ys: Outs)
    requires Image(EncOut, xs) == Image(EncOut, ys)
    ensures xs == ys
  {
    assert |xs| == |Image(EncOut, xs)| == |ys|;
    forall k | 0 <= k < |xs| ensures xs[k] == ys[k] {
      assert Image(EncOut, xs)[k] == Image(EncOut, ys)[k];
      EncOutInjective(xs[k], ys[k]);
    }
  }

  /** Transactions with inputs and equal bytes are equal in version, locktime, outputs and every
      input, the script signature included; written with their witnesses, in every stack item
      too. */
  lemma SerializeInjective(x: Tx, y: Tx, wx: bool, wy: bool)
    requires x.ins != [] && y.ins != [] && Serialize(x, wx) == Serialize(y, wy)
    ensures x.version == y.version && x.locktime == y.locktime && x.outs == y.outs
    ensures |x.ins| == |y.ins| && forall k :: 0 <= k < |x.ins| ==> SameInput(x.ins[k], y.ins[k])
    ensures wx && HasWitness(x.ins) <==> wy && HasWitness(y.ins)
    ensures wx && wy ==> x.ins == y.ins
  {
    ReadAllOf(x, wx);
    ReadAllOf(y, wy);
    SameOutputs(x.outs, y.outs);
    assert |x.ins| == |Image(ContentIn, x.ins)| == |y.ins|;
    forall k | 0 <= k < |x.ins| ensures SameInput(x.ins[k], y.ins[k]) {
      assert Image(ContentIn, x.ins)[k] == Image(ContentIn, y.ins)[k];
      SameContentSameInput(x.ins[k], y.ins[k]);
    }
    if wx && wy { SameStacks(x.ins, y.ins); }
  }

  lemma SameStacks(xs: Ins, ys: Ins)
    requires |xs| == |ys| && forall k :: 0 <= k < |xs| ==> SameInput(xs[k], ys[k])
    requires HasWitness(xs) <==> HasWitness(ys)
    requires HasWitness(xs) ==> Image(StackItems, xs) == Image(StackItems, ys)
    ensures xs == ys
  {
    forall k | 0 <= k < |xs| ensures xs[k] == ys[k] {
      if HasWitness(xs) {
        assert Image(StackItems, xs)[k] == Image(StackItems, ys)[k];
        SameItems(xs[k], ys[k]);
      }
    }
  }
}
