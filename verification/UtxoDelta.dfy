/** The delta builder: deletes for the outpoints a block spends, puts for the outputs it
    creates, skipping OP_RETURN. Replaying its operations on the stored set gives exactly
    what the validator computed, without OP_RETURN outputs and with the coinbase's. */
module UtxoDelta {
  import opened Bytes
  import opened TxCodec
  import opened Validation
  import opened UtxoRecord
  import opened Storage

  // ---------- the builder ----------

  /** One change of the unspent set. */
  datatype Delta = Spend(k: Outpoint) | Add(k: Outpoint, e: Entry)

  function Render(d: Delta): UtxoOp {
    match d
    case Spend(k) => UtxoOp(KeyString(k), None, None, None, None)
    case Add(k, e) => UtxoOp(KeyString(k), Some(e.amount), Some(e.script), Some(e.isCoinbase), Some(e.height))
  }

  function SpendOf(i: TxIn): Delta { Spend(KeyOf(i)) }

  /** Puts for the first `n` outputs. */
  function OutDeltas(tx: Tx, n: nat, height: u64): seq<Delta>
    requires n <= |tx.outs|
  {
    if n == 0 then [] else OutDeltas(tx, n - 1, height) + OutDelta(tx, n - 1, height)
  }

  function OutDelta(tx: Tx, i: nat, height: u64): seq<Delta>
    requires i < |tx.outs|
  {
    if IsOpReturn(tx.outs[i].script) then [] else [Add(Outpoint(tx.txid, i), NewEntry(tx.outs[i], tx.isCoinbase, height))]
  }

  function InDeltas(tx: Tx): seq<Delta> { if tx.isCoinbase then [] else Image(SpendOf, tx.ins) }

  function TxDeltas(tx: Tx, height: u64): seq<Delta> { InDeltas(tx) + OutDeltas(tx, |tx.outs|, height) }

  function DeltasAt(height: u64): Tx -> seq<Delta> { tx => TxDeltas(tx, height) }

  function ConcatDeltas(deltas: Tx -> seq<Delta>, block: seq<Tx>, n: nat): seq<Delta>
    requires n <= |block|
  {
    if n == 0 then [] else ConcatDeltas(deltas, block, n - 1) + deltas(block[n - 1])
  }

  /** The changes of the first `n` transactions, in order. */
  function BlockDeltas(block: seq<Tx>, n: nat, height: u64): seq<Delta>
    requires n <= |block|
  {
    ConcatDeltas(DeltasAt(height), block, n)
  }

  lemma ImageConcat<S, T>(f: S -> T, xs: seq<S>, ys: seq<S>)
    ensures Image(f, xs + ys) == Image(f, xs) + Image(f, ys)
  {
  }

  method UtxoBuildOpsCompact(block: seq<Tx>, height: u64) returns (ops: seq<UtxoOp>)
    ensures ops == Image(Render, BlockDeltas(block, |block|, height))
  {
    ops := [];
    for n := 0 to |block|
      invariant ops == Image(Render, BlockDeltas(block, n, height))
    {
      ops := AppendTx(ops, block[n], height);
      ImageConcat(Render, BlockDeltas(block, n, height), TxDeltas(block[n], height));
    }
  }

  method AppendTx(ops0: seq<UtxoOp>, tx: Tx, height: u64) returns (ops: seq<UtxoOp>)
    ensures ops == ops0 + Image(Render, TxDeltas(tx, height))
  {
    ops := ops0;
    if !tx.isCoinbase {
      ops := AppendSpends(ops, tx);
    }
    ghost var ins, outs := InDeltas(tx), OutDeltas(tx, |tx.outs|, height);
    assert ops == ops0 + Image(Render, ins);
    ops := AppendOutputs(ops, tx, height);
    RenderConcat(ops0, ins, outs);
  }

  lemma RenderConcat(ops0: seq<UtxoOp>, ins: seq<Delta>, outs: seq<Delta>)
    ensures ops0 + Image(Render, ins) + Image(Render, outs) == ops0 + Image(Render, ins + outs)
  {
    ImageConcat(Render, ins, outs);
  }

  method AppendSpends(ops0: seq<UtxoOp>, tx: Tx) returns (ops: seq<UtxoOp>)
    ensures ops == ops0 + Image(Render, Image(SpendOf, tx.ins))
  {
    ops := ops0;
    for i := 0 to |tx.ins|
      invariant ops == ops0 + Image(Render, Image(SpendOf, tx.ins[..i]))
    {
      var inp := tx.ins[i];
      var key := HexEncode(inp.prevTxid) + [COLON] + DecEncode(inp.vout);
      ops := ops + [UtxoOp(key, None, None, None, None)];
      assert tx.ins[..i + 1] == tx.ins[..i] + [inp];
      ImageConcat(SpendOf, tx.ins[..i], [inp]);
      ImageConcat(Render, Image(SpendOf, tx.ins[..i]), Image(SpendOf, [inp]));
    }
    assert tx.ins[..|tx.ins|] == tx.ins;
  }

  method AppendOutputs(ops0: seq<UtxoOp>, tx: Tx, height: u64) returns (ops: seq<UtxoOp>)
    ensures ops == ops0 + Image(Render, OutDeltas(tx, |tx.outs|, height))
  {
    ops := ops0;
    for j := 0 to |tx.outs|
      invariant ops == ops0 + Image(Render, OutDeltas(tx, j, height))
    {
      var o := tx.outs[j];
      if !IsOpReturn(o.script) {
        var key := HexEncode(tx.txid) + [COLON] + DecEncode(j);
        ops := ops + [UtxoOp(key, Some(o.amount), Some(o.script), Some(tx.isCoinbase), Some(AsI64(height)))];
      }
      RenderOutput(tx, j, height);
    }
  }

  lemma RenderOutput(tx: Tx, j: nat, height: u64)
    requires j < |tx.outs|
    ensures Image(Render, OutDeltas(tx, j + 1, height)) ==
            Image(Render, OutDeltas(tx, j, height)) +
            (if IsOpReturn(tx.outs[j].script) then []
             else [Render(Add(Outpoint(tx.txid, j), NewEntry(tx.outs[j], tx.isCoinbase, height)))])
  {
    ImageConcat(Render, OutDeltas(tx, j, height), OutDelta(tx, j, height));
  }

  // ---------- replaying the operations ----------

  function ApplyDelta(utxo: Utxo, d: Delta): Utxo {
    match d
    case Spend(k) => utxo - {k}
    case Add(k, e) => utxo[k := e]
  }

  function Replay(utxo: Utxo, ds: seq<Delta>): Utxo {
    if ds == [] then utxo else ApplyDelta(Replay(utxo, ds[..|ds| - 1]), ds[|ds| - 1])
  }

  lemma {:induction false} ReplayConcat(utxo: Utxo, xs: seq<Delta>, ys: seq<Delta>)
    ensures Replay(utxo, xs + ys) == Replay(Replay(utxo, xs), ys)
  {
    if ys == [] {
      assert xs + ys == xs;
    } else {
      assert (xs + ys)[..|xs + ys| - 1] == xs + ys[..|ys| - 1];
      ReplayConcat(utxo, xs, ys[..|ys| - 1]);
    }
  }

  /** The stored bytes stand for the set: one record per entry under its key, whatever else
      the database holds. */
  ghost predicate Represents(db: Db, utxo: Utxo) {
    forall k: Outpoint :: (KeyString(k) in db <==> k in utxo) && (k in utxo ==> db[KeyString(k)] == EncodeEntry(utxo[k]))
  }

  lemma DeltaKeepsRepresentation(db: Db, utxo: Utxo, d: Delta)
    requires Represents(db, utxo)
    ensures Represents(ApplyOp(db, BatchOp(Render(d))), ApplyDelta(utxo, d))
  {
    var db', utxo' := ApplyOp(db, BatchOp(Render(d))), ApplyDelta(utxo, d);
    forall k: Outpoint
      ensures (KeyString(k) in db' <==> k in utxo') && (k in utxo' ==> db'[KeyString(k)] == EncodeEntry(utxo'[k]))
    {
      if KeyString(k) == KeyString(d.k) { KeyInjective(k, d.k); }
    }
  }

  /** Replaying the rendered operations on the bytes is replaying the changes on the set. */
  lemma {:induction false} BatchRefinesReplay(db: Db, utxo: Utxo, ds: seq<Delta>)
    requires Represents(db, utxo)
    ensures Represents(ApplyOps(db, Image(BatchOp, Image(Render, ds))), Replay(utxo, ds))
  {
    var ops := Image(BatchOp, Image(Render, ds));
    if ds != [] {
      var init := ds[..|ds| - 1];
      BatchRefinesReplay(db, utxo, init);
      assert ops[..|ops| - 1] == Image(BatchOp, Image(Render, init));
      DeltaKeepsRepresentation(ApplyOps(db, ops[..|ops| - 1]), Replay(utxo, init), ds[|ds| - 1]);
    }
  }

  // ---------- the agreement with the validator ----------

  function DropOpReturn(utxo: Utxo): Utxo {
    map k | k in utxo && !IsOpReturn(utxo[k].script) :: utxo[k]
  }

  /** The entries the builder stores for the first `n` outputs. */
  function Stored(tx: Tx, n: nat, height: u64): Utxo
    requires n <= |tx.outs|
  {
    if n == 0 then map[]
    else if IsOpReturn(tx.outs[n - 1].script) then Stored(tx, n - 1, height)
    else Stored(tx, n - 1, height)[Outpoint(tx.txid, n - 1) := NewEntry(tx.outs[n - 1], tx.isCoinbase, height)]
  }

  lemma {:induction false} StoredExactly(tx: Tx, n: nat, height: u64)
    requires n <= |tx.outs|
    ensures forall k :: k in Stored(tx, n, height) <==> k.txid == tx.txid && k.vout < n && !IsOpReturn(tx.outs[k.vout].script)
    ensures forall k :: k in Stored(tx, n, height) ==> Stored(tx, n, height)[k] == NewEntry(tx.outs[k.vout], tx.isCoinbase, height)
  {
    if n > 0 { StoredExactly(tx, n - 1, height); }
  }

  lemma StoredIsCreatedWithoutOpReturn(tx: Tx, height: u64)
    requires !tx.isCoinbase
    ensures Stored(tx, |tx.outs|, height) == DropOpReturn(Created(tx, |tx.outs|, height))
  {
    StoredExactly(tx, |tx.outs|, height);
    CreatedExactly(tx, |tx.outs|, height);
  }

  lemma {:induction false} ReplaySpends(utxo: Utxo, ins: Ins, n: nat)
    requires n <= |ins|
    ensures Replay(utxo, Image(SpendOf, ins[..n])) == utxo - Keys(ins, n)
  {
    if n > 0 {
      var ds := Image(SpendOf, ins[..n]);
      ReplaySpends(utxo, ins, n - 1);
      assert ds[..n - 1] == Image(SpendOf, ins[..n - 1]);
      assert Keys(ins, n) == Keys(ins, n - 1) + {KeyOf(ins[n - 1])};
    }
  }

  lemma ReplayAtMostOne(utxo: Utxo, base: Utxo, tx: Tx, i: nat, height: u64)
    requires i < |tx.outs|
    requires utxo == base + Stored(tx, i, height)
    ensures Replay(utxo, OutDelta(tx, i, height)) == base + Stored(tx, i + 1, height)
  {
    var ds := OutDelta(tx, i, height);
    if ds != [] {
      assert ds[..|ds| - 1] == [] && Replay(utxo, []) == utxo;
      assert Replay(utxo, ds) == utxo[Outpoint(tx.txid, i) := NewEntry(tx.outs[i], tx.isCoinbase, height)];
    }
  }

  lemma {:induction false} ReplayOutputs(utxo: Utxo, tx: Tx, n: nat, height: u64)
    requires n <= |tx.outs|
    ensures Replay(utxo, OutDeltas(tx, n, height)) == utxo + Stored(tx, n, height)
  {
    if n == 0 {
      assert OutDeltas(tx, 0, height) == [] && Stored(tx, 0, height) == map[];
    } else {
      ReplayOutputs(utxo, tx, n - 1, height);
      ReplayNextOutput(utxo, tx, n - 1, height);
    }
  }

  lemma ReplayNextOutput(utxo: Utxo, tx: Tx, i: nat, height: u64)
    requires i < |tx.outs| && Replay(utxo, OutDeltas(tx, i, height)) == utxo + Stored(tx, i, height)
    ensures Replay(utxo, OutDeltas(tx, i + 1, height)) == utxo + Stored(tx, i + 1, height)
  {
    var ds := OutDeltas(tx, i, height);
    assert OutDeltas(tx, i + 1, height) == ds + OutDelta(tx, i, height);
    ReplayConcat(utxo, ds, OutDelta(tx, i, height));
    ReplayAtMostOne(utxo + Stored(tx, i, height), utxo, tx, i, height);
  }

  /** One transaction's operations: its spends go, its storable outputs come. */
  lemma ReplayTx(utxo: Utxo, tx: Tx, height: u64)
    ensures Replay(utxo, TxDeltas(tx, height)) ==
            (if tx.isCoinbase then utxo else utxo - Keys(tx.ins, |tx.ins|)) + Stored(tx, |tx.outs|, height)
  {
    ReplayConcat(utxo, InDeltas(tx), OutDeltas(tx, |tx.outs|, height));
    assert tx.ins[..|tx.ins|] == tx.ins;
    ReplaySpends(utxo, tx.ins, |tx.ins|);
    ReplayOutputs(Replay(utxo, InDeltas(tx)), tx, |tx.outs|, height);
  }

  ghost predicate NoOpReturn(utxo: Utxo) { forall k :: k in utxo ==> !IsOpReturn(utxo[k].script) }

  /** No id of the block occurs in the set, and no two transactions share one. */
  ghost predicate FreshBlock(block: seq<Tx>, utxo: Utxo) {
    && (forall i :: 0 <= i < |block| ==> forall k :: k in utxo ==> k.txid != block[i].txid)
    && (forall i, j :: 0 <= i < j < |block| ==> block[i].txid != block[j].txid)
  }

  /** Everything in the validator's index comes from the set or from an earlier, non-coinbase
      transaction of the block. */
  ghost predicate Provenance(v: Utxo, block: seq<Tx>, n: nat, utxo: Utxo)
    requires n <= |block|
  {
    forall k :: k in v ==> k in utxo || exists j :: 1 <= j < n && k.txid == block[j].txid && k.vout < |block[j].outs|
  }

  /** What an accepting judge guarantees about the inputs, whatever else it checks. */
  ghost predicate SpendsStorable(j: Judge) {
    forall tx: Tx, utxo: Utxo :: j.verdict(tx, utxo).Accept? ==>
      forall i :: 0 <= i < |tx.ins| ==> KeyOf(tx.ins[i]) in utxo && !IsOpReturn(utxo[KeyOf(tx.ins[i])].script)
  }

  /** OP_RETURN entries sit in the validator's index but can never be spent from it. */
  lemma ConsensusSpendsStorable(height: u64, lim: Limits, c: Crypto)
    ensures SpendsStorable(ConsensusJudge(height, lim, c))
  {
    forall tx: Tx, utxo: Utxo | TxVerdict(tx, utxo, height, lim, c).Accept?
      ensures forall i :: 0 <= i < |tx.ins| ==> KeyOf(tx.ins[i]) in utxo && !IsOpReturn(utxo[KeyOf(tx.ins[i])].script)
    {
      AcceptedExactlyWhen(tx, utxo, height, lim, c);
      forall i | 0 <= i < |tx.ins| ensures KeyOf(tx.ins[i]) in utxo && !IsOpReturn(utxo[KeyOf(tx.ins[i])].script) {
        assert Authorised(tx, i, utxo[KeyOf(tx.ins[i])], lim, c);
      }
    }
  }

  lemma StepKeepsProvenance(block: seq<Tx>, n: nat, utxo: Utxo, j: Judge)
    requires n < |block|
    requires RunBlock(block, n, utxo, j).Running? && Provenance(RunBlock(block, n, utxo, j).utxo, block, n, utxo)
    requires RunBlock(block, n + 1, utxo, j).Running?
    ensures Provenance(RunBlock(block, n + 1, utxo, j).utxo, block, n + 1, utxo)
  {
    CreatedExactly(block[n], |block[n].outs|, j.height);
  }

  lemma {:induction false} RunKeepsProvenance(block: seq<Tx>, n: nat, utxo: Utxo, j: Judge)
    requires n <= |block| && RunBlock(block, n, utxo, j).Running?
    ensures Provenance(RunBlock(block, n, utxo, j).utxo, block, n, utxo)
  {
    if n > 0 {
      RunKeepsProvenance(block, n - 1, utxo, j);
      StepKeepsProvenance(block, n - 1, utxo, j);
    }
  }

  /** In an accepted block every input names an entry of the set before the block or an output
      of a strictly earlier, non-coinbase transaction, whether or not ids repeat. */
  lemma InputsComeFromEarlier(block: seq<Tx>, utxo: Utxo, height: u64, lim: Limits, c: Crypto, n: nat, i: nat)
    requires BlockOutcome(block, utxo, ConsensusJudge(height, lim, c)).Accepted?
    requires 1 <= n < |block| && i < |block[n].ins|
    ensures !block[n].isCoinbase
    ensures var k := KeyOf(block[n].ins[i]);
            k in utxo || exists e :: 1 <= e < n && k.txid == block[e].txid && k.vout < |block[e].outs|
  {
    ConsensusSpendsStorable(height, lim, c);
    JudgedInputsComeFromEarlier(block, utxo, ConsensusJudge(height, lim, c), n, i);
  }

  lemma JudgedInputsComeFromEarlier(block: seq<Tx>, utxo: Utxo, j: Judge, n: nat, i: nat)
    requires RunBlock(block, |block|, utxo, j).Running? && SpendsStorable(j)
    requires 1 <= n < |block| && i < |block[n].ins|
    ensures !block[n].isCoinbase
    ensures var k := KeyOf(block[n].ins[i]);
            k in utxo || exists e :: 1 <= e < n && k.txid == block[e].txid && k.vout < |block[e].outs|
  {
    RunningUpTo(block, n + 1, |block|, utxo, j);
    AcceptedAt(block, n, utxo, j);
    RunKeepsProvenance(block, n, utxo, j);
  }

  lemma {:induction false} RunningUpTo(block: seq<Tx>, n: nat, m: nat, utxo: Utxo, j: Judge)
    requires n <= m <= |block| && RunBlock(block, m, utxo, j).Running?
    ensures RunBlock(block, n, utxo, j).Running?
  {
    if n < m { RunningUpTo(block, n, m - 1, utxo, j); }
  }

  lemma AcceptedAt(block: seq<Tx>, n: nat, utxo: Utxo, j: Judge)
    requires 1 <= n < |block| && RunBlock(block, n + 1, utxo, j).Running?
    ensures RunBlock(block, n, utxo, j).Running? && !block[n].isCoinbase
    ensures j.verdict(block[n], RunBlock(block, n, utxo, j).utxo).Accept?
  {
  }

  /** The algebra of one step: dropping OP_RETURN and adding the coinbase commute with
      spending and creating, when the created keys are new and the coinbase is untouched. */
  lemma MapsCommute(v: Utxo, coinbase: Utxo, keys: set<Outpoint>, created: Utxo)
    requires forall k :: k in created ==> k !in v && k !in coinbase
    requires forall k :: k in keys ==> k !in coinbase
    ensures DropOpReturn((v - keys) + created) + coinbase == ((DropOpReturn(v) + coinbase) - keys) + DropOpReturn(created)
  {
    assert DropOpReturn((v - keys) + created) == (DropOpReturn(v) - keys) + DropOpReturn(created);
    Swapped(DropOpReturn(v), keys, DropOpReturn(created), coinbase);
  }

  lemma Swapped<K, V>(a: map<K, V>, keys: set<K>, b: map<K, V>, c: map<K, V>)
    requires keys !! c.Keys && b.Keys !! c.Keys
    ensures ((a - keys) + b) + c == ((a + c) - keys) + b
  {
  }

  /** One accepted transaction takes a set that agrees with the index to one that agrees
      with the next index. */
  lemma StepAgrees(tx: Tx, v: Utxo, coinbase: Utxo, height: u64)
    requires !tx.isCoinbase
    requires forall k :: k in v ==> k.txid != tx.txid
    requires forall k :: k in coinbase ==> k.txid != tx.txid && k !in v
    requires forall i :: 0 <= i < |tx.ins| ==> KeyOf(tx.ins[i]) in v
    ensures Replay(DropOpReturn(v) + coinbase, TxDeltas(tx, height)) == DropOpReturn(Applied(tx, v, height)) + coinbase
  {
    ReplayTx(DropOpReturn(v) + coinbase, tx, height);
    StoredIsCreatedWithoutOpReturn(tx, height);
    CreatedExactly(tx, |tx.outs|, height);
    MapsCommute(v, coinbase, Keys(tx.ins, |tx.ins|), Created(tx, |tx.outs|, height));
  }

  lemma ReplayCoinbase(utxo: Utxo, coinbase: Tx, height: u64)
    requires coinbase.isCoinbase && NoOpReturn(utxo)
    ensures Replay(utxo, TxDeltas(coinbase, height)) == DropOpReturn(utxo) + Stored(coinbase, |coinbase.outs|, height)
  {
    ReplayTx(utxo, coinbase, height);
    assert DropOpReturn(utxo) == utxo;
  }

  /** The replayed changes of a prefix give the validator's index without OP_RETURN entries,
      plus the stored coinbase outputs. */
  ghost predicate Agrees(d: Utxo, block: seq<Tx>, n: nat, utxo: Utxo, j: Judge)
    requires 1 <= n <= |block|
  {
    var s := RunBlock(block, n, utxo, j);
    s.Running? && d == DropOpReturn(s.utxo) + Stored(block[0], |block[0].outs|, j.height)
  }

  lemma IdsStayFresh(block: seq<Tx>, n: nat, utxo: Utxo, j: Judge)
    requires 1 <= n < |block| && RunBlock(block, n, utxo, j).Running? && FreshBlock(block, utxo)
    ensures var v, coinbase := RunBlock(block, n, utxo, j).utxo, Stored(block[0], |block[0].outs|, j.height);
            && (forall k :: k in v ==> k.txid != block[n].txid)
            && (forall k :: k in coinbase ==> k.txid != block[n].txid && k !in v)
  {
    RunKeepsProvenance(block, n, utxo, j);
    StoredExactly(block[0], |block[0].outs|, j.height);
  }

  lemma JudgedArePresent(j: Judge, tx: Tx, v: Utxo)
    requires SpendsStorable(j) && j.verdict(tx, v).Accept?
    ensures forall i :: 0 <= i < |tx.ins| ==> KeyOf(tx.ins[i]) in v
  {
  }

  lemma NextAgrees(d: Utxo, block: seq<Tx>, n: nat, utxo: Utxo, j: Judge)
    requires 2 <= n <= |block| && RunBlock(block, n, utxo, j).Running?
    requires SpendsStorable(j) && FreshBlock(block, utxo)
    requires Agrees(d, block, n - 1, utxo, j)
    ensures Agrees(Replay(d, TxDeltas(block[n - 1], j.height)), block, n, utxo, j)
  {
    var tx, s := block[n - 1], RunBlock(block, n - 1, utxo, j);
    assert RunBlock(block, n, utxo, j) == Step(tx, false, s, j);
    JudgedArePresent(j, tx, s.utxo);
    IdsStayFresh(block, n - 1, utxo, j);
    StepAgrees(tx, s.utxo, Stored(block[0], |block[0].outs|, j.height), j.height);
  }

  /** The stored set after the first `n` transactions, when `deltas` gives the changes of one. */
  function SetAfter(deltas: Tx -> seq<Delta>, block: seq<Tx>, n: nat, utxo: Utxo): Utxo
    requires n <= |block|
  {
    if n == 0 then utxo else Replay(SetAfter(deltas, block, n - 1, utxo), deltas(block[n - 1]))
  }

  lemma {:induction false} SetAfterIsReplay(deltas: Tx -> seq<Delta>, block: seq<Tx>, n: nat, utxo: Utxo)
    requires n <= |block|
    ensures SetAfter(deltas, block, n, utxo) == Replay(utxo, ConcatDeltas(deltas, block, n))
  {
    if n > 0 {
      SetAfterIsReplay(deltas, block, n - 1, utxo);
      ReplayConcat(utxo, ConcatDeltas(deltas, block, n - 1), deltas(block[n - 1]));
    }
  }

  ghost predicate DeltaKeeps(deltas: Tx -> seq<Delta>, block: seq<Tx>, m: nat, d: Utxo, ok: (nat, Utxo) -> bool) {
    2 <= m <= |block| && ok(m - 1, d) ==> ok(m, Replay(d, deltas(block[m - 1])))
  }

  /** What the first delta establishes and every further one keeps holds after all of them. */
  lemma {:induction false} DeltasKeep(deltas: Tx -> seq<Delta>, block: seq<Tx>, n: nat, utxo: Utxo, ok: (nat, Utxo) -> bool)
    requires 1 <= n <= |block| && ok(1, SetAfter(deltas, block, 1, utxo))
    requires forall m: nat, d: Utxo :: DeltaKeeps(deltas, block, m, d, ok)
    ensures ok(n, SetAfter(deltas, block, n, utxo))
  {
    if n > 1 {
      DeltasKeep(deltas, block, n - 1, utxo, ok);
      assert DeltaKeeps(deltas, block, n, SetAfter(deltas, block, n - 1, utxo), ok);
    }
  }

  /** A set agrees with the index after `m` transactions, as far as the block is accepted. */
  ghost predicate AgreesUpTo(block: seq<Tx>, n: nat, utxo: Utxo, j: Judge, m: nat, d: Utxo) {
    1 <= m <= |block| && (m <= n ==> Agrees(d, block, m, utxo, j))
  }

  lemma DeltaKeepsAgreement(block: seq<Tx>, n: nat, utxo: Utxo, j: Judge, m: nat, d: Utxo)
    requires 2 <= m <= |block| && n <= |block| && RunBlock(block, n, utxo, j).Running?
    requires SpendsStorable(j) && FreshBlock(block, utxo) && AgreesUpTo(block, n, utxo, j, m - 1, d)
    ensures AgreesUpTo(block, n, utxo, j, m, Replay(d, TxDeltas(block[m - 1], j.height)))
  {
    if m <= n {
      RunningUpTo(block, m, n, utxo, j);
      NextAgrees(d, block, m, utxo, j);
    }
  }

  ghost function Agreement(block: seq<Tx>, n: nat, utxo: Utxo, j: Judge): (nat, Utxo) -> bool {
    (m: nat, d: Utxo) => AgreesUpTo(block, n, utxo, j, m, d)
  }

  lemma DeltasKeepAgreement(block: seq<Tx>, n: nat, utxo: Utxo, j: Judge)
    requires n <= |block| && RunBlock(block, n, utxo, j).Running? && SpendsStorable(j) && FreshBlock(block, utxo)
    ensures forall m: nat, d: Utxo :: DeltaKeeps(DeltasAt(j.height), block, m, d, Agreement(block, n, utxo, j))
  {
    forall m: nat, d: Utxo ensures DeltaKeeps(DeltasAt(j.height), block, m, d, Agreement(block, n, utxo, j)) {
      KeepsAgreementAt(block, n, utxo, j, m, d);
    }
  }

  lemma KeepsAgreementAt(block: seq<Tx>, n: nat, utxo: Utxo, j: Judge, m: nat, d: Utxo)
    requires n <= |block| && RunBlock(block, n, utxo, j).Running? && SpendsStorable(j) && FreshBlock(block, utxo)
    ensures DeltaKeeps(DeltasAt(j.height), block, m, d, Agreement(block, n, utxo, j))
  {
    if 2 <= m <= |block| {
      if AgreesUpTo(block, n, utxo, j, m - 1, d) { DeltaKeepsAgreement(block, n, utxo, j, m, d); }
      AgreementKept(block, n, utxo, j, m, d, Replay(d, TxDeltas(block[m - 1], j.height)));
    }
  }

  lemma AgreementKept(block: seq<Tx>, n: nat, utxo: Utxo, j: Judge, m: nat, d: Utxo, d': Utxo)
    requires 2 <= m <= |block| && n <= |block| && d' == Replay(d, TxDeltas(block[m - 1], j.height))
    requires AgreesUpTo(block, n, utxo, j, m - 1, d) ==> AgreesUpTo(block, n, utxo, j, m, d')
    ensures DeltaKeeps(DeltasAt(j.height), block, m, d, Agreement(block, n, utxo, j))
  {
  }

  lemma PrefixAgrees(block: seq<Tx>, n: nat, utxo: Utxo, j: Judge) returns (d: Utxo)
    requires 1 <= n <= |block| && RunBlock(block, n, utxo, j).Running?
    requires SpendsStorable(j) && NoOpReturn(utxo) && FreshBlock(block, utxo)
    ensures d == SetAfter(DeltasAt(j.height), block, n, utxo) && Agrees(d, block, n, utxo, j)
  {
    RunningUpTo(block, 1, n, utxo, j);
    var first := FirstAgrees(block, utxo, j);
    DeltasKeepAgreement(block, n, utxo, j);
    DeltasKeep(DeltasAt(j.height), block, n, utxo, Agreement(block, n, utxo, j));
    d := SetAfter(DeltasAt(j.height), block, n, utxo);
  }

  lemma FirstAgrees(block: seq<Tx>, utxo: Utxo, j: Judge) returns (d: Utxo)
    requires block != [] && RunBlock(block, 1, utxo, j).Running? && NoOpReturn(utxo)
    ensures d == SetAfter(DeltasAt(j.height), block, 1, utxo) && Agrees(d, block, 1, utxo, j)
  {
    assert RunBlock(block, 0, utxo, j) == Running(utxo, [], 0);
    assert RunBlock(block, 1, utxo, j) == Step(block[0], true, Running(utxo, [], 0), j);
    assert SetAfter(DeltasAt(j.height), block, 0, utxo) == utxo;
    ReplayCoinbase(utxo, block[0], j.height);
    d := Replay(utxo, TxDeltas(block[0], j.height));
  }

  /** What the stored set must be after an accepted block: the validator's final index
      without OP_RETURN outputs, plus the coinbase's storable outputs. */
  ghost function AfterBlock(block: seq<Tx>, utxo: Utxo, j: Judge): Utxo
    requires BlockOutcome(block, utxo, j).Accepted?
  {
    DropOpReturn(RunBlock(block, |block|, utxo, j).utxo) + Stored(block[0], |block[0].outs|, j.height)
  }

  /** For every accepted block with fresh, pairwise different ids, over a set without
      OP_RETURN entries, replaying the delta gives exactly that set. */
  lemma DeltaAgreesWithValidator(block: seq<Tx>, utxo: Utxo, height: u64, lim: Limits, c: Crypto)
    requires BlockOutcome(block, utxo, ConsensusJudge(height, lim, c)).Accepted?
    requires NoOpReturn(utxo) && FreshBlock(block, utxo)
    ensures Replay(utxo, BlockDeltas(block, |block|, height)) == AfterBlock(block, utxo, ConsensusJudge(height, lim, c))
  {
    ConsensusSpendsStorable(height, lim, c);
    var d := PrefixAgrees(block, |block|, utxo, ConsensusJudge(height, lim, c));
    SetAfterIsReplay(DeltasAt(height), block, |block|, utxo);
  }

  /** The write path on bytes: whatever the library does, after a successful commit the
      database stands for the replayed set, and after a failed one for the old set. */
  method StoreBlock(store: LmdbBackend, block: seq<Tx>, height: u64, ghost utxo: Utxo) returns (r: Outcome)
    requires store.Valid() && Represents(store.Contents("utxo"), utxo)
    modifies store
    ensures store.Valid()
    ensures Represents(store.Contents("utxo"), if r == Ok then Replay(utxo, BlockDeltas(block, |block|, height)) else utxo)
  {
    var ops := UtxoBuildOpsCompact(block, height);
    ghost var before, ds := store.Contents("utxo"), BlockDeltas(block, |block|, height);
    var puts, dels;
    r, puts, dels := store.ApplyUtxoOps(ops);
    assert store.Contents("utxo") == if r == Ok then ApplyOps(before, Image(BatchOp, ops)) else before;
    BatchRefinesReplay(before, utxo, ds);
  }

  /** Validate, then store: the two halves of accepting a block leave a database that stands
      for the validator's own result. */
  method AcceptBlock(store: LmdbBackend, block: seq<Tx>, items: seq<(Outpoint, Entry)>, height: u64, lim: Limits, c: Crypto)
    returns (verdict: BlockVerdict, r: Outcome)
    requires store.Valid() && Represents(store.Contents("utxo"), IndexOf(items))
    requires NoOpReturn(IndexOf(items)) && FreshBlock(block, IndexOf(items))
    modifies store
    ensures verdict == BlockOutcome(block, IndexOf(items), ConsensusJudge(height, lim, c))
    ensures verdict.Accepted? && r == Ok ==>
              Represents(store.Contents("utxo"), AfterBlock(block, IndexOf(items), ConsensusJudge(height, lim, c)))
    ensures verdict.Rejected? || r == Err ==> Represents(store.Contents("utxo"), IndexOf(items))
  {
    verdict := ValidateBlockTxsCompact(block, items, height, lim, c);
    r := Err;
    if verdict.Accepted? {
      r := StoreBlock(store, block, height, IndexOf(items));
      DeltaAgreesWithValidator(block, IndexOf(items), height, lim, c);
    }
  }
}
