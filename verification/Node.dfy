/** A running node: blocks are measured, judged on a snapshot of the dictionary, and change
    first the dictionary and then the database; the dictionary is flushed now and then and read
    back at a restart. */
module Node {
  import opened Bytes
  import opened TxCodec
  import opened Sighash
  import opened Validation
  import opened UtxoRecord
  import opened Storage
  import opened UtxoDelta
  import opened Value
  import opened Ledger
  import opened Chain
  import opened Script
  import opened Dictionary
  import opened UtxoStore
  import opened Snapshot
  import Scan = PrefixScan

  /** What a long script does to the record: an output nobody can spend decodes as one that a
      key hash can. */
  lemma LongScriptComesBackSpendable(e: Entry, tail: Bytes, hash20: Bytes)
    requires |hash20| == 20 && |tail| == 0x1_0000 && e.script == [0x00, 0x14] + hash20 + tail
    ensures DetectScriptKind(e.script) == None
    ensures DecodeEntry(EncodeEntry(e)).Some?
    ensures DetectScriptKind(DecodeEntry(EncodeEntry(e)).value.script) == Some(P2wpkh(hash20))
  {
    var v := EncodeEntry(e);
    EntryFields(e);
    PowConstants();
    LERoundTrip(2, |e.script| % 0x1_0000);
    assert |e.script| % 0x1_0000 == 22;
    var back := v[19..19 + 22];
    assert back == v[19..][..22] == e.script[..22] == [0x00, 0x14] + hash20;
    assert back[2..] == hash20;
  }

  // ---------- the limits of the node ----------

  /** The measures the node takes of a transaction, in integers without bound. */
  predicate WithinGuardrails(tx: Tx, lim: Limits, maxBytes: nat) {
    var weight := 3 * BaseSize(tx) + TotalSize(tx);
    && TotalSize(tx) <= maxBytes
    && lim.minTxVsize <= (weight + 3) / 4 <= lim.maxTxVsize
    && lim.minTxWeight <= weight <= lim.maxTxWeight
    && |tx.ins| <= lim.maxTxInputs && |tx.outs| <= lim.maxTxOutputs
  }

  predicate Guarded(txs: seq<Tx>, lim: Limits, maxBytes: nat) {
    forall i :: 0 <= i < |txs| ==> WithinGuardrails(txs[i], lim, maxBytes)
  }

  /** Measures every transaction of a block, the coinbase too. */
  method ValidateTxGuardrails(txs: seq<Tx>, lim: Limits, maxBytes: nat) returns (ok: bool)
    ensures ok <==> Guarded(txs, lim, maxBytes)
  {
    for i := 0 to |txs|
      invariant forall k :: 0 <= k < i ==> WithinGuardrails(txs[k], lim, maxBytes)
    {
      ok := MeasureTx(txs[i], lim, maxBytes);
      if !ok { return false; }
    }
    return true;
  }

  method MeasureTx(tx: Tx, lim: Limits, maxBytes: nat) returns (ok: bool)
    ensures ok <==> WithinGuardrails(tx, lim, maxBytes)
  {
    var total := |TxCodec.Serialize(tx, true)|;
    if total > maxBytes { return false; }
    var base := |TxCodec.Serialize(tx, false)|;
    var weight := base * 3 + total;
    var vsize := (weight + 3) / 4;
    if !(lim.minTxVsize <= vsize <= lim.maxTxVsize) { return false; }
    if !(lim.minTxWeight <= weight <= lim.maxTxWeight) { return false; }
    return |tx.ins| <= lim.maxTxInputs && |tx.outs| <= lim.maxTxOutputs;
  }

  lemma SizesExact(tx: Tx)
    requires 4 * TotalSize(tx) + 3 < U64_LIMIT
    ensures Weight(tx) == 3 * BaseSize(tx) + TotalSize(tx) && Vsize(tx) == (3 * BaseSize(tx) + TotalSize(tx) + 3) / 4
  {
    SizesDiffer(tx);
    VsizeArithmetic(BaseSize(tx), TotalSize(tx));
    ModFits(Weight(tx) + 3);
  }

  /** The node and the native validator measure alike, so what the node adds is the byte limit
      and that the coinbase is measured too. */
  lemma GuardrailsAreLimits(tx: Tx, lim: Limits, maxBytes: nat)
    requires 4 * TotalSize(tx) + 3 < U64_LIMIT
    ensures WithinGuardrails(tx, lim, maxBytes) <==> TotalSize(tx) <= maxBytes && LimitError(tx, lim).None?
  {
    SizesExact(tx);
  }

  predicate ShortOutputs(tx: Tx) { forall i :: 0 <= i < |tx.outs| ==> |tx.outs[i].script| < 0x1_0000 }

  lemma {:induction false} ScriptFits(outs: seq<TxOut>, i: nat)
    requires i < |outs|
    ensures |outs[i].script| <= |Flat(EncOut, outs)|
  {
    if i > 0 { ScriptFits(outs[1..], i - 1); }
  }

  /** Within the node's limits no transaction, coinbase or not, has a long script. */
  lemma GuardedIsShort(tx: Tx, lim: Limits, maxBytes: nat)
    requires WithinGuardrails(tx, lim, maxBytes) && lim.maxTxVsize < 0x1_0000
    ensures ShortOutputs(tx)
  {
    SizesDiffer(tx);
    forall i | 0 <= i < |tx.outs| ensures |tx.outs[i].script| < 0x1_0000 {
      ScriptFits(tx.outs, i);
      assert |Flat(EncOut, tx.outs)| <= BaseSize(tx);
    }
  }

  // ---------- what a block adds ----------

  /** Every added script has the property. */
  ghost predicate AddsAre(ds: seq<Delta>, ok: Bytes -> bool) { forall i :: 0 <= i < |ds| && ds[i].Add? ==> ok(ds[i].e.script) }

  /** Every stored output's script has the property. */
  ghost predicate OutputsAre(tx: Tx, ok: Bytes -> bool) {
    forall i :: 0 <= i < |tx.outs| && !IsOpReturn(tx.outs[i].script) ==> ok(tx.outs[i].script)
  }

  lemma {:induction false} OutAddsAre(tx: Tx, n: nat, height: u64, ok: Bytes -> bool)
    requires n <= |tx.outs| && OutputsAre(tx, ok)
    ensures AddsAre(OutDeltas(tx, n, height), ok)
  {
    if n > 0 { OutAddsAre(tx, n - 1, height, ok); }
  }

  lemma {:induction false} BlockAddsAre(b: Block, n: nat, ok: Bytes -> bool)
    requires n <= |b.txs| && forall i :: 0 <= i < n ==> OutputsAre(b.txs[i], ok)
    ensures AddsAre(BlockDeltas(b.txs, n, b.height), ok)
  {
    if n > 0 {
      BlockAddsAre(b, n - 1, ok);
      OutAddsAre(b.txs[n - 1], |b.txs[n - 1].outs|, b.height, ok);
    }
  }

  /** Every script of the set can be read back from its record. */
  ghost predicate Readable(utxo: Utxo) { forall k :: k in utxo ==> ComesBack(utxo[k].script) }

  lemma {:induction false} ReplayKeepsReadable(utxo: Utxo, ds: seq<Delta>)
    requires Readable(utxo) && AddsAre(ds, ComesBack)
    ensures Readable(Replay(utxo, ds))
  {
    if ds != [] { ReplayKeepsReadable(utxo, ds[..|ds| - 1]); }
  }

  /** Every stored script is written as shortly as can be. All scripts that arrive as hexadecimal
      text are, by RewrittenSurvives. */
  predicate Canonical(b: Block) {
    forall t, i :: 0 <= t < |b.txs| && 0 <= i < |b.txs[t].outs| ==> IsOpReturn(b.txs[t].outs[i].script) || Survives(b.txs[t].outs[i].script)
  }

  function DeltasOf(b: Block): seq<Delta> { BlockDeltas(b.txs, |b.txs|, b.height) }

  function OpsOf(b: Block): seq<UtxoOp> { Image(Render, DeltasOf(b)) }

  lemma CanonicalSurvives(b: Block)
    requires Canonical(b)
    ensures AddsSurvive(DeltasOf(b)) && OpsSurvive(OpsOf(b))
  {
    BlockAddsAre(b, |b.txs|, Survives);
  }

  lemma OpKeys(b: Block)
    ensures forall i :: 0 <= i < |OpsOf(b)| ==> IsKey(OpsOf(b)[i].key)
  {
    forall i | 0 <= i < |OpsOf(b)| ensures IsKey(OpsOf(b)[i].key) { assert OpsOf(b)[i].key == KeyString(DeltasOf(b)[i].k); }
  }

  lemma BlockKeepsReadable(b: Block, utxo: Utxo, lim: Limits, maxBytes: nat)
    requires Canonical(b) && Guarded(b.txs, lim, maxBytes) && lim.maxTxVsize < 0x1_0000 && Readable(utxo)
    ensures Readable(Replay(utxo, DeltasOf(b)))
  {
    forall t | 0 <= t < |b.txs| ensures OutputsAre(b.txs[t], ComesBack) { GuardedIsShort(b.txs[t], lim, maxBytes); }
    BlockAddsAre(b, |b.txs|, ComesBack);
    ReplayKeepsReadable(utxo, DeltasOf(b));
  }

  // ---------- one block ----------

  /** What the node demands of a block: the rules outside this model, the measures, the verdict
      on the whole set, and that no entry is hidden from its snapshot. */
  ghost predicate Qualifies(b: Block, passes: bool, utxo: Utxo, lim: Limits, maxBytes: nat, c: Crypto) {
    && passes && Guarded(b.txs, lim, maxBytes)
    && BlockOutcome(b.txs, utxo, JudgeFor(b, lim, c)).Accepted? && NothingHidden(b.txs, utxo)
  }

  datatype Reply = Refused | Added | NotSaved | Flushed(f: Flushing) | Restarted

  /** The dictionary and the database after a block: both, or with a failed batch the
      dictionary alone. */
  ghost predicate Took(r: Reply, b: Block, m: Mem, db: Db, m': Mem, db': Db) {
    var moved := MemOps(m, OpsOf(b)).mem;
    match r
    case Refused => m' == m && db' == db
    case Added => m' == Mem(moved.coins, {}, {}, false) && db' == ApplyOps(db, Image(BatchOp, OpsOf(b)))
    case NotSaved => m' == moved && db' == db
    case _ => false
  }

  /** The judgement, on the dictionary alone. */
  method ValidateTransactions(coins: Coins, b: Block, passes: bool, lim: Limits, maxBytes: nat, c: Crypto) returns (ok: bool)
    ensures ok <==> Qualifies(b, passes, Shown(coins), lim, maxBytes, c)
  {
    ghost var utxo := Shown(coins);
    ShowsExactly(coins, utxo);
    if !passes { return false; }
    ok := ValidateTxGuardrails(b.txs, lim, maxBytes);
    if ok {
      var v := ValidateOnSnapshot(b.txs, coins, b.height, lim, c, utxo);
      ok := v.Some? && v.value.Accepted?;
    }
  }

  method TakeBlock(node: UtxoDb, b: Block, passes: bool, lim: Limits, maxBytes: nat, c: Crypto) returns (r: Reply)
    requires node.store.Valid() && Canonical(b)
    modifies node, node.store
    ensures node.store.Valid()
    ensures r == Refused <==> !Qualifies(b, passes, Shown(old(node.coins)), lim, maxBytes, c)
    ensures Took(r, b, old(node.State()), old(node.Db()), node.State(), node.Db())
  {
    var ok := ValidateTransactions(node.coins, b, passes, lim, maxBytes, c);
    if !ok { return Refused; }
    ShowsExactly(node.coins, Shown(node.coins));
    r := SaveBlock(node, b, Shown(node.coins));
  }

  method SaveBlock(node: UtxoDb, b: Block, ghost utxo: Utxo) returns (r: Reply)
    requires node.store.Valid() && Canonical(b) && Holds(node.coins, utxo)
    modifies node, node.store
    ensures node.store.Valid() && r != Refused
    ensures Took(r, b, old(node.State()), old(node.Db()), node.State(), node.Db())
  {
    CanonicalSurvives(b);
    MemOpsRefineReplay(node.State(), utxo, DeltasOf(b));
    var ops := UtxoBuildOpsCompact(b.txs, b.height);
    var applied := node.ApplyNativeOpsToState(ops);
    return if applied == Applied then Added else NotSaved;
  }

  // ---------- when a block could not be stored ----------

  /** The block changes nothing: there is only the coinbase, and only OP_RETURN outputs. */
  predicate Idle(b: Block) {
    |b.txs| == 1 && forall i :: 0 <= i < |b.txs[0].outs| ==> IsOpReturn(b.txs[0].outs[i].script)
  }

  lemma IdleChangesNothing(b: Block, utxo: Utxo)
    requires Idle(b) && b.txs[0].isCoinbase
    ensures Replay(utxo, DeltasOf(b)) == utxo
  {
    SetAfterIsReplay(DeltasAt(b.height), b.txs, 1, utxo);
    assert SetAfter(DeltasAt(b.height), b.txs, 0, utxo) == utxo;
    ReplayTx(utxo, b.txs[0], b.height);
    StoredExactly(b.txs[0], |b.txs[0].outs|, b.height);
  }

  lemma BlockRun(b: Block, utxo: Utxo, lim: Limits, c: Crypto) returns (run: seq<Placed>, sets: seq<Utxo>)
    requires BlockOutcome(b.txs, utxo, JudgeFor(b, lim, c)).Accepted? && NoOpReturn(utxo) && FreshBlock(b.txs, utxo)
    ensures run == Place(b) && GoodRun(run, sets, lim)
    ensures sets[0] == utxo && sets[|run|] == Replay(utxo, DeltasOf(b))
  {
    ConsensusJudgesProperly(b, lim, c);
    var fees;
    run, sets, fees := SuitableBlock(b, utxo, JudgeFor(b, lim, c), lim);
  }

  /** An accepted block starts with a coinbase, and what its second transaction spends was in
      the set before. */
  lemma FirstSpendsOld(b: Block, utxo: Utxo, lim: Limits, c: Crypto)
    requires BlockOutcome(b.txs, utxo, JudgeFor(b, lim, c)).Accepted?
    ensures b.txs != [] && b.txs[0].isCoinbase
    ensures |b.txs| > 1 ==> !b.txs[1].isCoinbase && b.txs[1].ins != [] && KeyOf(b.txs[1].ins[0]) in utxo
  {
    var j := JudgeFor(b, lim, c);
    RunningUpTo(b.txs, 1, |b.txs|, utxo, j);
    var before, after := RunStep(b.txs, 1, utxo, j);
    if |b.txs| > 1 {
      RunningUpTo(b.txs, 2, |b.txs|, utxo, j);
      before, after := RunStep(b.txs, 2, utxo, j);
      InputsComeFromEarlier(b.txs, utxo, b.height, lim, c, 1, 0);
    }
  }

  /** An accepted, fresh block leaves the set as it is exactly if it is idle. */
  lemma SetUnchangedExactlyWhen(b: Block, utxo: Utxo, lim: Limits, c: Crypto)
    requires BlockOutcome(b.txs, utxo, JudgeFor(b, lim, c)).Accepted? && NoOpReturn(utxo) && FreshBlock(b.txs, utxo)
    ensures Replay(utxo, DeltasOf(b)) == utxo <==> Idle(b)
  {
    FirstSpendsOld(b, utxo, lim, c);
    if Idle(b) {
      IdleChangesNothing(b, utxo);
    } else {
      BusyChangesSet(b, utxo, lim, c);
    }
  }

  lemma BusyChangesSet(b: Block, utxo: Utxo, lim: Limits, c: Crypto)
    requires BlockOutcome(b.txs, utxo, JudgeFor(b, lim, c)).Accepted? && NoOpReturn(utxo) && FreshBlock(b.txs, utxo)
    requires !Idle(b)
    ensures Replay(utxo, DeltasOf(b)) != utxo
  {
    var run, sets := BlockRun(b, utxo, lim, c);
    FirstSpendsOld(b, utxo, lim, c);
    if |b.txs| > 1 {
      var k := KeyOf(b.txs[1].ins[0]);
      assert Spends(run[1], k);
      UnspentExactly(run, sets, lim, |run|, k);
    } else {
      var o :| 0 <= o < |b.txs[0].outs| && !IsOpReturn(b.txs[0].outs[o].script);
      var k := Outpoint(b.txs[0].txid, o);
      assert Creates(run[0], k);
      UnspentExactly(run, sets, lim, 1, k);
    }
  }

  /** A database stands for one readable set only. */
  lemma RepresentsOne(db: Db, a: Utxo, b: Utxo)
    requires Represents(db, a) && Represents(db, b) && Readable(a) && Readable(b)
    ensures a == b
  {
    forall k: Outpoint ensures (k in a <==> k in b) && (k in a ==> a[k] == b[k]) {
      if k in a {
        EntryRoundTripExactlyWhen(a[k]);
        EntryRoundTripExactlyWhen(b[k]);
      }
    }
  }

  /** Dictionary and database, in step before an accepted block, are in step after its failed
      batch exactly if the block changes nothing. */
  lemma FailedSaveInStepExactlyWhen(b: Block, utxo: Utxo, m: Mem, db: Db, m': Mem, lim: Limits, maxBytes: nat, c: Crypto)
    requires Qualifies(b, true, utxo, lim, maxBytes, c) && FreshBlock(b.txs, utxo) && Canonical(b) && lim.maxTxVsize < 0x1_0000
    requires Holds(m.coins, utxo) && InStep(m.coins, db) && Readable(utxo) && Took(NotSaved, b, m, db, m', db)
    ensures InStep(m'.coins, db) <==> Idle(b)
  {
    var utxo' := Replay(utxo, DeltasOf(b));
    CanonicalSurvives(b);
    MemOpsRefineReplay(m, utxo, DeltasOf(b));
    InStepExactlyWhen(m.coins, db, utxo);
    InStepExactlyWhen(m'.coins, db, utxo');
    BlockKeepsReadable(b, utxo, lim, maxBytes);
    if InStep(m'.coins, db) { RepresentsOne(db, utxo, utxo'); }
    SetUnchangedExactlyWhen(b, utxo, lim, c);
  }

  /** A restart after the failed batch brings back the set before the block, which is the chain's
      set only for an idle block. */
  lemma RestartAfterFailedSave(b: Block, utxo: Utxo, coins: Coins, db: Db, lim: Limits, c: Crypto)
    requires BlockOutcome(b.txs, utxo, JudgeFor(b, lim, c)).Accepted? && FreshBlock(b.txs, utxo) && Readable(utxo)
    requires Holds(coins, utxo) && InStep(coins, db) && OwnKeys(db)
    ensures Loaded(db).Some? && Holds(Loaded(db).value, utxo)
    ensures Holds(Loaded(db).value, Replay(utxo, DeltasOf(b))) <==> Idle(b)
  {
    InStepExactlyWhen(coins, db, utxo);
    ReloadExactlyWhen(db, utxo);
    ShowsExactly(Loaded(db).value, utxo);
    ShowsExactly(Loaded(db).value, Replay(utxo, DeltasOf(b)));
    SetUnchangedExactlyWhen(b, utxo, lim, c);
  }

  /** A block stored after one that was not: the dictionary shows both, the database stands for
      the second alone, no mark is left, and the two are in step exactly if they agreed before
      wherever the second block does not write. */
  lemma LaterSaveForgets(b1: Block, b2: Block, utxo: Utxo, m: Mem, db: Db, m1: Mem, m2: Mem, db2: Db)
    requires Canonical(b1) && Canonical(b2) && Holds(m.coins, utxo) && InStep(m.coins, db)
    requires Took(NotSaved, b1, m, db, m1, db) && Took(Added, b2, m1, db, m2, db2)
    ensures Holds(m2.coins, Replay(Replay(utxo, DeltasOf(b1)), DeltasOf(b2)))
    ensures Represents(db2, Replay(utxo, DeltasOf(b2)))
    ensures !m2.dirty && m2.dirtyKeys == m2.removedKeys == {}
    ensures InStep(m2.coins, db2) <==> forall key :: IsKey(key) && !Mentions(OpsOf(b2), key) ==> AgreeAt(m1.coins, db, key)
  {
    CanonicalSurvives(b1);
    CanonicalSurvives(b2);
    MemOpsRefineReplay(m, utxo, DeltasOf(b1));
    MemOpsRefineReplay(m1, Replay(utxo, DeltasOf(b1)), DeltasOf(b2));
    InStepExactlyWhen(m.coins, db, utxo);
    BatchRefinesReplay(db, utxo, DeltasOf(b2));
    StoredInStepExactlyWhen(m1, db, OpsOf(b2));
  }
}
