/** Sequences of accepted blocks are runs in the sense of the ledger: what one block leaves
    in the database is what the next one is validated against. */
module Chain {
  import opened Bytes
  import opened TxCodec
  import opened Validation
  import opened UtxoDelta
  import opened Value
  import opened Ledger

  datatype Block = Block(txs: seq<Tx>, height: u64)

  function JudgeFor(b: Block, lim: Limits, c: Crypto): Judge { ConsensusJudge(b.height, lim, c) }

  /** The stored set after a sequence of blocks: each delta replayed on the one before. */
  function SetOf(blocks: seq<Block>, genesis: Utxo): Utxo {
    if blocks == [] then genesis
    else
      var b := blocks[|blocks| - 1];
      Replay(SetOf(blocks[..|blocks| - 1], genesis), BlockDeltas(b.txs, |b.txs|, b.height))
  }

  /** Every block was accepted on the set its predecessors stored. */
  predicate AcceptedChain(blocks: seq<Block>, genesis: Utxo, lim: Limits, c: Crypto) {
    blocks == [] ||
    var init, b := blocks[..|blocks| - 1], blocks[|blocks| - 1];
    AcceptedChain(init, genesis, lim, c) && BlockOutcome(b.txs, SetOf(init, genesis), JudgeFor(b, lim, c)).Accepted?
  }

  /** The fees the validator reported, over all blocks. */
  function ReportedFees(blocks: seq<Block>, genesis: Utxo, lim: Limits, c: Crypto): nat
    requires AcceptedChain(blocks, genesis, lim, c)
  {
    if blocks == [] then 0
    else
      var init, b := blocks[..|blocks| - 1], blocks[|blocks| - 1];
      ReportedFees(init, genesis, lim, c) + SumFees(BlockOutcome(b.txs, SetOf(init, genesis), JudgeFor(b, lim, c)).fees)
  }

  function Place(b: Block): (run: seq<Placed>)
    ensures |run| == |b.txs| && forall i :: 0 <= i < |run| ==> run[i] == Placed(b.txs[i], b.height)
  {
    seq(|b.txs|, i requires 0 <= i < |b.txs| => Placed(b.txs[i], b.height))
  }

  /** All transactions of the chain, in order. */
  function RunOf(blocks: seq<Block>): seq<Placed> {
    if blocks == [] then [] else RunOf(blocks[..|blocks| - 1]) + Place(blocks[|blocks| - 1])
  }

  // ---------- one block ----------

  ghost function BlockSets(b: Block, utxo: Utxo): (sets: seq<Utxo>)
    ensures |sets| == |b.txs| + 1
    ensures forall i {:trigger sets[i]} :: 0 <= i <= |b.txs| ==> sets[i] == SetAfter(DeltasAt(b.height), b.txs, i, utxo)
  {
    seq(|b.txs| + 1, i requires 0 <= i <= |b.txs| => SetAfter(DeltasAt(b.height), b.txs, i, utxo))
  }

  /** The inputs name the same entries in both sets. */
  ghost predicate SameInputs(ins: Ins, a: Utxo, b: Utxo) {
    forall i :: 0 <= i < |ins| ==> KeyOf(ins[i]) in a && KeyOf(ins[i]) in b && a[KeyOf(ins[i])] == b[KeyOf(ins[i])]
  }

  /** Inputs accepted against the validator's index are the same entries in the stored set. */
  lemma InputsCarryOver(tx: Tx, v: Utxo, coinbase: Utxo, d: Utxo, height: u64, lim: Limits, c: Crypto)
    requires TxVerdict(tx, v, height, lim, c).Accept?
    requires d == DropOpReturn(v) + coinbase && forall k :: k in coinbase ==> k !in v
    ensures SameInputs(tx.ins, v, d)
  {
    ConsensusSpendsStorable(height, lim, c);
    assert ConsensusJudge(height, lim, c).verdict(tx, v).Accept?;
  }

  lemma {:induction false} InputSumSame(ins: Ins, n: nat, a: Utxo, b: Utxo)
    requires n <= |ins| && SameInputs(ins, a, b)
    ensures InputSum(ins, n, a) == InputSum(ins, n, b)
  {
    if n > 0 { InputSumSame(ins, n - 1, a, b); }
  }

  /** An accepted transaction spends properly from the stored set, and its fee is reported
      exactly if it fits. */
  lemma AcceptedSpendsProperly(tx: Tx, v: Utxo, coinbase: Utxo, d: Utxo, height: u64, lim: Limits, c: Crypto)
    requires TxVerdict(tx, v, height, lim, c).Accept? && !tx.isCoinbase
    requires d == DropOpReturn(v) + coinbase && forall k :: k in coinbase ==> k !in v
    ensures SpendsProperly(Placed(tx, height), d, lim)
    ensures ReportsFee(TxVerdict(tx, v, height, lim, c).fee, FeeOf(Placed(tx, height), d))
  {
    InputsCarryOver(tx, v, coinbase, d, height, lim, c);
    var fee := AcceptedFacts(tx, v, height, lim, c);
    CarriedSpendsProperly(tx, v, d, height, lim, fee);
  }

  lemma AcceptedFacts(tx: Tx, v: Utxo, height: u64, lim: Limits, c: Crypto) returns (fee: u64)
    requires TxVerdict(tx, v, height, lim, c).Accept?
    ensures DistinctInputs(tx.ins) && AllMature(tx.ins, v, height, lim)
    ensures OutputSum(tx.outs, |tx.outs|) <= InputSum(tx.ins, |tx.ins|, v) && fee == TxVerdict(tx, v, height, lim, c).fee
    ensures fee == (InputSum(tx.ins, |tx.ins|, v) - OutputSum(tx.outs, |tx.outs|)) % U64_LIMIT
  {
    AcceptedInputs(tx, v, height, lim, c);
    AcceptedBalance(tx, v, height, lim, c);
    fee := TxVerdict(tx, v, height, lim, c).fee;
  }

  ghost predicate AllMature(ins: Ins, v: Utxo, height: u64, lim: Limits) {
    forall i :: 0 <= i < |ins| ==> KeyOf(ins[i]) in v && Mature(v[KeyOf(ins[i])], height, lim)
  }

  lemma CarriedSpendsProperly(tx: Tx, v: Utxo, d: Utxo, height: u64, lim: Limits, fee: u64)
    requires !tx.isCoinbase && DistinctInputs(tx.ins) && SameInputs(tx.ins, v, d) && AllMature(tx.ins, v, height, lim)
    requires OutputSum(tx.outs, |tx.outs|) <= InputSum(tx.ins, |tx.ins|, v)
    requires fee == (InputSum(tx.ins, |tx.ins|, v) - OutputSum(tx.outs, |tx.outs|)) % U64_LIMIT
    ensures SpendsProperly(Placed(tx, height), d, lim) && ReportsFee(fee, FeeOf(Placed(tx, height), d))
  {
    InputSumSame(tx.ins, |tx.ins|, v, d);
    var exact := InputSum(tx.ins, |tx.ins|, v) - OutputSum(tx.outs, |tx.outs|);
    if exact < U64_LIMIT { ModFits(exact); }
  }

  lemma AcceptedBalance(tx: Tx, v: Utxo, height: u64, lim: Limits, c: Crypto)
    requires TxVerdict(tx, v, height, lim, c).Accept?
    ensures OutputSum(tx.outs, |tx.outs|) <= InputSum(tx.ins, |tx.ins|, v)
    ensures TxVerdict(tx, v, height, lim, c).fee == (InputSum(tx.ins, |tx.ins|, v) - OutputSum(tx.outs, |tx.outs|)) % U64_LIMIT
  {
    assert TxVerdict(tx, v, height, lim, c) == BalanceVerdict(tx, v, lim);
    Balanced(tx, v, lim);
  }

  lemma Balanced(tx: Tx, v: Utxo, lim: Limits)
    requires BalanceVerdict(tx, v, lim).Accept?
    ensures OutputSum(tx.outs, |tx.outs|) <= InputSum(tx.ins, |tx.ins|, v)
    ensures BalanceVerdict(tx, v, lim).fee == (InputSum(tx.ins, |tx.ins|, v) - OutputSum(tx.outs, |tx.outs|)) % U64_LIMIT
  {
    BalanceAcceptedExactlyWhen(tx, v, lim);
  }

  lemma AcceptedInputs(tx: Tx, v: Utxo, height: u64, lim: Limits, c: Crypto)
    requires TxVerdict(tx, v, height, lim, c).Accept?
    ensures DistinctInputs(tx.ins) && AllMature(tx.ins, v, height, lim)
  {
    AcceptedExactlyWhen(tx, v, height, lim, c);
  }

  lemma ModFits(x: int)
    requires 0 <= x < U64_LIMIT
    ensures x % U64_LIMIT == x
  {
  }

  /** A fee that fits the 64-bit type is reported as it is. */
  predicate ReportsFee(fee: u64, exact: int) { 0 <= exact < U64_LIMIT ==> fee == exact }

  /** What accepting means for the stored set, for any judge. */
  ghost predicate JudgesProperly(j: Judge, lim: Limits) {
    SpendsStorable(j) &&
    forall tx: Tx, v: Utxo, coinbase: Utxo ::
      !tx.isCoinbase && j.verdict(tx, v).Accept? && (forall k :: k in coinbase ==> k !in v) ==>
      && SpendsProperly(Placed(tx, j.height), DropOpReturn(v) + coinbase, lim)
      && ReportsFee(j.verdict(tx, v).fee, FeeOf(Placed(tx, j.height), DropOpReturn(v) + coinbase))
  }

  lemma ConsensusJudgesProperly(b: Block, lim: Limits, c: Crypto)
    ensures JudgesProperly(JudgeFor(b, lim, c), lim) && JudgeFor(b, lim, c).height == b.height
  {
    ConsensusSpendsStorable(b.height, lim, c);
    forall tx: Tx, v: Utxo, coinbase: Utxo
      | !tx.isCoinbase && TxVerdict(tx, v, b.height, lim, c).Accept? && (forall k :: k in coinbase ==> k !in v)
      ensures SpendsProperly(Placed(tx, b.height), DropOpReturn(v) + coinbase, lim)
      ensures ReportsFee(TxVerdict(tx, v, b.height, lim, c).fee, FeeOf(Placed(tx, b.height), DropOpReturn(v) + coinbase))
    {
      AcceptedSpendsProperly(tx, v, coinbase, DropOpReturn(v) + coinbase, b.height, lim, c);
    }
  }

  /** An accepted block over a suitable set, judged at its own height. */
  ghost predicate Suitable(b: Block, utxo: Utxo, j: Judge, lim: Limits) {
    && b.txs != [] && RunBlock(b.txs, |b.txs|, utxo, j).Running? && j.height == b.height
    && JudgesProperly(j, lim) && NoOpReturn(utxo) && FreshBlock(b.txs, utxo)
  }

  /** The stored set in front of transaction `n`, next to the validator's index. */
  lemma SetInFrontOf(b: Block, n: nat, utxo: Utxo, j: Judge, lim: Limits, v: Run) returns (coinbase: Utxo, d: Utxo)
    requires 1 <= n < |b.txs| && Suitable(b, utxo, j, lim) && v == RunBlock(b.txs, n, utxo, j) && v.Running?
    ensures d == SetAfter(DeltasAt(b.height), b.txs, n, utxo)
    ensures d == DropOpReturn(v.utxo) + coinbase && forall k :: k in coinbase ==> k !in v.utxo
  {
    d := PrefixAgrees(b.txs, n, utxo, j);
    IdsStayFresh(b.txs, n, utxo, j);
    coinbase := Stored(b.txs[0], |b.txs[0].outs|, b.height);
  }

  /** What the validator saw when it accepted transaction `n` of a block, and the stored set
      at that point. */
  lemma AtTransaction(b: Block, n: nat, utxo: Utxo, j: Judge, lim: Limits) returns (v: Run, next: Run, d: Utxo, fee: u64)
    requires 1 <= n < |b.txs| && Suitable(b, utxo, j, lim)
    ensures v == RunBlock(b.txs, n, utxo, j) && v.Running?
    ensures next == RunBlock(b.txs, n + 1, utxo, j) && next.Running?
    ensures next.fees == v.fees + [fee]
    ensures d == SetAfter(DeltasAt(b.height), b.txs, n, utxo)
    ensures SpendsProperly(Placed(b.txs[n], b.height), d, lim)
    ensures ReportsFee(fee, FeeOf(Placed(b.txs[n], b.height), d))
  {
    v, next := RunsOn(b.txs, n, utxo, j);
    d, fee := SpendsThere(b, n, utxo, j, lim, v);
  }

  lemma RunsOn(block: seq<Tx>, n: nat, utxo: Utxo, j: Judge) returns (v: Run, next: Run)
    requires 1 <= n < |block| && RunBlock(block, |block|, utxo, j).Running?
    ensures v == RunBlock(block, n, utxo, j) && v.Running? && !block[n].isCoinbase && j.verdict(block[n], v.utxo).Accept?
    ensures next == RunBlock(block, n + 1, utxo, j) && next.Running? && next.fees == v.fees + [j.verdict(block[n], v.utxo).fee]
  {
    RunningUpTo(block, n + 1, |block|, utxo, j);
    v, next := RunStep(block, n + 1, utxo, j);
  }

  lemma SpendsThere(b: Block, n: nat, utxo: Utxo, j: Judge, lim: Limits, v: Run) returns (d: Utxo, fee: u64)
    requires 1 <= n < |b.txs| && Suitable(b, utxo, j, lim) && v == RunBlock(b.txs, n, utxo, j) && v.Running?
    requires !b.txs[n].isCoinbase && j.verdict(b.txs[n], v.utxo).Accept?
    ensures d == SetAfter(DeltasAt(b.height), b.txs, n, utxo) && fee == j.verdict(b.txs[n], v.utxo).fee
    ensures SpendsProperly(Placed(b.txs[n], b.height), d, lim)
    ensures ReportsFee(fee, FeeOf(Placed(b.txs[n], b.height), d))
  {
    var coinbase;
    coinbase, d := SetInFrontOf(b, n, utxo, j, lim, v);
    fee := JudgedProperly(j, lim, b.txs[n], v.utxo, coinbase, d);
  }

  lemma JudgedProperly(j: Judge, lim: Limits, tx: Tx, v: Utxo, coinbase: Utxo, d: Utxo) returns (fee: u64)
    requires JudgesProperly(j, lim) && !tx.isCoinbase && j.verdict(tx, v).Accept?
    requires d == DropOpReturn(v) + coinbase && forall k :: k in coinbase ==> k !in v
    ensures fee == j.verdict(tx, v).fee
    ensures SpendsProperly(Placed(tx, j.height), d, lim) && ReportsFee(fee, FeeOf(Placed(tx, j.height), d))
  {
    fee := j.verdict(tx, v).fee;
  }

  lemma CoinbaseFirst(b: Block, utxo: Utxo, j: Judge, lim: Limits)
    requires Suitable(b, utxo, j, lim)
    ensures b.txs[0].isCoinbase && RunBlock(b.txs, 1, utxo, j).Running? && RunBlock(b.txs, 1, utxo, j).fees == []
  {
    RunningUpTo(b.txs, 1, |b.txs|, utxo, j);
    var before, after := RunStep(b.txs, 1, utxo, j);
    assert before == Running(utxo, [], 0);
  }

  lemma BlockIsHistory(b: Block, utxo: Utxo, j: Judge, lim: Limits)
    requires Suitable(b, utxo, j, lim)
    ensures History(Place(b), BlockSets(b, utxo), lim)
  {
    var run, sets := Place(b), BlockSets(b, utxo);
    forall i | 0 <= i < |run| ensures StepTo(run[i], sets[i], sets[i + 1]) && SpendsProperly(run[i], sets[i], lim) {
      ReplayIsStep(run[i], sets[i]);
      if i == 0 {
        CoinbaseFirst(b, utxo, j, lim);
      } else {
        var v, next, d, fee := AtTransaction(b, i, utxo, j, lim);
      }
    }
  }

  /** Every true fee of the run fits the 64-bit fee type. */
  ghost predicate FeesFit(run: seq<Placed>, sets: seq<Utxo>)
    requires |sets| == |run| + 1
  {
    forall i :: 0 <= i < |run| ==> 0 <= FeeOf(run[i], sets[i]) < U64_LIMIT
  }

  lemma FeeBelowTotal(p: Placed, utxo: Utxo, lim: Limits)
    requires SpendsProperly(p, utxo, lim)
    ensures 0 <= FeeOf(p, utxo) <= Total(utxo)
  {
    if !p.tx.isCoinbase { TotalAfterSpending(utxo, p.tx.ins, |p.tx.ins|); }
  }

  /** The fee list after each transaction of a block. */
  ghost function FeesSeen(block: seq<Tx>, utxo: Utxo, j: Judge): (fees: seq<seq<u64>>)
    ensures |fees| == |block| + 1
    ensures forall i {:trigger fees[i]} :: 0 <= i <= |block| && RunBlock(block, i, utxo, j).Running? ==>
              fees[i] == RunBlock(block, i, utxo, j).fees
  {
    seq(|block| + 1, i requires 0 <= i <= |block| => var s := RunBlock(block, i, utxo, j); if s.Running? then s.fees else [])
  }

  /** The list grows by the exact fee of every transaction but the coinbase. */
  ghost predicate ExactFees(run: seq<Placed>, sets: seq<Utxo>, fees: seq<seq<u64>>) {
    && |run| > 0 && |sets| == |fees| == |run| + 1 && run[0].tx.isCoinbase && fees[1] == []
    && forall i :: 1 <= i < |run| ==> 0 <= FeeOf(run[i], sets[i]) < U64_LIMIT && fees[i + 1] == fees[i] + [FeeOf(run[i], sets[i])]
  }

  lemma {:induction false} FeesAddUp(run: seq<Placed>, sets: seq<Utxo>, fees: seq<seq<u64>>, n: nat)
    requires 1 <= n <= |run| && ExactFees(run, sets, fees)
    ensures SumFees(fees[n]) == Fees(run, sets, n)
  {
    if n == 1 {
      assert Fees(run, sets, 0) == 0;
    } else {
      FeesAddUp(run, sets, fees, n - 1);
      SumFeesSnoc(fees[n - 1], FeeOf(run[n - 1], sets[n - 1]));
    }
  }

  lemma FeeAt(b: Block, i: nat, utxo: Utxo, j: Judge, lim: Limits) returns (before: seq<u64>, after: seq<u64>, d: Utxo)
    requires 1 <= i < |b.txs| && Suitable(b, utxo, j, lim)
    ensures RunBlock(b.txs, i, utxo, j).Running? && before == RunBlock(b.txs, i, utxo, j).fees
    ensures RunBlock(b.txs, i + 1, utxo, j).Running? && after == RunBlock(b.txs, i + 1, utxo, j).fees
    ensures d == SetAfter(DeltasAt(b.height), b.txs, i, utxo)
    ensures var fee := FeeOf(Placed(b.txs[i], b.height), d); 0 <= fee < U64_LIMIT ==> after == before + [fee]
  {
    var v, next, fee;
    v, next, d, fee := AtTransaction(b, i, utxo, j, lim);
    before, after := v.fees, next.fees;
  }

  /** Fees that fit are reported exactly. */
  lemma BlockFeesExact(b: Block, utxo: Utxo, j: Judge, lim: Limits, run: seq<Placed>, sets: seq<Utxo>, fees: seq<seq<u64>>)
    requires Suitable(b, utxo, j, lim)
    requires run == Place(b) && sets == BlockSets(b, utxo) && fees == FeesSeen(b.txs, utxo, j) && FeesFit(run, sets)
    ensures ExactFees(run, sets, fees)
  {
    assert run[0].tx.isCoinbase && fees[1] == [] by { CoinbaseFirst(b, utxo, j, lim); }
    forall i | 1 <= i < |run| ensures 0 <= FeeOf(run[i], sets[i]) < U64_LIMIT && fees[i + 1] == fees[i] + [FeeOf(run[i], sets[i])] {
      var before, after, d := FeeAt(b, i, utxo, j, lim);
      assert d == sets[i];
    }
  }

  // ---------- concatenating histories ----------

  lemma HistoryConcat(run1: seq<Placed>, sets1: seq<Utxo>, run2: seq<Placed>, sets2: seq<Utxo>, lim: Limits)
    requires History(run1, sets1, lim) && History(run2, sets2, lim) && sets1[|run1|] == sets2[0]
    ensures History(run1 + run2, sets1 + sets2[1..], lim)
  {
    var run, sets := run1 + run2, sets1 + sets2[1..];
    forall i | 0 <= i < |run| ensures StepTo(run[i], sets[i], sets[i + 1]) && SpendsProperly(run[i], sets[i], lim) {
      if i < |run1| {
        assert StepTo(run1[i], sets1[i], sets1[i + 1]) && SpendsProperly(run1[i], sets1[i], lim);
      } else {
        var k := i - |run1|;
        assert sets[i] == sets2[k] && sets[i + 1] == sets2[k + 1];
        assert StepTo(run2[k], sets2[k], sets2[k + 1]) && SpendsProperly(run2[k], sets2[k], lim);
      }
    }
  }

  lemma {:induction false} FeesConcat(run1: seq<Placed>, sets1: seq<Utxo>, run2: seq<Placed>, sets2: seq<Utxo>, m: nat)
    requires |sets1| == |run1| + 1 && |sets2| == |run2| + 1 && sets1[|run1|] == sets2[0] && m <= |run2|
    ensures Fees(run1 + run2, sets1 + sets2[1..], |run1| + m) == Fees(run1, sets1, |run1|) + Fees(run2, sets2, m)
  {
    if m == 0 {
      FeesPrefix(run1, sets1, run1 + run2, sets1 + sets2[1..], |run1|);
    } else {
      FeesConcat(run1, sets1, run2, sets2, m - 1);
      assert (sets1 + sets2[1..])[|run1| + m - 1] == sets2[m - 1];
    }
  }

  lemma {:induction false} FeesPrefix(run: seq<Placed>, sets: seq<Utxo>, run': seq<Placed>, sets': seq<Utxo>, n: nat)
    requires n <= |run| && n <= |sets| && run <= run' && sets <= sets'
    ensures Fees(run', sets', n) == Fees(run, sets, n)
  {
    if n > 0 { FeesPrefix(run, sets, run', sets', n - 1); }
  }

  // ---------- the whole chain ----------

  lemma ReplayBlock(b: Block, utxo: Utxo)
    ensures BlockSets(b, utxo)[|b.txs|] == Replay(utxo, BlockDeltas(b.txs, |b.txs|, b.height))
    ensures BlockSets(b, utxo)[0] == utxo
  {
    SetAfterIsReplay(DeltasAt(b.height), b.txs, |b.txs|, utxo);
  }

  /** Deltas never store an OP_RETURN output. */
  lemma {:induction false} NoOpReturnStored(run: seq<Placed>, sets: seq<Utxo>, lim: Limits, n: nat)
    requires n <= |run| && History(run, sets, lim) && NoOpReturn(sets[0])
    ensures NoOpReturn(sets[n])
  {
    if n > 0 {
      NoOpReturnStored(run, sets, lim, n - 1);
      assert StepTo(run[n - 1], sets[n - 1], sets[n]);
    }
  }

  lemma LastBlockFresh(run: seq<Placed>, sets: seq<Utxo>, lim: Limits, b: Block)
    requires History(run, sets, lim) && FreshIds(run + Place(b), sets[0])
    ensures FreshBlock(b.txs, sets[|run|])
  {
    var all := run + Place(b);
    forall i, k | 0 <= i < |b.txs| && k in sets[|run|] ensures k.txid != b.txs[i].txid {
      EntriesHaveOrigin(run, sets, lim, |run|, k);
      assert all[|run| + i].tx == b.txs[i];
      if k !in sets[0] {
        var e :| 0 <= e < |run| && Creates(run[e], k);
        assert all[e] == run[e];
      }
    }
    forall i, j | 0 <= i < j < |b.txs| ensures b.txs[i].txid != b.txs[j].txid {
      assert all[|run| + i].tx == b.txs[i] && all[|run| + j].tx == b.txs[j];
    }
  }

  /** Any accepted chain with fresh ids over a set without OP_RETURN entries is a history of
      the ledger that ends in the stored set; the fees it reports are the true ones as long
      as they fit 64 bits. */
  lemma {:induction false} ChainIsHistory(blocks: seq<Block>, genesis: Utxo, lim: Limits, c: Crypto)
    returns (run: seq<Placed>, sets: seq<Utxo>, reported: nat)
    requires AcceptedChain(blocks, genesis, lim, c)
    requires NoOpReturn(genesis) && FreshIds(RunOf(blocks), genesis)
    ensures run == RunOf(blocks) && History(run, sets, lim)
    ensures sets[0] == genesis && sets[|run|] == SetOf(blocks, genesis)
    ensures reported == ReportedFees(blocks, genesis, lim, c)
    ensures FeesFit(run, sets) ==> reported == Fees(run, sets, |run|)
  {
    if blocks == [] {
      run, sets, reported := [], [genesis], 0;
    } else {
      var init, b := blocks[..|blocks| - 1], blocks[|blocks| - 1];
      FreshPrefix(RunOf(init), Place(b), genesis);
      var run1, sets1, reported1 := ChainIsHistory(init, genesis, lim, c);
      run, sets, reported := ChainStep(run1, sets1, reported1, b, sets1[|run1|], lim, c);
    }
  }

  lemma ChainStep(run1: seq<Placed>, sets1: seq<Utxo>, reported1: nat, b: Block, utxo: Utxo, lim: Limits, c: Crypto)
    returns (run: seq<Placed>, sets: seq<Utxo>, reported: nat)
    requires History(run1, sets1, lim) && sets1[|run1|] == utxo && NoOpReturn(sets1[0])
    requires FreshIds(run1 + Place(b), sets1[0])
    requires FeesFit(run1, sets1) ==> reported1 == Fees(run1, sets1, |run1|)
    requires BlockOutcome(b.txs, utxo, JudgeFor(b, lim, c)).Accepted?
    ensures run == run1 + Place(b) && History(run, sets, lim)
    ensures sets[0] == sets1[0] && sets[|run|] == Replay(utxo, BlockDeltas(b.txs, |b.txs|, b.height))
    ensures reported == reported1 + SumFees(BlockOutcome(b.txs, utxo, JudgeFor(b, lim, c)).fees)
    ensures FeesFit(run, sets) ==> reported == Fees(run, sets, |run|)
  {
    var run2, bs, fees2 := LastBlock(run1, sets1, b, utxo, lim, c);
    run, sets := Join(run1, sets1, run2, bs, lim);
    reported := reported1 + fees2;
  }

  lemma Join(run1: seq<Placed>, sets1: seq<Utxo>, run2: seq<Placed>, bs: seq<Utxo>, lim: Limits)
    returns (run: seq<Placed>, sets: seq<Utxo>)
    requires History(run1, sets1, lim) && History(run2, bs, lim) && sets1[|run1|] == bs[0]
    ensures run == run1 + run2 && History(run, sets, lim)
    ensures sets[0] == sets1[0] && sets[|run|] == bs[|run2|]
    ensures FeesFit(run, sets) ==>
              && FeesFit(run1, sets1) && FeesFit(run2, bs)
              && Fees(run, sets, |run|) == Fees(run1, sets1, |run1|) + Fees(run2, bs, |run2|)
  {
    run, sets := run1 + run2, sets1 + bs[1..];
    HistoryConcat(run1, sets1, run2, bs, lim);
    if FeesFit(run, sets) {
      FeesFitParts(run1, sets1, run2, bs);
      FeesConcat(run1, sets1, run2, bs, |run2|);
    }
  }

  /** The last block of an accepted chain is a history on its own. */
  lemma LastBlock(run1: seq<Placed>, sets1: seq<Utxo>, b: Block, utxo: Utxo, lim: Limits, c: Crypto)
    returns (run2: seq<Placed>, bs: seq<Utxo>, fees2: nat)
    requires History(run1, sets1, lim) && sets1[|run1|] == utxo && NoOpReturn(sets1[0])
    requires FreshIds(run1 + Place(b), sets1[0])
    requires BlockOutcome(b.txs, utxo, JudgeFor(b, lim, c)).Accepted?
    ensures run2 == Place(b) && History(run2, bs, lim)
    ensures bs[0] == utxo && bs[|run2|] == Replay(utxo, BlockDeltas(b.txs, |b.txs|, b.height))
    ensures fees2 == SumFees(BlockOutcome(b.txs, utxo, JudgeFor(b, lim, c)).fees)
    ensures FeesFit(run2, bs) ==> fees2 == Fees(run2, bs, |run2|)
  {
    LastBlockSuitable(run1, sets1, b, lim, c);
    run2, bs, fees2 := SuitableBlock(b, utxo, JudgeFor(b, lim, c), lim);
  }

  lemma SuitableBlock(b: Block, utxo: Utxo, j: Judge, lim: Limits) returns (run: seq<Placed>, sets: seq<Utxo>, fees: nat)
    requires Suitable(b, utxo, j, lim)
    ensures run == Place(b) && History(run, sets, lim)
    ensures sets[0] == utxo && sets[|run|] == Replay(utxo, BlockDeltas(b.txs, |b.txs|, b.height))
    ensures fees == SumFees(RunBlock(b.txs, |b.txs|, utxo, j).fees)
    ensures FeesFit(run, sets) ==> fees == Fees(run, sets, |run|)
  {
    run, sets, fees := Place(b), BlockSets(b, utxo), SumFees(RunBlock(b.txs, |b.txs|, utxo, j).fees);
    BlockIsHistory(b, utxo, j, lim);
    ReplayBlock(b, utxo);
    if FeesFit(run, sets) { BlockFeesSum(b, utxo, j, lim, run, sets); }
  }

  lemma FreshPrefix(run1: seq<Placed>, run2: seq<Placed>, genesis: Utxo)
    requires FreshIds(run1 + run2, genesis)
    ensures FreshIds(run1, genesis)
  {
    var all := run1 + run2;
    assert forall i :: 0 <= i < |run1| ==> run1[i] == all[i];
  }

  lemma FeesFitParts(run1: seq<Placed>, sets1: seq<Utxo>, run2: seq<Placed>, bs: seq<Utxo>)
    requires |sets1| == |run1| + 1 && |bs| == |run2| + 1 && sets1[|run1|] == bs[0] && FeesFit(run1 + run2, sets1 + bs[1..])
    ensures FeesFit(run1, sets1) && FeesFit(run2, bs)
  {
    var run, sets := run1 + run2, sets1 + bs[1..];
    forall i | 0 <= i < |run1| ensures 0 <= FeeOf(run1[i], sets1[i]) < U64_LIMIT { assert run[i] == run1[i] && sets[i] == sets1[i]; }
    forall i | 0 <= i < |run2| ensures 0 <= FeeOf(run2[i], bs[i]) < U64_LIMIT {
      assert run[|run1| + i] == run2[i] && sets[|run1| + i] == bs[i];
    }
  }

  lemma BlockFeesSum(b: Block, utxo: Utxo, j: Judge, lim: Limits, run: seq<Placed>, sets: seq<Utxo>)
    requires Suitable(b, utxo, j, lim)
    requires run == Place(b) && sets == BlockSets(b, utxo) && FeesFit(run, sets)
    ensures SumFees(RunBlock(b.txs, |b.txs|, utxo, j).fees) == Fees(run, sets, |run|)
  {
    var fees := FeesSeen(b.txs, utxo, j);
    BlockFeesExact(b, utxo, j, lim, run, sets, fees);
    FeesAddUp(run, sets, fees, |run|);
  }

  /** The last block of an accepted chain is accepted on a suitable set. */
  lemma LastBlockSuitable(run1: seq<Placed>, sets1: seq<Utxo>, b: Block, lim: Limits, c: Crypto)
    requires History(run1, sets1, lim) && NoOpReturn(sets1[0])
    requires FreshIds(run1 + Place(b), sets1[0])
    requires BlockOutcome(b.txs, sets1[|run1|], JudgeFor(b, lim, c)).Accepted?
    ensures Suitable(b, sets1[|run1|], JudgeFor(b, lim, c), lim)
  {
    NoOpReturnStored(run1, sets1, lim, |run1|);
    LastBlockFresh(run1, sets1, lim, b);
    ConsensusJudgesProperly(b, lim, c);
  }

  lemma {:induction false} MintedGrows(run: seq<Placed>, n: nat, m: nat)
    requires n <= m <= |run|
    ensures Minted(run, n) <= Minted(run, m)
  {
    if n < m { MintedGrows(run, n, m - 1); }
  }

  /** Over every chain of accepted blocks with fresh ids: stored value at the end, plus the
      fees the validator reported, plus what was burned in OP_RETURN outputs, is the value at
      the start plus what the coinbases stored. The one bound is that all value ever in
      circulation fits the 64-bit fee type. */
  lemma ChainConserves(blocks: seq<Block>, genesis: Utxo, lim: Limits, c: Crypto)
    requires AcceptedChain(blocks, genesis, lim, c)
    requires NoOpReturn(genesis) && FreshIds(RunOf(blocks), genesis)
    requires Total(genesis) + Minted(RunOf(blocks), |RunOf(blocks)|) < U64_LIMIT
    ensures Total(SetOf(blocks, genesis)) + ReportedFees(blocks, genesis, lim, c) + BurnedUpTo(RunOf(blocks), |RunOf(blocks)|)
         == Total(genesis) + Minted(RunOf(blocks), |RunOf(blocks)|)
  {
    var run, sets, reported := ChainIsHistory(blocks, genesis, lim, c);
    forall i | 0 <= i < |run| ensures 0 <= FeeOf(run[i], sets[i]) < U64_LIMIT {
      var total, fees, burned, minted := RunConserves(run, sets, lim, i);
      MintedGrows(run, i, |run|);
      FeeBelowTotal(run[i], sets[i], lim);
    }
    var total, fees, burned, minted := RunConserves(run, sets, lim, |run|);
  }

  /** In every chain of accepted blocks with fresh ids each outpoint is consumed at most
      once, everything consumed existed before, and coinbase outputs mature first. */
  lemma ChainSpendsSafely(blocks: seq<Block>, genesis: Utxo, lim: Limits, c: Crypto, j: nat, k: Outpoint)
    requires AcceptedChain(blocks, genesis, lim, c)
    requires NoOpReturn(genesis) && FreshIds(RunOf(blocks), genesis)
    requires j < |RunOf(blocks)| && Spends(RunOf(blocks)[j], k)
    requires forall i :: 0 <= i < |RunOf(blocks)| ==> RunOf(blocks)[i].height < I64_LIMIT
    ensures forall i :: 0 <= i < |RunOf(blocks)| && Spends(RunOf(blocks)[i], k) ==> i == j
    ensures k in genesis || exists i :: 0 <= i < j && Creates(RunOf(blocks)[i], k)
    ensures forall i :: 0 <= i < |RunOf(blocks)| && RunOf(blocks)[i].tx.isCoinbase && Creates(RunOf(blocks)[i], k) ==>
              i < j && RunOf(blocks)[j].height >= RunOf(blocks)[i].height + lim.coinbaseMaturity
    ensures k !in SetOf(blocks, genesis)
  {
    var run, sets, reported := ChainIsHistory(blocks, genesis, lim, c);
    forall i | 0 <= i < |run| && Spends(run[i], k) ensures i == j { SpentOnce(run, sets, lim, i, j, k); }
    SpentExisted(run, sets, lim, j, k);
    forall i | 0 <= i < |run| && run[i].tx.isCoinbase && Creates(run[i], k)
      ensures i < j && run[j].height >= run[i].height + lim.coinbaseMaturity
    {
      CoinbaseSpentMature(run, sets, lim, i, j, k);
    }
    UnspentExactly(run, sets, lim, |run|, k);
  }

  /** The premises of the results above can be met: a chain of one coinbase, on nothing. */
  lemma FirstBlockQualifies(coinbase: Tx, height: u64, lim: Limits, c: Crypto)
    requires coinbase.isCoinbase && coinbase.ins != [] && StoredSum(coinbase.outs, |coinbase.outs|) < U64_LIMIT
    ensures var blocks, genesis := [Block([coinbase], height)], map[];
            && AcceptedChain(blocks, genesis, lim, c) && NoOpReturn(genesis) && FreshIds(RunOf(blocks), genesis)
            && Total(genesis) + Minted(RunOf(blocks), |RunOf(blocks)|) < U64_LIMIT
  {
    var b := Block([coinbase], height);
    var j := JudgeFor(b, lim, c);
    assert RunBlock(b.txs, 0, map[], j) == Running(map[], [], 0);
    assert RunBlock(b.txs, 1, map[], j) == Step(coinbase, true, Running(map[], [], 0), j);
    assert BlockOutcome(b.txs, map[], j).Accepted?;
    var blocks := [b];
    assert blocks[..|blocks| - 1] == [] && SetOf([], map[]) == map[];
    assert AcceptedChain([], map[], lim, c);
    assert RunOf([b]) == RunOf([]) + Place(b) == [Placed(coinbase, height)];
    assert Minted(RunOf([b]), 0) == 0;
    assert Minted(RunOf([b]), 1) == StoredSum(coinbase.outs, |coinbase.outs|);
  }
}
