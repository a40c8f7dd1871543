/** The value held by a set of unspent outputs, and what one accepted transaction or one
    accepted block does to it. */
module Value {
  import opened Bytes
  import opened TxCodec
  import opened Validation
  import opened UtxoDelta

  /** The sum of all amounts. */
  ghost function Total(m: Utxo): nat {
    if m == map[] then 0
    else
      var k :| k in m;
      m[k].amount + Total(m - {k})
  }

  lemma {:induction false} TotalWithout(m: Utxo, k: Outpoint)
    requires k in m
    ensures Total(m) == m[k].amount + Total(m - {k})
    decreases |m|
  {
    var l :| l in m && Total(m) == m[l].amount + Total(m - {l});
    if l != k {
      TotalWithout(m - {l}, k);
      TotalWithout(m - {k}, l);
      assert m - {l} - {k} == m - {k} - {l};
    }
  }

  lemma TotalWith(m: Utxo, k: Outpoint, e: Entry)
    ensures Total(m[k := e]) + AmountAt(m, k) == Total(m) + e.amount
  {
    var m' := m[k := e];
    TotalWithout(m', k);
    assert m' - {k} == m - {k};
    if k in m { TotalWithout(m, k); } else { assert m - {k} == m; }
  }

  predicate AllIn(ins: Ins, utxo: Utxo) { forall i :: 0 <= i < |ins| ==> KeyOf(ins[i]) in utxo }

  /** Spending distinct, present inputs takes their sum out of the set. */
  lemma {:induction false} TotalAfterSpending(utxo: Utxo, ins: Ins, n: nat)
    requires n <= |ins| && DistinctInputs(ins) && AllIn(ins, utxo)
    ensures Total(utxo - Keys(ins, n)) + InputSum(ins, n, utxo) == Total(utxo)
  {
    if n == 0 {
      assert utxo - Keys(ins, 0) == utxo;
    } else {
      TotalAfterSpending(utxo, ins, n - 1);
      var k := KeyOf(ins[n - 1]);
      var left := utxo - Keys(ins, n - 1);
      assert k in left;
      TotalWithout(left, k);
      assert left - {k} == utxo - Keys(ins, n);
    }
  }

  /** Adding outputs never adds more than their sum, whatever they overwrite. */
  lemma {:induction false} TotalAfterCreating(m: Utxo, tx: Tx, n: nat, height: u64)
    requires n <= |tx.outs|
    ensures Total(m + Created(tx, n, height)) <= Total(m) + OutputSum(tx.outs, n)
  {
    if n == 0 {
      assert m + map[] == m;
    } else {
      TotalAfterCreating(m, tx, n - 1, height);
      var k, e := Outpoint(tx.txid, n - 1), NewEntry(tx.outs[n - 1], false, height);
      TotalWith(m + Created(tx, n - 1, height), k, e);
      assert m + Created(tx, n, height) == (m + Created(tx, n - 1, height))[k := e];
    }
  }

  /** The amounts of the first `n` outputs that are not OP_RETURN. */
  function StoredSum(outs: Outs, n: nat): nat
    requires n <= |outs|
  {
    if n == 0 then 0 else StoredSum(outs, n - 1) + if IsOpReturn(outs[n - 1].script) then 0 else outs[n - 1].amount
  }

  /** What a transaction puts into OP_RETURN outputs is gone. */
  function Burned(outs: Outs): nat {
    StoredSumBounded(outs, |outs|);
    OutputSum(outs, |outs|) - StoredSum(outs, |outs|)
  }

  lemma {:induction false} StoredSumBounded(outs: Outs, n: nat)
    requires n <= |outs|
    ensures StoredSum(outs, n) <= OutputSum(outs, n)
  {
    if n > 0 { StoredSumBounded(outs, n - 1); }
  }

  lemma {:induction false} TotalAfterStoring(m: Utxo, tx: Tx, n: nat, height: u64)
    requires n <= |tx.outs|
    requires forall k :: k in m ==> k.txid != tx.txid
    ensures Total(m + Stored(tx, n, height)) == Total(m) + StoredSum(tx.outs, n)
  {
    if n == 0 {
      assert m + map[] == m;
    } else {
      TotalAfterStoring(m, tx, n - 1, height);
      StoredExactly(tx, n - 1, height);
      if !IsOpReturn(tx.outs[n - 1].script) {
        TotalAfterStoringOne(m, Stored(tx, n - 1, height), Outpoint(tx.txid, n - 1), NewEntry(tx.outs[n - 1], tx.isCoinbase, height));
      }
    }
  }

  lemma TotalAfterStoringOne(m: Utxo, stored: Utxo, k: Outpoint, e: Entry)
    requires k !in m && k !in stored
    ensures Total(m + stored[k := e]) == Total(m + stored) + e.amount
  {
    TotalWith(m + stored, k, e);
    assert m + stored[k := e] == (m + stored)[k := e];
  }

  // ---------- one block, without any assumption on ids ----------

  /** An accepting judge only lets distinct, present inputs through that pay for the
      outputs, and reports the difference cut to 64 bits. */
  ghost predicate Balances(j: Judge) {
    forall tx: Tx, utxo: Utxo :: j.verdict(tx, utxo).Accept? ==>
      && DistinctInputs(tx.ins) && AllIn(tx.ins, utxo)
      && OutputSum(tx.outs, |tx.outs|) <= InputSum(tx.ins, |tx.ins|, utxo)
      && j.verdict(tx, utxo).fee == (InputSum(tx.ins, |tx.ins|, utxo) - OutputSum(tx.outs, |tx.outs|)) % U64_LIMIT
  }

  lemma ConsensusBalances(height: u64, lim: Limits, c: Crypto)
    ensures Balances(ConsensusJudge(height, lim, c))
  {
    forall tx: Tx, utxo: Utxo | TxVerdict(tx, utxo, height, lim, c).Accept?
      ensures DistinctInputs(tx.ins) && AllIn(tx.ins, utxo)
      ensures OutputSum(tx.outs, |tx.outs|) <= InputSum(tx.ins, |tx.ins|, utxo)
      ensures TxVerdict(tx, utxo, height, lim, c).fee == (InputSum(tx.ins, |tx.ins|, utxo) - OutputSum(tx.outs, |tx.outs|)) % U64_LIMIT
    {
      AcceptedExactlyWhen(tx, utxo, height, lim, c);
    }
  }

  function SumFees(fees: seq<u64>): nat {
    if fees == [] then 0 else SumFees(fees[..|fees| - 1]) + fees[|fees| - 1]
  }

  lemma AppliedTotal(tx: Tx, utxo: Utxo, height: u64)
    requires DistinctInputs(tx.ins) && AllIn(tx.ins, utxo)
    ensures Total(Applied(tx, utxo, height)) + InputSum(tx.ins, |tx.ins|, utxo) <= Total(utxo) + OutputSum(tx.outs, |tx.outs|)
  {
    TotalAfterSpending(utxo, tx.ins, |tx.ins|);
    TotalAfterCreating(utxo - Keys(tx.ins, |tx.ins|), tx, |tx.outs|, height);
  }

  lemma StepCreatesNoValue(tx: Tx, utxo: Utxo, j: Judge)
    requires Balances(j) && j.verdict(tx, utxo).Accept?
    ensures Total(Applied(tx, utxo, j.height)) + j.verdict(tx, utxo).fee <= Total(utxo)
  {
    AppliedTotal(tx, utxo, j.height);
  }

  lemma SumFeesSnoc(fees: seq<u64>, fee: u64)
    ensures SumFees(fees + [fee]) == SumFees(fees) + fee
  {
    assert (fees + [fee])[..|fees|] == fees;
  }

  lemma RunStep(block: seq<Tx>, n: nat, utxo: Utxo, j: Judge) returns (before: Run, after: Run)
    requires 1 <= n <= |block| && RunBlock(block, n, utxo, j).Running?
    ensures before == RunBlock(block, n - 1, utxo, j) && before.Running?
    ensures after == RunBlock(block, n, utxo, j)
    ensures n == 1 ==> after == before && block[0].isCoinbase
    ensures n > 1 ==> !block[n - 1].isCoinbase && j.verdict(block[n - 1], before.utxo).Accept?
    ensures n > 1 ==> after.utxo == Applied(block[n - 1], before.utxo, j.height)
    ensures n > 1 ==> after.fees == before.fees + [j.verdict(block[n - 1], before.utxo).fee]
  {
    before, after := RunBlock(block, n - 1, utxo, j), RunBlock(block, n, utxo, j);
    assert after == Step(block[n - 1], n == 1, before, j);
  }

  /** What the index holds and the fees collected so far. */
  ghost function Holdings(s: Run): nat
    requires s.Running?
  {
    Total(s.utxo) + SumFees(s.fees)
  }

  lemma NextCreatesNoValue(block: seq<Tx>, n: nat, utxo: Utxo, j: Judge) returns (before: Run, after: Run)
    requires 1 <= n <= |block| && Balances(j) && RunBlock(block, n, utxo, j).Running?
    ensures before == RunBlock(block, n - 1, utxo, j) && before.Running?
    ensures after == RunBlock(block, n, utxo, j) && Holdings(after) <= Holdings(before)
  {
    before, after := RunStep(block, n, utxo, j);
    if n > 1 {
      StepCreatesNoValue(block[n - 1], before.utxo, j);
      SumFeesSnoc(before.fees, j.verdict(block[n - 1], before.utxo).fee);
    }
  }

  /** What a transaction of a block does to a measure of the state. */
  ghost predicate Falls(block: seq<Tx>, m: nat, utxo: Utxo, j: Judge, measure: Run -> nat) {
    1 <= m <= |block| && RunBlock(block, m, utxo, j).Running? ==>
      RunBlock(block, m - 1, utxo, j).Running? && measure(RunBlock(block, m, utxo, j)) <= measure(RunBlock(block, m - 1, utxo, j))
  }

  lemma {:induction false} NeverRises(block: seq<Tx>, n: nat, utxo: Utxo, j: Judge, measure: Run -> nat)
    requires n <= |block| && RunBlock(block, n, utxo, j).Running? && forall m: nat :: Falls(block, m, utxo, j, measure)
    ensures measure(RunBlock(block, n, utxo, j)) <= measure(RunBlock(block, 0, utxo, j))
  {
    if n > 0 {
      assert Falls(block, n, utxo, j, measure);
      NeverRises(block, n - 1, utxo, j, measure);
    }
  }

  lemma PrefixCreatesNoValue(block: seq<Tx>, n: nat, utxo: Utxo, j: Judge)
    requires n <= |block| && Balances(j) && RunBlock(block, n, utxo, j).Running?
    ensures Total(RunBlock(block, n, utxo, j).utxo) + SumFees(RunBlock(block, n, utxo, j).fees) <= Total(utxo)
  {
    var measure := (s: Run) => if s.Running? then Holdings(s) else 0;
    forall m: nat ensures Falls(block, m, utxo, j, measure) {
      if 1 <= m <= |block| && RunBlock(block, m, utxo, j).Running? {
        var before, after := NextCreatesNoValue(block, m, utxo, j);
      }
    }
    NeverRises(block, n, utxo, j, measure);
    assert RunBlock(block, 0, utxo, j) == Running(utxo, [], 0) && SumFees([]) == 0;
  }

  /** Inside one accepted block nothing is created out of nothing, even if ids repeat: what
      the index holds at the end plus the fees is at most what it held at the start. */
  lemma BlockCreatesNoValue(block: seq<Tx>, utxo: Utxo, height: u64, lim: Limits, c: Crypto)
    requires BlockOutcome(block, utxo, ConsensusJudge(height, lim, c)).Accepted?
    ensures Total(RunBlock(block, |block|, utxo, ConsensusJudge(height, lim, c)).utxo)
            + SumFees(BlockOutcome(block, utxo, ConsensusJudge(height, lim, c)).fees) <= Total(utxo)
  {
    ConsensusBalances(height, lim, c);
    PrefixCreatesNoValue(block, |block|, utxo, ConsensusJudge(height, lim, c));
  }
}
