/** The rules of a block, without the order of the loop: which blocks are accepted and what they
    leave in the index. */
module BlockRules {
  import opened Bytes
  import opened TxCodec
  import opened Validation
  import opened Spending

  /** Transaction `i` is accepted on what the ones before it left, and leaves the next. */
  ghost predicate Turn(block: seq<Tx>, sets: seq<Utxo>, j: Judge, i: nat)
    requires 1 <= i < |block| == |sets|
  {
    && j.verdict(block[i], sets[i - 1]).Accept?
    && sets[i] == (sets[i - 1] - Keys(block[i].ins, |block[i].ins|)) + Created(block[i], |block[i].outs|, j.height)
  }

  /** The indexes between the transactions: each is the one before without what is spent and
      with what is created; the coinbase leaves its own alone. */
  ghost predicate InTurn(block: seq<Tx>, sets: seq<Utxo>, utxo: Utxo, j: Judge) {
    && |sets| == |block| && block != [] && sets[0] == utxo
    && forall i :: 1 <= i < |block| ==> Turn(block, sets, j, i)
  }

  /** The fee of transaction `i`, if it is accepted. */
  function FeeAt(block: seq<Tx>, sets: seq<Utxo>, j: Judge, i: nat): nat
    requires 1 <= i < |block| == |sets|
  {
    var v := j.verdict(block[i], sets[i - 1]);
    if v.Accept? then v.fee else 0
  }

  /** Signature operations of the first `n` transactions. */
  function Tally(block: seq<Tx>, sets: seq<Utxo>, j: Judge, n: nat): nat
    requires n <= |block| == |sets|
  {
    if n <= 1 then 0
    else
      var v := j.verdict(block[n - 1], sets[n - 2]);
      Tally(block, sets, j, n - 1) + if v.Accept? then v.sigops else 0
  }

  /** What a block has to meet: a coinbase in front and nowhere else, inputs everywhere, every other
      transaction accepted on what the ones before it left, and signature operations within the
      limit. */
  ghost predicate MeetsBlockRules(block: seq<Tx>, sets: seq<Utxo>, utxo: Utxo, j: Judge) {
    && InTurn(block, sets, utxo, j)
    && (forall i :: 0 <= i < |block| ==> block[i].ins != [] && (block[i].isCoinbase <==> i == 0))
    && (forall n :: 2 <= n <= |block| ==> Within(Tally(block, sets, j, n), j.maxSigopsPerBlock))
  }

  /** The indexes the loop goes through. */
  ghost function Trace(block: seq<Tx>, utxo: Utxo, j: Judge): (sets: seq<Utxo>)
    ensures |sets| == |block|
    ensures forall i {:trigger sets[i]} :: 0 <= i < |block| && RunBlock(block, i + 1, utxo, j).Running? ==>
              sets[i] == RunBlock(block, i + 1, utxo, j).utxo
  {
    seq(|block|, i requires 0 <= i < |block| => var s := RunBlock(block, i + 1, utxo, j); if s.Running? then s.utxo else map[])
  }

  /** Where the loop stands on a block that meets the rules. */
  lemma {:induction false} RulesRun(block: seq<Tx>, sets: seq<Utxo>, utxo: Utxo, j: Judge, n: nat)
    requires MeetsBlockRules(block, sets, utxo, j) && 1 <= n <= |block|
    ensures var s := RunBlock(block, n, utxo, j);
            s.Running? && s.utxo == sets[n - 1] && s.sigops == SatU32(Tally(block, sets, j, n)) && FeesAre(s.fees, block, sets, j, n)
  {
    if n == 1 {
      RulesStart(block, sets, utxo, j);
    } else {
      RulesRun(block, sets, utxo, j, n - 1);
      RulesStep(block, sets, utxo, j, n);
      FeesGrow(RunBlock(block, n - 1, utxo, j).fees, RunBlock(block, n, utxo, j).fees, block, sets, j, n);
    }
  }

  /** The fees of the transactions after the first, in order. */
  ghost predicate FeesAre(fees: seq<u64>, block: seq<Tx>, sets: seq<Utxo>, j: Judge, n: nat)
    requires 1 <= n <= |block| == |sets|
  {
    |fees| == n - 1 && forall i {:trigger fees[i]} :: 0 <= i < n - 1 ==> fees[i] == FeeAt(block, sets, j, i + 1)
  }

  lemma FeesGrow(fees: seq<u64>, more: seq<u64>, block: seq<Tx>, sets: seq<Utxo>, j: Judge, n: nat)
    requires 2 <= n <= |block| == |sets| && FeesAre(fees, block, sets, j, n - 1) && more == fees + [FeeAt(block, sets, j, n - 1)]
    ensures FeesAre(more, block, sets, j, n)
  {
  }

  lemma RulesStart(block: seq<Tx>, sets: seq<Utxo>, utxo: Utxo, j: Judge)
    requires MeetsBlockRules(block, sets, utxo, j)
    ensures |block| >= 1 && RunBlock(block, 1, utxo, j) == Running(sets[0], [], SatU32(Tally(block, sets, j, 1)))
  {
    assert RunBlock(block, 0, utxo, j) == Running(utxo, [], 0);
  }

  lemma RulesStep(block: seq<Tx>, sets: seq<Utxo>, utxo: Utxo, j: Judge, n: nat)
    requires MeetsBlockRules(block, sets, utxo, j) && 2 <= n <= |block|
    requires var s := RunBlock(block, n - 1, utxo, j);
             s.Running? && s.utxo == sets[n - 2] && s.sigops == SatU32(Tally(block, sets, j, n - 1))
    ensures var s, s', v := RunBlock(block, n - 1, utxo, j), RunBlock(block, n, utxo, j), j.verdict(block[n - 1], sets[n - 2]);
            && v.Accept? && s'.Running? && s'.utxo == sets[n - 1] && s'.sigops == SatU32(Tally(block, sets, j, n))
            && s'.fees == s.fees + [FeeAt(block, sets, j, n - 1)]
  {
    var v := j.verdict(block[n - 1], sets[n - 2]);
    assert Turn(block, sets, j, n - 1);
    assert SatU32(Tally(block, sets, j, n)) == SatU32(SatU32(Tally(block, sets, j, n - 1)) + v.sigops);
    SaturatedWithin(Tally(block, sets, j, n), j.maxSigopsPerBlock);
    assert block[n - 1].ins != [] && !block[n - 1].isCoinbase;
  }

  /** What a running loop has gone through. */
  lemma {:induction false} RunIsByTheRules(block: seq<Tx>, utxo: Utxo, j: Judge, n: nat)
    requires 1 <= n <= |block| && RunBlock(block, n, utxo, j).Running?
    ensures forall i :: 0 <= i < n ==> block[i].ins != [] && (block[i].isCoinbase <==> i == 0)
    ensures var sets := Trace(block, utxo, j);
            && sets[0] == utxo
            && (forall i :: 1 <= i < n ==> Turn(block, sets, j, i))
            && RunBlock(block, n, utxo, j).sigops == SatU32(Tally(block, sets, j, n))
            && (forall m :: 2 <= m <= n ==> Within(Tally(block, sets, j, m), j.maxSigopsPerBlock))
  {
    if n == 1 {
      assert RunBlock(block, 0, utxo, j) == Running(utxo, [], 0);
    } else {
      RunIsByTheRules(block, utxo, j, n - 1);
      NextTurn(block, utxo, j, n);
    }
  }

  lemma NextTurn(block: seq<Tx>, utxo: Utxo, j: Judge, n: nat)
    requires 2 <= n <= |block| && RunBlock(block, n, utxo, j).Running?
    requires RunBlock(block, n - 1, utxo, j).Running? && RunBlock(block, n - 1, utxo, j).sigops == SatU32(Tally(block, Trace(block, utxo, j), j, n - 1))
    ensures var sets := Trace(block, utxo, j);
            && block[n - 1].ins != [] && !block[n - 1].isCoinbase && Turn(block, sets, j, n - 1)
            && RunBlock(block, n, utxo, j).sigops == SatU32(Tally(block, sets, j, n))
            && Within(Tally(block, sets, j, n), j.maxSigopsPerBlock)
  {
    var sets := Trace(block, utxo, j);
    var v := j.verdict(block[n - 1], sets[n - 2]);
    assert sets[n - 2] == RunBlock(block, n - 1, utxo, j).utxo && sets[n - 1] == RunBlock(block, n, utxo, j).utxo;
    assert SatU32(Tally(block, sets, j, n)) == SatU32(SatU32(Tally(block, sets, j, n - 1)) + v.sigops);
    SaturatedWithin(Tally(block, sets, j, n), j.maxSigopsPerBlock);
  }

  /** A block is accepted exactly if it meets the rules, and then the fees are those of its
      transactions in order. */
  lemma BlockAcceptedByTheRules(block: seq<Tx>, utxo: Utxo, j: Judge)
    ensures BlockOutcome(block, utxo, j).Accepted? <==> exists sets :: MeetsBlockRules(block, sets, utxo, j)
    ensures forall sets :: MeetsBlockRules(block, sets, utxo, j) ==>
              var fees := BlockOutcome(block, utxo, j).fees;
              |fees| == |block| - 1
              && forall i {:trigger fees[i]} :: 0 <= i < |fees| ==> fees[i] == FeeAt(block, sets, j, i + 1)
  {
    if BlockOutcome(block, utxo, j).Accepted? {
      RunIsByTheRules(block, utxo, j, |block|);
      assert MeetsBlockRules(block, Trace(block, utxo, j), utxo, j);
    }
    forall sets | MeetsBlockRules(block, sets, utxo, j)
      ensures BlockOutcome(block, utxo, j).Accepted?
      ensures var fees := BlockOutcome(block, utxo, j).fees;
              |fees| == |block| - 1
              && forall i {:trigger fees[i]} :: 0 <= i < |fees| ==> fees[i] == FeeAt(block, sets, j, i + 1)
    {
      RulesRun(block, sets, utxo, j, |block|);
    }
  }
}
