/** Whole runs of the chain: what is in the stored set after any sequence of accepted
    transactions, that nothing is spent twice or too early, and where every unit of value
    went. */
module Ledger {
  import opened Bytes
  import opened TxCodec
  import opened Validation
  import opened UtxoDelta
  import opened Value

  /** A transaction and the height of the block it is in. */
  datatype Placed = Placed(tx: Tx, height: u64)

  predicate Creates(p: Placed, k: Outpoint) {
    k.txid == p.tx.txid && k.vout < |p.tx.outs| && !IsOpReturn(p.tx.outs[k.vout].script)
  }

  function EntryOf(p: Placed, k: Outpoint): Entry
    requires k.vout < |p.tx.outs|
  {
    NewEntry(p.tx.outs[k.vout], p.tx.isCoinbase, p.height)
  }

  predicate Spends(p: Placed, k: Outpoint) { !p.tx.isCoinbase && k in Keys(p.tx.ins, |p.tx.ins|) }

  /** `b` is `a` after the transaction: its storable outputs are there, what it spends is
      gone, everything else is as before. */
  ghost predicate StepTo(p: Placed, a: Utxo, b: Utxo) {
    && (forall k :: k in b <==> Creates(p, k) || (k in a && !Spends(p, k)))
    && (forall k :: k in b ==> b[k] == if Creates(p, k) then EntryOf(p, k) else a[k])
  }

  /** Replaying a transaction's delta is such a step. */
  lemma ReplayIsStep(p: Placed, utxo: Utxo)
    ensures StepTo(p, utxo, Replay(utxo, TxDeltas(p.tx, p.height)))
  {
    var left := if p.tx.isCoinbase then utxo else utxo - Keys(p.tx.ins, |p.tx.ins|);
    ReplayTx(utxo, p.tx, p.height);
    AddingIsStep(p, utxo, left);
  }

  lemma AddingIsStep(p: Placed, a: Utxo, left: Utxo)
    requires left == if p.tx.isCoinbase then a else a - Keys(p.tx.ins, |p.tx.ins|)
    ensures StepTo(p, a, left + Stored(p.tx, |p.tx.outs|, p.height))
  {
    StoredExactly(p.tx, |p.tx.outs|, p.height);
  }

  /** A non-coinbase transaction spends distinct, present, mature entries that pay for it. */
  ghost predicate SpendsProperly(p: Placed, utxo: Utxo, lim: Limits) {
    !p.tx.isCoinbase ==>
      && DistinctInputs(p.tx.ins) && AllIn(p.tx.ins, utxo)
      && (forall i :: 0 <= i < |p.tx.ins| ==> Mature(utxo[KeyOf(p.tx.ins[i])], p.height, lim))
      && OutputSum(p.tx.outs, |p.tx.outs|) <= InputSum(p.tx.ins, |p.tx.ins|, utxo)
  }

  ghost predicate FreshIds(run: seq<Placed>, genesis: Utxo) {
    && (forall i, j :: 0 <= i < j < |run| ==> run[i].tx.txid != run[j].tx.txid)
    && (forall i, k :: 0 <= i < |run| && k in genesis ==> k.txid != run[i].tx.txid)
  }

  /** `sets[n]` is the stored set after the first `n` transactions. */
  ghost predicate History(run: seq<Placed>, sets: seq<Utxo>, lim: Limits) {
    && |sets| == |run| + 1
    && (forall i :: 0 <= i < |run| ==> StepTo(run[i], sets[i], sets[i + 1]))
    && (forall i :: 0 <= i < |run| ==> SpendsProperly(run[i], sets[i], lim))
  }

  ghost predicate GoodRun(run: seq<Placed>, sets: seq<Utxo>, lim: Limits) {
    History(run, sets, lim) && FreshIds(run, sets[0])
  }

  /** An entry of the set was there at genesis or was created by an earlier transaction. */
  lemma {:induction false} EntriesHaveOrigin(run: seq<Placed>, sets: seq<Utxo>, lim: Limits, n: nat, k: Outpoint)
    requires n <= |run| && History(run, sets, lim) && k in sets[n]
    ensures k in sets[0] || exists i :: 0 <= i < n && Creates(run[i], k)
  {
    if n > 0 {
      assert StepTo(run[n - 1], sets[n - 1], sets[n]);
      if !Creates(run[n - 1], k) {
        EntriesHaveOrigin(run, sets, lim, n - 1, k);
      }
    }
  }

  lemma SpentWasPresent(p: Placed, utxo: Utxo, lim: Limits, k: Outpoint)
    requires SpendsProperly(p, utxo, lim) && Spends(p, k)
    ensures k in utxo && Mature(utxo[k], p.height, lim)
  {
  }

  /** An outpoint is not spent at or before the transaction that creates it. */
  lemma NotSpentBeforeCreated(run: seq<Placed>, sets: seq<Utxo>, lim: Limits, i: nat, j: nat, k: Outpoint)
    requires j <= i < |run| && GoodRun(run, sets, lim) && Creates(run[i], k)
    ensures !Spends(run[j], k)
  {
    if Spends(run[j], k) {
      SpentWasPresent(run[j], sets[j], lim, k);
      EntriesHaveOrigin(run, sets, lim, j, k);
    }
  }

  ghost predicate HasOrigin(run: seq<Placed>, n: nat, genesis: Utxo, k: Outpoint)
    requires n <= |run|
  {
    k in genesis || exists i :: 0 <= i < n && Creates(run[i], k)
  }

  ghost predicate NotSpent(run: seq<Placed>, n: nat, k: Outpoint)
    requires n <= |run|
  {
    forall j :: 0 <= j < n ==> !Spends(run[j], k)
  }

  /** At every point of a run the unspent set is exactly what genesis or an earlier
      transaction created and no earlier transaction spent. */
  lemma {:induction false} UnspentExactly(run: seq<Placed>, sets: seq<Utxo>, lim: Limits, n: nat, k: Outpoint)
    requires n <= |run| && GoodRun(run, sets, lim)
    ensures k in sets[n] <==> HasOrigin(run, n, sets[0], k) && NotSpent(run, n, k)
  {
    if n > 0 {
      var p := run[n - 1];
      UnspentExactly(run, sets, lim, n - 1, k);
      assert StepTo(p, sets[n - 1], sets[n]);
      if Creates(p, k) {
        forall j | 0 <= j < n ensures !Spends(run[j], k) {
          NotSpentBeforeCreated(run, sets, lim, n - 1, j, k);
        }
      }
    }
  }

  /** Unspent entries never change: they keep the amount, script, coinbase flag and height
      they were created with. */
  lemma {:induction false} EntryUnchanged(run: seq<Placed>, sets: seq<Utxo>, lim: Limits, n: nat, k: Outpoint)
    requires n <= |run| && GoodRun(run, sets, lim) && k in sets[n]
    ensures k in sets[0] ==> sets[n][k] == sets[0][k]
    ensures forall i :: 0 <= i < n && Creates(run[i], k) ==> sets[n][k] == EntryOf(run[i], k)
  {
    if n > 0 {
      assert StepTo(run[n - 1], sets[n - 1], sets[n]);
      if !Creates(run[n - 1], k) {
        EntryUnchanged(run, sets, lim, n - 1, k);
      }
    }
  }

  /** No outpoint is consumed by two transactions of a run. */
  lemma SpentOnce(run: seq<Placed>, sets: seq<Utxo>, lim: Limits, i: nat, j: nat, k: Outpoint)
    requires i < |run| && j < |run| && GoodRun(run, sets, lim)
    requires Spends(run[i], k) && Spends(run[j], k)
    ensures i == j
  {
    var lo, hi := if i <= j then i else j, if i <= j then j else i;
    SpentWasPresent(run[hi], sets[hi], lim, k);
    UnspentExactly(run, sets, lim, hi, k);
  }

  /** What is spent was in the genesis set or was created strictly earlier. */
  lemma SpentExisted(run: seq<Placed>, sets: seq<Utxo>, lim: Limits, j: nat, k: Outpoint)
    requires j < |run| && GoodRun(run, sets, lim) && Spends(run[j], k)
    ensures k in sets[0] || exists i :: 0 <= i < j && Creates(run[i], k)
  {
    SpentWasPresent(run[j], sets[j], lim, k);
    EntriesHaveOrigin(run, sets, lim, j, k);
  }

  lemma MatureMeans(e: Entry, height: u64, lim: Limits)
    requires e.isCoinbase && 0 <= e.height && height < I64_LIMIT
    requires Mature(e, height, lim)
    ensures height >= e.height + lim.coinbaseMaturity
  {
  }

  /** A coinbase output is never spent below its height plus the maturity. */
  lemma CoinbaseSpentMature(run: seq<Placed>, sets: seq<Utxo>, lim: Limits, i: nat, j: nat, k: Outpoint)
    requires i < |run| && j < |run| && GoodRun(run, sets, lim)
    requires run[i].tx.isCoinbase && Creates(run[i], k) && Spends(run[j], k)
    requires run[i].height < I64_LIMIT && run[j].height < I64_LIMIT
    ensures i < j && run[j].height >= run[i].height + lim.coinbaseMaturity
  {
    if j <= i { NotSpentBeforeCreated(run, sets, lim, i, j, k); }
    SpentWasPresent(run[j], sets[j], lim, k);
    EntryUnchanged(run, sets, lim, j, k);
    MatureMeans(EntryOf(run[i], k), run[j].height, lim);
  }

  // ---------- conservation ----------

  function FeeOf(p: Placed, utxo: Utxo): int {
    if p.tx.isCoinbase then 0 else InputSum(p.tx.ins, |p.tx.ins|, utxo) - OutputSum(p.tx.outs, |p.tx.outs|)
  }

  function Fees(run: seq<Placed>, sets: seq<Utxo>, n: nat): int
    requires n <= |run| && n <= |sets|
  {
    if n == 0 then 0 else Fees(run, sets, n - 1) + FeeOf(run[n - 1], sets[n - 1])
  }

  /** Value put into storable coinbase outputs. */
  function MintedBy(p: Placed): nat { if p.tx.isCoinbase then StoredSum(p.tx.outs, |p.tx.outs|) else 0 }

  function Minted(run: seq<Placed>, n: nat): nat
    requires n <= |run|
  {
    if n == 0 then 0 else Minted(run, n - 1) + MintedBy(run[n - 1])
  }

  /** Value other transactions put into OP_RETURN outputs. */
  function BurnedBy(p: Placed): nat { if p.tx.isCoinbase then 0 else Burned(p.tx.outs) }

  function BurnedUpTo(run: seq<Placed>, n: nat): nat
    requires n <= |run|
  {
    if n == 0 then 0 else BurnedUpTo(run, n - 1) + BurnedBy(run[n - 1])
  }

  lemma StepIs(p: Placed, a: Utxo, b: Utxo)
    requires StepTo(p, a, b)
    ensures b == (if p.tx.isCoinbase then a else a - Keys(p.tx.ins, |p.tx.ins|)) + Stored(p.tx, |p.tx.outs|, p.height)
  {
    StoredExactly(p.tx, |p.tx.outs|, p.height);
  }

  lemma StepConserves(p: Placed, a: Utxo, b: Utxo, lim: Limits)
    requires StepTo(p, a, b) && SpendsProperly(p, a, lim)
    requires forall k :: k in a ==> k.txid != p.tx.txid
    ensures Total(b) + FeeOf(p, a) + BurnedBy(p) == Total(a) + MintedBy(p)
    ensures FeeOf(p, a) >= 0
  {
    StepIs(p, a, b);
    var left := if p.tx.isCoinbase then a else a - Keys(p.tx.ins, |p.tx.ins|);
    TotalAfterStoring(left, p.tx, |p.tx.outs|, p.height);
    if !p.tx.isCoinbase { TotalAfterSpending(a, p.tx.ins, |p.tx.ins|); }
  }

  lemma NextIdIsNew(run: seq<Placed>, sets: seq<Utxo>, lim: Limits, n: nat)
    requires n < |run| && GoodRun(run, sets, lim)
    ensures forall k :: k in sets[n] ==> k.txid != run[n].tx.txid
  {
    forall k | k in sets[n] ensures k.txid != run[n].tx.txid {
      EntriesHaveOrigin(run, sets, lim, n, k);
    }
  }

  lemma ConservedAt(run: seq<Placed>, sets: seq<Utxo>, lim: Limits, i: nat) returns (after: nat, fee: nat)
    requires i < |run| && GoodRun(run, sets, lim)
    ensures after == Total(sets[i + 1]) && fee == FeeOf(run[i], sets[i])
    ensures after + fee + BurnedBy(run[i]) == Total(sets[i]) + MintedBy(run[i])
  {
    NextIdIsNew(run, sets, lim, i);
    StepConserves(run[i], sets[i], sets[i + 1], lim);
    after, fee := Total(sets[i + 1]), FeeOf(run[i], sets[i]);
  }

  /** Over every prefix of a run: unspent value plus fees plus burned value is the initial
      value plus what coinbases minted, and no fee is negative. */
  lemma {:induction false} RunConserves(run: seq<Placed>, sets: seq<Utxo>, lim: Limits, n: nat)
    returns (total: nat, fees: nat, burned: nat, minted: nat)
    requires n <= |run| && GoodRun(run, sets, lim)
    ensures total == Total(sets[n]) && fees == Fees(run, sets, n) && burned == BurnedUpTo(run, n) && minted == Minted(run, n)
    ensures total + fees + burned == Total(sets[0]) + minted
  {
    if n == 0 {
      total, fees, burned, minted := Total(sets[0]), 0, 0, 0;
    } else {
      total, fees, burned, minted := RunConserves(run, sets, lim, n - 1);
      var after, fee := ConservedAt(run, sets, lim, n - 1);
      total, fees, burned, minted := after, fees + fee, burned + BurnedBy(run[n - 1]), minted + MintedBy(run[n - 1]);
    }
  }
}
