/** The part of the stored set that a block is validated on: only the entries its inputs name
    are looked up and handed to the validator. */
module Snapshot {
  import opened Bytes
  import opened TxCodec
  import opened Validation
  import opened UtxoRecord
  import opened UtxoDelta
  import opened Value
  import opened Script
  import opened Dictionary

  // ---------- the validator looks at nothing else ----------

  ghost predicate SameAt(keys: set<Outpoint>, a: Utxo, b: Utxo) {
    forall k :: k in keys ==> (k in a <==> k in b) && (k in a ==> a[k] == b[k])
  }

  /** The verdict on a transaction depends on the entries its inputs name alone. */
  ghost predicate Local(j: Judge) {
    forall tx: Tx, a: Utxo, b: Utxo :: SameAt(Keys(tx.ins, |tx.ins|), a, b) ==> j.verdict(tx, a) == j.verdict(tx, b)
  }

  lemma {:induction false} InputErrorsLocal(tx: Tx, n: nat, a: Utxo, b: Utxo, height: u64, lim: Limits, c: Crypto)
    requires n <= |tx.ins| && SameAt(Keys(tx.ins, |tx.ins|), a, b)
    ensures FirstInputError(tx, n, a, height, lim, c) == FirstInputError(tx, n, b, height, lim, c)
  {
    if n > 0 {
      InputErrorsLocal(tx, n - 1, a, b, height, lim, c);
      assert KeyOf(tx.ins[n - 1]) in Keys(tx.ins, |tx.ins|);
    }
  }

  lemma {:induction false} SumsLocal(ins: Ins, n: nat, a: Utxo, b: Utxo)
    requires n <= |ins| && SameAt(Keys(ins, |ins|), a, b)
    ensures InputSum(ins, n, a) == InputSum(ins, n, b) && Sigops(ins, n, a) == Sigops(ins, n, b)
  {
    if n > 0 {
      SumsLocal(ins, n - 1, a, b);
      assert KeyOf(ins[n - 1]) in Keys(ins, |ins|);
    }
  }

  lemma BalanceLocal(tx: Tx, a: Utxo, b: Utxo, lim: Limits)
    requires SameAt(Keys(tx.ins, |tx.ins|), a, b)
    ensures BalanceVerdict(tx, a, lim) == BalanceVerdict(tx, b, lim)
  {
    SumsLocal(tx.ins, |tx.ins|, a, b);
  }

  lemma ConsensusLocal(height: u64, lim: Limits, c: Crypto)
    ensures Local(ConsensusJudge(height, lim, c))
  {
    forall tx: Tx, a: Utxo, b: Utxo | SameAt(Keys(tx.ins, |tx.ins|), a, b)
      ensures TxVerdict(tx, a, height, lim, c) == TxVerdict(tx, b, height, lim, c)
    {
      InputErrorsLocal(tx, |tx.ins|, a, b, height, lim, c);
      BalanceLocal(tx, a, b, lim);
    }
  }

  /** All outpoints that inputs of the first `n` transactions name. */
  function Named(block: seq<Tx>, n: nat): set<Outpoint>
    requires n <= |block|
  {
    if n == 0 then {}
    else Named(block, n - 1) + (if block[n - 1].isCoinbase then {} else Keys(block[n - 1].ins, |block[n - 1].ins|))
  }

  /** Two states of the block loop that no later input can tell apart. */
  ghost predicate RunsSame(keys: set<Outpoint>, s: Run, t: Run) {
    if s.Failed? || t.Failed? then s == t else s.fees == t.fees && s.sigops == t.sigops && SameAt(keys, s.utxo, t.utxo)
  }

  /** What a step leaves alike where the two runs were alike: all it creates, besides. */
  function Alike(keys: set<Outpoint>, tx: Tx, height: u64): set<Outpoint> {
    if tx.isCoinbase then keys else keys + Created(tx, |tx.outs|, height).Keys
  }

  lemma StepsSame(tx: Tx, first: bool, keys: set<Outpoint>, s: Run, t: Run, j: Judge)
    requires Local(j) && s.Running? && t.Running? && RunsSame(keys, s, t)
    requires !tx.isCoinbase ==> Keys(tx.ins, |tx.ins|) <= keys
    ensures RunsSame(Alike(keys, tx, j.height), Step(tx, first, s, j), Step(tx, first, t, j))
  {
    if !tx.isCoinbase {
      assert j.verdict(tx, s.utxo) == j.verdict(tx, t.utxo);
      AppliedSame(tx, keys, s.utxo, t.utxo, j.height);
    }
  }

  lemma AppliedSame(tx: Tx, keys: set<Outpoint>, a: Utxo, b: Utxo, height: u64)
    requires SameAt(keys, a, b) && !tx.isCoinbase
    ensures SameAt(Alike(keys, tx, height), Applied(tx, a, height), Applied(tx, b, height))
  {
  }

  /** The sets given for the steps hold what the inputs name, and grow by what is created only. */
  ghost predicate Follow(block: seq<Tx>, sure: nat -> set<Outpoint>, height: u64) {
    forall n: nat :: n < |block| ==>
      && (!block[n].isCoinbase ==> Keys(block[n].ins, |block[n].ins|) <= sure(n))
      && sure(n + 1) <= Alike(sure(n), block[n], height)
  }

  lemma {:induction false} BlockRunsSame(block: seq<Tx>, n: nat, sure: nat -> set<Outpoint>, a: Utxo, b: Utxo, j: Judge)
    requires n <= |block| && Local(j) && Follow(block, sure, j.height) && SameAt(sure(0), a, b)
    ensures RunsSame(sure(n), RunBlock(block, n, a, j), RunBlock(block, n, b, j))
  {
    if n > 0 {
      BlockRunsSame(block, n - 1, sure, a, b, j);
      NextSame(block, n, sure(n - 1), sure(n), a, b, j);
    }
  }

  lemma NextSame(block: seq<Tx>, n: nat, keys: set<Outpoint>, next: set<Outpoint>, a: Utxo, b: Utxo, j: Judge)
    requires 1 <= n <= |block| && Local(j)
    requires !block[n - 1].isCoinbase ==> Keys(block[n - 1].ins, |block[n - 1].ins|) <= keys
    requires next <= Alike(keys, block[n - 1], j.height)
    requires RunsSame(keys, RunBlock(block, n - 1, a, j), RunBlock(block, n - 1, b, j))
    ensures RunsSame(next, RunBlock(block, n, a, j), RunBlock(block, n, b, j))
  {
    var s, t := RunBlock(block, n - 1, a, j), RunBlock(block, n - 1, b, j);
    if s.Running? && t.Running? { StepsSame(block[n - 1], n == 1, keys, s, t, j); }
  }

  // ---------- the snapshot ----------

  function Ids(block: seq<Tx>, n: nat): set<Digest>
    requires n <= |block|
  {
    set e | 0 <= e < n :: block[e].txid
  }

  predicate PartOf(snap: Utxo, utxo: Utxo) { forall k :: k in snap ==> k in utxo && snap[k] == utxo[k] }

  /** Every input names an entry of the snapshot, or an output of one of the given ids. */
  predicate CoversInputs(snap: Utxo, ins: Ins, n: nat, ids: set<Digest>)
    requires n <= |ins|
  {
    forall i :: 0 <= i < n ==> KeyOf(ins[i]) in snap || ins[i].prevTxid in ids
  }

  /** What is new names an input, and none of the given ids. */
  ghost predicate AddsInputs(snap0: Utxo, snap: Utxo, ins: Ins, ids: set<Digest>) {
    forall k :: k in snap ==> k in snap0 || (k in Keys(ins, |ins|) && k.txid !in ids)
  }

  ghost predicate OnlyLookedUp(snap: Utxo, block: seq<Tx>) { forall k :: k in snap ==> LookedUp(block, k) }

  ghost predicate Covers(snap: Utxo, block: seq<Tx>, n: nat)
    requires n <= |block|
  {
    forall m :: 0 <= m < n && !block[m].isCoinbase ==> CoversInputs(snap, block[m].ins, |block[m].ins|, Ids(block, m))
  }

  /** An input of transaction `m` names neither an entry of the set nor an earlier id. */
  ghost predicate Dangling(block: seq<Tx>, utxo: Utxo, m: nat, i: nat) {
    && m < |block| && !block[m].isCoinbase && i < |block[m].ins|
    && KeyOf(block[m].ins[i]) !in utxo && block[m].ins[i].prevTxid !in Ids(block, m)
  }

  /** Some input names the outpoint before any transaction of its id: the node looks it up. */
  ghost predicate LookedUp(block: seq<Tx>, k: Outpoint) { exists m: nat, i: nat :: LookedUpAt(block, m, i, k) }

  ghost predicate LookedUpAt(block: seq<Tx>, m: nat, i: nat, k: Outpoint) {
    m < |block| && !block[m].isCoinbase && i < |block[m].ins| && KeyOf(block[m].ins[i]) == k && k.txid !in Ids(block, m)
  }

  /** An earlier, non-coinbase transaction of the block makes the outpoint. */
  ghost predicate Made(block: seq<Tx>, m: nat, k: Outpoint) {
    exists e :: 1 <= e < m && e < |block| && !block[e].isCoinbase && k.txid == block[e].txid && k.vout < |block[e].outs|
  }

  /** An input of transaction `m` names an entry that is not looked up, as an earlier transaction
      has its id, and that no earlier transaction makes again. */
  ghost predicate Hidden(block: seq<Tx>, utxo: Utxo, m: nat, i: nat) {
    && m < |block| && !block[m].isCoinbase && i < |block[m].ins|
    && var k := KeyOf(block[m].ins[i]); k in utxo && !LookedUp(block, k) && !Made(block, m, k)
  }

  ghost predicate NothingHidden(block: seq<Tx>, utxo: Utxo) { forall m: nat, i: nat :: !Hidden(block, utxo, m, i) }

  lemma FreshHidesNothing(block: seq<Tx>, utxo: Utxo)
    requires FreshBlock(block, utxo)
    ensures NothingHidden(block, utxo)
  {
    forall m: nat, i: nat ensures !Hidden(block, utxo, m, i) {
      if m < |block| && !block[m].isCoinbase && i < |block[m].ins| && KeyOf(block[m].ins[i]) in utxo {
        assert LookedUpAt(block, m, i, KeyOf(block[m].ins[i]));
      }
    }
  }

  /** The failing block: its coinbase has the id of an entry that the next transaction spends. */
  lemma RepeatedByCoinbaseIsHidden(coinbase: Tx, tx: Tx, utxo: Utxo)
    requires coinbase.isCoinbase && !tx.isCoinbase && |tx.ins| == 1
    requires tx.ins[0].prevTxid == coinbase.txid && KeyOf(tx.ins[0]) in utxo
    ensures !NothingHidden([coinbase, tx], utxo)
  {
    var block, k := [coinbase, tx], KeyOf(tx.ins[0]);
    assert block[0].txid in Ids(block, 1);
    forall m: nat, i: nat ensures !LookedUpAt(block, m, i, k) { }
    assert Hidden(block, utxo, 1, 0);
  }

  ghost predicate HasDangling(block: seq<Tx>, utxo: Utxo) { exists m: nat, i: nat :: Dangling(block, utxo, m, i) }

  /** The entries for one transaction; outputs of the block itself are not looked up. */
  method SnapshotInputs(tx: Tx, processed: set<Digest>, utxos: Coins, items0: seq<(Outpoint, Entry)>, snap0: Utxo,
                        ghost utxo: Utxo)
      returns (missing: Option<nat>, items: seq<(Outpoint, Entry)>, snap: Utxo)
    requires Holds(utxos, utxo) && IndexOf(items0) == snap0 && PartOf(snap0, utxo)
    ensures IndexOf(items) == snap && PartOf(snap, utxo) && PartOf(snap0, snap) && AddsInputs(snap0, snap, tx.ins, processed)
    ensures missing.None? ==> CoversInputs(snap, tx.ins, |tx.ins|, processed)
    ensures missing.Some? ==> missing.value < |tx.ins| && KeyOf(tx.ins[missing.value]) !in utxo
                              && tx.ins[missing.value].prevTxid !in processed
  {
    items, snap := items0, snap0;
    for i := 0 to |tx.ins|
      invariant IndexOf(items) == snap && PartOf(snap, utxo) && PartOf(snap0, snap) && AddsInputs(snap0, snap, tx.ins, processed)
      invariant CoversInputs(snap, tx.ins, i, processed)
    {
      var k := KeyOf(tx.ins[i]);
      if tx.ins[i].prevTxid !in processed && k !in snap {
        var key := KeyString(k);
        if key !in utxos { return Some(i), items, snap; }
        var coin := utxos[key];
        var script := Script.Serialize(coin.script);
        var e := Entry(coin.amount, script, coin.isCoinbase, coin.height);
        ListedNext(items, k, e);
        items, snap := items + [(k, e)], snap[k := e];
      }
    }
    missing := None;
  }

  lemma ListedNext(items: seq<(Outpoint, Entry)>, k: Outpoint, e: Entry)
    ensures IndexOf(items + [(k, e)]) == IndexOf(items)[k := e]
  {
    assert (items + [(k, e)])[..|items|] == items;
  }

  /** The snapshot of a block; nothing if some input names no entry. */
  method PrepareTxSnapshot(block: seq<Tx>, utxos: Coins, ghost utxo: Utxo) returns (items: Option<seq<(Outpoint, Entry)>>)
    requires Holds(utxos, utxo)
    ensures items.Some? ==> IsSnapshot(IndexOf(items.value), block, utxo)
    ensures items.None? ==> HasDangling(block, utxo)
  {
    var processed: set<Digest> := {};
    var list: seq<(Outpoint, Entry)>, snap: Utxo := [], map[];
    for m := 0 to |block|
      invariant processed == Ids(block, m)
      invariant IndexOf(list) == snap && PartOf(snap, utxo) && Covers(snap, block, m) && OnlyLookedUp(snap, block)
    {
      if !block[m].isCoinbase {
        ghost var before := snap;
        var missing;
        missing, list, snap := SnapshotInputs(block[m], processed, utxos, list, snap, utxo);
        if missing.Some? {
          assert Dangling(block, utxo, m, missing.value);
          return None;
        }
        StillCovers(before, snap, block, m);
        StillLookedUp(before, snap, block, m);
      }
      assert Ids(block, m + 1) == Ids(block, m) + {block[m].txid};
      processed := processed + {block[m].txid};
    }
    items := Some(list);
  }

  lemma StillCovers(before: Utxo, after: Utxo, block: seq<Tx>, n: nat)
    requires n <= |block| && PartOf(before, after) && Covers(before, block, n)
    ensures Covers(after, block, n)
  {
  }

  lemma StillLookedUp(before: Utxo, after: Utxo, block: seq<Tx>, m: nat)
    requires m < |block| && !block[m].isCoinbase && OnlyLookedUp(before, block)
    requires AddsInputs(before, after, block[m].ins, Ids(block, m))
    ensures OnlyLookedUp(after, block)
  {
    forall k | k in after && k !in before ensures LookedUp(block, k) {
      var i :| 0 <= i < |block[m].ins| && KeyOf(block[m].ins[i]) == k;
      assert LookedUpAt(block, m, i, k);
    }
  }

  lemma {:induction false} NamedByInput(block: seq<Tx>, n: nat, k: Outpoint) returns (m: nat, i: nat)
    requires n <= |block| && k in Named(block, n)
    ensures m < n && !block[m].isCoinbase && i < |block[m].ins| && KeyOf(block[m].ins[i]) == k
  {
    if !block[n - 1].isCoinbase && k in Keys(block[n - 1].ins, |block[n - 1].ins|) {
      m := n - 1;
      i :| 0 <= i < |block[n - 1].ins| && KeyOf(block[n - 1].ins[i]) == k;
    } else {
      m, i := NamedByInput(block, n - 1, k);
    }
  }

  /** The outpoints at which the two runs are alike after `n` transactions. */
  ghost function Sure(block: seq<Tx>, utxo: Utxo, snap: Utxo): nat -> set<Outpoint> {
    (n: nat) => set k | k in Named(block, |block|) && (k !in utxo || k in snap || Made(block, n, k))
  }

  lemma InputsAreSure(block: seq<Tx>, utxo: Utxo, snap: Utxo, n: nat)
    requires NothingHidden(block, utxo) && IsSnapshot(snap, block, utxo) && n < |block| && !block[n].isCoinbase
    ensures Keys(block[n].ins, |block[n].ins|) <= Sure(block, utxo, snap)(n)
  {
    forall k | k in Keys(block[n].ins, |block[n].ins|) ensures k in Sure(block, utxo, snap)(n) {
      var i :| 0 <= i < |block[n].ins| && KeyOf(block[n].ins[i]) == k;
      NamedAt(block, |block|, n, i);
      assert !Hidden(block, utxo, n, i);
      if LookedUp(block, k) {
        var m': nat, i': nat :| LookedUpAt(block, m', i', k);
        assert CoversInputs(snap, block[m'].ins, |block[m'].ins|, Ids(block, m'));
      }
    }
  }

  lemma {:induction false} NamedAt(block: seq<Tx>, n: nat, m: nat, i: nat)
    requires m < n <= |block| && !block[m].isCoinbase && i < |block[m].ins|
    ensures KeyOf(block[m].ins[i]) in Named(block, n)
  {
    if m < n - 1 { NamedAt(block, n - 1, m, i); }
  }

  lemma SureGrows(block: seq<Tx>, utxo: Utxo, snap: Utxo, n: nat, height: u64)
    requires n < |block|
    ensures Sure(block, utxo, snap)(n + 1) <= Alike(Sure(block, utxo, snap)(n), block[n], height)
  {
    forall k | k in Sure(block, utxo, snap)(n + 1) ensures k in Alike(Sure(block, utxo, snap)(n), block[n], height) {
      if Made(block, n + 1, k) {
        var e: nat :| 1 <= e < n + 1 && !block[e].isCoinbase && k.txid == block[e].txid && k.vout < |block[e].outs|;
        if e < n { assert Made(block, n, k); } else { CreatedExactly(block[n], |block[n].outs|, height); }
      }
    }
  }

  /** Of a set, the snapshot holds what the node looks up. */
  ghost predicate IsSnapshot(snap: Utxo, block: seq<Tx>, utxo: Utxo) {
    PartOf(snap, utxo) && Covers(snap, block, |block|) && OnlyLookedUp(snap, block)
  }

  /** On every block that hides nothing the validator gives the same verdict, with the same fees,
      on the snapshot as on the whole set. */
  lemma SnapshotSuffices(block: seq<Tx>, utxo: Utxo, snap: Utxo, j: Judge)
    requires Local(j) && NothingHidden(block, utxo) && IsSnapshot(snap, block, utxo)
    ensures BlockOutcome(block, snap, j) == BlockOutcome(block, utxo, j)
  {
    var sure := Sure(block, utxo, snap);
    forall n: nat | n < |block|
      ensures (!block[n].isCoinbase ==> Keys(block[n].ins, |block[n].ins|) <= sure(n)) && sure(n + 1) <= Alike(sure(n), block[n], j.height)
    {
      if !block[n].isCoinbase { InputsAreSure(block, utxo, snap, n); }
      SureGrows(block, utxo, snap, n, j.height);
    }
    BlockRunsSame(block, |block|, sure, snap, utxo, j);
  }

  lemma InputThereOrMade(block: seq<Tx>, snap: Utxo, j: Judge, m: nat, i: nat)
    requires SpendsStorable(j) && RunBlock(block, |block|, snap, j).Running?
    requires m < |block| && !block[m].isCoinbase && i < |block[m].ins|
    ensures KeyOf(block[m].ins[i]) in snap || Made(block, m, KeyOf(block[m].ins[i]))
  {
    var k := KeyOf(block[m].ins[i]);
    RunningUpTo(block, 1, |block|, snap, j);
    var before, after := RunStep(block, 1, snap, j);
    JudgedInputsComeFromEarlier(block, snap, j, m, i);
    if k !in snap {
      var e: nat :| 1 <= e < m && k.txid == block[e].txid && k.vout < |block[e].outs|;
      RunningUpTo(block, e + 1, |block|, snap, j);
      AcceptedAt(block, e, snap, j);
    }
  }

  /** What is hidden is missing when its turn comes. */
  lemma HiddenIsRejected(block: seq<Tx>, utxo: Utxo, snap: Utxo, j: Judge)
    requires SpendsStorable(j) && IsSnapshot(snap, block, utxo) && !NothingHidden(block, utxo)
    ensures BlockOutcome(block, snap, j).Rejected?
  {
    var m: nat, i: nat :| Hidden(block, utxo, m, i);
    if RunBlock(block, |block|, snap, j).Running? { InputThereOrMade(block, snap, j, m, i); }
  }

  /** The snapshot is accepted exactly when the whole set is and nothing is hidden. */
  lemma SnapshotAcceptedExactlyWhen(block: seq<Tx>, utxo: Utxo, snap: Utxo, j: Judge)
    requires Local(j) && SpendsStorable(j) && IsSnapshot(snap, block, utxo)
    ensures BlockOutcome(block, snap, j).Accepted? <==> BlockOutcome(block, utxo, j).Accepted? && NothingHidden(block, utxo)
  {
    if NothingHidden(block, utxo) { SnapshotSuffices(block, utxo, snap, j); } else { HiddenIsRejected(block, utxo, snap, j); }
  }

  /** A block for which no snapshot can be made is one the validator rejects. */
  lemma DanglingIsRejected(block: seq<Tx>, utxo: Utxo, j: Judge)
    requires SpendsStorable(j) && HasDangling(block, utxo)
    ensures BlockOutcome(block, utxo, j).Rejected?
  {
    var m: nat, i: nat :| Dangling(block, utxo, m, i);
    if RunBlock(block, |block|, utxo, j).Running? {
      RunningUpTo(block, 1, |block|, utxo, j);
      var before, after := RunStep(block, 1, utxo, j);
      JudgedInputsComeFromEarlier(block, utxo, j, m, i);
    }
  }

  /** The way a node judges a block: on the snapshot, or not at all. */
  method ValidateOnSnapshot(block: seq<Tx>, utxos: Coins, height: u64, lim: Limits, c: Crypto, ghost utxo: Utxo)
      returns (r: Option<BlockVerdict>)
    requires Holds(utxos, utxo)
    ensures r.Some? && r.value.Accepted? <==>
            BlockOutcome(block, utxo, ConsensusJudge(height, lim, c)).Accepted? && NothingHidden(block, utxo)
    ensures r.Some? && NothingHidden(block, utxo) ==> r.value == BlockOutcome(block, utxo, ConsensusJudge(height, lim, c))
  {
    var items := PrepareTxSnapshot(block, utxos, utxo);
    ConsensusSpendsStorable(height, lim, c);
    if items.None? {
      DanglingIsRejected(block, utxo, ConsensusJudge(height, lim, c));
      return None;
    }
    ConsensusLocal(height, lim, c);
    SnapshotAcceptedExactlyWhen(block, utxo, IndexOf(items.value), ConsensusJudge(height, lim, c));
    if NothingHidden(block, utxo) { SnapshotSuffices(block, utxo, IndexOf(items.value), ConsensusJudge(height, lim, c)); }
    var v := ValidateBlockTxsCompact(block, items.value, height, lim, c);
    r := Some(v);
  }
}
