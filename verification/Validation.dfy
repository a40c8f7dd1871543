/** The block validator: it consumes and extends an in-memory index of unspent outputs,
    transaction by transaction. The specification next to it never modifies anything:
    it looks every input up in the index as it was before the transaction. */
module Validation {
  import opened Bytes
  import opened TxCodec
  import opened Sighash

  /** The primitives the validator calls; nothing is known about them here. */
  datatype Crypto = Crypto(
    sha256: Bytes -> Digest,
    hash160: Bytes -> Bytes,
    pubkeyOk: Bytes -> bool,
    derOk: Bytes -> bool,
    lowS: Bytes -> bool,
    ecdsa: (Bytes, Bytes, Digest) -> bool
  ) {
    function Sha256d(b: Bytes): Digest { sha256(sha256(b)) }
  }

  datatype Outpoint = Outpoint(txid: Digest, vout: u32)
  datatype Entry = Entry(amount: u64, script: Buf, isCoinbase: bool, height: i64)
  type Utxo = map<Outpoint, Entry>

  datatype Limits = Limits(
    coinbaseMaturity: i64, maxSigopsPerTx: u32, maxSigopsPerBlock: u32,
    maxTxVsize: u64, minTxVsize: u64, maxTxWeight: u64, minTxWeight: u64,
    maxTxInputs: u64, maxTxOutputs: u64, enforceLowS: bool)

  datatype TxError =
    | VsizeExceedsLimit | VsizeBelowMin | WeightExceedsLimit | WeightBelowMin | InputsExceedLimit | OutputsExceedLimit
    | DuplicatePrevout | PrevoutMissing | CoinbaseImmature | UnsupportedScript
    | MissingWitness | InvalidSignature | UnsupportedSighash | PubkeyHashMismatch | SigVerifyFailed
    | WitnessScriptHashMismatch | RedeemTooShort | RedeemMalformed | RedeemMissingEqual | RedeemDataMismatch
    | TxSigopsLimit | NonpositiveOutput | InputsLessThanOutputs

  datatype Verdict = Accept(fee: u64, sigops: u32) | Reject(error: TxError)

  // ---------- scripts and witnesses ----------

  datatype ScriptKind = P2wpkh(hash: Bytes) | P2wsh(hash: Bytes)

  function DetectScriptKind(script: Bytes): Option<ScriptKind> {
    if |script| == 22 && script[0] == 0x00 && script[1] == 0x14 then Some(P2wpkh(script[2..]))
    else if |script| == 34 && script[0] == 0x00 && script[1] == 0x20 then Some(P2wsh(script[2..]))
    else None
  }

  predicate IsOpReturn(script: Bytes) { script != [] && script[0] == 0x6a }

  /** OP_DUP OP_HASH160 <20 bytes> OP_EQUALVERIFY OP_CHECKSIG. */
  function P2wpkhCode(hash20: Bytes): Bytes { [0x76, 0xa9, 0x14] + hash20 + [0x88, 0xac] }

  predicate VerifySignature(pubkey: Bytes, der: Bytes, digest: Digest, enforceLowS: bool, c: Crypto) {
    c.pubkeyOk(pubkey) && c.derOk(der) && (enforceLowS ==> c.lowS(der)) && c.ecdsa(pubkey, der, digest)
  }

  predicate SighashByteOk(t: u8) { t % 32 == 1 && t < 0x80 }

  /** The digest a pay-to-witness-key-hash input must sign. */
  function InputDigest(tx: Tx, n: nat, amount: u64, hash20: Bytes, t: u8, c: Crypto): Digest
    requires n < |tx.ins| && |hash20| == 20
  {
    c.Sha256d(TxPreimage(tx, CacheOf(tx, c.Sha256d), n, P2wpkhCode(hash20), amount, t))
  }

  function P2wpkhError(tx: Tx, n: nat, amount: u64, hash20: Bytes, lim: Limits, c: Crypto): Option<TxError>
    requires n < |tx.ins| && |hash20| == 20
  {
    var wit := tx.ins[n].wit;
    if |wit| < 2 then Some(MissingWitness)
    else if |wit[0]| < 2 then Some(InvalidSignature)
    else
      var t := wit[0][|wit[0]| - 1];
      if !SighashByteOk(t) then Some(UnsupportedSighash)
      else if c.hash160(wit[1]) != hash20 then Some(PubkeyHashMismatch)
      else if !VerifySignature(wit[1], wit[0][..|wit[0]| - 1], InputDigest(tx, n, amount, hash20, t, c), lim.enforceLowS, c)
      then Some(SigVerifyFailed)
      else None
  }

  /** The graffiti payout covenant: witness [art digest, redeem script], redeem script
      <push art digest> OP_EQUAL. */
  function CovenantError(wit: Stack, hash32: Bytes, c: Crypto): Option<TxError> {
    if |wit| < 2 then Some(MissingWitness)
    else
      var redeem := wit[1];
      if c.sha256(redeem) != hash32 then Some(WitnessScriptHashMismatch)
      else if |redeem| < 2 then Some(RedeemTooShort)
      else if redeem[0] as int + 2 != |redeem| then Some(RedeemMalformed)
      else if redeem[|redeem| - 1] != 0x87 then Some(RedeemMissingEqual)
      else if redeem[1..1 + redeem[0]] != wit[0] then Some(RedeemDataMismatch)
      else None
  }

  // ---------- what it means to accept a transaction ----------

  function KeyOf(i: TxIn): Outpoint { Outpoint(i.prevTxid, i.vout) }

  /** The outpoints of the first `n` inputs. */
  function Keys(ins: Ins, n: nat): set<Outpoint>
    requires n <= |ins|
  {
    set i | 0 <= i < n :: KeyOf(ins[i])
  }

  predicate Mature(e: Entry, height: u64, lim: Limits) {
    e.isCoinbase ==> SatSubI64(AsI64(height), e.height) >= lim.coinbaseMaturity
  }

  /** Why input `n` is refused, judged against the index before the transaction. */
  function InputError(tx: Tx, n: nat, utxo: Utxo, height: u64, lim: Limits, c: Crypto): Option<TxError>
    requires n < |tx.ins|
  {
    var key := KeyOf(tx.ins[n]);
    if key in Keys(tx.ins, n) then Some(DuplicatePrevout)
    else if key !in utxo then Some(PrevoutMissing)
    else if !Mature(utxo[key], height, lim) then Some(CoinbaseImmature)
    else match DetectScriptKind(utxo[key].script)
      case None => Some(UnsupportedScript)
      case Some(P2wpkh(hash20)) => P2wpkhError(tx, n, utxo[key].amount, hash20, lim, c)
      case Some(P2wsh(hash32)) => CovenantError(tx.ins[n].wit, hash32, c)
  }

  function FirstInputError(tx: Tx, n: nat, utxo: Utxo, height: u64, lim: Limits, c: Crypto): Option<TxError>
    requires n <= |tx.ins|
  {
    if n == 0 then None
    else
      var earlier := FirstInputError(tx, n - 1, utxo, height, lim, c);
      if earlier.Some? then earlier else InputError(tx, n - 1, utxo, height, lim, c)
  }

  function AmountAt(utxo: Utxo, k: Outpoint): nat { if k in utxo then utxo[k].amount else 0 }

  function InputSum(ins: Ins, n: nat, utxo: Utxo): nat
    requires n <= |ins|
  {
    if n == 0 then 0 else InputSum(ins, n - 1, utxo) + AmountAt(utxo, KeyOf(ins[n - 1]))
  }

  predicate SpendsKeyHash(utxo: Utxo, k: Outpoint) {
    k in utxo && DetectScriptKind(utxo[k].script).Some? && DetectScriptKind(utxo[k].script).value.P2wpkh?
  }

  function Sigops(ins: Ins, n: nat, utxo: Utxo): u32
    requires n <= |ins|
  {
    if n == 0 then 0
    else if SpendsKeyHash(utxo, KeyOf(ins[n - 1])) then SatU32(Sigops(ins, n - 1, utxo) + 1)
    else Sigops(ins, n - 1, utxo)
  }

  predicate OutputOk(o: TxOut) { o.amount > 0 || IsOpReturn(o.script) }

  function OutputSum(outs: Outs, n: nat): nat
    requires n <= |outs|
  {
    if n == 0 then 0 else OutputSum(outs, n - 1) + outs[n - 1].amount
  }

  function LimitError(tx: Tx, lim: Limits): Option<TxError> {
    if Vsize(tx) > lim.maxTxVsize then Some(VsizeExceedsLimit)
    else if Vsize(tx) < lim.minTxVsize then Some(VsizeBelowMin)
    else if Weight(tx) > lim.maxTxWeight then Some(WeightExceedsLimit)
    else if Weight(tx) < lim.minTxWeight then Some(WeightBelowMin)
    else if |tx.ins| > lim.maxTxInputs then Some(InputsExceedLimit)
    else if |tx.outs| > lim.maxTxOutputs then Some(OutputsExceedLimit)
    else None
  }

  /** What remains of the index once the inputs are consumed is judged on the sums:
      the fee is cast to 64 bits. */
  function BalanceVerdict(tx: Tx, utxo: Utxo, lim: Limits): Verdict {
    var paid, spent := InputSum(tx.ins, |tx.ins|, utxo), OutputSum(tx.outs, |tx.outs|);
    if Sigops(tx.ins, |tx.ins|, utxo) > lim.maxSigopsPerTx then Reject(TxSigopsLimit)
    else if exists j :: 0 <= j < |tx.outs| && !OutputOk(tx.outs[j]) then Reject(NonpositiveOutput)
    else if paid < spent then Reject(InputsLessThanOutputs)
    else Accept((paid - spent) % U64_LIMIT, Sigops(tx.ins, |tx.ins|, utxo))
  }

  function TxVerdict(tx: Tx, utxo: Utxo, height: u64, lim: Limits, c: Crypto): Verdict {
    var limitError := LimitError(tx, lim);
    if limitError.Some? then Reject(limitError.value)
    else
      var inputError := FirstInputError(tx, |tx.ins|, utxo, height, lim, c);
      if inputError.Some? then Reject(inputError.value) else BalanceVerdict(tx, utxo, lim)
  }

  // ---------- what an accepted transaction does to the index ----------

  function NewEntry(o: TxOut, isCoinbase: bool, height: u64): Entry {
    Entry(o.amount, o.script, isCoinbase, AsI64(height))
  }

  /** The entries of the first `n` outputs. */
  function Created(tx: Tx, n: nat, height: u64): Utxo
    requires n <= |tx.outs|
  {
    if n == 0 then map[]
    else Created(tx, n - 1, height)[Outpoint(tx.txid, n - 1) := NewEntry(tx.outs[n - 1], false, height)]
  }

  function Applied(tx: Tx, utxo: Utxo, height: u64): Utxo {
    (utxo - Keys(tx.ins, |tx.ins|)) + Created(tx, |tx.outs|, height)
  }

  /** Entries that `tx` neither spends nor creates are the same in both indexes. */
  ghost predicate SameOutside(tx: Tx, a: Utxo, b: Utxo) {
    forall k: Outpoint :: k !in Keys(tx.ins, |tx.ins|) && k.txid != tx.txid ==>
      (k in a <==> k in b) && (k in a ==> a[k] == b[k])
  }

  lemma {:induction false} CreatedExactly(tx: Tx, n: nat, height: u64)
    requires n <= |tx.outs|
    ensures forall k :: k in Created(tx, n, height) <==> k.txid == tx.txid && k.vout < n
    ensures forall k :: k in Created(tx, n, height) ==> Created(tx, n, height)[k] == NewEntry(tx.outs[k.vout], false, height)
  {
    if n > 0 { CreatedExactly(tx, n - 1, height); }
  }

  lemma {:induction false} InputErrorIsFirst(tx: Tx, k: nat, n: nat, utxo: Utxo, height: u64, lim: Limits, c: Crypto)
    requires k <= n <= |tx.ins|
    requires FirstInputError(tx, k, utxo, height, lim, c).Some?
    ensures FirstInputError(tx, n, utxo, height, lim, c) == FirstInputError(tx, k, utxo, height, lim, c)
  {
    if k < n { InputErrorIsFirst(tx, k, n - 1, utxo, height, lim, c); }
  }

  /** No error among the inputs means no error at any of them. */
  lemma {:induction false} NoInputErrorAt(tx: Tx, i: nat, n: nat, utxo: Utxo, height: u64, lim: Limits, c: Crypto)
    requires i < n <= |tx.ins|
    requires FirstInputError(tx, n, utxo, height, lim, c).None?
    ensures InputError(tx, i, utxo, height, lim, c).None?
  {
    if i < n - 1 { NoInputErrorAt(tx, i, n - 1, utxo, height, lim, c); }
  }

  /** The entry's script is one the validator knows and the witness satisfies it. */
  predicate Authorised(tx: Tx, n: nat, e: Entry, lim: Limits, c: Crypto)
    requires n < |tx.ins|
  {
    match DetectScriptKind(e.script)
    case None => false
    case Some(P2wpkh(hash20)) => P2wpkhError(tx, n, e.amount, hash20, lim, c).None?
    case Some(P2wsh(hash32)) => CovenantError(tx.ins[n].wit, hash32, c).None?
  }

  predicate DistinctInputs(ins: Ins) { forall i, j :: 0 <= i < j < |ins| ==> KeyOf(ins[i]) != KeyOf(ins[j]) }

  predicate SpendableInputs(tx: Tx, utxo: Utxo, height: u64, lim: Limits, c: Crypto) {
    forall i :: 0 <= i < |tx.ins| ==>
      KeyOf(tx.ins[i]) in utxo && Mature(utxo[KeyOf(tx.ins[i])], height, lim) && Authorised(tx, i, utxo[KeyOf(tx.ins[i])], lim, c)
  }

  lemma InputErrorNoneIff(tx: Tx, n: nat, utxo: Utxo, height: u64, lim: Limits, c: Crypto)
    requires n < |tx.ins|
    ensures InputError(tx, n, utxo, height, lim, c).None? <==>
            && KeyOf(tx.ins[n]) !in Keys(tx.ins, n) && KeyOf(tx.ins[n]) in utxo
            && Mature(utxo[KeyOf(tx.ins[n])], height, lim) && Authorised(tx, n, utxo[KeyOf(tx.ins[n])], lim, c)
  {
  }

  lemma {:induction false} NoInputErrorIff(tx: Tx, n: nat, utxo: Utxo, height: u64, lim: Limits, c: Crypto)
    requires n <= |tx.ins|
    ensures FirstInputError(tx, n, utxo, height, lim, c).None? <==>
            forall i :: 0 <= i < n ==> InputError(tx, i, utxo, height, lim, c).None?
  {
    if n > 0 { NoInputErrorIff(tx, n - 1, utxo, height, lim, c); }
  }

  /** The order of the checks disappears: a transaction is accepted exactly when it is
      within the limits, its inputs are pairwise different and each names a mature entry
      whose script the witness satisfies, no output but an OP_RETURN is worth nothing,
      and the inputs pay for the outputs. The fee is the difference, cut to 64 bits. */
  lemma AcceptedExactlyWhen(tx: Tx, utxo: Utxo, height: u64, lim: Limits, c: Crypto)
    ensures TxVerdict(tx, utxo, height, lim, c).Accept? <==>
            && LimitError(tx, lim).None?
            && DistinctInputs(tx.ins)
            && SpendableInputs(tx, utxo, height, lim, c)
            && Sigops(tx.ins, |tx.ins|, utxo) <= lim.maxSigopsPerTx
            && (forall j :: 0 <= j < |tx.outs| ==> OutputOk(tx.outs[j]))
            && OutputSum(tx.outs, |tx.outs|) <= InputSum(tx.ins, |tx.ins|, utxo)
    ensures var v := TxVerdict(tx, utxo, height, lim, c);
            v.Accept? ==> v.fee == (InputSum(tx.ins, |tx.ins|, utxo) - OutputSum(tx.outs, |tx.outs|)) % U64_LIMIT
  {
    FirstInputErrorNoneIff(tx, utxo, height, lim, c);
    BalanceAcceptedExactlyWhen(tx, utxo, lim);
  }

  lemma FirstInputErrorNoneIff(tx: Tx, utxo: Utxo, height: u64, lim: Limits, c: Crypto)
    ensures FirstInputError(tx, |tx.ins|, utxo, height, lim, c).None? <==>
            DistinctInputs(tx.ins) && SpendableInputs(tx, utxo, height, lim, c)
  {
    NoInputErrorIff(tx, |tx.ins|, utxo, height, lim, c);
    InputsFineIff(tx, utxo, height, lim, c);
  }

  lemma BalanceAcceptedExactlyWhen(tx: Tx, utxo: Utxo, lim: Limits)
    ensures BalanceVerdict(tx, utxo, lim).Accept? <==>
            && Sigops(tx.ins, |tx.ins|, utxo) <= lim.maxSigopsPerTx
            && (forall j :: 0 <= j < |tx.outs| ==> OutputOk(tx.outs[j]))
            && OutputSum(tx.outs, |tx.outs|) <= InputSum(tx.ins, |tx.ins|, utxo)
    ensures var v := BalanceVerdict(tx, utxo, lim);
            v.Accept? ==> v.fee == (InputSum(tx.ins, |tx.ins|, utxo) - OutputSum(tx.outs, |tx.outs|)) % U64_LIMIT
  {
  }

  lemma InputsFineIff(tx: Tx, utxo: Utxo, height: u64, lim: Limits, c: Crypto)
    ensures (forall i :: 0 <= i < |tx.ins| ==> InputError(tx, i, utxo, height, lim, c).None?) <==>
            DistinctInputs(tx.ins) && SpendableInputs(tx, utxo, height, lim, c)
  {
    forall i | 0 <= i < |tx.ins|
      ensures InputError(tx, i, utxo, height, lim, c).None? <==>
              && KeyOf(tx.ins[i]) !in Keys(tx.ins, i) && KeyOf(tx.ins[i]) in utxo
              && Mature(utxo[KeyOf(tx.ins[i])], height, lim) && Authorised(tx, i, utxo[KeyOf(tx.ins[i])], lim, c)
    {
      InputErrorNoneIff(tx, i, utxo, height, lim, c);
    }
    assert DistinctInputs(tx.ins) <==> forall i :: 0 <= i < |tx.ins| ==> KeyOf(tx.ins[i]) !in Keys(tx.ins, i);
  }

  // ---------- the validator ----------

  /** The index of unspent outputs that the validator mutates. */
  class UtxoIndex {
    var entries: Utxo

    constructor (entries: Utxo)
      ensures this.entries == entries
    {
      this.entries := entries;
    }

    method Remove(k: Outpoint) returns (e: Option<Entry>)
      modifies this
      ensures entries == old(entries) - {k}
      ensures e == if k in old(entries) then Some(old(entries)[k]) else None
    {
      e := if k in entries then Some(entries[k]) else None;
      entries := entries - {k};
    }

    method Insert(k: Outpoint, e: Entry)
      modifies this
      ensures entries == old(entries)[k := e]
    {
      entries := entries[k := e];
    }
  }

  method CheckP2wpkh(tx: Tx, n: nat, cache: Cache, amount: u64, hash20: Bytes, lim: Limits, c: Crypto)
    returns (err: Option<TxError>)
    requires n < |tx.ins| && |hash20| == 20 && cache == CacheOf(tx, c.Sha256d)
    ensures err == P2wpkhError(tx, n, amount, hash20, lim, c)
  {
    var wit := tx.ins[n].wit;
    if |wit| < 2 { return Some(MissingWitness); }
    var sigFull := wit[0];
    if |sigFull| < 2 { return Some(InvalidSignature); }
    var t := sigFull[|sigFull| - 1];
    if t % 32 != 1 || t >= 0x80 { return Some(UnsupportedSighash); }
    var pubkey := wit[1];
    if c.hash160(pubkey) != hash20 { return Some(PubkeyHashMismatch); }
    var code := [0x76, 0xa9, 0x14] + hash20 + [0x88, 0xac];
    var digest := Bip143SighashFromParts(tx, cache, n, code, amount, t, c.Sha256d);
    if !VerifySignature(pubkey, sigFull[..|sigFull| - 1], digest.value, lim.enforceLowS, c) { return Some(SigVerifyFailed); }
    return None;
  }

  method ValidateTransactionParts(tx: Tx, height: u64, index: UtxoIndex, lim: Limits, c: Crypto) returns (r: Verdict)
    modifies index
    ensures r == TxVerdict(tx, old(index.entries), height, lim, c)
    ensures r.Accept? ==> index.entries == Applied(tx, old(index.entries), height)
    ensures SameOutside(tx, old(index.entries), index.entries)
  {
    var limitError := CheckLimits(tx, lim);
    if limitError.Some? { return Reject(limitError.value); }
    var cache := BuildSighashCache(tx, c.Sha256d);
    var inputError, inputSum, sigops := SpendInputs(tx, height, index, cache, lim, c);
    if inputError.Some? { return Reject(inputError.value); }
    ghost var utxo := old(index.entries);
    r := Settle(tx, height, index, lim, inputSum, sigops, utxo);
  }

  method CheckLimits(tx: Tx, lim: Limits) returns (err: Option<TxError>)
    ensures err == LimitError(tx, lim)
  {
    var weight, vsize := TxPartsWeightVsize(tx);
    if vsize > lim.maxTxVsize { return Some(VsizeExceedsLimit); }
    if vsize < lim.minTxVsize { return Some(VsizeBelowMin); }
    if weight > lim.maxTxWeight { return Some(WeightExceedsLimit); }
    if weight < lim.minTxWeight { return Some(WeightBelowMin); }
    if |tx.ins| > lim.maxTxInputs { return Some(InputsExceedLimit); }
    if |tx.outs| > lim.maxTxOutputs { return Some(OutputsExceedLimit); }
    return None;
  }

  /** Everything after the inputs were consumed: signature count, outputs, balance. */
  method Settle(tx: Tx, height: u64, index: UtxoIndex, lim: Limits, inputSum: nat, sigops: u32, ghost utxo: Utxo) returns (r: Verdict)
    requires index.entries == utxo - Keys(tx.ins, |tx.ins|)
    requires inputSum == InputSum(tx.ins, |tx.ins|, utxo) && sigops == Sigops(tx.ins, |tx.ins|, utxo)
    modifies index
    ensures r == BalanceVerdict(tx, utxo, lim)
    ensures r.Accept? ==> index.entries == Applied(tx, utxo, height)
    ensures SameOutside(tx, utxo, index.entries)
  {
    if sigops > lim.maxSigopsPerTx { return Reject(TxSigopsLimit); }
    var ok, outputSum := AddOutputs(tx, height, index);
    if !ok { return Reject(NonpositiveOutput); }
    if inputSum < outputSum { return Reject(InputsLessThanOutputs); }
    return Accept((inputSum - outputSum) % U64_LIMIT, sigops);
  }

  /** The first `n` inputs were consumed without an error. */
  ghost predicate Consumed(tx: Tx, n: nat, utxo: Utxo, seen: set<Outpoint>, entries: Utxo, inputSum: nat, sigops: u32,
                           height: u64, lim: Limits, c: Crypto) {
    && n <= |tx.ins| && seen == Keys(tx.ins, n) && entries == utxo - Keys(tx.ins, n)
    && inputSum == InputSum(tx.ins, n, utxo) && sigops == Sigops(tx.ins, n, utxo)
    && FirstInputError(tx, n, utxo, height, lim, c).None?
  }

  method SpendInputs(tx: Tx, height: u64, index: UtxoIndex, cache: Cache, lim: Limits, c: Crypto)
    returns (err: Option<TxError>, inputSum: nat, sigops: u32)
    requires cache == CacheOf(tx, c.Sha256d)
    modifies index
    ensures err == FirstInputError(tx, |tx.ins|, old(index.entries), height, lim, c)
    ensures err.None? ==> index.entries == old(index.entries) - Keys(tx.ins, |tx.ins|)
    ensures err.None? ==> inputSum == InputSum(tx.ins, |tx.ins|, old(index.entries))
    ensures err.None? ==> sigops == Sigops(tx.ins, |tx.ins|, old(index.entries))
    ensures SameOutside(tx, old(index.entries), index.entries)
  {
    ghost var utxo := index.entries;
    var seen: set<Outpoint> := {};
    inputSum, sigops := 0, 0;
    for n := 0 to |tx.ins|
      invariant Consumed(tx, n, utxo, seen, index.entries, inputSum, sigops, height, lim, c)
    {
      var key := KeyOf(tx.ins[n]);
      if key in seen {
        ErrorHere(tx, n, utxo, height, lim, c);
        return Some(DuplicatePrevout), inputSum, sigops;
      }
      ghost var before := index.entries;
      var found := index.Remove(key);
      err := CheckSpend(tx, n, found, cache, height, lim, c);
      assert err == InputError(tx, n, utxo, height, lim, c);
      if err.Some? {
        ErrorHere(tx, n, utxo, height, lim, c);
        return;
      }
      ConsumedNext(tx, n, utxo, seen, before, inputSum, sigops, height, lim, c);
      seen := seen + {key};
      inputSum := inputSum + found.value.amount;
      if DetectScriptKind(found.value.script).value.P2wpkh? {
        sigops := SatU32(sigops + 1);
      }
    }
    err := None;
  }

  lemma ErrorHere(tx: Tx, n: nat, utxo: Utxo, height: u64, lim: Limits, c: Crypto)
    requires n < |tx.ins| && FirstInputError(tx, n, utxo, height, lim, c).None? && InputError(tx, n, utxo, height, lim, c).Some?
    ensures FirstInputError(tx, |tx.ins|, utxo, height, lim, c) == InputError(tx, n, utxo, height, lim, c)
  {
    assert FirstInputError(tx, n + 1, utxo, height, lim, c) == InputError(tx, n, utxo, height, lim, c);
    InputErrorIsFirst(tx, n + 1, |tx.ins|, utxo, height, lim, c);
  }

  lemma ConsumedNext(tx: Tx, n: nat, utxo: Utxo, seen: set<Outpoint>, entries: Utxo, inputSum: nat, sigops: u32,
                     height: u64, lim: Limits, c: Crypto)
    requires Consumed(tx, n, utxo, seen, entries, inputSum, sigops, height, lim, c) && n < |tx.ins|
    requires InputError(tx, n, utxo, height, lim, c).None?
    ensures var key := KeyOf(tx.ins[n]);
            key in utxo
            && Consumed(tx, n + 1, utxo, seen + {key}, entries - {key}, inputSum + utxo[key].amount,
                        if SpendsKeyHash(utxo, key) then SatU32(sigops + 1) else sigops, height, lim, c)
  {
    assert Keys(tx.ins, n + 1) == Keys(tx.ins, n) + {KeyOf(tx.ins[n])};
  }

  /** The checks on one input after its entry was taken out of the index. */
  method CheckSpend(tx: Tx, n: nat, found: Option<Entry>, cache: Cache, height: u64, lim: Limits, c: Crypto)
    returns (err: Option<TxError>)
    requires n < |tx.ins| && cache == CacheOf(tx, c.Sha256d)
    requires KeyOf(tx.ins[n]) !in Keys(tx.ins, n)
    ensures forall utxo: Utxo :: found == (if KeyOf(tx.ins[n]) in utxo then Some(utxo[KeyOf(tx.ins[n])]) else None)
              ==> err == InputError(tx, n, utxo, height, lim, c)
    ensures err.None? ==> found.Some? && DetectScriptKind(found.value.script).Some?
  {
    if found.None? { return Some(PrevoutMissing); }
    var entry := found.value;
    if entry.isCoinbase {
      var confs := SatSubI64(AsI64(height), entry.height);
      if confs < lim.coinbaseMaturity { return Some(CoinbaseImmature); }
    }
    var kind := DetectScriptKind(entry.script);
    if kind.None? { return Some(UnsupportedScript); }
    match kind.value
    case P2wpkh(hash20) => err := CheckP2wpkh(tx, n, cache, entry.amount, hash20, lim, c);
    case P2wsh(hash32) => err := CovenantError(tx.ins[n].wit, hash32, c);
  }

  method AddOutputs(tx: Tx, height: u64, index: UtxoIndex) returns (ok: bool, outputSum: nat)
    modifies index
    ensures ok <==> forall j :: 0 <= j < |tx.outs| ==> OutputOk(tx.outs[j])
    ensures ok ==> outputSum == OutputSum(tx.outs, |tx.outs|)
    ensures ok ==> index.entries == old(index.entries) + Created(tx, |tx.outs|, height)
    ensures SameOutside(tx, old(index.entries), index.entries)
  {
    ghost var before := index.entries;
    outputSum := 0;
    for j := 0 to |tx.outs|
      invariant forall i :: 0 <= i < j ==> OutputOk(tx.outs[i])
      invariant outputSum == OutputSum(tx.outs, j)
      invariant index.entries == before + Created(tx, j, height)
      invariant forall k :: k in Created(tx, j, height) ==> k.txid == tx.txid
    {
      var o := tx.outs[j];
      if o.amount == 0 {
        if !IsOpReturn(o.script) { return false, outputSum; }
      } else {
        outputSum := outputSum + o.amount;
      }
      index.Insert(Outpoint(tx.txid, j), Entry(o.amount, o.script, false, AsI64(height)));
    }
    ok := true;
  }

  // ---------- blocks ----------

  datatype BlockError = EmptyBlock | TxMissingInputs | MissingCoinbase | DuplicateCoinbase | TxRejected(error: TxError) | BlockSigopsLimit
  datatype BlockVerdict = Accepted(fees: seq<u64>) | Rejected(reason: BlockError)

  /** State after some transactions of a block. */
  datatype Run = Running(utxo: Utxo, fees: seq<u64>, sigops: u32) | Failed(reason: BlockError)

  /** Whatever decides single transactions inside a block, with the block's parameters. */
  datatype Judge = Judge(verdict: (Tx, Utxo) -> Verdict, height: u64, maxSigopsPerBlock: u32)

  function ConsensusJudge(height: u64, lim: Limits, c: Crypto): Judge {
    Judge((tx, utxo) => TxVerdict(tx, utxo, height, lim, c), height, lim.maxSigopsPerBlock)
  }

  function Step(tx: Tx, first: bool, s: Run, j: Judge): Run
    requires s.Running?
  {
    if tx.ins == [] then Failed(TxMissingInputs)
    else if first then (if tx.isCoinbase then s else Failed(MissingCoinbase))
    else if tx.isCoinbase then Failed(DuplicateCoinbase)
    else match j.verdict(tx, s.utxo)
      case Reject(e) => Failed(TxRejected(e))
      case Accept(fee, sigops) =>
        if SatU32(s.sigops + sigops) > j.maxSigopsPerBlock then Failed(BlockSigopsLimit)
        else Running(Applied(tx, s.utxo, j.height), s.fees + [fee], SatU32(s.sigops + sigops))
  }

  /** The first `n` transactions: the coinbase is skipped, every other one spends from and
      adds to the index that the earlier ones left. */
  function RunBlock(block: seq<Tx>, n: nat, utxo: Utxo, j: Judge): Run
    requires n <= |block|
  {
    if n == 0 then Running(utxo, [], 0)
    else
      var s := RunBlock(block, n - 1, utxo, j);
      if s.Failed? then s else Step(block[n - 1], n == 1, s, j)
  }

  function BlockOutcome(block: seq<Tx>, utxo: Utxo, j: Judge): BlockVerdict {
    if block == [] then Rejected(EmptyBlock)
    else match RunBlock(block, |block|, utxo, j)
      case Failed(e) => Rejected(e)
      case Running(_, fees, _) => Accepted(fees)
  }

  lemma {:induction false} FailureIsFinal(block: seq<Tx>, k: nat, n: nat, utxo: Utxo, j: Judge)
    requires k <= n <= |block| && RunBlock(block, k, utxo, j).Failed?
    ensures RunBlock(block, n, utxo, j) == RunBlock(block, k, utxo, j)
  {
    if k < n { FailureIsFinal(block, k, n - 1, utxo, j); }
  }

  /** The listed entries as an index; a later entry for the same outpoint wins. */
  function IndexOf(items: seq<(Outpoint, Entry)>): Utxo {
    if items == [] then map[]
    else IndexOf(items[..|items| - 1])[items[|items| - 1].0 := items[|items| - 1].1]
  }

  /** The last tuple for an outpoint counts, and only the outpoints listed are in the index. */
  lemma {:induction false} LastTupleCounts(items: seq<(Outpoint, Entry)>, k: Outpoint, i: int)
    requires -1 <= i < |items| && (i >= 0 ==> items[i].0 == k) && forall j :: i < j < |items| ==> items[j].0 != k
    ensures if i >= 0 then k in IndexOf(items) && IndexOf(items)[k] == items[i].1 else k !in IndexOf(items)
  {
    if i < |items| - 1 { LastTupleCounts(items[..|items| - 1], k, i); }
  }

  method ParseCompactUtxoList(items: seq<(Outpoint, Entry)>) returns (index: UtxoIndex)
    ensures fresh(index) && index.entries == IndexOf(items)
  {
    index := new UtxoIndex(map[]);
    for i := 0 to |items|
      invariant fresh(index) && index.entries == IndexOf(items[..i])
    {
      assert items[..i + 1][..i] == items[..i];
      index.Insert(items[i].0, items[i].1);
    }
    assert items[..|items|] == items;
  }

  method ValidateBlockTxsCompact(block: seq<Tx>, items: seq<(Outpoint, Entry)>, height: u64, lim: Limits, c: Crypto)
    returns (r: BlockVerdict)
    ensures r == BlockOutcome(block, IndexOf(items), ConsensusJudge(height, lim, c))
  {
    var index := ParseCompactUtxoList(items);
    if block == [] { return Rejected(EmptyBlock); }
    ghost var utxo, j := index.entries, ConsensusJudge(height, lim, c);
    var fees: seq<u64>, totalSigops: u32 := [], 0;
    for n := 0 to |block|
      invariant fresh(index)
      invariant RunBlock(block, n, utxo, j) == Running(index.entries, fees, totalSigops)
    {
      var err;
      err, fees, totalSigops := NextInBlock(block, n, index, fees, totalSigops, height, lim, c, utxo, j);
      if err.Some? { return Rejected(err.value); }
    }
    return Accepted(fees);
  }

  method NextInBlock(block: seq<Tx>, n: nat, index: UtxoIndex, fees: seq<u64>, sigops: u32, height: u64, lim: Limits, c: Crypto,
                     ghost utxo: Utxo, ghost j: Judge)
    returns (err: Option<BlockError>, fees': seq<u64>, sigops': u32)
    requires n < |block| && j == ConsensusJudge(height, lim, c)
    requires RunBlock(block, n, utxo, j) == Running(index.entries, fees, sigops)
    modifies index
    ensures err.Some? ==> BlockOutcome(block, utxo, j) == Rejected(err.value)
    ensures err.None? ==> RunBlock(block, n + 1, utxo, j) == Running(index.entries, fees', sigops')
  {
    ghost var s := Running(index.entries, fees, sigops);
    err, fees', sigops' := ValidateNext(block[n], n == 0, index, fees, sigops, height, lim, c);
    NextOf(block, n, utxo, j, s, if err.Some? then Failed(err.value) else Running(index.entries, fees', sigops'));
  }

  lemma NextOf(block: seq<Tx>, n: nat, utxo: Utxo, j: Judge, s: Run, s': Run)
    requires n < |block| && s.Running? && RunBlock(block, n, utxo, j) == s && Step(block[n], n == 0, s, j) == s'
    ensures RunBlock(block, n + 1, utxo, j) == s'
    ensures s'.Failed? ==> BlockOutcome(block, utxo, j) == Rejected(s'.reason)
  {
    if s'.Failed? { FailureIsFinal(block, n + 1, |block|, utxo, j); }
  }

  /** One iteration of the block loop. */
  method ValidateNext(tx: Tx, first: bool, index: UtxoIndex, fees: seq<u64>, sigops: u32, height: u64, lim: Limits, c: Crypto)
    returns (err: Option<BlockError>, fees': seq<u64>, sigops': u32)
    modifies index
    ensures Step(tx, first, Running(old(index.entries), fees, sigops), ConsensusJudge(height, lim, c))
         == if err.Some? then Failed(err.value) else Running(index.entries, fees', sigops')
  {
    fees', sigops' := fees, sigops;
    if tx.ins == [] { return Some(TxMissingInputs), fees, sigops; }
    if first {
      if !tx.isCoinbase { return Some(MissingCoinbase), fees, sigops; }
      return None, fees, sigops;
    }
    if tx.isCoinbase { return Some(DuplicateCoinbase), fees, sigops; }
    err, fees', sigops' := SpendNext(tx, index, fees, sigops, height, lim, c);
  }

  method SpendNext(tx: Tx, index: UtxoIndex, fees: seq<u64>, sigops: u32, height: u64, lim: Limits, c: Crypto)
    returns (err: Option<BlockError>, fees': seq<u64>, sigops': u32)
    modifies index
    ensures match TxVerdict(tx, old(index.entries), height, lim, c)
            case Reject(e) => err == Some(TxRejected(e))
            case Accept(fee, more) =>
              if SatU32(sigops + more) > lim.maxSigopsPerBlock then err == Some(BlockSigopsLimit)
              else err == None && fees' == fees + [fee] && sigops' == SatU32(sigops + more)
                   && index.entries == Applied(tx, old(index.entries), height)
  {
    var v := ValidateTransactionParts(tx, height, index, lim, c);
    if v.Reject? { return Some(TxRejected(v.error)), fees, sigops; }
    fees' := fees + [v.fee];
    sigops' := SatU32(sigops + v.sigops);
    if sigops' > lim.maxSigopsPerBlock { return Some(BlockSigopsLimit), fees', sigops'; }
    err := None;
  }
}
