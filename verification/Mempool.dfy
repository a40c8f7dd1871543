/** The mempool validator: a second implementation of the transaction rules that never
    modifies the index it reads, and builds the signature hash inline. */
module Mempool {
  import opened Bytes
  import opened TxCodec
  import opened Sighash
  import opened Validation

  import Spending

  /** Here the maturity is read as an unsigned integer. */
  datatype TxLimits = TxLimits(
    coinbaseMaturity: u64, maxSigopsPerTx: u32,
    maxTxVsize: u64, minTxVsize: u64, maxTxWeight: u64, minTxWeight: u64,
    maxTxInputs: u64, maxTxOutputs: u64, enforceLowS: bool)

  datatype MempoolError =
    | OverLimit(limit: TxError) | MissingInputs | MissingOutputs | CoinbaseInMempool
    | DuplicateInput | MissingPrevout | Immature | NoWitness | BadSignature | BadSighash
    | WrongPubkeyHash | InvalidPubkey | BadDer | HighS | EcdsaFailed
    | Covenant(error: TxError) | UnsupportedSpk | TooManySigops | WorthlessOutput | Overspent

  datatype MempoolVerdict = Admit(fee: u64) | Refuse(reason: MempoolError)

  /** The limits of a block validator, as the mempool reads the same options. */
  function TxLimitsOf(lim: Limits): TxLimits
    requires lim.coinbaseMaturity >= 0
  {
    TxLimits(lim.coinbaseMaturity, lim.maxSigopsPerTx, lim.maxTxVsize, lim.minTxVsize, lim.maxTxWeight, lim.minTxWeight,
             lim.maxTxInputs, lim.maxTxOutputs, lim.enforceLowS)
  }

  function SizeError(tx: Tx, lim: TxLimits): Option<TxError> {
    if Vsize(tx) > lim.maxTxVsize then Some(VsizeExceedsLimit)
    else if Vsize(tx) < lim.minTxVsize then Some(VsizeBelowMin)
    else if Weight(tx) > lim.maxTxWeight then Some(WeightExceedsLimit)
    else if Weight(tx) < lim.minTxWeight then Some(WeightBelowMin)
    else if |tx.ins| > lim.maxTxInputs then Some(InputsExceedLimit)
    else if |tx.outs| > lim.maxTxOutputs then Some(OutputsExceedLimit)
    else None
  }

  /** Confirmations in wrapping arithmetic. */
  predicate MatureWrapping(e: Entry, height: u64, lim: TxLimits) {
    e.isCoinbase ==> AsI64(AsI64(height) - e.height) >= AsI64(lim.coinbaseMaturity)
  }

  /** The first witness item must look like a signature whatever the script is. */
  function SignatureShapeError(wit: Stack): Option<MempoolError> {
    if |wit| < 2 then Some(NoWitness)
    else if |wit[0]| < 2 then Some(BadSignature)
    else if !SighashByteOk(wit[0][|wit[0]| - 1]) then Some(BadSighash)
    else None
  }

  function KeyHashError(tx: Tx, n: nat, amount: u64, hash20: Bytes, enforceLowS: bool, c: Crypto): Option<MempoolError>
    requires n < |tx.ins| && |hash20| == 20 && SignatureShapeError(tx.ins[n].wit).None?
  {
    var sig, pubkey := tx.ins[n].wit[0], tx.ins[n].wit[1];
    var der, t := sig[..|sig| - 1], sig[|sig| - 1];
    if c.hash160(pubkey) != hash20 then Some(WrongPubkeyHash)
    else if !c.pubkeyOk(pubkey) then Some(InvalidPubkey)
    else if !c.derOk(der) then Some(BadDer)
    else if enforceLowS && !c.lowS(der) then Some(HighS)
    else if !c.ecdsa(pubkey, der, InputDigest(tx, n, amount, hash20, t, c)) then Some(EcdsaFailed)
    else None
  }

  function SpendError(tx: Tx, n: nat, utxo: Utxo, height: u64, lim: TxLimits, c: Crypto): Option<MempoolError>
    requires n < |tx.ins|
  {
    var key, wit := KeyOf(tx.ins[n]), tx.ins[n].wit;
    if key in Keys(tx.ins, n) then Some(DuplicateInput)
    else if key !in utxo then Some(MissingPrevout)
    else if !MatureWrapping(utxo[key], height, lim) then Some(Immature)
    else if SignatureShapeError(wit).Some? then SignatureShapeError(wit)
    else match DetectScriptKind(utxo[key].script)
      case None => Some(UnsupportedSpk)
      case Some(P2wpkh(hash20)) => KeyHashError(tx, n, utxo[key].amount, hash20, lim.enforceLowS, c)
      case Some(P2wsh(hash32)) =>
        match CovenantError(wit, hash32, c) case None => None case Some(e) => Some(Covenant(e))
  }

  function FirstSpendError(tx: Tx, n: nat, utxo: Utxo, height: u64, lim: TxLimits, c: Crypto): Option<MempoolError>
    requires n <= |tx.ins|
  {
    if n == 0 then None
    else
      var earlier := FirstSpendError(tx, n - 1, utxo, height, lim, c);
      if earlier.Some? then earlier else SpendError(tx, n - 1, utxo, height, lim, c)
  }

  function SettleVerdict(tx: Tx, utxo: Utxo, maxSigops: u32): MempoolVerdict {
    var paid, spent := InputSum(tx.ins, |tx.ins|, utxo), OutputSum(tx.outs, |tx.outs|);
    if Sigops(tx.ins, |tx.ins|, utxo) > maxSigops then Refuse(TooManySigops)
    else if exists j :: 0 <= j < |tx.outs| && !OutputOk(tx.outs[j]) then Refuse(WorthlessOutput)
    else if paid < spent then Refuse(Overspent)
    else Admit((paid - spent) % U64_LIMIT)
  }

  function Admission(tx: Tx, utxo: Utxo, height: u64, lim: TxLimits, c: Crypto): MempoolVerdict {
    if SizeError(tx, lim).Some? then Refuse(OverLimit(SizeError(tx, lim).value))
    else if tx.ins == [] then Refuse(MissingInputs)
    else if tx.outs == [] then Refuse(MissingOutputs)
    else if tx.isCoinbase then Refuse(CoinbaseInMempool)
    else
      var spendError := FirstSpendError(tx, |tx.ins|, utxo, height, lim, c);
      if spendError.Some? then Refuse(spendError.value) else SettleVerdict(tx, utxo, lim.maxSigopsPerTx)
  }

  // ---------- the validator ----------

  lemma {:induction false} SpendErrorIsFirst(tx: Tx, k: nat, n: nat, utxo: Utxo, height: u64, lim: TxLimits, c: Crypto)
    requires k <= n <= |tx.ins|
    requires FirstSpendError(tx, k, utxo, height, lim, c).Some?
    ensures FirstSpendError(tx, n, utxo, height, lim, c) == FirstSpendError(tx, k, utxo, height, lim, c)
  {
    if k < n { SpendErrorIsFirst(tx, k, n - 1, utxo, height, lim, c); }
  }

  /** The digest built field by field, with the script code's length as a literal byte. */
  method InlineSighash(tx: Tx, n: nat, cache: Cache, spk: Bytes, amount: u64, t: u8, c: Crypto) returns (digest: Digest)
    requires n < |tx.ins| && |spk| == 22 && cache == CacheOf(tx, c.Sha256d)
    ensures digest == InputDigest(tx, n, amount, spk[2..], t, c)
  {
    var inp := tx.ins[n];
    var pre := LE(4, ToU32(tx.version));
    pre := pre + cache.hashPrevouts;
    pre := pre + cache.hashSequence;
    var prevLe := ReverseTxid(inp.prevTxid);
    var prevout := prevLe + LE(4, inp.vout);
    pre := pre + prevout;
    pre := pre + [0x19];
    var code := [0x76, 0xa9, 0x14] + spk[2..22] + [0x88, 0xac];
    pre := pre + code;
    pre := pre + LE(8, amount);
    pre := pre + LE(4, inp.sequence);
    pre := pre + cache.hashOutputs;
    pre := pre + LE(4, tx.locktime);
    pre := pre + LE(4, t);
    assert spk[2..22] == spk[2..];
    assert code == P2wpkhCode(spk[2..]) && |code| == 25;
    assert EncodeVarint(25) == [0x19];
    assert pre == TxPreimage(tx, cache, n, code, amount, t);
    digest := c.Sha256d(pre);
  }

  method CheckKeyHash(tx: Tx, n: nat, cache: Cache, e: Entry, enforceLowS: bool, c: Crypto) returns (err: Option<MempoolError>)
    requires n < |tx.ins| && |e.script| == 22 && cache == CacheOf(tx, c.Sha256d)
    requires SignatureShapeError(tx.ins[n].wit).None?
    ensures err == KeyHashError(tx, n, e.amount, e.script[2..], enforceLowS, c)
  {
    var sig, pubkey := tx.ins[n].wit[0], tx.ins[n].wit[1];
    var der, t := sig[..|sig| - 1], sig[|sig| - 1];
    if c.hash160(pubkey) != e.script[2..] { return Some(WrongPubkeyHash); }
    var digest := InlineSighash(tx, n, cache, e.script, e.amount, t, c);
    if !c.pubkeyOk(pubkey) { return Some(InvalidPubkey); }
    if !c.derOk(der) { return Some(BadDer); }
    if enforceLowS && !c.lowS(der) { return Some(HighS); }
    if !c.ecdsa(pubkey, der, digest) { return Some(EcdsaFailed); }
    return None;
  }

  method CheckInput(tx: Tx, n: nat, cache: Cache, utxo: Utxo, height: u64, lim: TxLimits, c: Crypto) returns (err: Option<MempoolError>)
    requires n < |tx.ins| && cache == CacheOf(tx, c.Sha256d)
    requires KeyOf(tx.ins[n]) !in Keys(tx.ins, n)
    ensures err == SpendError(tx, n, utxo, height, lim, c)
  {
    var key, wit := KeyOf(tx.ins[n]), tx.ins[n].wit;
    if key !in utxo { return Some(MissingPrevout); }
    var entry := utxo[key];
    if entry.isCoinbase {
      var confs := AsI64(AsI64(height) - entry.height);
      if confs < AsI64(lim.coinbaseMaturity) { return Some(Immature); }
    }
    if |wit| < 2 { return Some(NoWitness); }
    if |wit[0]| < 2 { return Some(BadSignature); }
    var t := wit[0][|wit[0]| - 1];
    if t % 32 != 1 || t >= 0x80 { return Some(BadSighash); }
    var spk := entry.script;
    if |spk| == 22 && spk[0] == 0x00 && spk[1] == 0x14 {
      err := CheckKeyHash(tx, n, cache, entry, lim.enforceLowS, c);
    } else if |spk| == 34 && spk[0] == 0x00 && spk[1] == 0x20 {
      var covenant := CovenantError(wit, spk[2..], c);
      err := if covenant.None? then None else Some(Covenant(covenant.value));
    } else {
      err := Some(UnsupportedSpk);
    }
  }

  /** The three digests, gathered by the mempool itself before it looks at the inputs. */
  method HashParts(tx: Tx, sha256d: Hash) returns (cache: Cache)
    ensures cache == CacheOf(tx, sha256d)
  {
    var prevoutsCat: Bytes, seqCat: Bytes := [], [];
    for k := 0 to |tx.ins|
      invariant prevoutsCat == Flat(PrevoutBytes, tx.ins[..k]) && seqCat == Flat(SequenceBytes, tx.ins[..k])
    {
      ghost var before := prevoutsCat;
      var prevLe := ReverseTxid(tx.ins[k].prevTxid);
      prevoutsCat := prevoutsCat + prevLe;
      prevoutsCat := prevoutsCat + LE(4, tx.ins[k].vout);
      seqCat := seqCat + LE(4, tx.ins[k].sequence);
      Append3(before, prevLe, LE(4, tx.ins[k].vout));
      FlatStep(PrevoutBytes, tx.ins, k);
      FlatStep(SequenceBytes, tx.ins, k);
    }
    assert tx.ins[..|tx.ins|] == tx.ins;
    var outsCat: Bytes := [];
    for k := 0 to |tx.outs|
      invariant outsCat == Flat(EncOut, tx.outs[..k])
    {
      ghost var before := outsCat;
      outsCat := outsCat + LE(8, tx.outs[k].amount);
      outsCat := outsCat + EncodeVarint(|tx.outs[k].script|);
      outsCat := outsCat + tx.outs[k].script;
      Pushed3(before, LE(8, tx.outs[k].amount), EncodeVarint(|tx.outs[k].script|), tx.outs[k].script);
      FlatStep(EncOut, tx.outs, k);
    }
    assert tx.outs[..|tx.outs|] == tx.outs;
    cache := Cache(sha256d(prevoutsCat), sha256d(seqCat), sha256d(outsCat));
  }

  method CheckInputs(tx: Tx, utxo: Utxo, height: u64, lim: TxLimits, c: Crypto)
    returns (err: Option<MempoolError>, inputSum: nat, sigops: u32)
    ensures err == FirstSpendError(tx, |tx.ins|, utxo, height, lim, c)
    ensures err.None? ==> inputSum == InputSum(tx.ins, |tx.ins|, utxo) && sigops == Sigops(tx.ins, |tx.ins|, utxo)
  {
    var cache := HashParts(tx, c.Sha256d);
    var seen: set<Outpoint> := {};
    inputSum, sigops := 0, 0;
    for n := 0 to |tx.ins|
      invariant seen == Keys(tx.ins, n)
      invariant inputSum == InputSum(tx.ins, n, utxo)
      invariant sigops == Sigops(tx.ins, n, utxo)
      invariant FirstSpendError(tx, n, utxo, height, lim, c).None?
    {
      var key := KeyOf(tx.ins[n]);
      assert FirstSpendError(tx, n + 1, utxo, height, lim, c) == SpendError(tx, n, utxo, height, lim, c);
      if key in seen {
        SpendErrorIsFirst(tx, n + 1, |tx.ins|, utxo, height, lim, c);
        return Some(DuplicateInput), inputSum, sigops;
      }
      seen := seen + {key};
      err := CheckInput(tx, n, cache, utxo, height, lim, c);
      if err.Some? {
        SpendErrorIsFirst(tx, n + 1, |tx.ins|, utxo, height, lim, c);
        return;
      }
      inputSum := inputSum + utxo[key].amount;
      if DetectScriptKind(utxo[key].script).value.P2wpkh? {
        sigops := SatU32(sigops + 1);
      }
      assert Keys(tx.ins, n + 1) == Keys(tx.ins, n) + {key};
    }
    err := None;
  }

  method SumOutputs(outs: Outs) returns (ok: bool, outputSum: nat)
    ensures ok <==> forall j :: 0 <= j < |outs| ==> OutputOk(outs[j])
    ensures ok ==> outputSum == OutputSum(outs, |outs|)
  {
    outputSum := 0;
    for j := 0 to |outs|
      invariant forall i :: 0 <= i < j ==> OutputOk(outs[i])
      invariant outputSum == OutputSum(outs, j)
    {
      if outs[j].amount == 0 {
        if !IsOpReturn(outs[j].script) { return false, outputSum; }
      } else {
        outputSum := outputSum + outs[j].amount;
      }
    }
    ok := true;
  }

  method CheckSize(tx: Tx, lim: TxLimits) returns (err: Option<TxError>)
    ensures err == SizeError(tx, lim)
  {
    var baseRaw := SerializeCompactInner(tx, false);
    var totalRaw := SerializeCompactInner(tx, true);
    var weight := SatU64(SatU64(3 * |baseRaw|) + |totalRaw|);
    var vsize := ((weight + 3) % U64_LIMIT) / 4;
    if vsize > lim.maxTxVsize { return Some(VsizeExceedsLimit); }
    if vsize < lim.minTxVsize { return Some(VsizeBelowMin); }
    if weight > lim.maxTxWeight { return Some(WeightExceedsLimit); }
    if weight < lim.minTxWeight { return Some(WeightBelowMin); }
    if |tx.ins| > lim.maxTxInputs { return Some(InputsExceedLimit); }
    if |tx.outs| > lim.maxTxOutputs { return Some(OutputsExceedLimit); }
    return None;
  }

  method CollectItems(items: seq<(Outpoint, Entry)>) returns (utxo: Utxo)
    ensures utxo == IndexOf(items)
  {
    utxo := map[];
    for i := 0 to |items|
      invariant utxo == IndexOf(items[..i])
    {
      assert items[..i + 1][..i] == items[..i];
      utxo := utxo[items[i].0 := items[i].1];
    }
    assert items[..|items|] == items;
  }

  method ValidateTxP2wpkhCompact(tx: Tx, items: seq<(Outpoint, Entry)>, height: u64, lim: TxLimits, c: Crypto)
    returns (r: MempoolVerdict)
    ensures r == Admission(tx, IndexOf(items), height, lim, c)
  {
    var sizeError := CheckSize(tx, lim);
    if sizeError.Some? { return Refuse(OverLimit(sizeError.value)); }
    if tx.ins == [] { return Refuse(MissingInputs); }
    if tx.outs == [] { return Refuse(MissingOutputs); }
    if tx.isCoinbase { return Refuse(CoinbaseInMempool); }
    var utxo := CollectItems(items);
    var err, inputSum, sigops := CheckInputs(tx, utxo, height, lim, c);
    if err.Some? { return Refuse(err.value); }
    r := Settle(tx, utxo, inputSum, sigops, lim.maxSigopsPerTx);
  }

  method Settle(tx: Tx, ghost utxo: Utxo, inputSum: nat, sigops: u32, maxSigops: u32) returns (r: MempoolVerdict)
    requires inputSum == InputSum(tx.ins, |tx.ins|, utxo) && sigops == Sigops(tx.ins, |tx.ins|, utxo)
    ensures r == SettleVerdict(tx, utxo, maxSigops)
  {
    if sigops > maxSigops { return Refuse(TooManySigops); }
    var ok, outputSum := SumOutputs(tx.outs);
    if !ok { return Refuse(WorthlessOutput); }
    if inputSum < outputSum { return Refuse(Overspent); }
    return Admit((inputSum - outputSum) % U64_LIMIT);
  }

  // ---------- the two implementations agree ----------

  /** The first witness item of every input has the shape of a signature. */
  predicate AllLookSigned(tx: Tx) { forall i :: 0 <= i < |tx.ins| ==> SignatureShapeError(tx.ins[i].wit).None? }

  /** Subtracting any referenced coinbase height from the spend height stays within 64 bits. */
  predicate HeightsFit(tx: Tx, utxo: Utxo, height: u64) {
    forall i :: 0 <= i < |tx.ins| && KeyOf(tx.ins[i]) in utxo ==>
      -I64_LIMIT <= AsI64(height) - utxo[KeyOf(tx.ins[i])].height < I64_LIMIT
  }

  lemma SpendErrorVersusInputError(tx: Tx, n: nat, utxo: Utxo, height: u64, lim: Limits, c: Crypto)
    requires n < |tx.ins| && lim.coinbaseMaturity >= 0
    requires AsI64(height) >= -1
    ensures SpendError(tx, n, utxo, height, TxLimitsOf(lim), c).None?
            ==> InputError(tx, n, utxo, height, lim, c).None? && SignatureShapeError(tx.ins[n].wit).None?
    ensures HeightsFit(tx, utxo, height) && InputError(tx, n, utxo, height, lim, c).None? && SignatureShapeError(tx.ins[n].wit).None?
            ==> SpendError(tx, n, utxo, height, TxLimitsOf(lim), c).None?
  {
    var key := KeyOf(tx.ins[n]);
    if key in utxo {
      MaturityAgrees(utxo[key], height, lim);
      if SignatureShapeError(tx.ins[n].wit).None? {
        AuthorisationAgrees(tx, n, utxo[key], lim, c);
      }
    }
  }

  lemma MaturityAgrees(e: Entry, height: u64, lim: Limits)
    requires lim.coinbaseMaturity >= 0 && AsI64(height) >= -1
    ensures MatureWrapping(e, height, TxLimitsOf(lim)) ==> Mature(e, height, lim)
    ensures AsI64(height) - e.height < I64_LIMIT && Mature(e, height, lim) ==> MatureWrapping(e, height, TxLimitsOf(lim))
  {
    var d := AsI64(height) - e.height;
    assert -I64_LIMIT <= d <= 2 * I64_LIMIT - 1;
    if d < I64_LIMIT { assert AsI64(d) == d; } else { assert AsI64(d) == d - U64_LIMIT < 0; }
    assert AsI64(lim.coinbaseMaturity) == lim.coinbaseMaturity;
  }

  lemma AuthorisationAgrees(tx: Tx, n: nat, e: Entry, lim: Limits, c: Crypto)
    requires n < |tx.ins| && SignatureShapeError(tx.ins[n].wit).None?
    ensures DetectScriptKind(e.script).Some? && DetectScriptKind(e.script).value.P2wpkh? ==>
              var hash20 := DetectScriptKind(e.script).value.hash;
              KeyHashError(tx, n, e.amount, hash20, lim.enforceLowS, c).None? <==> P2wpkhError(tx, n, e.amount, hash20, lim, c).None?
  {
  }

  lemma {:induction false} NoSpendErrorIff(tx: Tx, n: nat, utxo: Utxo, height: u64, lim: TxLimits, c: Crypto)
    requires n <= |tx.ins|
    ensures FirstSpendError(tx, n, utxo, height, lim, c).None? <==>
            forall i :: 0 <= i < n ==> SpendError(tx, i, utxo, height, lim, c).None?
  {
    if n > 0 { NoSpendErrorIff(tx, n - 1, utxo, height, lim, c); }
  }

  lemma InputsAgree(tx: Tx, utxo: Utxo, height: u64, lim: Limits, c: Crypto)
    requires lim.coinbaseMaturity >= 0 && AsI64(height) >= -1
    ensures FirstSpendError(tx, |tx.ins|, utxo, height, TxLimitsOf(lim), c).None?
            ==> FirstInputError(tx, |tx.ins|, utxo, height, lim, c).None? && AllLookSigned(tx)
    ensures HeightsFit(tx, utxo, height) && FirstInputError(tx, |tx.ins|, utxo, height, lim, c).None? && AllLookSigned(tx)
            ==> FirstSpendError(tx, |tx.ins|, utxo, height, TxLimitsOf(lim), c).None?
  {
    NoSpendErrorIff(tx, |tx.ins|, utxo, height, TxLimitsOf(lim), c);
    NoInputErrorIff(tx, |tx.ins|, utxo, height, lim, c);
    forall i | 0 <= i < |tx.ins|
      ensures SpendError(tx, i, utxo, height, TxLimitsOf(lim), c).None?
              ==> InputError(tx, i, utxo, height, lim, c).None? && SignatureShapeError(tx.ins[i].wit).None?
      ensures HeightsFit(tx, utxo, height) && InputError(tx, i, utxo, height, lim, c).None? && SignatureShapeError(tx.ins[i].wit).None?
              ==> SpendError(tx, i, utxo, height, TxLimitsOf(lim), c).None?
    {
      SpendErrorVersusInputError(tx, i, utxo, height, lim, c);
    }
  }

  /** What the mempool admits, the block validator accepts on the same index, height and
      limits, for the same fee. */
  lemma AdmittedIsAccepted(tx: Tx, utxo: Utxo, height: u64, lim: Limits, c: Crypto)
    requires lim.coinbaseMaturity >= 0 && AsI64(height) >= -1
    requires Admission(tx, utxo, height, TxLimitsOf(lim), c).Admit?
    ensures TxVerdict(tx, utxo, height, lim, c).Accept?
    ensures TxVerdict(tx, utxo, height, lim, c).fee == Admission(tx, utxo, height, TxLimitsOf(lim), c).fee
  {
    InputsAgree(tx, utxo, height, lim, c);
    EndsAgree(tx, utxo, lim);
  }

  /** The limits and the balance are judged alike. */
  lemma EndsAgree(tx: Tx, utxo: Utxo, lim: Limits)
    requires lim.coinbaseMaturity >= 0
    ensures SizeError(tx, TxLimitsOf(lim)) == LimitError(tx, lim)
    ensures SettleVerdict(tx, utxo, TxLimitsOf(lim).maxSigopsPerTx).Admit? <==> BalanceVerdict(tx, utxo, lim).Accept?
    ensures BalanceVerdict(tx, utxo, lim).Accept? ==>
              SettleVerdict(tx, utxo, TxLimitsOf(lim).maxSigopsPerTx).fee == BalanceVerdict(tx, utxo, lim).fee
  {
  }

  /** The only differences: the mempool refuses coinbases and transactions without inputs or
      outputs, and checks the sighash byte of every first witness item, covenant or not. */
  lemma AdmittedExactlyWhen(tx: Tx, utxo: Utxo, height: u64, lim: Limits, c: Crypto)
    requires lim.coinbaseMaturity >= 0 && AsI64(height) >= -1 && HeightsFit(tx, utxo, height)
    ensures Admission(tx, utxo, height, TxLimitsOf(lim), c).Admit? <==>
            && TxVerdict(tx, utxo, height, lim, c).Accept?
            && tx.ins != [] && tx.outs != [] && !tx.isCoinbase && AllLookSigned(tx)
  {
    InputsAgree(tx, utxo, height, lim, c);
    EndsAgree(tx, utxo, lim);
  }

  /** The sighash byte is one of the four that mean all outputs. */
  predicate LooksSigned(wit: Stack) {
    |wit| >= 2 && |wit[0]| >= 2 && (var t := wit[0][|wit[0]| - 1]; t == 1 || t == 33 || t == 65 || t == 97)
  }

  /** What the mempool admits, rule by rule: the rules of a block's transaction, a witness that
      looks signed at every input, and something on both sides of a transaction that is no
      coinbase. */
  lemma AdmittedByTheRules(tx: Tx, utxo: Utxo, height: u64, lim: Limits, c: Crypto)
    requires lim.coinbaseMaturity >= 0 && AsI64(height) >= -1 && HeightsFit(tx, utxo, height)
    ensures Admission(tx, utxo, height, TxLimitsOf(lim), c).Admit? <==>
            && Spending.MeetsTheRules(tx, utxo, height, lim, c)
            && tx.ins != [] && tx.outs != [] && !tx.isCoinbase
            && forall i :: 0 <= i < |tx.ins| ==> LooksSigned(tx.ins[i].wit)
  {
    AdmittedExactlyWhen(tx, utxo, height, lim, c);
    Spending.AcceptedByTheRules(tx, utxo, height, lim, c);
    forall i | 0 <= i < |tx.ins| ensures SignatureShapeError(tx.ins[i].wit).None? <==> LooksSigned(tx.ins[i].wit) {
      ShapeIs(tx.ins[i].wit);
    }
  }

  lemma ShapeIs(wit: Stack)
    ensures SignatureShapeError(wit).None? <==> LooksSigned(wit)
  {
  }

  /** The wrapped and the saturated difference judge maturity alike at every spend height
      from minus one up, and at no lower one. */
  lemma MaturityRefinesExactlyWhen(height: u64, lim: Limits)
    requires lim.coinbaseMaturity >= 0
    ensures (forall e: Entry :: MatureWrapping(e, height, TxLimitsOf(lim)) ==> Mature(e, height, lim)) <==> AsI64(height) >= -1
  {
    if AsI64(height) >= -1 {
      forall e: Entry ensures MatureWrapping(e, height, TxLimitsOf(lim)) ==> Mature(e, height, lim) {
        MaturityAgrees(e, height, lim);
      }
    } else {
      var e := Entry(0, [], true, AsI64(height) + I64_LIMIT + 1);
      assert AsI64(-I64_LIMIT - 1) == I64_LIMIT - 1;
      assert MatureWrapping(e, height, TxLimitsOf(lim)) && !Mature(e, height, lim);
    }
  }
}
