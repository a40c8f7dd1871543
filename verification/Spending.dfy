/** What it takes to spend an entry: the message that a key-hash spend signs, field by field,
    the form a covenant spend must have, and what follows for every accepted transaction. */
module Spending {
  import opened Bytes
  import opened TxCodec
  import opened Sighash
  import opened Validation
  import opened Wire

  // ---------- the signed message ----------

  /** The strings that the message holds hashes of. */
  function Outpoints(tx: Tx): Bytes { Flat(PrevoutBytes, tx.ins) }
  function Sequences(tx: Tx): Bytes { Flat(SequenceBytes, tx.ins) }
  function Outputs(tx: Tx): Bytes { Flat(EncOut, tx.outs) }

  /** All outpoints one after the other, 36 bytes each. */
  lemma {:induction false} OutpointsLayout(ins: seq<TxIn>, i: nat)
    requires i < |ins|
    ensures |Flat(PrevoutBytes, ins)| == 36 * |ins|
    ensures IsOutpoint(Flat(PrevoutBytes, ins)[36 * i..36 * i + 36], ins[i].prevTxid, ins[i].vout)
  {
    var front, rest := PrevoutBytes(ins[0]), Flat(PrevoutBytes, ins[1..]);
    assert Flat(PrevoutBytes, ins) == front + rest;
    if |ins| > 1 { OutpointsLayout(ins[1..], if i > 0 then i - 1 else 0); }
    if i == 0 {
      OutpointLayout(front, ins[0]);
      assert (front + rest)[0..36] == front;
    } else {
      assert (front + rest)[36 * i..36 * i + 36] == rest[36 * (i - 1)..36 * (i - 1) + 36];
    }
  }

  /** All sequences one after the other, four bytes each. */
  lemma {:induction false} SequencesLayout(ins: seq<TxIn>, i: nat)
    requires i < |ins|
    ensures |Flat(SequenceBytes, ins)| == 4 * |ins| && FromLE(Flat(SequenceBytes, ins)[4 * i..4 * i + 4]) == ins[i].sequence
  {
    var front, rest := SequenceBytes(ins[0]), Flat(SequenceBytes, ins[1..]);
    assert Flat(SequenceBytes, ins) == front + rest;
    if |ins| > 1 { SequencesLayout(ins[1..], if i > 0 then i - 1 else 0); }
    if i == 0 {
      PowConstants();
      LERoundTrip(4, ins[0].sequence);
      assert (front + rest)[0..4] == front;
    } else {
      assert (front + rest)[4 * i..4 * i + 4] == rest[4 * (i - 1)..4 * (i - 1) + 4];
    }
  }

  /** The 182 bytes of BIP143 for input `n`, each field at its place: version, hash of all
      outpoints, hash of all sequences, outpoint, script code of the key hash behind its length,
      amount, sequence, hash of all outputs, locktime, hash type. */
  ghost predicate IsMessage(m: Bytes, tx: Tx, n: nat, amount: u64, hash20: Bytes, t: u8, sha256d: Hash)
    requires n < |tx.ins| && |hash20| == 20
  {
    && |m| == 182
    && SpellsVersion(m[..4], tx.version)
    && m[4..36] == sha256d(Outpoints(tx))
    && m[36..68] == sha256d(Sequences(tx))
    && IsOutpoint(m[68..104], tx.ins[n].prevTxid, tx.ins[n].vout)
    && m[104..108] == [25, 0x76, 0xa9, 0x14] && m[108..128] == hash20 && m[128..130] == [0x88, 0xac]
    && FromLE(m[130..138]) == amount
    && FromLE(m[138..142]) == tx.ins[n].sequence
    && m[142..174] == sha256d(Outputs(tx))
    && FromLE(m[174..178]) == tx.locktime
    && FromLE(m[178..182]) == t
  }

  /** The strings in between the fixed fields. */
  lemma Cut(a: Bytes, b: Bytes, c: Bytes, d: Bytes, e: Bytes, f: Bytes, g: Bytes, h: Bytes, i: Bytes, j: Bytes)
    requires |a| == 4 && |b| == 32 && |c| == 32 && |d| == 36 && |e| == 26 && |f| == 8 && |g| == 4 && |h| == 32 && |i| == 4 && |j| == 4
    ensures var m := a + b + c + d + e + f + g + h + i + j;
            && |m| == 182 && m[..4] == a && m[4..36] == b && m[36..68] == c && m[68..104] == d && m[104..130] == e
            && m[130..138] == f && m[138..142] == g && m[142..174] == h && m[174..178] == i && m[178..182] == j
  {
  }

  /** What the validators hash is such a message. */
  lemma SignedIsMessage(tx: Tx, n: nat, amount: u64, hash20: Bytes, t: u8, c: Crypto) returns (m: Bytes)
    requires n < |tx.ins| && |hash20| == 20
    ensures IsMessage(m, tx, n, amount, hash20, t, c.Sha256d) && c.sha256(c.sha256(m)) == InputDigest(tx, n, amount, hash20, t, c)
  {
    var cache, i := CacheOf(tx, c.Sha256d), tx.ins[n];
    var code := [0x76, 0xa9, 0x14] + hash20 + [0x88, 0xac];
    var e := [25] + code;
    m := LE(4, ToU32(tx.version)) + cache.hashPrevouts + cache.hashSequence + PrevoutBytes(i) + e + LE(8, amount)
         + LE(4, i.sequence) + cache.hashOutputs + LE(4, tx.locktime) + LE(4, t);
    Cut(LE(4, ToU32(tx.version)), cache.hashPrevouts, cache.hashSequence, PrevoutBytes(i), e, LE(8, amount), LE(4, i.sequence),
        cache.hashOutputs, LE(4, tx.locktime), LE(4, t));
    CodeAt(m, hash20, e);
    NumbersAt(amount, i.sequence, tx.locktime, t);
    VersionSpelt(tx.version);
    OutpointLayout(PrevoutBytes(i), i);
    MessageIsPreimage(tx, cache, n, hash20, amount, t, m);
  }

  lemma NumbersAt(amount: u64, sequence: u32, locktime: u32, t: u8)
    ensures FromLE(LE(8, amount)) == amount && FromLE(LE(4, sequence)) == sequence
    ensures FromLE(LE(4, locktime)) == locktime && FromLE(LE(4, t)) == t
  {
    PowConstants();
    LERoundTrip(8, amount);
    LERoundTrip(4, sequence);
    LERoundTrip(4, locktime);
    LERoundTrip(4, t);
  }

  lemma CodeAt(m: Bytes, hash20: Bytes, e: Bytes)
    requires |m| == 182 && |hash20| == 20 && e == [25] + ([0x76, 0xa9, 0x14] + hash20 + [0x88, 0xac]) && m[104..130] == e
    ensures m[104..108] == [25, 0x76, 0xa9, 0x14] && m[108..128] == hash20 && m[128..130] == [0x88, 0xac]
  {
    assert m[104..108] == e[..4] && m[108..128] == e[4..24] && m[128..130] == e[24..26];
  }

  lemma MessageIsPreimage(tx: Tx, cache: Cache, n: nat, hash20: Bytes, amount: u64, t: u8, m: Bytes)
    requires n < |tx.ins| && |hash20| == 20
    requires m == LE(4, ToU32(tx.version)) + cache.hashPrevouts + cache.hashSequence + PrevoutBytes(tx.ins[n])
                  + ([25] + ([0x76, 0xa9, 0x14] + hash20 + [0x88, 0xac])) + LE(8, amount)
                  + LE(4, tx.ins[n].sequence) + cache.hashOutputs + LE(4, tx.locktime) + LE(4, t)
    ensures m == TxPreimage(tx, cache, n, P2wpkhCode(hash20), amount, t)
  {
    assert EncodeVarint(25) == [25] && |P2wpkhCode(hash20)| == 25;
    Append3(LE(4, ToU32(tx.version)) + cache.hashPrevouts + cache.hashSequence + PrevoutBytes(tx.ins[n]), [25], P2wpkhCode(hash20));
  }

  /** There is one such message only. */
  lemma MessageIsUnique(a: Bytes, b: Bytes, tx: Tx, n: nat, amount: u64, hash20: Bytes, t: u8, sha256d: Hash)
    requires n < |tx.ins| && |hash20| == 20
    requires IsMessage(a, tx, n, amount, hash20, t, sha256d) && IsMessage(b, tx, n, amount, hash20, t, sha256d)
    ensures a == b
  {
    FromLEInjective(a[..4], b[..4]);
    SameOutpoint(a[68..104], b[68..104], tx.ins[n].prevTxid, tx.ins[n].vout);
    FromLEInjective(a[130..138], b[130..138]);
    FromLEInjective(a[138..142], b[138..142]);
    FromLEInjective(a[174..178], b[174..178]);
    FromLEInjective(a[178..182], b[178..182]);
    SameSlices(a, b);
  }

  lemma SameOutpoint(a: Bytes, b: Bytes, txid: Digest, vout: u32)
    requires IsOutpoint(a, txid, vout) && IsOutpoint(b, txid, vout)
    ensures a == b
  {
    FromLEInjective(a[32..], b[32..]);
    assert a == a[..32] + a[32..] && b == b[..32] + b[32..] && a[..32] == b[..32];
  }

  lemma SameSlices(a: Bytes, b: Bytes)
    requires |a| == |b| == 182 && a[..4] == b[..4] && a[4..36] == b[4..36] && a[36..68] == b[36..68] && a[68..104] == b[68..104]
    requires a[104..108] == b[104..108] && a[108..128] == b[108..128] && a[128..130] == b[128..130] && a[130..138] == b[130..138]
    requires a[138..142] == b[138..142] && a[142..174] == b[142..174] && a[174..178] == b[174..178] && a[178..182] == b[178..182]
    ensures a == b
  {
    Glue(a, b, 4, 36);
    Glue(a, b, 36, 68);
    Glue(a, b, 68, 104);
    Glue(a, b, 104, 108);
    Glue(a, b, 108, 128);
    Glue(a, b, 128, 130);
    Glue(a, b, 130, 138);
    Glue(a, b, 138, 142);
    Glue(a, b, 142, 174);
    Glue(a, b, 174, 178);
    Glue(a, b, 178, 182);
    assert a[..182] == a && b[..182] == b;
  }

  lemma Glue(a: Bytes, b: Bytes, i: nat, j: nat)
    requires i <= j <= |a| && j <= |b| && a[..i] == b[..i] && a[i..j] == b[i..j]
    ensures a[..j] == b[..j]
  {
    assert a[..j] == a[..i] + a[i..j] && b[..j] == b[..i] + b[i..j];
  }

  // ---------- key hashes and covenants ----------

  /** The script pays to the hash of a key, or of a redeem script. */
  predicate PaysToKeyHash(script: Bytes, hash20: Bytes) { |hash20| == 20 && script == [0x00, 0x14] + hash20 }
  predicate PaysToScriptHash(script: Bytes, hash32: Bytes) { |hash32| == 32 && script == [0x00, 0x20] + hash32 }

  lemma KindOfScript(script: Bytes, h: Bytes)
    ensures DetectScriptKind(script) == Some(P2wpkh(h)) <==> PaysToKeyHash(script, h)
    ensures DetectScriptKind(script) == Some(P2wsh(h)) <==> PaysToScriptHash(script, h)
  {
    if |script| >= 2 { assert script == [script[0], script[1]] + script[2..]; }
    assert ([0x00, 0x14] + h)[2..] == h && ([0x00, 0x20] + h)[2..] == h;
  }

  /** The first witness item is a signature with its hash type behind, the second a key with the
      given hash, and the signature is valid for the message of this input and this amount. */
  ghost predicate SignsMessage(tx: Tx, n: nat, amount: u64, hash20: Bytes, lowSOnly: bool, c: Crypto)
    requires n < |tx.ins| && |hash20| == 20
  {
    var wit := tx.ins[n].wit;
    && |wit| >= 2 && |wit[0]| >= 2 && c.hash160(wit[1]) == hash20
    && var der, t := wit[0][..|wit[0]| - 1], wit[0][|wit[0]| - 1];
       && (t == 0x01 || t == 0x21 || t == 0x41 || t == 0x61)
       && c.pubkeyOk(wit[1]) && c.derOk(der) && (lowSOnly ==> c.lowS(der))
       && exists m: Bytes :: IsMessage(m, tx, n, amount, hash20, t, c.Sha256d) && c.ecdsa(wit[1], der, c.sha256(c.sha256(m)))
  }

  lemma HashTypes(t: u8)
    ensures SighashByteOk(t) <==> t == 0x01 || t == 0x21 || t == 0x41 || t == 0x61
  {
  }

  /** A key-hash spend is let through exactly if it is signed like that. */
  lemma KeyHashSpendExactlyWhen(tx: Tx, n: nat, amount: u64, hash20: Bytes, lim: Limits, c: Crypto)
    requires n < |tx.ins| && |hash20| == 20
    ensures P2wpkhError(tx, n, amount, hash20, lim, c).None? <==> SignsMessage(tx, n, amount, hash20, lim.enforceLowS, c)
  {
    var wit := tx.ins[n].wit;
    if |wit| >= 2 && |wit[0]| >= 2 {
      var t := wit[0][|wit[0]| - 1];
      HashTypes(t);
      var m := SignedIsMessage(tx, n, amount, hash20, t, c);
      forall m': Bytes | IsMessage(m', tx, n, amount, hash20, t, c.Sha256d) ensures m' == m {
        MessageIsUnique(m', m, tx, n, amount, hash20, t, c.Sha256d);
      }
    }
  }

  /** The second witness item is a script with the given hash that pushes the first item and
      compares. */
  predicate RevealsData(wit: Stack, hash32: Bytes, c: Crypto) {
    |wit| >= 2 && c.sha256(wit[1]) == hash32 && |wit[0]| < 256 &&
    var size: u8 := |wit[0]|; wit[1] == [size] + wit[0] + [0x87]
  }

  /** A covenant spend is let through exactly if it reveals the data like that. */
  lemma CovenantSpendExactlyWhen(wit: Stack, hash32: Bytes, c: Crypto)
    ensures CovenantError(wit, hash32, c).None? <==> RevealsData(wit, hash32, c)
  {
    if |wit| >= 2 {
      var redeem, n := wit[1], |wit[1]| - 1;
      if n >= 1 && redeem[0] == n - 1 {
        assert redeem == [redeem[0]] + redeem[1..n] + [redeem[n]];
      }
      if RevealsData(wit, hash32, c) { assert redeem[1..1 + |wit[0]|] == wit[0]; }
    }
  }

  /** The spend is signed, or reveals the data, as the entry's script asks. */
  ghost predicate MaySpend(tx: Tx, n: nat, e: Entry, lowSOnly: bool, c: Crypto)
    requires n < |tx.ins|
  {
    || (exists h :: PaysToKeyHash(e.script, h) && SignsMessage(tx, n, e.amount, h, lowSOnly, c))
    || (exists h :: PaysToScriptHash(e.script, h) && RevealsData(tx.ins[n].wit, h, c))
  }

  lemma AuthorisedExactlyWhen(tx: Tx, n: nat, e: Entry, lim: Limits, c: Crypto)
    requires n < |tx.ins|
    ensures Authorised(tx, n, e, lim, c) <==> MaySpend(tx, n, e, lim.enforceLowS, c)
  {
    forall h ensures DetectScriptKind(e.script) == Some(P2wpkh(h)) <==> PaysToKeyHash(e.script, h) { KindOfScript(e.script, h); }
    forall h ensures DetectScriptKind(e.script) == Some(P2wsh(h)) <==> PaysToScriptHash(e.script, h) { KindOfScript(e.script, h); }
    match DetectScriptKind(e.script)
    case None =>
    case Some(P2wpkh(h)) => KeyHashSpendExactlyWhen(tx, n, e.amount, h, lim, c);
    case Some(P2wsh(h)) => CovenantSpendExactlyWhen(tx.ins[n].wit, h, c);
  }

  // ---------- the rules of a transaction ----------

  /** Depth counted in whole numbers; a maturity of -2^63 lets everything through. */
  predicate DeepEnough(e: Entry, height: u64, maturity: i64) {
    var signed := if height < I64_LIMIT then height else height - U64_LIMIT;
    e.isCoinbase ==> signed - e.height >= maturity || maturity == -I64_LIMIT
  }

  lemma MatureExactlyWhen(e: Entry, height: u64, lim: Limits)
    ensures Mature(e, height, lim) <==> DeepEnough(e, height, lim.coinbaseMaturity)
  {
  }

  /** The inputs that spend from a key hash. */
  function KeyHashInputs(ins: Ins, n: nat, utxo: Utxo): set<nat>
    requires n <= |ins|
  {
    set i: nat | i < n && SpendsKeyHash(utxo, KeyOf(ins[i]))
  }

  /** A count that stops at the largest word passes if it is within the limit, or if there is
      nothing above the limit. */
  predicate Within(count: nat, limit: u32) { count <= limit || limit == 0xFFFF_FFFF }

  lemma SaturatedWithin(count: nat, limit: u32)
    ensures SatU32(count) <= limit <==> Within(count, limit)
  {
  }

  /** Signature operations are counted one for each, up to the largest word. */
  lemma {:induction false} SigopsAreCounted(ins: Ins, n: nat, utxo: Utxo)
    requires n <= |ins|
    ensures Sigops(ins, n, utxo) == SatU32(|KeyHashInputs(ins, n, utxo)|)
  {
    if n > 0 {
      SigopsAreCounted(ins, n - 1, utxo);
      OneMoreInput(ins, n, utxo);
    }
  }

  lemma OneMoreInput(ins: Ins, n: nat, utxo: Utxo)
    requires 1 <= n <= |ins|
    ensures |KeyHashInputs(ins, n, utxo)| == |KeyHashInputs(ins, n - 1, utxo)| + if SpendsKeyHash(utxo, KeyOf(ins[n - 1])) then 1 else 0
  {
    var before := KeyHashInputs(ins, n - 1, utxo);
    if SpendsKeyHash(utxo, KeyOf(ins[n - 1])) {
      assert KeyHashInputs(ins, n, utxo) == before + {n - 1};
    } else {
      assert KeyHashInputs(ins, n, utxo) == before;
    }
  }

  /** Everything a transaction has to meet, in no order. */
  ghost predicate MeetsTheRules(tx: Tx, utxo: Utxo, height: u64, lim: Limits, c: Crypto) {
    && lim.minTxVsize <= Vsize(tx) <= lim.maxTxVsize && lim.minTxWeight <= Weight(tx) <= lim.maxTxWeight
    && |tx.ins| <= lim.maxTxInputs && |tx.outs| <= lim.maxTxOutputs
    && (forall i, j :: 0 <= i < j < |tx.ins| ==> tx.ins[i].prevTxid != tx.ins[j].prevTxid || tx.ins[i].vout != tx.ins[j].vout)
    && (forall i :: 0 <= i < |tx.ins| ==> SpendsEntry(tx, i, utxo, height, lim, c))
    && Within(|KeyHashInputs(tx.ins, |tx.ins|, utxo)|, lim.maxSigopsPerTx)
    && (forall j :: 0 <= j < |tx.outs| ==> tx.outs[j].amount > 0 || (tx.outs[j].script != [] && tx.outs[j].script[0] == 0x6a))
    && OutputSum(tx.outs, |tx.outs|) <= InputSum(tx.ins, |tx.ins|, utxo)
  }

  ghost predicate SpendsEntry(tx: Tx, i: nat, utxo: Utxo, height: u64, lim: Limits, c: Crypto)
    requires i < |tx.ins|
  {
    var k := Outpoint(tx.ins[i].prevTxid, tx.ins[i].vout);
    k in utxo && DeepEnough(utxo[k], height, lim.coinbaseMaturity) && MaySpend(tx, i, utxo[k], lim.enforceLowS, c)
  }

  /** A transaction is accepted exactly if it meets the rules. */
  lemma AcceptedByTheRules(tx: Tx, utxo: Utxo, height: u64, lim: Limits, c: Crypto)
    ensures TxVerdict(tx, utxo, height, lim, c).Accept? <==> MeetsTheRules(tx, utxo, height, lim, c)
  {
    AcceptedExactlyWhen(tx, utxo, height, lim, c);
    InputsByTheRules(tx, utxo, height, lim, c);
    SigopsAreCounted(tx.ins, |tx.ins|, utxo);
    SaturatedWithin(|KeyHashInputs(tx.ins, |tx.ins|, utxo)|, lim.maxSigopsPerTx);
    DistinctMeans(tx.ins);
    OutputsMean(tx.outs);
  }

  lemma DistinctMeans(ins: Ins)
    ensures DistinctInputs(ins) <==>
            forall i, j :: 0 <= i < j < |ins| ==> ins[i].prevTxid != ins[j].prevTxid || ins[i].vout != ins[j].vout
  {
  }

  lemma OutputsMean(outs: Outs)
    ensures (forall j :: 0 <= j < |outs| ==> OutputOk(outs[j])) <==>
            forall j :: 0 <= j < |outs| ==> outs[j].amount > 0 || (outs[j].script != [] && outs[j].script[0] == 0x6a)
  {
  }

  lemma InputsByTheRules(tx: Tx, utxo: Utxo, height: u64, lim: Limits, c: Crypto)
    ensures SpendableInputs(tx, utxo, height, lim, c) <==>
            forall i :: 0 <= i < |tx.ins| ==> SpendsEntry(tx, i, utxo, height, lim, c)
  {
    forall i | 0 <= i < |tx.ins|
      ensures SpendsEntry(tx, i, utxo, height, lim, c) <==>
              KeyOf(tx.ins[i]) in utxo && Mature(utxo[KeyOf(tx.ins[i])], height, lim) && Authorised(tx, i, utxo[KeyOf(tx.ins[i])], lim, c)
    {
      if KeyOf(tx.ins[i]) in utxo {
        MatureExactlyWhen(utxo[KeyOf(tx.ins[i])], height, lim);
        AuthorisedExactlyWhen(tx, i, utxo[KeyOf(tx.ins[i])], lim, c);
      }
    }
  }

  lemma SameTail(a: Bytes, b: Bytes, c: Bytes)
    requires a + b == a + c
    ensures b == c
  {
    AppendCancel(a, b, a, c);
  }

  /** A script is of one kind, with one hash. */
  lemma KindDecides(tx: Tx, n: nat, e: Entry, h: Bytes, lowSOnly: bool, c: Crypto)
    requires n < |tx.ins| && MaySpend(tx, n, e, lowSOnly, c)
    ensures PaysToKeyHash(e.script, h) ==> SignsMessage(tx, n, e.amount, h, lowSOnly, c)
    ensures PaysToScriptHash(e.script, h) ==> RevealsData(tx.ins[n].wit, h, c)
  {
    forall h' | PaysToKeyHash(e.script, h) && PaysToKeyHash(e.script, h') ensures h' == h { SameTail([0x00, 0x14], h', h); }
    forall h' | PaysToScriptHash(e.script, h) && PaysToScriptHash(e.script, h') ensures h' == h { SameTail([0x00, 0x20], h', h); }
  }

  lemma AcceptedMaySpend(tx: Tx, utxo: Utxo, height: u64, lim: Limits, c: Crypto, n: nat)
    requires TxVerdict(tx, utxo, height, lim, c).Accept? && n < |tx.ins|
    ensures KeyOf(tx.ins[n]) in utxo && MaySpend(tx, n, utxo[KeyOf(tx.ins[n])], lim.enforceLowS, c)
  {
    AcceptedByTheRules(tx, utxo, height, lim, c);
    assert SpendsEntry(tx, n, utxo, height, lim, c);
  }

  /** In an accepted transaction every input of a covenant reveals the data. */
  lemma AcceptedCovenantReveals(tx: Tx, utxo: Utxo, height: u64, lim: Limits, c: Crypto, n: nat, hash32: Bytes)
    requires TxVerdict(tx, utxo, height, lim, c).Accept? && n < |tx.ins|
    requires KeyOf(tx.ins[n]) in utxo && PaysToScriptHash(utxo[KeyOf(tx.ins[n])].script, hash32)
    ensures RevealsData(tx.ins[n].wit, hash32, c)
  {
    AcceptedMaySpend(tx, utxo, height, lim, c, n);
    KindDecides(tx, n, utxo[KeyOf(tx.ins[n])], hash32, lim.enforceLowS, c);
  }

  // ---------- what a signature fixes ----------

  lemma TheMessage(tx: Tx, n: nat, amount: u64, hash20: Bytes, lowSOnly: bool, c: Crypto) returns (m: Bytes, t: u8)
    requires n < |tx.ins| && |hash20| == 20 && SignsMessage(tx, n, amount, hash20, lowSOnly, c)
    ensures var wit := tx.ins[n].wit;
            && |wit| >= 2 && |wit[0]| >= 2 && t == wit[0][|wit[0]| - 1] && c.hash160(wit[1]) == hash20
            && c.ecdsa(wit[1], wit[0][..|wit[0]| - 1], c.sha256(c.sha256(m)))
    ensures IsMessage(m, tx, n, amount, hash20, t, c.Sha256d)
  {
    var wit := tx.ins[n].wit;
    t := wit[0][|wit[0]| - 1];
    m :| IsMessage(m, tx, n, amount, hash20, t, c.Sha256d) && c.ecdsa(wit[1], wit[0][..|wit[0]| - 1], c.sha256(c.sha256(m)));
  }

  /** In an accepted transaction every input of a key hash carries a signature on its message. */
  lemma AcceptedKeyHashSigns(tx: Tx, utxo: Utxo, height: u64, lim: Limits, c: Crypto, n: nat, hash20: Bytes)
    requires TxVerdict(tx, utxo, height, lim, c).Accept? && n < |tx.ins|
    requires KeyOf(tx.ins[n]) in utxo && PaysToKeyHash(utxo[KeyOf(tx.ins[n])].script, hash20)
    ensures SignsMessage(tx, n, utxo[KeyOf(tx.ins[n])].amount, hash20, lim.enforceLowS, c)
  {
    AcceptedMaySpend(tx, utxo, height, lim, c, n);
    KindDecides(tx, n, utxo[KeyOf(tx.ins[n])], hash20, lim.enforceLowS, c);
  }

  /** None of the strings hashed for the two messages collide. */
  predicate NoMessageCollision(h: Hash, x: Tx, a: Bytes, y: Tx, b: Bytes) {
    && NoCollision(h, a, b) && NoCollision(h, Outpoints(x), Outpoints(y))
    && NoCollision(h, Sequences(x), Sequences(y)) && NoCollision(h, Outputs(x), Outputs(y))
  }

  /** One hash for two messages: then the amounts of the spent entries, the key hashes, the hash
      types and everything signed of the transactions agree. */
  lemma MessagesCommit(x: Tx, n: nat, ax: u64, hx: Bytes, tx: u8, a: Bytes, y: Tx, k: nat, ay: u64, hy: Bytes, ty: u8, b: Bytes, h: Hash)
    requires n < |x.ins| && k < |y.ins| && |hx| == 20 == |hy|
    requires IsMessage(a, x, n, ax, hx, tx, h) && IsMessage(b, y, k, ay, hy, ty, h)
    requires h(a) == h(b) && NoMessageCollision(h, x, a, y, b)
    ensures ax == ay && hx == hy && tx == ty && x.version == y.version && x.locktime == y.locktime && x.outs == y.outs
    ensures x.ins[n].prevTxid == y.ins[k].prevTxid && x.ins[n].vout == y.ins[k].vout && x.ins[n].sequence == y.ins[k].sequence
    ensures |x.ins| == |y.ins|
    ensures forall i :: 0 <= i < |x.ins| ==>
              x.ins[i].prevTxid == y.ins[i].prevTxid && x.ins[i].vout == y.ins[i].vout && x.ins[i].sequence == y.ins[i].sequence
  {
    assert a == b;
    OutpointIsOne(a[68..104], x.ins[n].prevTxid, x.ins[n].vout, y.ins[k].prevTxid, y.ins[k].vout);
    OutsInjective(x.outs, y.outs);
    PrevoutsInjective(x.ins, y.ins);
    SequencesInjective(x.ins, y.ins);
  }

  lemma OutpointIsOne(b: Bytes, t: Digest, v: u32, t': Digest, v': u32)
    requires IsOutpoint(b, t, v) && IsOutpoint(b, t', v')
    ensures t == t' && v == v'
  {
    forall i | 0 <= i < 32 ensures t[i] == t'[i] { assert b[31 - i] == t[31 - (31 - i)]; }
  }

  /** What the signatures of two accepted key-hash inputs can have in common: if the hashes under
      them agree, the two spend entries of the same amount, of the same key hash, with the same
      hash type, in transactions that agree in all that is signed. */
  lemma AcceptedSignaturesCommit(x: Tx, ux: Utxo, heightX: u64, n: nat, hx: Bytes, y: Tx, uy: Utxo, heightY: u64, k: nat, hy: Bytes,
                                 lim: Limits, c: Crypto)
      returns (a: Bytes, b: Bytes)
    requires TxVerdict(x, ux, heightX, lim, c).Accept? && TxVerdict(y, uy, heightY, lim, c).Accept? && n < |x.ins| && k < |y.ins|
    requires KeyOf(x.ins[n]) in ux && PaysToKeyHash(ux[KeyOf(x.ins[n])].script, hx)
    requires KeyOf(y.ins[k]) in uy && PaysToKeyHash(uy[KeyOf(y.ins[k])].script, hy)
    ensures var wx, wy := x.ins[n].wit, y.ins[k].wit;
            && |wx| >= 2 && |wy| >= 2 && |wx[0]| >= 2 && |wy[0]| >= 2
            && IsMessage(a, x, n, ux[KeyOf(x.ins[n])].amount, hx, wx[0][|wx[0]| - 1], c.Sha256d)
            && IsMessage(b, y, k, uy[KeyOf(y.ins[k])].amount, hy, wy[0][|wy[0]| - 1], c.Sha256d)
            && c.ecdsa(wx[1], wx[0][..|wx[0]| - 1], c.sha256(c.sha256(a))) && c.ecdsa(wy[1], wy[0][..|wy[0]| - 1], c.sha256(c.sha256(b)))
            && (c.sha256(c.sha256(a)) == c.sha256(c.sha256(b)) && NoMessageCollision(c.Sha256d, x, a, y, b) ==>
                && ux[KeyOf(x.ins[n])].amount == uy[KeyOf(y.ins[k])].amount && hx == hy && wx[0][|wx[0]| - 1] == wy[0][|wy[0]| - 1]
                && KeyOf(x.ins[n]) == KeyOf(y.ins[k]) && SignedAlike(x, y))
  {
    var tx, ty;
    AcceptedKeyHashSigns(x, ux, heightX, lim, c, n, hx);
    AcceptedKeyHashSigns(y, uy, heightY, lim, c, k, hy);
    a, tx := TheMessage(x, n, ux[KeyOf(x.ins[n])].amount, hx, lim.enforceLowS, c);
    b, ty := TheMessage(y, k, uy[KeyOf(y.ins[k])].amount, hy, lim.enforceLowS, c);
    if c.sha256(c.sha256(a)) == c.sha256(c.sha256(b)) && NoMessageCollision(c.Sha256d, x, a, y, b) {
      MessagesCommit(x, n, ux[KeyOf(x.ins[n])].amount, hx, tx, a, y, k, uy[KeyOf(y.ins[k])].amount, hy, ty, b, c.Sha256d);
    }
  }

  predicate SignedAlike(x: Tx, y: Tx) {
    && x.version == y.version && x.locktime == y.locktime && x.outs == y.outs && |x.ins| == |y.ins|
    && forall i :: 0 <= i < |x.ins| ==>
         x.ins[i].prevTxid == y.ins[i].prevTxid && x.ins[i].vout == y.ins[i].vout && x.ins[i].sequence == y.ins[i].sequence
  }
}
