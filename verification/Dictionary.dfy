/** The dictionary of unspent outputs that a running node works on: how a block's operations
    change it, what it marks as not yet written, and how it is read back from the database. */
module Dictionary {
  import opened Bytes
  import opened Validation
  import opened UtxoRecord
  import opened Storage
  import opened UtxoDelta
  import opened Script
  import Scan = PrefixScan

  // ---------- entries ----------

  type Program = cmds: seq<Cmd> | |Write(cmds)| < U64_LIMIT witness []

  /** An entry with its script as a list of commands. */
  datatype Coin = Coin(amount: u64, script: Program, isCoinbase: bool, height: i64)

  /** The entry read into a coin; nothing if its script cannot be read. */
  function CoinOf(e: Entry): (c: Option<Coin>)
    ensures c.None? <==> Rewritten(e.script).None?
    ensures c.Some? ==> Seen(c.value) == e.(script := Rewritten(e.script).value)
  {
    match Parse(e.script)
    case None => None
    case Some(cmds) =>
      assert Rewritten(e.script) == Some(Write(cmds));
      Some(Coin(e.amount, cmds, e.isCoinbase, e.height))
  }

  /** What a lookup of the coin shows: the script is written again. */
  function Seen(c: Coin): Entry { Entry(c.amount, Write(c.script), c.isCoinbase, c.height) }

  type Coins = map<Bytes, Coin>

  /** The dictionary, keyed by text, shows exactly the set. */
  ghost predicate Holds(coins: Coins, utxo: Utxo) {
    forall k: Outpoint :: (KeyString(k) in coins <==> k in utxo) && (k in utxo ==> Seen(coins[KeyString(k)]) == utxo[k])
  }

  /** The text of some outpoint. */
  ghost predicate IsKey(key: Bytes) { exists k: Outpoint :: KeyString(k) == key }

  /** The outpoint of a key is the one the key parser finds. */
  ghost function KeyedBy(key: Bytes): (k: Outpoint)
    requires IsKey(key)
    ensures KeyString(k) == key && ParsePrevoutKey(key) == Some(k)
  {
    var k: Outpoint :| KeyString(k) == key;
    KeyRoundTrip(k);
    k
  }

  /** The set that a dictionary shows. */
  ghost function Shown(coins: Coins): Utxo {
    map key | key in coins && IsKey(key) :: KeyedBy(key) := Seen(coins[key])
  }

  lemma ShownAt(coins: Coins, k: Outpoint)
    ensures k in Shown(coins) <==> KeyString(k) in coins
    ensures k in Shown(coins) ==> Shown(coins)[k] == Seen(coins[KeyString(k)])
  {
    if KeyString(k) in coins {
      assert IsKey(KeyString(k));
      KeyInjective(KeyedBy(KeyString(k)), k);
    }
  }

  /** Every dictionary shows one set and no other. */
  lemma ShowsExactly(coins: Coins, utxo: Utxo)
    ensures Holds(coins, utxo) <==> utxo == Shown(coins)
  {
    var shown := Shown(coins);
    forall k: Outpoint
      ensures (k in shown <==> KeyString(k) in coins) && (k in shown ==> shown[k] == Seen(coins[KeyString(k)]))
    {
      ShownAt(coins, k);
    }
  }

  // ---------- a block's operations on the dictionary ----------

  /** The dictionary and the keys whose records have not been written since they changed. */
  datatype Mem = Mem(coins: Coins, dirtyKeys: set<Bytes>, removedKeys: set<Bytes>, dirty: bool)

  function OpEntry(op: UtxoOp): Entry
    requires op.amount.Some?
  {
    Entry(op.amount.value,
          if op.script.Some? then op.script.value else [],
          if op.isCoinbase.Some? then op.isCoinbase.value else false,
          if op.height.Some? then op.height.value else 0)
  }

  /** One operation; it fails if the script cannot be read. */
  function MemOp(m: Mem, op: UtxoOp): Option<Mem> {
    if op.amount.None? then
      if op.key in m.coins then Some(Mem(m.coins - {op.key}, m.dirtyKeys - {op.key}, m.removedKeys + {op.key}, true))
      else Some(m)
    else match CoinOf(OpEntry(op))
      case None => None
      case Some(c) => Some(Mem(m.coins[op.key := c], m.dirtyKeys + {op.key}, m.removedKeys - {op.key}, true))
  }

  datatype Progress = Through(mem: Mem) | StuckAt(mem: Mem, i: nat)

  /** The operations in order, up to the first that fails. */
  function MemOps(m: Mem, ops: seq<UtxoOp>): Progress {
    if ops == [] then Through(m)
    else match MemOps(m, ops[..|ops| - 1])
      case StuckAt(m', i) => StuckAt(m', i)
      case Through(m') =>
        match MemOp(m', ops[|ops| - 1])
        case None => StuckAt(m', |ops| - 1)
        case Some(m'') => Through(m'')
  }

  lemma {:induction false} StuckIsFinal(m: Mem, ops: seq<UtxoOp>, k: nat)
    requires k <= |ops| && MemOps(m, ops[..k]).StuckAt?
    ensures MemOps(m, ops) == MemOps(m, ops[..k])
    decreases |ops|
  {
    if k == |ops| {
      assert ops[..k] == ops;
    } else {
      var front := ops[..|ops| - 1];
      assert front[..k] == ops[..k];
      StuckIsFinal(m, front, k);
    }
  }

  /** Every script that a delta adds survives. */
  predicate AddsSurvive(ds: seq<Delta>) { forall i :: 0 <= i < |ds| && ds[i].Add? ==> Survives(ds[i].e.script) }

  /** One operation on the dictionary is one change of the set, exactly if what it adds
      survives. */
  lemma MemOpRefinesExactlyWhen(m: Mem, utxo: Utxo, d: Delta)
    requires Holds(m.coins, utxo)
    ensures MemOp(m, Render(d)).Some? && Holds(MemOp(m, Render(d)).value.coins, ApplyDelta(utxo, d)) <==> (d.Add? ==> Survives(d.e.script))
  {
    if d.Add? { assert OpEntry(Render(d)) == d.e; }
    if d.Add? ==> Survives(d.e.script) {
      MemOpRefines(m, utxo, d);
    } else if MemOp(m, Render(d)).Some? {
      assert Seen(MemOp(m, Render(d)).value.coins[KeyString(d.k)]) != ApplyDelta(utxo, d)[d.k];
    }
  }

  lemma MemOpRefines(m: Mem, utxo: Utxo, d: Delta)
    requires Holds(m.coins, utxo) && (d.Add? ==> Survives(d.e.script))
    ensures MemOp(m, Render(d)).Some? && Holds(MemOp(m, Render(d)).value.coins, ApplyDelta(utxo, d))
  {
    var m', utxo' := MemOp(m, Render(d)).value, ApplyDelta(utxo, d);
    assert d.Add? ==> OpEntry(Render(d)) == d.e;
    forall k: Outpoint
      ensures (KeyString(k) in m'.coins <==> k in utxo') && (k in utxo' ==> Seen(m'.coins[KeyString(k)]) == utxo'[k])
    {
      if KeyString(k) == KeyString(d.k) { KeyInjective(k, d.k); }
    }
  }

  /** The operations get stuck exactly if some script cannot be read. */
  lemma {:induction false} ThroughExactlyWhen(m: Mem, ops: seq<UtxoOp>)
    ensures MemOps(m, ops).Through? <==>
            forall i :: 0 <= i < |ops| && ops[i].amount.Some? ==> Rewritten(OpEntry(ops[i]).script).Some?
  {
    if ops != [] {
      var front := ops[..|ops| - 1];
      ThroughExactlyWhen(m, front);
      assert forall i :: 0 <= i < |front| ==> front[i] == ops[i];
    }
  }

  /** The dictionary goes through a block's operations as the set goes through its changes, if
      every added script survives. */
  lemma {:induction false} MemOpsRefineReplay(m: Mem, utxo: Utxo, ds: seq<Delta>)
    requires Holds(m.coins, utxo) && AddsSurvive(ds)
    ensures MemOps(m, Image(Render, ds)).Through? && Holds(MemOps(m, Image(Render, ds)).mem.coins, Replay(utxo, ds))
  {
    if ds != [] {
      var front, d := ds[..|ds| - 1], ds[|ds| - 1];
      MemOpsRefineReplay(m, utxo, front);
      assert Image(Render, ds)[..|ds| - 1] == Image(Render, front);
      MemOpRefines(MemOps(m, Image(Render, front)).mem, Replay(utxo, front), d);
    }
  }

  // ---------- dictionary and database ----------

  /** The record under a key is the one the dictionary would write. */
  predicate AgreeAt(coins: Coins, db: Db, key: Bytes) {
    (key in coins <==> key in db) && (key in coins ==> db[key] == EncodeEntry(Seen(coins[key])))
  }

  ghost predicate InStep(coins: Coins, db: Db) { forall key :: IsKey(key) ==> AgreeAt(coins, db, key) }

  /** A database stands for the set that a dictionary shows exactly when the two are in step. */
  lemma InStepExactlyWhen(coins: Coins, db: Db, utxo: Utxo)
    requires Holds(coins, utxo)
    ensures InStep(coins, db) <==> Represents(db, utxo)
  {
    if InStep(coins, db) {
      forall k: Outpoint ensures (KeyString(k) in db <==> k in utxo) && (k in utxo ==> db[KeyString(k)] == EncodeEntry(utxo[k])) {
        assert IsKey(KeyString(k)) && AgreeAt(coins, db, KeyString(k));
      }
    }
    if Represents(db, utxo) {
      forall key | IsKey(key) ensures AgreeAt(coins, db, key) {
        var k := KeyedBy(key);
        assert KeyString(k) == key;
      }
    }
  }

  predicate Mentions(ops: seq<UtxoOp>, key: Bytes) { exists i :: 0 <= i < |ops| && ops[i].key == key }

  predicate OpsSurvive(ops: seq<UtxoOp>) {
    forall i :: 0 <= i < |ops| && ops[i].amount.Some? ==> Survives(OpEntry(ops[i]).script)
  }

  lemma OneMovesTogether(m: Mem, db: Db, op: UtxoOp, key: Bytes)
    requires op.amount.Some? ==> Survives(OpEntry(op).script)
    ensures MemOp(m, op).Some?
    ensures var coins, db' := MemOp(m, op).value.coins, ApplyOp(db, BatchOp(op));
            if op.key == key then AgreeAt(coins, db', key)
            else (AgreeAt(coins, db', key) <==> AgreeAt(m.coins, db, key))
  {
  }

  lemma MentionsLast(ops: seq<UtxoOp>, key: Bytes)
    requires ops != []
    ensures Mentions(ops, key) <==> Mentions(ops[..|ops| - 1], key) || ops[|ops| - 1].key == key
  {
    var front := ops[..|ops| - 1];
    if Mentions(front, key) {
      var i :| 0 <= i < |front| && front[i].key == key;
      assert ops[i].key == key;
    }
    if Mentions(ops, key) && ops[|ops| - 1].key != key {
      var i :| 0 <= i < |ops| && ops[i].key == key;
      assert front[i].key == key;
    }
  }

  /** Where dictionary and database stand on a key after the same operations on both. */
  ghost predicate MovedTogether(m: Mem, db: Db, ops: seq<UtxoOp>, key: Bytes) {
    MemOps(m, ops).Through? &&
    var coins, db' := MemOps(m, ops).mem.coins, ApplyOps(db, Image(BatchOp, ops));
    if Mentions(ops, key) then AgreeAt(coins, db', key)
    else (AgreeAt(coins, db', key) <==> AgreeAt(m.coins, db, key))
  }

  lemma NextMovesTogether(m: Mem, db: Db, ops: seq<UtxoOp>, key: Bytes)
    requires OpsSurvive(ops) && ops != [] && MovedTogether(m, db, ops[..|ops| - 1], key)
    ensures MovedTogether(m, db, ops, key)
  {
    var front, op := ops[..|ops| - 1], ops[|ops| - 1];
    MentionsLast(ops, key);
    assert Image(BatchOp, ops)[..|ops| - 1] == Image(BatchOp, front);
    OneMovesTogether(MemOps(m, front).mem, ApplyOps(db, Image(BatchOp, front)), op, key);
  }

  /** The same operations on dictionary and database bring the keys they mention in step, and
      leave all others as they were. */
  lemma {:induction false} OpsMoveTogether(m: Mem, db: Db, ops: seq<UtxoOp>, key: Bytes)
    requires OpsSurvive(ops)
    ensures MovedTogether(m, db, ops, key)
  {
    if ops != [] {
      OpsMoveTogether(m, db, ops[..|ops| - 1], key);
      NextMovesTogether(m, db, ops, key);
    }
  }

  /** After a stored block the two are in step exactly when they were before at every key that
      the block does not mention: storing one block does not make up for another. */
  lemma StoredInStepExactlyWhen(m: Mem, db: Db, ops: seq<UtxoOp>)
    requires OpsSurvive(ops)
    ensures MemOps(m, ops).Through?
    ensures InStep(MemOps(m, ops).mem.coins, ApplyOps(db, Image(BatchOp, ops))) <==>
            forall key :: IsKey(key) && !Mentions(ops, key) ==> AgreeAt(m.coins, db, key)
  {
    OpsMoveTogether(m, db, ops, []);
    var coins, db' := MemOps(m, ops).mem.coins, ApplyOps(db, Image(BatchOp, ops));
    forall key
      ensures if Mentions(ops, key) then AgreeAt(coins, db', key) else (AgreeAt(coins, db', key) <==> AgreeAt(m.coins, db, key))
    {
      OpsMoveTogether(m, db, ops, key);
      assert MovedTogether(m, db, ops, key);
    }
  }

  /** All keys in use are texts of outpoints; marked keys are in the dictionary or were removed
      from it. */
  ghost predicate Shaped(m: Mem) {
    && (forall key :: key in m.coins ==> IsKey(key))
    && m.dirtyKeys <= m.coins.Keys && m.removedKeys !! m.coins.Keys && (forall key :: key in m.removedKeys ==> IsKey(key))
    && (m.dirty <==> m.dirtyKeys + m.removedKeys != {})
  }

  /** Besides, every key at which dictionary and database differ is marked. */
  ghost predicate Marked(m: Mem, db: Db) {
    Shaped(m) && forall key :: IsKey(key) && key !in m.dirtyKeys + m.removedKeys ==> AgreeAt(m.coins, db, key)
  }

  lemma MemOpMarks(m: Mem, db: Db, op: UtxoOp)
    requires Marked(m, db) && IsKey(op.key) && MemOp(m, op).Some?
    ensures Marked(MemOp(m, op).value, db)
  {
    var m' := MemOp(m, op).value;
    if m' != m {
      assert op.key in m'.dirtyKeys + m'.removedKeys;
      forall key | IsKey(key) && key !in m'.dirtyKeys + m'.removedKeys ensures AgreeAt(m'.coins, db, key) {
        assert key != op.key && AgreeAt(m.coins, db, key);
      }
    }
  }

  /** Operations on the dictionary alone mark what they change, even if one of them fails. */
  lemma {:induction false} MemOpsMark(m: Mem, db: Db, ops: seq<UtxoOp>)
    requires Marked(m, db) && forall i :: 0 <= i < |ops| ==> IsKey(ops[i].key)
    ensures Marked(MemOps(m, ops).mem, db)
  {
    if ops != [] {
      var front, op := ops[..|ops| - 1], ops[|ops| - 1];
      MemOpsMark(m, db, front);
      if MemOps(m, front).Through? && MemOp(MemOps(m, front).mem, op).Some? { MemOpMarks(MemOps(m, front).mem, db, op); }
    }
  }

  lemma {:induction false} MemOpsShaped(m: Mem, ops: seq<UtxoOp>)
    requires Shaped(m) && forall i :: 0 <= i < |ops| ==> IsKey(ops[i].key)
    ensures Shaped(MemOps(m, ops).mem)
  {
    if ops != [] { MemOpsShaped(m, ops[..|ops| - 1]); }
  }

  // ---------- reading the database back ----------

  /** The key of the metadata record: "__meta__". */
  const META: Bytes := [95, 95, 109, 101, 116, 97, 95, 95]

  datatype Record = Skipped | Unreadable | Kept(coin: Coin)

  /** What the loader makes of one record. */
  function ReadRecord(key: Bytes, val: Bytes): Record {
    if key == META then Skipped
    else match DecodeEntry(val)
      case None => Skipped
      case Some(e) =>
        match CoinOf(e)
        case None => Unreadable
        case Some(coin) => if IsOpReturn(Seen(coin).script) then Skipped else Kept(coin)
  }

  /** The loaded dictionary; nothing if some record cannot be read. */
  function Loaded(db: Db): Option<Coins> {
    if exists key :: key in db && ReadRecord(key, db[key]).Unreadable? then None
    else Some(KeptCoins(db))
  }

  function KeptCoins(db: Db): Coins {
    map key | key in db && ReadRecord(key, db[key]).Kept? :: ReadRecord(key, db[key]).coin
  }

  lemma UnreadableSpoils(db: Db, key: Bytes)
    requires key in db && ReadRecord(key, db[key]).Unreadable?
    ensures Loaded(db) == None
  {
  }

  /** A further record that can be read. */
  lemma LoadedWith(db: Db, key: Bytes, val: Bytes, coins: Coins)
    requires key !in db && Loaded(db) == Some(coins) && !ReadRecord(key, val).Unreadable?
    ensures var r := ReadRecord(key, val);
            Loaded(db[key := val]) == Some(if r.Kept? then coins[key := r.coin] else coins)
  {
    ReadableWith(db, key, val, ReadRecord);
    KeptWith(db, key, val, ReadRecord);
    SameKept(db);
    SameKept(db[key := val]);
  }

  // The same for any way of reading a record.

  ghost predicate Unread(db: Db, read: (Bytes, Bytes) -> Record) { exists key :: key in db && read(key, db[key]).Unreadable? }

  ghost function KeptBy(db: Db, read: (Bytes, Bytes) -> Record): Coins {
    map key | key in db && read(key, db[key]).Kept? :: read(key, db[key]).coin
  }

  lemma SameKept(db: Db)
    ensures KeptBy(db, ReadRecord) == KeptCoins(db)
  {
  }

  lemma ReadableWith(db: Db, key: Bytes, val: Bytes, read: (Bytes, Bytes) -> Record)
    requires key !in db && !read(key, val).Unreadable?
    ensures Unread(db[key := val], read) <==> Unread(db, read)
  {
    var db' := db[key := val];
    if Unread(db, read) {
      var k :| k in db && read(k, db[k]).Unreadable?;
      assert k in db' && db'[k] == db[k];
    }
  }

  lemma KeptWith(db: Db, key: Bytes, val: Bytes, read: (Bytes, Bytes) -> Record)
    requires key !in db
    ensures KeptBy(db[key := val], read) == if read(key, val).Kept? then KeptBy(db, read)[key := read(key, val).coin] else KeptBy(db, read)
  {
  }

  /** The database holds records of outpoints and the metadata, and nothing else. */
  ghost predicate OwnKeys(db: Db) { forall key :: key in db ==> key == META || IsKey(key) }

  lemma {:induction false} OwnKeysStay(db: Db, ops: seq<Op>)
    requires OwnKeys(db) && forall i :: 0 <= i < |ops| ==> IsKey(ops[i].key)
    ensures OwnKeys(ApplyOps(db, ops))
  {
    if ops != [] { OwnKeysStay(db, ops[..|ops| - 1]); }
  }

  lemma MetaIsNoKey()
    ensures !IsKey(META)
  {
    forall k: Outpoint ensures KeyString(k) != META {
      assert KeyString(k)[|HexEncode(k.txid)|] == COLON;
      assert COLON !in META;
    }
  }

  /** A script is read back unchanged if its length fits the record, it is no OP_RETURN, and
      every push in it is the shortest. */
  predicate ComesBack(script: Bytes) { |script| < 0x1_0000 && !IsOpReturn(script) && Survives(script) }

  lemma EntryComesBackExactlyWhen(key: Bytes, e: Entry)
    requires key != META
    ensures ReadRecord(key, EncodeEntry(e)).Kept? && Seen(ReadRecord(key, EncodeEntry(e)).coin) == e <==> ComesBack(e.script)
  {
    var e' := DecodedShort(e);
    if Rewritten(e'.script).Some? {
      RewrittenSurvives(e'.script);
      OpReturnStays(e'.script);
    }
  }

  /** What the record decodes to: everything but the script is as it was, and the script is cut
      to its length modulo 2^16. */
  lemma DecodedShort(e: Entry) returns (e': Entry)
    ensures DecodeEntry(EncodeEntry(e)) == Some(e') && e' == e.(script := e'.script)
    ensures |e'.script| == |e.script| % 0x1_0000 && (|e.script| < 0x1_0000 ==> e' == e)
  {
    var v := EncodeEntry(e);
    EntryFields(e);
    PowConstants();
    LERoundTrip(8, e.amount);
    LERoundTrip(8, ToU64(e.height));
    LERoundTrip(2, |e.script| % 0x1_0000);
    e' := DecodeEntry(v).value;
    EntryRoundTripExactlyWhen(e);
  }

  /** What becomes of the record of one entry. */
  lemma RecordComesBack(db: Db, utxo: Utxo, k: Outpoint)
    requires Represents(db, utxo) && k in utxo
    ensures KeyString(k) in db && KeyString(k) != META
    ensures var r := ReadRecord(KeyString(k), db[KeyString(k)]); r.Kept? && Seen(r.coin) == utxo[k] <==> ComesBack(utxo[k].script)
  {
    MetaIsNoKey();
    assert IsKey(KeyString(k));
    EntryComesBackExactlyWhen(KeyString(k), utxo[k]);
  }

  /** What is read back is what was stored if and only if every script comes back; one cut-off
      push anywhere and nothing is read at all. */
  lemma ReloadExactlyWhen(db: Db, utxo: Utxo)
    requires Represents(db, utxo) && OwnKeys(db)
    ensures Loaded(db).Some? && Holds(Loaded(db).value, utxo) <==> forall k :: k in utxo ==> ComesBack(utxo[k].script)
  {
    if forall k :: k in utxo ==> ComesBack(utxo[k].script) {
      AllComeBack(db, utxo);
    } else {
      var k :| k in utxo && !ComesBack(utxo[k].script);
      RecordComesBack(db, utxo, k);
    }
  }

  lemma AllComeBack(db: Db, utxo: Utxo)
    requires Represents(db, utxo) && OwnKeys(db) && forall k :: k in utxo ==> ComesBack(utxo[k].script)
    ensures Loaded(db).Some? && Holds(Loaded(db).value, utxo)
  {
    forall key | key in db ensures !ReadRecord(key, db[key]).Unreadable? {
      if key != META {
        var k := KeyedBy(key);
        assert KeyString(k) == key && k in utxo;
        RecordComesBack(db, utxo, k);
      }
    }
    forall k: Outpoint
      ensures (KeyString(k) in Loaded(db).value <==> k in utxo) && (k in utxo ==> Seen(Loaded(db).value[KeyString(k)]) == utxo[k])
    {
      if k in utxo { RecordComesBack(db, utxo, k); }
    }
  }
}
