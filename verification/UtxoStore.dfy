/** The object that keeps the dictionary of unspent outputs beside its database: read once at
    the start, changed block by block, flushed now and then. */
module UtxoStore {
  import opened Bytes
  import opened Validation
  import opened UtxoRecord
  import opened Storage
  import opened Script
  import opened Dictionary
  import Scan = PrefixScan

  // ---------- the table of a database ----------

  function DbOf(rows: seq<Scan.Entry>): Db {
    if rows == [] then map[] else DbOf(rows[..|rows| - 1])[rows[|rows| - 1].key := rows[|rows| - 1].val]
  }

  /** The table lists the database in the order of its keys. */
  ghost predicate Lists(table: seq<Scan.Entry>, db: Db) { Scan.Sorted(table) && DbOf(table) == db }

  lemma {:induction false} RowsBefore(rows: seq<Scan.Entry>, i: nat, n: nat)
    requires Scan.Sorted(rows) && n <= i < |rows|
    ensures rows[i].key !in DbOf(rows[..n])
  {
    if n > 0 {
      RowsBefore(rows, i, n - 1);
      assert rows[..n][..n - 1] == rows[..n - 1];
      Scan.LessTotal(rows[n - 1].key, rows[i].key);
    }
  }

  lemma {:induction false} LargestKey(keys: set<Bytes>) returns (m: Bytes)
    requires keys != {}
    ensures m in keys && forall k :: k in keys && k != m ==> Scan.Less(k, m)
    decreases |keys|
  {
    m :| m in keys;
    var rest := keys - {m};
    if rest != {} {
      var n := LargestKey(rest);
      Scan.LessTotal(m, n);
      if Scan.Less(m, n) {
        m := n;
      } else {
        forall k | k in rest && k != n ensures Scan.Less(k, m) { Scan.LessTransitive(k, n, m); }
      }
    }
  }

  lemma {:induction false} RowIsIn(rows: seq<Scan.Entry>, i: nat)
    requires i < |rows|
    ensures rows[i].key in DbOf(rows)
  {
    if i < |rows| - 1 { RowIsIn(rows[..|rows| - 1], i); }
  }

  /** Every database has such a table. */
  lemma {:induction false} EveryDbIsListed(db: Db) returns (table: seq<Scan.Entry>)
    ensures Lists(table, db)
    decreases |db|
  {
    if db == map[] {
      table := [];
    } else {
      var m := LargestKey(db.Keys);
      var rest := db - {m};
      assert rest.Keys == db.Keys - {m};
      var front := EveryDbIsListed(rest);
      table := ListedLast(front, rest, m, db[m]);
      assert rest[m := db[m]] == db;
    }
  }

  lemma ListedLast(front: seq<Scan.Entry>, rest: Db, m: Bytes, v: Bytes) returns (table: seq<Scan.Entry>)
    requires Lists(front, rest) && forall k :: k in rest ==> Scan.Less(k, m)
    ensures Lists(table, rest[m := v])
  {
    var e := Scan.Entry(m, v);
    table := front + [e];
    AllBelow(front, m);
    StaysSorted(front, e);
    DbOfLast(front, e);
  }

  lemma AllBelow(rows: seq<Scan.Entry>, m: Bytes)
    requires forall k :: k in DbOf(rows) ==> Scan.Less(k, m)
    ensures forall i :: 0 <= i < |rows| ==> Scan.Less(rows[i].key, m)
  {
    forall i | 0 <= i < |rows| ensures Scan.Less(rows[i].key, m) { RowIsIn(rows, i); }
  }

  lemma DbOfLast(front: seq<Scan.Entry>, e: Scan.Entry)
    ensures DbOf(front + [e]) == DbOf(front)[e.key := e.val]
  {
    assert (front + [e])[..|front|] == front;
  }

  lemma StaysSorted(front: seq<Scan.Entry>, e: Scan.Entry)
    requires Scan.Sorted(front) && forall i :: 0 <= i < |front| ==> Scan.Less(front[i].key, e.key)
    ensures Scan.Sorted(front + [e])
  {
  }

  lemma {:induction false} RowStays(rows: seq<Scan.Entry>, i: nat)
    requires Scan.Sorted(rows) && i < |rows|
    ensures rows[i].key in DbOf(rows) && DbOf(rows)[rows[i].key] == rows[i].val
  {
    if i < |rows| - 1 {
      RowStays(rows[..|rows| - 1], i);
      Scan.LessTotal(rows[i].key, rows[|rows| - 1].key);
    }
  }

  lemma LoadedNext(rows: seq<Scan.Entry>, i: nat, coins: Coins)
    requires Scan.Sorted(rows) && i < |rows| && Loaded(DbOf(rows[..i])) == Some(coins)
    ensures var r := ReadRecord(rows[i].key, rows[i].val);
            if r.Unreadable? then Loaded(DbOf(rows)) == None
            else Loaded(DbOf(rows[..i + 1])) == Some(if r.Kept? then coins[rows[i].key := r.coin] else coins)
  {
    assert rows[..i + 1][..i] == rows[..i];
    if ReadRecord(rows[i].key, rows[i].val).Unreadable? {
      RowStays(rows, i);
      UnreadableSpoils(DbOf(rows), rows[i].key);
    } else {
      RowsBefore(rows, i, i);
      LoadedWith(DbOf(rows[..i]), rows[i].key, rows[i].val, coins);
    }
  }

  // ---------- the object ----------

  method ReadRow(key: Bytes, val: Bytes) returns (r: Record)
    ensures r == ReadRecord(key, val)
  {
    if key == META { return Skipped; }
    var e := DecodeEntry(val);
    if e.None? { return Skipped; }
    var cmds := Deserialize(e.value.script);
    if cmds.None? { return Unreadable; }
    assert Rewritten(e.value.script) == Some(Write(cmds.value));
    var script := Serialize(cmds.value);
    if IsOpReturn(script) { return Skipped; }
    return Kept(Coin(e.value.amount, cmds.value, e.value.isCoinbase, e.value.height));
  }

  /** Row by row, up to the first that cannot be read. */
  method ReadRows(rows: seq<Scan.Entry>) returns (coins: Coins, ok: bool)
    requires Scan.Sorted(rows)
    ensures ok <==> Loaded(DbOf(rows)).Some?
    ensures ok ==> coins == Loaded(DbOf(rows)).value
  {
    coins := map[];
    for i := 0 to |rows|
      invariant Loaded(DbOf(rows[..i])) == Some(coins)
    {
      var record := ReadRow(rows[i].key, rows[i].val);
      LoadedNext(rows, i, coins);
      if record.Unreadable? { return coins, false; }
      if record.Kept? { coins := coins[rows[i].key := record.coin]; }
    }
    assert rows[..|rows|] == rows;
    ok := true;
  }

  // ---------- collecting the records to write ----------

  /** What the collected operations will do: the keys done get their records, the keys gone lose
      theirs, and apart from the metadata nothing else changes. */
  ghost predicate Collected(m: Mem, db: Db, ops: seq<Op>, done: set<Bytes>, gone: set<Bytes>) {
    var db' := ApplyOps(db, ops);
    && done <= m.coins.Keys && gone !! m.coins.Keys
    && forall key :: key != META ==>
         if key in done then key in db' && db'[key] == EncodeEntry(Seen(m.coins[key]))
         else if key in gone then key !in db'
         else (key in db' <==> key in db) && (key in db ==> db'[key] == db[key])
  }

  lemma OneMore(db: Db, ops: seq<Op>, op: Op)
    ensures ApplyOps(db, ops + [op]) == ApplyOp(ApplyOps(db, ops), op)
  {
    assert (ops + [op])[..|ops|] == ops;
  }

  lemma CollectMeta(m: Mem, db: Db, meta: Bytes)
    ensures Collected(m, db, [Op(META, Some(meta))], {}, {})
  {
    assert [Op(META, Some(meta))] == [] + [Op(META, Some(meta))];
    OneMore(db, [], Op(META, Some(meta)));
  }

  lemma CollectPut(m: Mem, db: Db, ops: seq<Op>, done: set<Bytes>, key: Bytes)
    requires Collected(m, db, ops, done, {}) && key in m.coins
    ensures Collected(m, db, ops + [Op(key, Some(EncodeEntry(Seen(m.coins[key]))))], done + {key}, {})
  {
    OneMore(db, ops, Op(key, Some(EncodeEntry(Seen(m.coins[key])))));
  }

  lemma CollectDelete(m: Mem, db: Db, ops: seq<Op>, done: set<Bytes>, gone: set<Bytes>, key: Bytes)
    requires Collected(m, db, ops, done, gone) && key !in m.coins
    ensures Collected(m, db, ops + [Op(key, None)], done, gone + {key})
  {
    OneMore(db, ops, Op(key, None));
  }

  /** Writing any part of what is marked leaves the marks right. */
  lemma CollectedKeeps(m: Mem, db: Db, ops: seq<Op>, done: set<Bytes>, gone: set<Bytes>)
    requires Marked(m, db) && Collected(m, db, ops, done, gone) && done <= m.dirtyKeys && gone <= m.removedKeys
    ensures Marked(m, ApplyOps(db, ops))
  {
    MetaIsNoKey();
    var db' := ApplyOps(db, ops);
    forall key | IsKey(key) && key !in m.dirtyKeys + m.removedKeys ensures AgreeAt(m.coins, db', key) {
      assert AgreeAt(m.coins, db, key);
    }
  }

  lemma CollectedOwnKeys(m: Mem, db: Db, ops: seq<Op>, done: set<Bytes>, gone: set<Bytes>)
    requires Shaped(m) && OwnKeys(db) && Collected(m, db, ops, done, gone)
    ensures OwnKeys(ApplyOps(db, ops))
  {
  }

  /** Writing all of it brings dictionary and database in step. */
  lemma CollectedAll(m: Mem, db: Db, ops: seq<Op>)
    requires Marked(m, db) && Collected(m, db, ops, m.dirtyKeys, m.removedKeys)
    ensures InStep(m.coins, ApplyOps(db, ops))
  {
    MetaIsNoKey();
    var db' := ApplyOps(db, ops);
    forall key | IsKey(key) ensures AgreeAt(m.coins, db', key) {
      if key !in m.dirtyKeys + m.removedKeys { assert AgreeAt(m.coins, db, key); }
    }
  }

  datatype Applying = Applied | NotStored | Stuck(i: nat)
  datatype Flushing = NothingToWrite | Written | NotWritten | TooLong

  class UtxoDb {
    const store: LmdbBackend
    var coins: Coins
    var dirtyKeys: set<Bytes>
    var removedKeys: set<Bytes>
    var dirty: bool

    function State(): Mem
      reads this
    {
      Mem(coins, dirtyKeys, removedKeys, dirty)
    }

    /** What the database holds. */
    ghost function Db(): Storage.Db
      reads this, store
    {
      store.Contents("utxo")
    }

    constructor (store: LmdbBackend)
      ensures this.store == store && State() == Mem(map[], {}, {}, false)
    {
      this.store := store;
      coins, dirtyKeys, removedKeys, dirty := map[], {}, {}, false;
    }

    /** Reads the whole table, page by page; one record that cannot be read ends it. */
    method Load(table: seq<Scan.Entry>, limit: nat, ghost db: Storage.Db) returns (ok: bool)
      requires limit >= 1 && Lists(table, db)
      modifies this
      ensures ok <==> Loaded(db).Some?
      ensures ok ==> State() == Mem(Loaded(db).value, {}, {}, false)
    {
      var rows := Scan.IterPrefixPaged(table, [], limit);
      Scan.AllSelected(table);
      coins, ok := ReadRows(rows);
      if !ok { return; }
      dirtyKeys, removedKeys, dirty := {}, {}, false;
    }

    /** First the dictionary, operation by operation, then the database in one batch; only a
        stored batch takes the marks away. */
    method ApplyNativeOpsToState(ops: seq<UtxoOp>) returns (r: Applying)
      requires store.Valid()
      modifies this, store
      ensures store.Valid()
      ensures match MemOps(old(State()), ops)
              case StuckAt(m, i) => r == Stuck(i) && State() == m && Db() == old(Db())
              case Through(m) =>
                && !r.Stuck?
                && State() == (if r == Applied then Mem(m.coins, {}, {}, false) else m)
                && Db() == (if r == Applied then ApplyOps(old(Db()), Image(BatchOp, ops)) else old(Db()))
    {
      var stuck := ChangeDictionary(ops);
      if stuck.Some? { return Stuck(stuck.value); }
      r := StoreOps(ops);
    }

    method StoreOps(ops: seq<UtxoOp>) returns (r: Applying)
      requires store.Valid()
      modifies this, store
      ensures store.Valid() && (r == Applied || r == NotStored)
      ensures State() == if r == Applied then Mem(old(coins), {}, {}, false) else old(State())
      ensures Db() == if r == Applied then ApplyOps(old(Db()), Image(BatchOp, ops)) else old(Db())
    {
      var stored, puts, dels := store.ApplyUtxoOps(ops);
      if stored == Err { return NotStored; }
      dirty, dirtyKeys, removedKeys := false, {}, {};
      return Applied;
    }

    method ChangeDictionary(ops: seq<UtxoOp>) returns (stuck: Option<nat>)
      modifies this
      ensures MemOps(old(State()), ops) == match stuck { case Some(i) => StuckAt(State(), i) case None => Through(State()) }
    {
      ghost var m0 := State();
      for i := 0 to |ops|
        invariant MemOps(m0, ops[..i]) == Through(State())
      {
        assert ops[..i + 1][..i] == ops[..i];
        var ok := ApplyOne(ops[i]);
        if !ok {
          StuckIsFinal(m0, ops, i + 1);
          return Some(i);
        }
      }
      assert ops[..|ops|] == ops;
      return None;
    }

    method ApplyOne(op: UtxoOp) returns (ok: bool)
      modifies this
      ensures ok <==> MemOp(old(State()), op).Some?
      ensures State() == if ok then MemOp(old(State()), op).value else old(State())
    {
      if op.amount.None? {
        if op.key in coins {
          coins := coins - {op.key};
          removedKeys, dirtyKeys, dirty := removedKeys + {op.key}, dirtyKeys - {op.key}, true;
        }
        return true;
      }
      var e := OpEntry(op);
      var cmds := Deserialize(e.script);
      if cmds.None? { return false; }
      assert Rewritten(e.script) == Some(Write(cmds.value));
      coins := coins[op.key := Coin(e.amount, cmds.value, e.isCoinbase, e.height)];
      dirtyKeys, removedKeys, dirty := dirtyKeys + {op.key}, removedKeys - {op.key}, true;
      return true;
    }

    /** Writes the records of all marked keys and deletes those of removed ones, in one batch. A
        script too long for its record stops the collection, and what was collected is written
        nonetheless. */
    method Flush(meta: Bytes) returns (r: Flushing)
      requires store.Valid() && Shaped(State()) && OwnKeys(Db())
      modifies this, store
      ensures store.Valid() && OwnKeys(Db())
      ensures State() == if r == Written then Mem(old(coins), {}, {}, false) else old(State())
      ensures r == NothingToWrite <==> !old(dirty)
      ensures r == TooLong <==> old(dirty) && !AllFit(old(State()))
      ensures r == NothingToWrite ==> Db() == old(Db())
      ensures old(Marked(State(), Db())) ==> Marked(old(State()), Db()) && (r == Written ==> InStep(coins, Db()))
    {
      if !dirty { return NothingToWrite; }
      ghost var m, db := State(), Db();
      var ops, whole := CollectAll(State(), meta, db);
      ghost var stored;
      r, stored := WriteMarked(ops, whole);
      assert Db() == if stored then ApplyOps(db, ops) else db;
      assert State() == if r == Written then Mem(m.coins, {}, {}, false) else m;
    }

    /** The batch, and no marks any more if it was the whole and was stored. */
    method WriteMarked(ops: seq<Op>, whole: bool) returns (r: Flushing, ghost stored: bool)
      requires store.Valid()
      modifies this, store
      ensures store.Valid() && Db() == if stored then ApplyOps(old(Db()), ops) else old(Db())
      ensures r == if !whole then TooLong else if stored then Written else NotWritten
      ensures State() == if r == Written then Mem(old(coins), {}, {}, false) else old(State())
    {
      var outcome := store.PutBatch("utxo", ops);
      stored := outcome == Ok;
      if !whole { return TooLong, stored; }
      if outcome == Err { return NotWritten, stored; }
      dirty, dirtyKeys, removedKeys := false, {}, {};
      r := Written;
    }
  }

  /** Every script to be written is short enough for its record. */
  predicate AllFit(m: Mem)
    requires m.dirtyKeys <= m.coins.Keys
  {
    forall key :: key in m.dirtyKeys ==> |Seen(m.coins[key]).script| < 0x1_0000
  }

  /** The batch for what is marked, or the part of it before a script that is too long. */
  method CollectAll(m: Mem, meta: Bytes, ghost db: Db) returns (ops: seq<Op>, whole: bool)
    requires Shaped(m) && OwnKeys(db)
    ensures OwnKeys(ApplyOps(db, ops))
    ensures whole <==> AllFit(m)
    ensures Marked(m, db) ==> Marked(m, ApplyOps(db, ops)) && (whole ==> InStep(m.coins, ApplyOps(db, ops)))
  {
    var rest;
    ops, rest := CollectPuts(m, meta, db);
    if rest != {} {
      CollectedOwnKeys(m, db, ops, m.dirtyKeys - rest, {});
      if Marked(m, db) { CollectedKeeps(m, db, ops, m.dirtyKeys - rest, {}); }
      return ops, false;
    }
    assert m.dirtyKeys - {} == m.dirtyKeys;
    ops := CollectDeletes(m, ops, db);
    CollectedOwnKeys(m, db, ops, m.dirtyKeys, m.removedKeys);
    if Marked(m, db) {
      CollectedKeeps(m, db, ops, m.dirtyKeys, m.removedKeys);
      CollectedAll(m, db, ops);
    }
    whole := true;
  }

  method CollectPuts(m: Mem, meta: Bytes, ghost db: Db) returns (ops: seq<Op>, rest: set<Bytes>)
    requires m.dirtyKeys <= m.coins.Keys && m.removedKeys !! m.coins.Keys
    ensures rest <= m.dirtyKeys && Collected(m, db, ops, m.dirtyKeys - rest, {})
    ensures rest == {} <==> AllFit(m)
  {
    ops, rest := [Op(META, Some(meta))], m.dirtyKeys;
    CollectMeta(m, db, meta);
    assert m.dirtyKeys - rest == {};
    while rest != {}
      invariant rest <= m.dirtyKeys && Collected(m, db, ops, m.dirtyKeys - rest, {})
      invariant forall key :: key in m.dirtyKeys - rest ==> |Seen(m.coins[key]).script| < 0x1_0000
      decreases |rest|
    {
      var key :| key in rest;
      var coin := m.coins[key];
      var spk := Serialize(coin.script);
      if |spk| > 65535 { return; }
      var record := PackEntry(coin.amount, spk, coin.isCoinbase, coin.height);
      CollectPut(m, db, ops, m.dirtyKeys - rest, key);
      assert m.dirtyKeys - (rest - {key}) == (m.dirtyKeys - rest) + {key};
      ops, rest := ops + [Op(key, Some(record))], rest - {key};
    }
  }

  method CollectDeletes(m: Mem, puts: seq<Op>, ghost db: Db) returns (ops: seq<Op>)
    requires m.removedKeys !! m.coins.Keys && Collected(m, db, puts, m.dirtyKeys, {})
    ensures Collected(m, db, ops, m.dirtyKeys, m.removedKeys)
  {
    ops := puts;
    var rest := m.removedKeys;
    assert m.removedKeys - rest == {};
    while rest != {}
      invariant rest <= m.removedKeys && Collected(m, db, ops, m.dirtyKeys, m.removedKeys - rest)
      decreases |rest|
    {
      var key :| key in rest;
      CollectDelete(m, db, ops, m.dirtyKeys, m.removedKeys - rest, key);
      assert m.removedKeys - (rest - {key}) == (m.removedKeys - rest) + {key};
      ops, rest := ops + [Op(key, None)], rest - {key};
    }
    assert m.removedKeys - {} == m.removedKeys;
  }
}
