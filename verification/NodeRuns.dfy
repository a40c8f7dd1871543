/** Whole lives of a node: blocks offered, flushes and restarts in any order, over a library that
    may fail at any call. */
module NodeRuns {
  import opened Bytes
  import opened Validation
  import opened UtxoRecord
  import opened Storage
  import opened UtxoDelta
  import opened Chain
  import opened Dictionary
  import opened UtxoStore
  import opened Snapshot
  import opened Node
  import Scan = PrefixScan

  // ---------- what happened ----------

  /** A block is offered with the verdict of the rules outside this model. */
  datatype Event = Offer(b: Block, passes: bool) | Flush(meta: Bytes) | Restart

  datatype Done = Done(event: Event, reply: Reply)

  /** The blocks on the node's chain: a block is there before its batch is tried. */
  function BlocksOf(log: seq<Done>): seq<Block> {
    if log == [] then []
    else
      var last := log[|log| - 1];
      BlocksOf(log[..|log| - 1]) + if last.event.Offer? && (last.reply == Added || last.reply == NotSaved) then [last.event.b] else []
  }

  /** Where a node stands with its database: in step, with marked differences, with differences
      whose marks a later block took away, or on another set than its chain's. */
  datatype Standing = InOrder | Unsaved | Stale | Lost

  function After(s: Standing, r: Reply): Standing {
    match r
    case NotSaved => if s == InOrder then Unsaved else s
    case Added => if s == Unsaved then Stale else s
    case Flushed(f) => if s == Unsaved && (f == Written || f == NothingToWrite) then InOrder else s
    case Restarted => if s == InOrder then InOrder else Lost
    case Refused => s
  }

  function StandingOf(log: seq<Done>): Standing {
    if log == [] then InOrder else After(StandingOf(log[..|log| - 1]), log[|log| - 1].reply)
  }

  // ---------- what stays true ----------

  /** Nothing marked. */
  function Cleared(coins: Coins): Mem { Mem(coins, {}, {}, false) }

  /** What a standing promises of dictionary and database, for a chain's set. */
  ghost predicate Keeps(s: Standing, m: Mem, db: Db, utxo: Utxo) {
    && Shaped(m) && OwnKeys(db)
    && (s != Lost ==> Holds(m.coins, utxo) && Readable(utxo))
    && (s == InOrder || s == Unsaved ==> Marked(m, db))
    && (s == InOrder ==> !m.dirty)
  }

  lemma RefusedKeeps(s: Standing, m: Mem, db: Db, utxo: Utxo)
    requires Keeps(s, m, db, utxo)
    ensures Keeps(After(s, Refused), m, db, utxo)
  {
  }

  /** A block's operations keep the shape, and marks stay right if the database is left alone. */
  lemma TakenShape(b: Block, m: Mem, db: Db)
    requires Shaped(m) && OwnKeys(db)
    ensures Shaped(MemOps(m, OpsOf(b)).mem) && OwnKeys(ApplyOps(db, Image(BatchOp, OpsOf(b))))
    ensures Marked(m, db) ==> Marked(MemOps(m, OpsOf(b)).mem, db)
  {
    OpKeys(b);
    MemOpsShaped(m, OpsOf(b));
    OwnKeysStay(db, Image(BatchOp, OpsOf(b)));
    if Marked(m, db) { MemOpsMark(m, db, OpsOf(b)); }
  }

  lemma TakenHolds(b: Block, m: Mem, utxo: Utxo, lim: Limits, maxBytes: nat)
    requires Canonical(b) && Guarded(b.txs, lim, maxBytes) && lim.maxTxVsize < 0x1_0000 && Holds(m.coins, utxo) && Readable(utxo)
    ensures Holds(MemOps(m, OpsOf(b)).mem.coins, Replay(utxo, DeltasOf(b))) && Readable(Replay(utxo, DeltasOf(b)))
  {
    CanonicalSurvives(b);
    MemOpsRefineReplay(m, utxo, DeltasOf(b));
    BlockKeepsReadable(b, utxo, lim, maxBytes);
  }

  lemma NotSavedKeeps(s: Standing, b: Block, m: Mem, db: Db, m': Mem, utxo: Utxo, lim: Limits, maxBytes: nat)
    requires Keeps(s, m, db, utxo) && Took(NotSaved, b, m, db, m', db)
    requires Canonical(b) && Guarded(b.txs, lim, maxBytes) && lim.maxTxVsize < 0x1_0000
    ensures Keeps(After(s, NotSaved), m', db, Replay(utxo, DeltasOf(b)))
  {
    TakenShape(b, m, db);
    if s != Lost { TakenHolds(b, m, utxo, lim, maxBytes); }
  }

  /** In step before and stored together, dictionary and database are in step after. */
  lemma AddedInStep(b: Block, m: Mem, db: Db)
    requires InStep(m.coins, db) && Canonical(b)
    ensures InStep(MemOps(m, OpsOf(b)).mem.coins, ApplyOps(db, Image(BatchOp, OpsOf(b))))
  {
    CanonicalSurvives(b);
    StoredInStepExactlyWhen(m, db, OpsOf(b));
  }

  /** Nothing marked means nothing different. */
  lemma NothingMarked(m: Mem, db: Db)
    requires Marked(m, db) && !m.dirty
    ensures InStep(m.coins, db)
  {
  }

  lemma ClearedShape(m: Mem)
    requires Shaped(m)
    ensures Shaped(Cleared(m.coins))
  {
  }

  lemma InStepNothingMarked(coins: Coins, db: Db)
    requires InStep(coins, db) && Shaped(Cleared(coins))
    ensures Marked(Cleared(coins), db)
  {
  }

  lemma AddedKeeps(s: Standing, b: Block, m: Mem, db: Db, m': Mem, db': Db, utxo: Utxo, lim: Limits, maxBytes: nat)
    requires Keeps(s, m, db, utxo) && Took(Added, b, m, db, m', db')
    requires Canonical(b) && Guarded(b.txs, lim, maxBytes) && lim.maxTxVsize < 0x1_0000
    ensures Keeps(After(s, Added), m', db', Replay(utxo, DeltasOf(b)))
  {
    var moved := MemOps(m, OpsOf(b)).mem;
    TakenShape(b, m, db);
    ClearedShape(moved);
    if s != Lost { TakenHolds(b, m, utxo, lim, maxBytes); }
    if s == InOrder {
      NothingMarked(m, db);
      AddedInStep(b, m, db);
      InStepNothingMarked(moved.coins, db');
    }
  }

  /** What a flush does to a shaped dictionary and its database. */
  ghost predicate FlushDoes(f: Flushing, m: Mem, db: Db, m': Mem, db': Db) {
    && OwnKeys(db') && m' == (if f == Written then Cleared(m.coins) else m)
    && (f == NothingToWrite <==> !m.dirty) && (f == NothingToWrite ==> db' == db)
    && (Marked(m, db) ==> Marked(m, db') && (f == Written ==> InStep(m.coins, db')))
  }

  lemma WrittenKeeps(s: Standing, m: Mem, db: Db, db': Db, utxo: Utxo)
    requires Keeps(s, m, db, utxo) && OwnKeys(db') && m.dirty
    requires Marked(m, db) ==> InStep(m.coins, db')
    ensures Keeps(After(s, Flushed(Written)), Cleared(m.coins), db', utxo)
  {
    ClearedShape(m);
    if s == Unsaved { InStepNothingMarked(m.coins, db'); }
  }

  lemma UnwrittenKeeps(s: Standing, f: Flushing, m: Mem, db: Db, db': Db, utxo: Utxo)
    requires Keeps(s, m, db, utxo) && OwnKeys(db') && f != Written && (f == NothingToWrite <==> !m.dirty)
    requires Marked(m, db) ==> Marked(m, db')
    ensures Keeps(After(s, Flushed(f)), m, db', utxo)
  {
  }

  lemma FlushKeeps(s: Standing, f: Flushing, m: Mem, db: Db, m': Mem, db': Db, utxo: Utxo)
    requires Keeps(s, m, db, utxo) && FlushDoes(f, m, db, m', db')
    ensures Keeps(After(s, Flushed(f)), m', db', utxo)
  {
    if f == Written { WrittenKeeps(s, m, db, db', utxo); } else { UnwrittenKeeps(s, f, m, db, db', utxo); }
  }

  lemma LoadedShape(db: Db)
    requires OwnKeys(db) && Loaded(db).Some?
    ensures Shaped(Cleared(Loaded(db).value))
  {
  }

  /** What a node in order shows is read back, and is in step with the database. */
  lemma InOrderReloads(m: Mem, db: Db, utxo: Utxo)
    requires Marked(m, db) && !m.dirty && OwnKeys(db) && Holds(m.coins, utxo) && Readable(utxo)
    ensures Loaded(db).Some? && Holds(Loaded(db).value, utxo) && InStep(Loaded(db).value, db)
  {
    NothingMarked(m, db);
    InStepExactlyWhen(m.coins, db, utxo);
    ReloadExactlyWhen(db, utxo);
    InStepExactlyWhen(Loaded(db).value, db, utxo);
  }

  /** A node in order that restarts is where it was. */
  lemma RestartInOrder(m: Mem, db: Db, utxo: Utxo)
    requires Keeps(InOrder, m, db, utxo)
    ensures Loaded(db).Some? && Keeps(InOrder, Cleared(Loaded(db).value), db, utxo)
  {
    InOrderReloads(m, db, utxo);
    LoadedShape(db);
    InStepNothingMarked(Loaded(db).value, db);
  }

  /** Any other node shows some set after a restart, and nothing more is known of it. */
  lemma RestartLost(db: Db, utxo: Utxo)
    requires OwnKeys(db) && Loaded(db).Some?
    ensures Keeps(Lost, Cleared(Loaded(db).value), db, utxo)
  {
    LoadedShape(db);
    LostKeeps(Cleared(Loaded(db).value), db, utxo);
  }

  lemma LostKeeps(m: Mem, db: Db, utxo: Utxo)
    requires Shaped(m) && OwnKeys(db)
    ensures Keeps(Lost, m, db, utxo)
  {
  }

  lemma RestartKeeps(s: Standing, m: Mem, db: Db, utxo: Utxo)
    requires Keeps(s, m, db, utxo)
    ensures s == InOrder ==> Loaded(db).Some?
    ensures Loaded(db).Some? ==> Keeps(After(s, Restarted), Cleared(Loaded(db).value), db, utxo)
  {
    assert After(s, Restarted) == if s == InOrder then InOrder else Lost;
    if s == InOrder {
      RestartInOrder(m, db, utxo);
    } else if Loaded(db).Some? {
      RestartLost(db, utxo);
    }
  }

  // ---------- the node ----------

  /** The judgement on a block, against the set of the chain at that moment. */
  ghost predicate RightlyJudged(log: seq<Done>, genesis: Utxo, lim: Limits, maxBytes: nat, c: Crypto) {
    log != [] ==>
      var last, before := log[|log| - 1], log[..|log| - 1];
      && RightlyJudged(before, genesis, lim, maxBytes, c)
      && (last.event.Offer? && StandingOf(before) != Lost ==>
            (last.reply == Refused <==>
             !Qualifies(last.event.b, last.event.passes, SetOf(BlocksOf(before), genesis), lim, maxBytes, c)))
  }

  /** A node that has gone through a log. */
  ghost predicate Stands(log: seq<Done>, m: Mem, db: Db, genesis: Utxo, lim: Limits, maxBytes: nat, c: Crypto) {
    && Keeps(StandingOf(log), m, db, SetOf(BlocksOf(log), genesis))
    && (StandingOf(log) != Lost ==> AcceptedChain(BlocksOf(log), genesis, lim, c))
    && RightlyJudged(log, genesis, lim, maxBytes, c)
  }

  lemma LogNext(log: seq<Done>, d: Done)
    ensures StandingOf(log + [d]) == After(StandingOf(log), d.reply)
    ensures BlocksOf(log + [d]) == BlocksOf(log) + if d.event.Offer? && (d.reply == Added || d.reply == NotSaved) then [d.event.b] else []
    ensures (log + [d])[..|log|] == log
  {
    assert (log + [d])[..|log|] == log;
  }

  lemma ChainNext(chain: seq<Block>, b: Block, genesis: Utxo, lim: Limits, c: Crypto)
    ensures SetOf(chain + [b], genesis) == Replay(SetOf(chain, genesis), DeltasOf(b))
    ensures AcceptedChain(chain + [b], genesis, lim, c) <==>
            AcceptedChain(chain, genesis, lim, c) && BlockOutcome(b.txs, SetOf(chain, genesis), JudgeFor(b, lim, c)).Accepted?
  {
    assert (chain + [b])[..|chain|] == chain;
  }

  /** The verdict on the set that the dictionary shows is the verdict on the chain's set. */
  lemma OfferJudged(log: seq<Done>, b: Block, passes: bool, r: Reply, coins: Coins, genesis: Utxo,
                    lim: Limits, maxBytes: nat, c: Crypto)
    requires RightlyJudged(log, genesis, lim, maxBytes, c)
    requires StandingOf(log) != Lost ==> Holds(coins, SetOf(BlocksOf(log), genesis))
    requires r == Refused <==> !Qualifies(b, passes, Shown(coins), lim, maxBytes, c)
    ensures RightlyJudged(log + [Done(Offer(b, passes), r)], genesis, lim, maxBytes, c)
    ensures StandingOf(log) != Lost && r != Refused ==> BlockOutcome(b.txs, SetOf(BlocksOf(log), genesis), JudgeFor(b, lim, c)).Accepted?
  {
    LogNext(log, Done(Offer(b, passes), r));
    ShowsExactly(coins, SetOf(BlocksOf(log), genesis));
  }

  /** The chain behind the node after a block was offered. */
  lemma OfferChain(log: seq<Done>, b: Block, passes: bool, r: Reply, genesis: Utxo, lim: Limits, c: Crypto)
    requires r == Refused || r == Added || r == NotSaved
    ensures var log', chain := log + [Done(Offer(b, passes), r)], BlocksOf(log);
            && SetOf(BlocksOf(log'), genesis) == (if r == Refused then SetOf(chain, genesis) else Replay(SetOf(chain, genesis), DeltasOf(b)))
            && (AcceptedChain(BlocksOf(log'), genesis, lim, c) <==>
                AcceptedChain(chain, genesis, lim, c)
                && (r == Refused || BlockOutcome(b.txs, SetOf(chain, genesis), JudgeFor(b, lim, c)).Accepted?))
  {
    BlocksNext(log, b, passes, r);
    if r != Refused { ChainNext(BlocksOf(log), b, genesis, lim, c); }
  }

  lemma BlocksNext(log: seq<Done>, b: Block, passes: bool, r: Reply)
    requires r == Refused || r == Added || r == NotSaved
    ensures BlocksOf(log + [Done(Offer(b, passes), r)]) == if r == Refused then BlocksOf(log) else BlocksOf(log) + [b]
  {
    LogNext(log, Done(Offer(b, passes), r));
    assert BlocksOf(log) + [] == BlocksOf(log);
  }

  lemma OfferStands(log: seq<Done>, b: Block, passes: bool, r: Reply, m: Mem, db: Db, m': Mem, db': Db,
                    genesis: Utxo, lim: Limits, maxBytes: nat, c: Crypto)
    requires Stands(log, m, db, genesis, lim, maxBytes, c) && Took(r, b, m, db, m', db') && Canonical(b) && lim.maxTxVsize < 0x1_0000
    requires r == Refused <==> !Qualifies(b, passes, Shown(m.coins), lim, maxBytes, c)
    ensures Stands(log + [Done(Offer(b, passes), r)], m', db', genesis, lim, maxBytes, c)
  {
    OfferJudged(log, b, passes, r, m.coins, genesis, lim, maxBytes, c);
    LogNext(log, Done(Offer(b, passes), r));
    OfferKeeps(StandingOf(log), b, r, m, db, m', db', SetOf(BlocksOf(log), genesis), lim, maxBytes);
    OfferChain(log, b, passes, r, genesis, lim, c);
  }

  lemma OfferKeeps(s: Standing, b: Block, r: Reply, m: Mem, db: Db, m': Mem, db': Db, utxo: Utxo, lim: Limits, maxBytes: nat)
    requires Keeps(s, m, db, utxo) && Took(r, b, m, db, m', db') && Canonical(b) && lim.maxTxVsize < 0x1_0000
    requires r != Refused ==> Guarded(b.txs, lim, maxBytes)
    ensures r == Refused || r == Added || r == NotSaved
    ensures Keeps(After(s, r), m', db', if r == Refused then utxo else Replay(utxo, DeltasOf(b)))
  {
    match r
    case Refused => RefusedKeeps(s, m, db, utxo);
    case Added => AddedKeeps(s, b, m, db, m', db', utxo, lim, maxBytes);
    case NotSaved => NotSavedKeeps(s, b, m, db, m', utxo, lim, maxBytes);
    case _ =>
  }

  lemma OtherStands(log: seq<Done>, d: Done, m: Mem, db: Db, m': Mem, db': Db, genesis: Utxo, lim: Limits, maxBytes: nat, c: Crypto)
    requires Stands(log, m, db, genesis, lim, maxBytes, c) && !d.event.Offer?
    requires Keeps(After(StandingOf(log), d.reply), m', db', SetOf(BlocksOf(log), genesis))
    requires After(StandingOf(log), d.reply) != Lost ==> StandingOf(log) != Lost
    ensures Stands(log + [d], m', db', genesis, lim, maxBytes, c)
  {
    LogNext(log, d);
    assert BlocksOf(log) + [] == BlocksOf(log);
  }

  /** Every offered block stores canonical scripts only. */
  predicate AllCanonical(events: seq<Event>) { forall i :: 0 <= i < |events| && events[i].Offer? ==> Canonical(events[i].b) }

  /** The events a log answers. */
  predicate Answers(log: seq<Done>, events: seq<Event>) {
    |log| <= |events| && forall i :: 0 <= i < |log| ==> log[i].event == events[i]
  }

  method FlushNode(node: UtxoDb, meta: Bytes) returns (f: Flushing)
    requires node.store.Valid() && Shaped(node.State()) && OwnKeys(node.Db())
    modifies node, node.store
    ensures node.store.Valid() && FlushDoes(f, old(node.State()), old(node.Db()), node.State(), node.Db())
  {
    f := node.Flush(meta);
  }

  method StartNode(store: LmdbBackend, cursor: Db -> seq<Scan.Entry>, limit: nat) returns (ok: bool, node: UtxoDb)
    requires store.Valid() && limit >= 1 && forall db :: Lists(cursor(db), db)
    ensures fresh(node) && node.store == store && store.Valid() && node.Db() == store.Contents("utxo")
    ensures ok <==> Loaded(node.Db()).Some?
    ensures ok ==> node.State() == Cleared(Loaded(node.Db()).value)
  {
    node := new UtxoDb(store);
    var db := if "utxo" in store.dbs then store.dbs["utxo"] else map[];
    ok := node.Load(cursor(db), limit, db);
  }

  method HandleOffer(node: UtxoDb, b: Block, passes: bool, lim: Limits, maxBytes: nat, c: Crypto, ghost log: seq<Done>,
                     ghost genesis: Utxo)
      returns (r: Reply)
    requires node.store.Valid() && Canonical(b) && lim.maxTxVsize < 0x1_0000
    requires Stands(log, node.State(), node.Db(), genesis, lim, maxBytes, c)
    modifies node, node.store
    ensures node.store.Valid() && Stands(log + [Done(Offer(b, passes), r)], node.State(), node.Db(), genesis, lim, maxBytes, c)
  {
    ghost var m, db := node.State(), node.Db();
    r := TakeBlock(node, b, passes, lim, maxBytes, c);
    OfferStands(log, b, passes, r, m, db, node.State(), node.Db(), genesis, lim, maxBytes, c);
  }

  method HandleFlush(node: UtxoDb, meta: Bytes, ghost log: seq<Done>, ghost genesis: Utxo, ghost lim: Limits,
                     ghost maxBytes: nat, ghost c: Crypto)
      returns (r: Reply)
    requires node.store.Valid() && Stands(log, node.State(), node.Db(), genesis, lim, maxBytes, c)
    modifies node, node.store
    ensures node.store.Valid() && Stands(log + [Done(Flush(meta), r)], node.State(), node.Db(), genesis, lim, maxBytes, c)
  {
    ghost var m, db := node.State(), node.Db();
    var f := FlushNode(node, meta);
    r := Flushed(f);
    FlushStands(log, meta, f, m, db, node.State(), node.Db(), genesis, lim, maxBytes, c);
  }

  lemma FlushStands(log: seq<Done>, meta: Bytes, f: Flushing, m: Mem, db: Db, m': Mem, db': Db,
                    genesis: Utxo, lim: Limits, maxBytes: nat, c: Crypto)
    requires Stands(log, m, db, genesis, lim, maxBytes, c) && FlushDoes(f, m, db, m', db')
    ensures Stands(log + [Done(Flush(meta), Flushed(f))], m', db', genesis, lim, maxBytes, c)
  {
    FlushKeeps(StandingOf(log), f, m, db, m', db', SetOf(BlocksOf(log), genesis));
    OtherStands(log, Done(Flush(meta), Flushed(f)), m, db, m', db', genesis, lim, maxBytes, c);
  }

  method HandleRestart(store: LmdbBackend, cursor: Db -> seq<Scan.Entry>, limit: nat, ghost log: seq<Done>, ghost m: Mem,
                       ghost genesis: Utxo, ghost lim: Limits, ghost maxBytes: nat, ghost c: Crypto)
      returns (ok: bool, node: UtxoDb)
    requires store.Valid() && limit >= 1 && forall db :: Lists(cursor(db), db)
    requires Stands(log, m, store.Contents("utxo"), genesis, lim, maxBytes, c)
    ensures fresh(node) && node.store == store && store.Valid()
    ensures StandingOf(log) == InOrder ==> ok
    ensures ok ==> Stands(log + [Done(Restart, Restarted)], node.State(), node.Db(), genesis, lim, maxBytes, c)
  {
    ghost var db := store.Contents("utxo");
    RestartKeeps(StandingOf(log), m, db, SetOf(BlocksOf(log), genesis));
    ok, node := StartNode(store, cursor, limit);
    if ok { OtherStands(log, Done(Restart, Restarted), m, db, node.State(), db, genesis, lim, maxBytes, c); }
  }

  /** One event; only a restart may find that the node does not come up. */
  method Handle(store: LmdbBackend, cursor: Db -> seq<Scan.Entry>, limit: nat, node: UtxoDb, e: Event,
                lim: Limits, maxBytes: nat, c: Crypto, ghost log: seq<Done>, ghost genesis: Utxo)
      returns (ok: bool, r: Reply, next: UtxoDb)
    requires node.store == store && store.Valid() && limit >= 1 && forall db :: Lists(cursor(db), db)
    requires lim.maxTxVsize < 0x1_0000 && (e.Offer? ==> Canonical(e.b))
    requires Stands(log, node.State(), node.Db(), genesis, lim, maxBytes, c)
    modifies node, store
    ensures (next == node || fresh(next)) && next.store == store && store.Valid()
    ensures !ok ==> e == Restart && StandingOf(log) != InOrder && Stands(log, next.State(), next.Db(), genesis, lim, maxBytes, c)
    ensures ok ==> Stands(log + [Done(e, r)], next.State(), next.Db(), genesis, lim, maxBytes, c)
  {
    ok, next := true, node;
    match e {
      case Offer(b, passes) => r := HandleOffer(node, b, passes, lim, maxBytes, c, log, genesis);
      case Flush(meta) => r := HandleFlush(node, meta, log, genesis, lim, maxBytes, c);
      case Restart =>
        r := Restarted;
        var started;
        ok, started := HandleRestart(store, cursor, limit, log, node.State(), genesis, lim, maxBytes, c);
        if ok { next := started; }
    }
  }

  /** Before anything happens the node is read from a database that stands for a readable set. */
  lemma StartStands(db: Db, genesis: Utxo, lim: Limits, maxBytes: nat, c: Crypto)
    requires Represents(db, genesis) && OwnKeys(db) && Readable(genesis)
    ensures Loaded(db).Some? && Stands([], Cleared(Loaded(db).value), db, genesis, lim, maxBytes, c)
  {
    ReloadExactlyWhen(db, genesis);
    InStepExactlyWhen(Loaded(db).value, db, genesis);
    LoadedShape(db);
    InStepNothingMarked(Loaded(db).value, db);
  }

  /** Any events, with a library that may fail at any call. As long as the node was in order at
      each restart, its blocks are an accepted chain, its dictionary shows the chain's set, and
      it refuses exactly what does not qualify on that set; every difference from the database
      is marked until a later block takes the marks away. A node in order always starts. */
  method RunNode(store: LmdbBackend, cursor: Db -> seq<Scan.Entry>, limit: nat, events: seq<Event>,
                 lim: Limits, maxBytes: nat, c: Crypto, ghost genesis: Utxo)
      returns (log: seq<Done>, node: UtxoDb)
    requires store.Valid() && limit >= 1 && forall db :: Lists(cursor(db), db)
    requires Represents(store.Contents("utxo"), genesis) && OwnKeys(store.Contents("utxo")) && Readable(genesis)
    requires AllCanonical(events) && lim.maxTxVsize < 0x1_0000
    modifies store
    ensures Answers(log, events) && node.store == store && store.Valid()
    ensures Stands(log, node.State(), node.Db(), genesis, lim, maxBytes, c)
    ensures |log| < |events| ==> events[|log|] == Restart && StandingOf(log) != InOrder
  {
    StartStands(store.Contents("utxo"), genesis, lim, maxBytes, c);
    var ok;
    ok, node := StartNode(store, cursor, limit);
    log := [];
    for n := 0 to |events|
      invariant fresh(node) && node.store == store && store.Valid()
      invariant |log| == n && Answers(log, events)
      invariant Stands(log, node.State(), node.Db(), genesis, lim, maxBytes, c)
    {
      var r;
      ok, r, node := Handle(store, cursor, limit, node, events[n], lim, maxBytes, c, log, genesis);
      if !ok { return; }
      log := log + [Done(events[n], r)];
    }
  }
}
