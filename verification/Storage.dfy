/** The key-value wrapper: transactions that are retried on a larger map when the
    current one is full, and the batch that replays a block's changes. */
module Storage {
  import opened Arith
  import opened Bytes
  import opened Validation
  import opened UtxoRecord

  type Db = map<Bytes, Bytes>

  /** One entry of a batch: a put, or a delete when there is no value. */
  datatype Op = Op(key: Bytes, val: Option<Bytes>)

  function ApplyOp(db: Db, op: Op): Db {
    match op.val
    case Some(v) => db[op.key := v]
    case None => db - {op.key}
  }

  /** The effect of `ops` in order. */
  function ApplyOps(db: Db, ops: seq<Op>): Db {
    if ops == [] then db else ApplyOp(ApplyOps(db, ops[..|ops| - 1]), ops[|ops| - 1])
  }

  /** The last operation of a batch on a key decides; a key without one stays as it was. */
  lemma {:induction false} LastOpDecides(db: Db, ops: seq<Op>, key: Bytes, i: int)
    requires -1 <= i < |ops| && (i >= 0 ==> ops[i].key == key)
    requires forall j :: i < j < |ops| ==> ops[j].key != key
    ensures var value := if i >= 0 then ops[i].val else if key in db then Some(db[key]) else None;
            var after := ApplyOps(db, ops);
            value == if key in after then Some(after[key]) else None
  {
    if i < |ops| - 1 { LastOpDecides(db, ops[..|ops| - 1], key, i); }
  }

  /** What a library call may answer. */
  datatype Fate = Fine | MapFull | Broken

  datatype Outcome = Ok | Err

  function Min(a: nat, b: nat): nat { if a < b then a else b }
  function Max(a: nat, b: nat): nat { if a < b then b else a }

  /** `g` growths from size `from` double it until the maximum is reached, and the last one
      started below the maximum: so 2^(g-1) * from < max. */
  ghost predicate Grown(from: nat, g: int, size: nat, max: nat) {
    g >= 0 &&
    if g == 0 then size == from
    else size == Min(from * Pow2(g), max) && from * Pow2(g - 1) < max
  }

  lemma GrowthCounted(from: nat, g: int, size: nat, max: nat)
    requires Grown(from, g, size, max)
    requires size < max
    ensures Grown(from, g + 1, Min(2 * size, max), max)
  {
    if g == 0 {
      assert Pow2(1) == 2 * Pow2(0) == 2;
    } else {
      var p := Pow2(g - 1);
      assert Pow2(g) == 2 * p && Pow2(g + 1) == 2 * Pow2(g);
      assert size == from * Pow2(g);
      assert from * (2 * Pow2(g)) == 2 * (from * Pow2(g));
    }
  }

  /** So a retry loop grows the map at most sixty-four times, and never past the maximum. */
  lemma GrowthsAreLogarithmic(from: u64, g: int, size: nat, max: u64)
    requires from > 0 && Grown(from, g, size, max)
    ensures 0 <= g <= 64
    ensures g > 0 ==> Pow2(g - 1) < max && from < size <= max
  {
    if g > 0 {
      Doubled(from, Pow2(g - 1), Pow2(g), size, max);
      AtMost64(g, max);
    }
  }

  lemma AtMost64(g: nat, max: u64)
    requires g > 0 && Pow2(g - 1) < max
    ensures g <= 64
  {
    if g > 64 {
      Pow2Monotone(64, g - 1);
      Pow2At64();
    }
  }

  lemma Doubled(from: nat, p: nat, q: nat, size: nat, max: nat)
    requires from > 0 && p > 0 && q == 2 * p && size == Min(from * q, max) && from * p < max
    ensures p < max && from < size <= max
  {
    Scale(p, 1, from);
    Scale(from, 1, p);
    assert from * q == from * p + from * p;
  }

  lemma {:induction false} Pow2Monotone(a: nat, b: nat)
    requires a <= b
    ensures Pow2(a) <= Pow2(b)
  {
    if a < b { Pow2Monotone(a, b - 1); }
  }

  lemma {:induction false} Pow2Sum(a: nat, b: nat)
    ensures Pow2(a + b) == Pow2(a) * Pow2(b)
  {
    if a > 0 { Pow2Sum(a - 1, b); }
  }

  lemma Pow2At64()
    ensures Pow2(16) == 0x1_0000 && Pow2(32) == U32_LIMIT && Pow2(64) == U64_LIMIT
  {
    assert Pow2(4) == 16;
    Pow2Sum(4, 4);
    Pow2Sum(8, 8);
    Pow2Sum(16, 16);
    Pow2Sum(32, 32);
  }

  /** Any answer at all: the library, the disk and the other users of the file decide. */
  method CallLibrary() returns (f: Fate) {
    f := *;
  }

  class LmdbBackend {
    var dbs: map<string, Db>
    var mapSize: u64
    const mapSizeMax: u64
    ghost var growths: nat

    ghost predicate Valid()
      reads this
    {
      mapSize > 0
    }

    ghost function Contents(name: string): Db
      reads this
    {
      if name in dbs then dbs[name] else map[]
    }

    constructor (mapSizeInit: u64, mapSizeMax: u64)
      requires mapSizeInit > 0
      ensures Valid() && mapSize == mapSizeInit && this.mapSizeMax == mapSizeMax && dbs == map[] && growths == 0
    {
      this.dbs := map[];
      this.mapSize := mapSizeInit;
      this.mapSizeMax := mapSizeMax;
      this.growths := 0;
    }

    method GrowToMax() returns (r: Outcome)
      requires Valid()
      modifies this
      ensures Valid() && dbs == old(dbs)
      ensures r == Ok ==> growths == old(growths) + 1 && old(mapSize) < mapSize == Min(2 * old(mapSize), mapSizeMax)
      ensures r == Err ==> growths == old(growths) && mapSize == old(mapSize)
      ensures old(mapSize) >= mapSizeMax ==> r == Err
    {
      if mapSizeMax == 0 { return Err; }
      var info := CallLibrary();
      if info != Fine { return Err; }
      var current: nat := mapSize;
      var doubled := SatU64(2 * current);
      var next := Min(Max(doubled, current + 1), mapSizeMax);
      var target := if next <= current then mapSizeMax else next;
      if target <= current { return Err; }
      var resized := CallLibrary();
      if resized != Fine { return Err; }
      mapSize := target;
      growths := growths + 1;
      return Ok;
    }

    /** Growing once more before a retry. */
    method GrowAgain(ghost size0: u64, ghost growths0: nat) returns (r: Outcome)
      requires Valid() && growths0 <= growths && Grown(size0, growths - growths0, mapSize, mapSizeMax)
      modifies this
      ensures Valid() && dbs == old(dbs) && growths0 <= growths && Grown(size0, growths - growths0, mapSize, mapSizeMax)
      ensures r == Ok ==> old(mapSize) < mapSize
    {
      ghost var before, g := mapSize, growths - growths0;
      r := GrowToMax();
      if r == Ok { GrowthCounted(size0, g, before, mapSizeMax); }
    }

    method OpenDb(name: string) returns (r: Outcome)
      modifies this
      ensures mapSize == old(mapSize) && growths == old(growths)
      ensures forall n :: Contents(n) == old(Contents(n))
      ensures r == Ok ==> name in dbs
    {
      var f := CallLibrary();
      if f != Fine { return Err; }
      if name !in dbs {
        dbs := dbs[name := map[]];
      }
      return Ok;
    }

    /** Terminates whatever the library answers: every retry is preceded by a strict growth,
        and there are at most logarithmically many. */
    method Put(name: string, key: Bytes, val: Bytes) returns (r: Outcome)
      requires Valid()
      modifies this
      ensures Valid()
      ensures Grown(old(mapSize), growths - old(growths), mapSize, mapSizeMax)
      ensures forall n :: Contents(n) == if r == Ok && n == name then old(Contents(n))[key := val] else old(Contents(n))
    {
      var ready := OpenDb(name);
      if ready == Err { return Err; }
      while true
        invariant Valid() && name in dbs
        invariant forall n :: Contents(n) == old(Contents(n))
        invariant Grown(old(mapSize), growths - old(growths), mapSize, mapSizeMax)
        decreases U64_LIMIT - mapSize
      {
        var begun := CallLibrary();
        if begun != Fine { return Err; }
        var txn := dbs[name];
        var put := CallLibrary();
        if put == Broken { return Err; }
        if put == Fine {
          txn := txn[key := val];
          var commit := CallLibrary();
          if commit == Broken { return Err; }
          if commit == Fine {
            dbs := dbs[name := txn];
            return Ok;
          }
        }
        var grown := GrowAgain(old(mapSize), old(growths));
        if grown == Err { return Err; }
      }
    }

    method Delete(name: string, key: Bytes) returns (r: Outcome, existed: bool)
      requires Valid()
      modifies this
      ensures Valid()
      ensures Grown(old(mapSize), growths - old(growths), mapSize, mapSizeMax)
      ensures r == Ok ==> (existed <==> key in old(Contents(name)))
      ensures forall n :: Contents(n) == if r == Ok && n == name then old(Contents(n)) - {key} else old(Contents(n))
    {
      existed := false;
      var ready := OpenDb(name);
      if ready == Err { return Err, false; }
      while true
        invariant Valid() && name in dbs
        invariant forall n :: Contents(n) == old(Contents(n))
        invariant Grown(old(mapSize), growths - old(growths), mapSize, mapSizeMax)
        decreases U64_LIMIT - mapSize
      {
        var begun := CallLibrary();
        if begun != Fine { return Err, false; }
        var txn := dbs[name];
        var del := CallLibrary();
        if del == Broken { return Err, false; }
        if del == Fine {
          if key !in txn { return Ok, false; }
          txn := txn - {key};
          var commit := CallLibrary();
          if commit == Broken { return Err, false; }
          if commit == Fine {
            dbs := dbs[name := txn];
            return Ok, true;
          }
        }
        var grown := GrowAgain(old(mapSize), old(growths));
        if grown == Err { return Err, false; }
      }
    }

    /** All or nothing: success means every operation happened, in order; failure means the
        database is as it was. */
    method PutBatch(name: string, ops: seq<Op>) returns (r: Outcome)
      requires Valid()
      modifies this
      ensures Valid()
      ensures Grown(old(mapSize), growths - old(growths), mapSize, mapSizeMax)
      ensures forall n :: Contents(n) == if r == Ok && n == name then ApplyOps(old(Contents(n)), ops) else old(Contents(n))
      ensures ops == [] ==> r == Ok
    {
      if ops == [] { return Ok; }
      var ready := OpenDb(name);
      if ready == Err { return Err; }
      while true
        invariant Valid() && name in dbs
        invariant forall n :: Contents(n) == old(Contents(n))
        invariant Grown(old(mapSize), growths - old(growths), mapSize, mapSizeMax)
        decreases U64_LIMIT - mapSize
      {
        var begun := CallLibrary();
        if begun != Fine { return Err; }
        var txn, full, broken := RunOps(dbs[name], ops);
        if broken { return Err; }
        if !full {
          var commit := CallLibrary();
          if commit == Broken { return Err; }
          if commit == Fine {
            dbs := dbs[name := txn];
            return Ok;
          }
        }
        var grown := GrowAgain(old(mapSize), old(growths));
        if grown == Err { return Err; }
      }
    }

    /** The operations inside one write transaction, until the map is full or a call fails. */
    method RunOps(start: Db, ops: seq<Op>) returns (txn: Db, full: bool, broken: bool)
      ensures !full && !broken ==> txn == ApplyOps(start, ops)
    {
      txn, full, broken := start, false, false;
      for i := 0 to |ops|
        invariant !full && !broken && txn == ApplyOps(start, ops[..i])
      {
        var f := CallLibrary();
        if f == Broken { return txn, false, true; }
        if f == MapFull { return txn, true, false; }
        match ops[i].val {
          case Some(v) => txn := txn[ops[i].key := v];
          case None => txn := txn - {ops[i].key};
        }
        assert ops[..i + 1][..i] == ops[..i];
      }
      assert ops[..|ops|] == ops;
    }

    method ApplyUtxoOps(ops: seq<UtxoOp>) returns (r: Outcome, puts: u64, dels: u64)
      requires Valid()
      modifies this
      ensures Valid()
      ensures Grown(old(mapSize), growths - old(growths), mapSize, mapSizeMax)
      ensures forall n :: Contents(n) ==
                if r == Ok && n == "utxo" then ApplyOps(old(Contents(n)), Image(BatchOp, ops)) else old(Contents(n))
      ensures |ops| < U64_LIMIT ==> puts + dels == |ops| && dels == |Deletes(ops)|
    {
      var batch;
      batch, puts, dels := BuildBatch(ops);
      r := PutBatch("utxo", batch);
    }
  }

  method BuildBatch(ops: seq<UtxoOp>) returns (batch: seq<Op>, puts: u64, dels: u64)
    ensures batch == Image(BatchOp, ops)
    ensures |ops| < U64_LIMIT ==> puts + dels == |ops| && dels == |Deletes(ops)|
  {
    batch := [];
    puts, dels := 0, 0;
    for i := 0 to |ops|
      invariant batch == Image(BatchOp, ops[..i])
      invariant |ops| < U64_LIMIT ==> puts + dels == i && dels == |Deletes(ops[..i])|
    {
      assert ops[..i + 1][..i] == ops[..i];
      var op := ops[i];
      if op.amount.None? {
        batch := batch + [Op(op.key, None)];
        dels := SatU64(dels + 1);
      } else {
        var amount := op.amount.value;
        var script := if op.script.Some? then op.script.value else [];
        var isCoinbase := if op.isCoinbase.Some? then op.isCoinbase.value else false;
        var height := if op.height.Some? then op.height.value else 0;
        var bytes := PackEntry(amount, script, isCoinbase, height);
        batch := batch + [Op(op.key, Some(bytes))];
        puts := SatU64(puts + 1);
      }
    }
    assert ops[..|ops|] == ops;
  }

  method PackEntry(amount: u64, script: Buf, isCoinbase: bool, height: i64) returns (bytes: Bytes)
    ensures bytes == EncodeEntry(Entry(amount, script, isCoinbase, height))
  {
    bytes := LE(8, amount);
    bytes := bytes + [if isCoinbase then 1 else 0];
    bytes := bytes + LE(8, ToU64(height));
    var spkLen := |script| % 0x1_0000;
    bytes := bytes + LE(2, spkLen);
    bytes := bytes + script;
  }

  /** One line of a block's delta as it crosses the language boundary: without an amount it
      is a delete. */
  datatype UtxoOp = UtxoOp(key: Bytes, amount: Option<u64>, script: Option<Buf>, isCoinbase: Option<bool>, height: Option<i64>)

  function BatchOp(op: UtxoOp): Op {
    if op.amount.None? then Op(op.key, None)
    else Op(op.key, Some(EncodeEntry(Entry(op.amount.value,
           if op.script.Some? then op.script.value else [],
           if op.isCoinbase.Some? then op.isCoinbase.value else false,
           if op.height.Some? then op.height.value else 0))))
  }

  function Deletes(ops: seq<UtxoOp>): seq<UtxoOp> {
    if ops == [] then []
    else Deletes(ops[..|ops| - 1]) + if ops[|ops| - 1].amount.None? then [ops[|ops| - 1]] else []
  }

  lemma {:induction false} ApplyOpsConcat(db: Db, xs: seq<Op>, ys: seq<Op>)
    ensures ApplyOps(db, xs + ys) == ApplyOps(ApplyOps(db, xs), ys)
  {
    if ys == [] {
      assert xs + ys == xs;
    } else {
      assert (xs + ys)[..|xs + ys| - 1] == xs + ys[..|ys| - 1];
      ApplyOpsConcat(db, xs, ys[..|ys| - 1]);
    }
  }
}
