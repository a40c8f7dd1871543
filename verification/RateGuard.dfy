/** The archivist's request limiter: token buckets per identity, address and subnet, a backoff
    after every refusal, and bans. Times are seconds. */
module RateGuard {
  import opened Bytes

  datatype Bucket = Bucket(tokens: real, last: real)
  datatype Rule = Rule(burst: real, window: real, backoff: real)

  type Table = map<string, Bucket>

  const PURGE_SIZE: nat := 5000
  const STALE_AFTER: real := 600.0
  const IP_BURST_MULT: real := 6.0

  function Min(a: real, b: real): real { if a < b then a else b }
  function Max(a: real, b: real): real { if a < b then b else a }

  // ---------- one bucket ----------

  function Purge(table: Table, now: real): Table {
    map k | k in table && table[k].last >= now - STALE_AFTER :: table[k]
  }

  /** What comes in between two moments, at a burst per window. */
  function Inflow(burst: real, window: real): (real, real) -> real
    requires window > 0.0
  {
    (from, to) => (to - from) * (burst / window)
  }

  function Refilled(b: Bucket, burst: real, inflow: (real, real) -> real, now: real): real {
    if now > b.last then Min(burst, b.tokens + inflow(b.last, now)) else b.tokens
  }

  /** Takes a token if there is one; a key in backoff is refused whatever its bucket holds,
      and a refusal is not written down. */
  function Charge(table: Table, key: string, burst: real, inflow: (real, real) -> real, blocked: bool, now: real): (bool, Table) {
    var tokens := Refilled(if key in table then table[key] else Bucket(burst, now), burst, inflow, now);
    if !blocked && tokens >= 1.0 then (true, table[key := Bucket(tokens - 1.0, now)]) else (false, table)
  }

  /** As `Charge`, after dropping stale entries from a table that has grown too large; a
      limiter that never drops anything serves for comparison. */
  function TbStep(table: Table, key: string, burst: real, window: real, blocked: bool, now: real, purging: bool): (bool, Table)
    requires window > 0.0
  {
    var t := if purging && |table| > PURGE_SIZE then Purge(table, now) else table;
    Charge(t, key, burst, Inflow(burst, window), blocked, now)
  }

  predicate InBackoff(until: map<string, real>, key: string, now: real) {
    (if key in until then until[key] else 0.0) > now
  }

  // ---------- keys ----------

  predicate Contains(s: string, part: string) {
    part <= s || (s != [] && Contains(s[1..], part))
  }

  /** The burst of a key is chosen by looking for its kind in its text. */
  function BurstOf(key: string, base: real): real {
    if Contains(key, ":ip:") then (Max(base, base * IP_BURST_MULT).Floor) as real
    else if Contains(key, ":subnet:") then (Max(base, base * IP_BURST_MULT * 2.0).Floor) as real
    else base
  }

  lemma {:induction false} ContainsExactlyWhen(s: string, part: string)
    ensures Contains(s, part) <==> exists i :: 0 <= i <= |s| && part <= s[i..]
  {
    if part <= s { assert part <= s[0..]; }
    if s != [] {
      ContainsExactlyWhen(s[1..], part);
      if Contains(s[1..], part) {
        var i :| 0 <= i <= |s[1..]| && part <= s[1..][i..];
        assert s[1..][i..] == s[i + 1..];
      } else if exists i :: 0 <= i <= |s| && part <= s[i..] {
        var i :| 0 <= i <= |s| && part <= s[i..];
        if i > 0 { assert s[i..] == s[1..][i - 1..]; } else { assert s[0..] == s; }
      }
    }
  }

  /** An address has six times the burst of its rule, a subnet twelve times and an identity the
      burst itself, as long as the text of the latter two does not read like another kind. */
  lemma KeyBursts(rule: string, ip: string, subnet: string, identity: string, n: nat)
    ensures BurstOf(rule + ":ip:" + ip, n as real) == (6 * n) as real
    ensures !Contains(rule + ":subnet:" + subnet, ":ip:") ==> BurstOf(rule + ":subnet:" + subnet, n as real) == (12 * n) as real
    ensures !Contains(rule + ":id:" + identity, ":ip:") && !Contains(rule + ":id:" + identity, ":subnet:") ==>
              BurstOf(rule + ":id:" + identity, n as real) == n as real
  {
    KindIsFound(rule, ":ip:", ip);
    KindIsFound(rule, ":subnet:", subnet);
    Multiplied(n);
  }

  lemma KindIsFound(rule: string, kind: string, rest: string)
    ensures Contains(rule + kind + rest, kind)
  {
    var s := rule + kind + rest;
    assert s[|rule|..] == kind + rest;
    ContainsExactlyWhen(s, kind);
  }

  lemma Multiplied(n: nat)
    ensures Max(n as real, n as real * IP_BURST_MULT).Floor == 6 * n
    ensures Max(n as real, n as real * IP_BURST_MULT * 2.0).Floor == 12 * n
  {
    assert n as real * IP_BURST_MULT == (6 * n) as real && n as real * IP_BURST_MULT * 2.0 == (12 * n) as real;
  }

  function KeySet(rule: string, ip: string, identity: string, subnet: string): seq<string> {
    (if identity != "" then [rule + ":id:" + identity] else [])
    + [rule + ":ip:" + ip]
    + (if subnet != "" then [rule + ":subnet:" + subnet] else [])
  }

  function RuleName(mtype: string): Option<string> {
    if mtype == "STOR_INIT" then Some("wallet_init")
    else if mtype == "STOR_PUT" then Some("wallet_put")
    else if mtype == "STOR_COMMIT" then Some("wallet_commit")
    else if mtype == "STOR_GET_BY_ART" then Some("wallet_get")
    else if mtype == "PING" then Some("ping")
    else None
  }

  function RuleOf(name: string): (r: Rule)
    ensures r.burst >= 1.0 && 1.0 <= r.window <= STALE_AFTER && r.backoff >= 0.0
  {
    if name == "wallet_init" then Rule(3.0, 20.0, 15.0)
    else if name == "wallet_put" then Rule(25.0, 10.0, 10.0)
    else if name == "wallet_commit" then Rule(6.0, 20.0, 15.0)
    else if name == "wallet_get" then Rule(40.0, 10.0, 2.0)
    else Rule(20.0, 10.0, 2.0)
  }

  /** Charges one key after the other up to the first that is refused; what was taken from
      the keys before it stays taken. */
  function ChargeAll(table: Table, until: map<string, real>, keys: seq<string>, rule: Rule, now: real, purging: bool)
    : (Table, Option<string>)
    requires rule.window > 0.0
    decreases |keys|
  {
    if keys == [] then (table, None)
    else
      var k := keys[0];
      var (ok, rest) := TbStep(table, k, BurstOf(k, rule.burst), rule.window, InBackoff(until, k, now), now, purging);
      if ok then ChargeAll(rest, until, keys[1..], rule, now, purging) else (rest, Some(k))
  }

  datatype Decision = Local | Banned | UnknownType | PowAccepted | PowRequired(retryAfter: real) | Allowed

  /** The three tables of the guard. */
  datatype Guard = Guard(table: Table, until: map<string, real>, bans: map<string, real>)

  datatype Request = Request(ip: string, mtype: string, identity: string, subnet: string, isLocal: bool, powSolved: bool, now: real)

  function Extended(until: map<string, real>, key: string, t: real): map<string, real> {
    until[key := Max(t, if key in until then until[key] else 0.0)]
  }

  /** A peer is banned as long as a ban on its address or on its identity lasts. */
  predicate IsBannedBy(bans: map<string, real>, ip: string, identity: string, now: real) {
    (ip in bans && bans[ip] > now) || (identity in bans && identity != "" && bans[identity] > now)
  }

  predicate BannedIn(bans: map<string, real>, ip: string, identity: string, now: real) {
    (identity != "" && InBackoff(bans, identity, now)) || InBackoff(bans, ip, now)
  }

  function Raised(bans: map<string, real>, key: string, until: real): map<string, real> {
    if until > (if key in bans then bans[key] else 0.0) then bans[key := until] else bans
  }

  /** The address is banned, and the identity if there is one; local addresses never are. */
  function BansAfter(bans: map<string, real>, ip: string, seconds: real, identity: string, isLocal: bool, now: real)
    : map<string, real>
  {
    if ip == "" || isLocal then bans
    else
      var until := now + Max(0.0, seconds);
      var raised := Raised(bans, ip, until);
      if identity == "" then raised else Raised(raised, identity, until)
  }

  /** Only requests that are not local, not banned, of a known type and without a solved puzzle
      are charged. */
  predicate IsCharged(g: Guard, r: Request) {
    !r.isLocal && !BannedIn(g.bans, r.ip, r.identity, r.now) && RuleName(r.mtype).Some? && !r.powSolved
  }

  /** Charges the keys; a refusal starts the backoff of the key that refused. */
  function ChargeKeySet(g: Guard, keys: seq<string>, rule: Rule, now: real, purging: bool): (Decision, Guard)
    requires rule.window > 0.0
  {
    var (table, refused) := ChargeAll(g.table, g.until, keys, rule, now, purging);
    if refused.None? then (Allowed, g.(table := table))
    else (PowRequired(Max(rule.backoff, 1.0)), g.(table := table, until := Extended(g.until, refused.value, now + rule.backoff)))
  }

  /** Local requests pass, banned and unknown ones are dropped, a solved puzzle passes without
      a charge; everything else is charged to all its keys. */
  function Decide(g: Guard, r: Request, purging: bool): (Decision, Guard) {
    if IsCharged(g, r) then ChargeKeySet(g, KeysOf(r), RuleOf(RuleName(r.mtype).value), r.now, purging)
    else if r.isLocal then (Local, g)
    else if BannedIn(g.bans, r.ip, r.identity, r.now) then (Banned, g)
    else if RuleName(r.mtype).None? then (UnknownType, g)
    else (PowAccepted, g)
  }

  /** The keys a request of a known type is charged to. */
  function KeysOf(r: Request): seq<string> {
    if RuleName(r.mtype).None? then [] else KeySet(RuleName(r.mtype).value, r.ip, r.identity, r.subnet)
  }

  /** Local, then banned, then unknown, then puzzle: the first that applies decides and leaves the
      tables alone; any other request is charged to its keys. */
  lemma DecidedInOrder(g: Guard, r: Request, purging: bool)
    requires r.now >= 0.0
    ensures var banned, known := IsBannedBy(g.bans, r.ip, r.identity, r.now), RuleName(r.mtype).Some?;
            && (r.isLocal ==> Decide(g, r, purging) == (Local, g))
            && (!r.isLocal && banned ==> Decide(g, r, purging) == (Banned, g))
            && (!r.isLocal && !banned && !known ==> Decide(g, r, purging) == (UnknownType, g))
            && (!r.isLocal && !banned && known && r.powSolved ==> Decide(g, r, purging) == (PowAccepted, g))
            && (!r.isLocal && !banned && known && !r.powSolved ==>
                  Decide(g, r, purging) == ChargeKeySet(g, KeysOf(r), RuleOf(RuleName(r.mtype).value), r.now, purging))
  {
  }

  /** A request is charged to its address, and to its identity and its subnet if it has them. */
  lemma ChargedKeys(r: Request, k: string)
    requires RuleName(r.mtype).Some?
    ensures var name := RuleName(r.mtype).value;
            k in KeysOf(r) <==>
              || k == name + ":ip:" + r.ip
              || (r.identity != "" && k == name + ":id:" + r.identity)
              || (r.subnet != "" && k == name + ":subnet:" + r.subnet)
  {
  }

  class StorageGuard {
    var rlIp: Table
    var backoffUntil: map<string, real>
    var banUntil: map<string, real>

    constructor ()
      ensures rlIp == map[] && backoffUntil == map[] && banUntil == map[]
    {
      rlIp, backoffUntil, banUntil := map[], map[], map[];
    }

    method TbAllow(key: string, burst: real, window: real, now: real) returns (ok: bool)
      requires window > 0.0
      modifies `rlIp
      ensures (ok, rlIp) == TbStep(old(rlIp), key, burst, window, InBackoff(backoffUntil, key, now), now, true)
    {
      if |rlIp| > PURGE_SIZE { rlIp := Purge(rlIp, now); }
      var tokens, last := burst, now;
      if key in rlIp { tokens, last := rlIp[key].tokens, rlIp[key].last; }
      if now > last {
        var refill := Inflow(burst, window)(last, now);
        tokens := Min(burst, tokens + refill);
      }
      if InBackoff(backoffUntil, key, now) { return false; }
      if tokens >= 1.0 {
        rlIp := rlIp[key := Bucket(tokens - 1.0, now)];
        return true;
      }
      return false;
    }

    /** A backoff is only ever extended: it ends no earlier than asked for and no earlier than
        before, at one of the two, and no other key's changes. */
    method Backoff(key: string, secs: real, now: real)
      modifies `backoffUntil
      ensures backoffUntil == Extended(old(backoffUntil), key, now + secs)
      ensures backoffUntil.Keys == old(backoffUntil.Keys) + {key}
      ensures forall k :: k in old(backoffUntil) ==> backoffUntil[k] >= old(backoffUntil[k])
      ensures forall k :: k in old(backoffUntil) && k != key ==> backoffUntil[k] == old(backoffUntil[k])
      ensures backoffUntil[key] >= now + secs
      ensures backoffUntil[key] == now + secs || backoffUntil[key] == if key in old(backoffUntil) then old(backoffUntil[key]) else 0.0
    {
      backoffUntil := backoffUntil[key := Max(now + secs, if key in backoffUntil then backoffUntil[key] else 0.0)];
    }

    ghost function State(): Guard
      reads this
    {
      Guard(rlIp, backoffUntil, banUntil)
    }

    predicate IsBanned(ip: string, identity: string, now: real)
      reads this
    {
      BannedIn(banUntil, ip, identity, now)
    }

    /** Bans are only ever extended, and local addresses are never banned. */
    method BanIp(ip: string, seconds: real, identity: string, isLocal: bool, now: real)
      modifies `banUntil
      ensures banUntil == BansAfter(old(banUntil), ip, seconds, identity, isLocal, now)
      ensures forall k: string, t :: old(InBackoff(banUntil, k, t)) ==> InBackoff(banUntil, k, t)
      ensures forall k: string, t :: t >= 0.0 && ip != "" && !isLocal && (k == ip || (k == identity && k != "")) ==>
                (InBackoff(banUntil, k, t) <==> t < now + Max(0.0, seconds) || old(InBackoff(banUntil, k, t)))
      ensures forall k: string, t :: k != ip && (k != identity || k == "") ==> (InBackoff(banUntil, k, t) <==> old(InBackoff(banUntil, k, t)))
      ensures ip != "" && !isLocal ==> forall t :: 0.0 <= t < now + seconds ==> IsBanned(ip, identity, t)
      ensures ip == "" || isLocal ==> banUntil == old(banUntil)
    {
      if ip == "" || isLocal { return; }
      var until := now + Max(0.0, seconds);
      if until > (if ip in banUntil then banUntil[ip] else 0.0) { banUntil := banUntil[ip := until]; }
      if identity != "" {
        if until > (if identity in banUntil then banUntil[identity] else 0.0) { banUntil := banUntil[identity := until]; }
      }
    }

    method Allow(ip: string, mtype: string, identity: string, subnet: string, isLocal: bool, powSolved: bool, now: real)
        returns (d: Decision)
      modifies `rlIp, `backoffUntil
      ensures (d, State()) == Decide(old(State()), Request(ip, mtype, identity, subnet, isLocal, powSolved, now), true)
    {
      if isLocal { return Local; }
      if IsBanned(ip, identity, now) { return Banned; }
      var name := RuleName(mtype);
      if name.None? { return UnknownType; }
      var rule := RuleOf(name.value);
      if powSolved { return PowAccepted; }
      var refused := ChargeKeys(KeySet(name.value, ip, identity, subnet), rule, now);
      if refused.Some? {
        Backoff(refused.value, rule.backoff, now);
        return PowRequired(Max(rule.backoff, 1.0));
      }
      return Allowed;
    }

    method ChargeKeys(keys: seq<string>, rule: Rule, now: real) returns (refused: Option<string>)
      requires rule.window > 0.0
      modifies `rlIp
      ensures (rlIp, refused) == ChargeAll(old(rlIp), backoffUntil, keys, rule, now, true)
    {
      for i := 0 to |keys|
        invariant ChargeAll(rlIp, backoffUntil, keys[i..], rule, now, true) == ChargeAll(old(rlIp), backoffUntil, keys, rule, now, true)
      {
        assert keys[i..][0] == keys[i] && keys[i..][1..] == keys[i + 1..];
        var allowed := TbAllow(keys[i], BurstOf(keys[i], rule.burst), rule.window, now);
        if !allowed { return Some(keys[i]); }
      }
      return None;
    }
  }

  // ---------- one charge ----------

  /** One request for a token of a key: what the clock says, whether the key is in backoff and
      whether the table is purged first. */
  datatype Call = Call(key: string, now: real, blocked: bool, purge: bool)

  /** The limits of every key, and what comes in between two moments. */
  datatype Limits = Limits(burst: string -> real, window: string -> real, inflow: string -> (real, real) -> real) {
    ghost predicate Sane(k: string) {
      && burst(k) >= 1.0 && 1.0 <= window(k) <= STALE_AFTER
      && (forall x, y :: x <= y ==> inflow(k)(x, y) >= 0.0)
      && (forall x, y, z :: inflow(k)(x, y) + inflow(k)(y, z) == inflow(k)(x, z))
      && (forall x, y :: x + window(k) <= y ==> inflow(k)(x, y) >= burst(k))
    }
  }

  ghost predicate AllSane(p: Limits) { forall k :: p.Sane(k) }

  function Serve(p: Limits, table: Table, c: Call): (bool, Table)
  {
    Charge(if c.purge then Purge(table, c.now) else table, c.key, p.burst(c.key), p.inflow(c.key), c.blocked, c.now)
  }

  /** Buckets are within their limits and not from the future. */
  predicate TableOk(p: Limits, table: Table, now: real) {
    forall k :: k in table ==> 0.0 <= table[k].tokens <= p.burst(k) && table[k].last <= now
  }

  /** What a key could take at time `t`; a key without bucket has everything. */
  function Level(p: Limits, table: Table, k: string, t: real): real
  {
    if k in table then Refilled(table[k], p.burst(k), p.inflow(k), t) else p.burst(k)
  }

  /** A bucket that was not used for a whole window is full. */
  lemma QuietKeyIsFull(p: Limits, table: Table, k: string, now: real)
    requires p.Sane(k) && TableOk(p, table, now) && (k in table ==> table[k].last + p.window(k) <= now)
    ensures Level(p, table, k, now) == p.burst(k)
  {
  }

  /** Between two moments a level rises by no more than what comes in. */
  lemma LevelRises(p: Limits, table: Table, k: string, from: real, to: real)
    requires p.Sane(k) && TableOk(p, table, from) && from <= to
    ensures 0.0 <= Level(p, table, k, from) <= Level(p, table, k, to) <= Level(p, table, k, from) + p.inflow(k)(from, to)
    ensures Level(p, table, k, to) <= p.burst(k)
  {
    var f := p.inflow(k);
    if k in table { assert f(table[k].last, from) + f(from, to) == f(table[k].last, to); }
  }

  /** A level gains exactly what comes in, up to the burst. */
  lemma LevelRefills(p: Limits, table: Table, k: string, from: real, to: real)
    requires p.Sane(k) && TableOk(p, table, from) && from <= to
    ensures Level(p, table, k, to) == Min(p.burst(k), Level(p, table, k, from) + p.inflow(k)(from, to))
  {
    var f := p.inflow(k);
    assert f(from, from) + f(from, to) == f(from, to);
    if k in table { assert f(table[k].last, from) + f(from, to) == f(table[k].last, to); }
  }

  /** A token is granted again exactly when what was left and what came in make up one. */
  lemma GrantedAgainWhen(p: Limits, table: Table, k: string, from: real, to: real)
    requires p.Sane(k) && TableOk(p, table, from) && from <= to
    ensures Serve(p, table, Call(k, to, false, false)).0 <==> Level(p, table, k, from) + p.inflow(k)(from, to) >= 1.0
  {
    LevelRefills(p, table, k, from, to);
    ServedByLevel(p, table, Call(k, to, false, false));
  }

  /** Under the limiter's own inflow: `secs` later a token is granted exactly when the level and
      as much of the burst as those seconds are of the window make up one. */
  lemma GrantedAgainExactlyWhen(p: Limits, table: Table, k: string, from: real, secs: real) returns (gain: real)
    requires p.Sane(k) && TableOk(p, table, from) && secs >= 0.0 && p.inflow(k) == Inflow(p.burst(k), p.window(k))
    ensures gain == secs * (p.burst(k) / p.window(k))
    ensures Serve(p, table, Call(k, from + secs, false, false)).0 <==> Level(p, table, k, from) + gain >= 1.0
  {
    gain := p.inflow(k)(from, from + secs);
    InflowOver(p.burst(k), p.window(k), from, secs);
    GrantedAgainWhen(p, table, k, from, from + secs);
  }

  lemma InflowOver(burst: real, window: real, from: real, secs: real)
    requires window > 0.0
    ensures Inflow(burst, window)(from, from + secs) == secs * (burst / window)
  {
  }

  lemma ServedByLevel(p: Limits, table: Table, c: Call)
    requires !c.blocked && !c.purge
    ensures Serve(p, table, c).0 <==> Level(p, table, c.key, c.now) >= 1.0
  {
  }

  /** Dropping stale entries changes no level: those buckets are full. */
  lemma PurgeKeepsLevels(p: Limits, table: Table, k: string, now: real)
    requires AllSane(p) && TableOk(p, table, now)
    ensures TableOk(p, Purge(table, now), now)
    ensures Level(p, Purge(table, now), k, now) == Level(p, table, k, now)
  {
    if k in table && k !in Purge(table, now) { QuietKeyIsFull(p, table, k, now); }
  }

  /** A call takes from the level of its key what it grants, and nothing from other keys. */
  lemma ServeTakes(p: Limits, table: Table, c: Call, k: string)
    requires AllSane(p) && TableOk(p, table, c.now)
    ensures TableOk(p, Serve(p, table, c).1, c.now)
    ensures Serve(p, table, c).0 ==> Level(p, table, c.key, c.now) >= 1.0
    ensures Level(p, Serve(p, table, c).1, k, c.now) ==
            Level(p, table, k, c.now) - (if Serve(p, table, c).0 && c.key == k then 1.0 else 0.0)
  {
    PurgeKeepsLevels(p, table, k, c.now);
    PurgeKeepsLevels(p, table, c.key, c.now);
    var t := if c.purge then Purge(table, c.now) else table;
    LevelRises(p, t, c.key, c.now, c.now);
    LevelRises(p, t, k, c.now, c.now);
    ChargeTakes(p, t, c, k);
  }

  lemma ChargeTakes(p: Limits, t: Table, c: Call, k: string)
    requires AllSane(p) && TableOk(p, t, c.now) && 0.0 <= Level(p, t, c.key, c.now) <= p.burst(c.key)
    ensures var (ok, t') := Charge(t, c.key, p.burst(c.key), p.inflow(c.key), c.blocked, c.now);
            && TableOk(p, t', c.now) && (ok ==> Level(p, t, c.key, c.now) >= 1.0)
            && Level(p, t', k, c.now) == Level(p, t, k, c.now) - (if ok && c.key == k then 1.0 else 0.0)
  {
  }

  // ---------- purging cannot be told from keeping ----------

  function Kept(c: Call): Call { c.(purge := false) }

  /** The second table has what the first has, and full buckets besides. */
  ghost predicate Alike(p: Limits, purged: Table, kept: Table, now: real)
    requires AllSane(p)
  {
    forall k ::
      (k in purged ==> k in kept && kept[k] == purged[k]) && (k in kept && k !in purged ==> Level(p, kept, k, now) == p.burst(k))
  }

  lemma ServeAlike(p: Limits, purged: Table, kept: Table, c: Call)
    requires AllSane(p) && TableOk(p, purged, c.now) && TableOk(p, kept, c.now) && Alike(p, purged, kept, c.now)
    ensures Serve(p, purged, c).0 == Serve(p, kept, Kept(c)).0
    ensures Alike(p, Serve(p, purged, c).1, Serve(p, kept, Kept(c)).1, c.now)
  {
    var t := if c.purge then Purge(purged, c.now) else purged;
    forall k ensures (k in t ==> k in kept && kept[k] == t[k]) && (k in kept && k !in t ==> Level(p, kept, k, c.now) == p.burst(k)) {
      if k in purged && k !in t { QuietKeyIsFull(p, kept, k, c.now); }
    }
    ChargeAlike(p, t, kept, c);
  }

  lemma ChargeAlike(p: Limits, t: Table, kept: Table, c: Call)
    requires AllSane(p) && TableOk(p, t, c.now) && TableOk(p, kept, c.now) && Alike(p, t, kept, c.now)
    ensures var (a, t') := Charge(t, c.key, p.burst(c.key), p.inflow(c.key), c.blocked, c.now);
            var (b, kept') := Charge(kept, c.key, p.burst(c.key), p.inflow(c.key), c.blocked, c.now);
            a == b && Alike(p, t', kept', c.now)
  {
    assert Level(p, t, c.key, c.now) == Level(p, kept, c.key, c.now);
  }

  lemma AlikeLater(p: Limits, purged: Table, kept: Table, from: real, to: real)
    requires AllSane(p) && TableOk(p, kept, from) && Alike(p, purged, kept, from) && from <= to
    ensures Alike(p, purged, kept, to)
  {
    forall k | k in kept && k !in purged ensures Level(p, kept, k, to) == p.burst(k) {
      LevelRises(p, kept, k, from, to);
    }
  }

  // ---------- the limits of the rules ----------

  /** The rule a key belongs to: its text up to the first colon. */
  function RuleOfKey(key: string): string {
    if key == "" || key[0] == ':' then "" else [key[0]] + RuleOfKey(key[1..])
  }

  function BurstOfKey(key: string): real { BurstOf(key, RuleOf(RuleOfKey(key)).burst) }

  function WindowOfKey(key: string): (w: real)
    ensures 1.0 <= w <= STALE_AFTER
  {
    RuleOf(RuleOfKey(key)).window
  }

  function CodeLimits(): Limits {
    Limits(k => BurstOfKey(k), k => WindowOfKey(k), k => Inflow(BurstOfKey(k), WindowOfKey(k)))
  }

  lemma InflowFills(burst: real, window: real, d: real)
    requires burst > 0.0 && window > 0.0 && d >= 0.0
    ensures d * (burst / window) >= 0.0 && (d >= window ==> d * (burst / window) >= burst)
  {
    var r := burst / window;
    assert r > 0.0 && window * r == burst;
    if d >= window { assert (d - window) * r >= 0.0; }
  }

  lemma InflowAdds(burst: real, window: real, x: real, y: real, z: real)
    requires window > 0.0
    ensures Inflow(burst, window)(x, y) + Inflow(burst, window)(y, z) == Inflow(burst, window)(x, z)
  {
    var r := burst / window;
    assert (y - x) * r + (z - y) * r == (z - x) * r;
  }

  lemma BurstAtLeastOne(key: string, base: real)
    requires base >= 1.0
    ensures BurstOf(key, base) >= 1.0
  {
  }

  /** The rules of the archivist are sane: the bounds above hold for every key. */
  lemma CodeLimitsAreSane()
    ensures AllSane(CodeLimits())
  {
    forall k ensures CodeLimits().Sane(k) {
      var burst, window := BurstOfKey(k), WindowOfKey(k);
      BurstAtLeastOne(k, RuleOf(RuleOfKey(k)).burst);
      SaneLimits(CodeLimits(), k, burst, window);
    }
  }

  lemma SaneLimits(p: Limits, k: string, burst: real, window: real)
    requires burst >= 1.0 && 1.0 <= window <= STALE_AFTER
    requires p.burst(k) == burst && p.window(k) == window && p.inflow(k) == Inflow(burst, window)
    ensures p.Sane(k)
  {
    var f := Inflow(burst, window);
    forall x, y ensures (x <= y ==> f(x, y) >= 0.0) && (x + window <= y ==> f(x, y) >= burst) {
      if x <= y { InflowFills(burst, window, y - x); }
    }
    forall x, y, z ensures f(x, y) + f(y, z) == f(x, z) { InflowAdds(burst, window, x, y, z); }
  }

  lemma {:induction false} RuleOfKeyIs(name: string, rest: string)
    requires ':' !in name
    ensures RuleOfKey(name + ":" + rest) == name
  {
    var key := name + ":" + rest;
    if name != "" {
      RuleOfKeyIs(name[1..], rest);
      assert key[0] == name[0] && key[0] in name;
      assert key[1..] == name[1..] + ":" + rest;
    } else {
      assert key[0] == ':';
    }
  }

  lemma KeysNameTheirRule(name: string, ip: string, identity: string, subnet: string, i: nat)
    requires ':' !in name && i < |KeySet(name, ip, identity, subnet)|
    ensures RuleOfKey(KeySet(name, ip, identity, subnet)[i]) == name
  {
    assert name + ":id:" + identity == name + ":" + ("id:" + identity);
    assert name + ":ip:" + ip == name + ":" + ("ip:" + ip);
    assert name + ":subnet:" + subnet == name + ":" + ("subnet:" + subnet);
    RuleOfKeyIs(name, "id:" + identity);
    RuleOfKeyIs(name, "ip:" + ip);
    RuleOfKeyIs(name, "subnet:" + subnet);
  }

  lemma RuleNamesArePlain(mtype: string)
    requires RuleName(mtype).Some?
    ensures ':' !in RuleName(mtype).value
  {
  }

  /** The rule sets the limits of the key. */
  ghost predicate Governs(p: Limits, rule: Rule, key: string) {
    rule.window > 0.0 && p.burst(key) == BurstOf(key, rule.burst) && p.inflow(key) == Inflow(BurstOf(key, rule.burst), rule.window)
  }

  lemma RuleGoverns(p: Limits, key: string, name: string)
    requires p == CodeLimits() && RuleOfKey(key) == name
    ensures Governs(p, RuleOf(name), key)
  {
    assert p.burst(key) == BurstOfKey(key);
    assert p.inflow(key) == Inflow(BurstOfKey(key), WindowOfKey(key));
  }

  /** What the guard charges to a key is one charge under the limits of the key. */
  lemma ChargeIsServe(p: Limits, table: Table, key: string, rule: Rule, blocked: bool, now: real, purging: bool)
    requires Governs(p, rule, key)
    ensures TbStep(table, key, BurstOf(key, rule.burst), rule.window, blocked, now, purging) ==
            Serve(p, table, Call(key, now, blocked, purging && |table| > PURGE_SIZE))
  {
  }

  // ---------- retrying too soon ----------

  /** Trying a key at the given times: the answers, and the tables afterwards. */
  ghost function Retries(table: Table, until: map<string, real>, key: string, rule: Rule, times: seq<real>)
    : (seq<bool>, Table, map<string, real>)
    requires rule.window > 0.0
    decreases |times|
  {
    if times == [] then ([], table, until)
    else
      var now := times[0];
      var (ok, t) := TbStep(table, key, BurstOf(key, rule.burst), rule.window, InBackoff(until, key, now), now, true);
      var (answers, t', until') := Retries(t, if ok then until else Extended(until, key, now + rule.backoff), key, rule, times[1..]);
      ([ok] + answers, t', until')
  }

  /** Whoever retries within the backoff is refused every time and pushes its end further out,
      no matter how full the bucket has become. */
  lemma {:induction false} RetryingTooSoonStaysRefused(table: Table, until: map<string, real>, key: string, rule: Rule, times: seq<real>)
    requires rule.window > 0.0 && times != [] && InBackoff(until, key, times[0])
    requires forall i :: 0 < i < |times| ==> times[i] < times[i - 1] + rule.backoff
    ensures var (answers, _, end) := Retries(table, until, key, rule, times);
            && |answers| == |times| && true !in answers
            && key in end && end[key] >= times[|times| - 1] + rule.backoff
    decreases |times|
  {
    var now := times[0];
    var (ok, t) := TbStep(table, key, BurstOf(key, rule.burst), rule.window, InBackoff(until, key, now), now, true);
    var later := Extended(until, key, now + rule.backoff);
    assert !ok;
    if |times| > 1 {
      assert times[1] < times[0] + rule.backoff;
      RetryingTooSoonStaysRefused(t, later, key, rule, times[1..]);
    }
  }
}
