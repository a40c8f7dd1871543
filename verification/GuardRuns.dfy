/** Whole runs of the request limiter: sequences of requests and bans, with the backoffs that
    follow from the refusals. */
module GuardRuns {
  import opened Bytes
  import opened RateGuard

  datatype Event = Ask(r: Request) | Ban(ip: string, seconds: real, identity: string, isLocal: bool, now: real)

  function TimeOf(e: Event): real { match e case Ask(r) => r.now case Ban(_, _, _, _, now) => now }

  function Do(g: Guard, e: Event, purging: bool): Guard {
    match e
    case Ask(r) => Decide(g, r, purging).1
    case Ban(ip, seconds, identity, isLocal, now) => g.(bans := BansAfter(g.bans, ip, seconds, identity, isLocal, now))
  }

  function GuardAfter(g: Guard, events: seq<Event>, purging: bool): Guard {
    if events == [] then g else Do(GuardAfter(g, events[..|events| - 1], purging), events[|events| - 1], purging)
  }

  /** What the guard answers; a ban has no answer. */
  function Answer(g: Guard, e: Event, purging: bool): Option<Decision> {
    if e.Ask? then Some(Decide(g, e.r, purging).0) else None
  }

  function Answers(g: Guard, events: seq<Event>, purging: bool): (answers: seq<Option<Decision>>)
    ensures |answers| == |events|
  {
    if events == [] then []
    else
      var front, e := events[..|events| - 1], events[|events| - 1];
      Answers(g, front, purging) + [Answer(GuardAfter(g, front, purging), e, purging)]
  }

  predicate Ordered(events: seq<Event>, from: real, to: real) {
    && from <= to
    && (forall i :: 0 <= i < |events| ==> from <= TimeOf(events[i]) <= to)
    && (forall i, j :: 0 <= i < j < |events| ==> TimeOf(events[i]) <= TimeOf(events[j]))
  }

  lemma FrontOrdered(events: seq<Event>, from: real, to: real) returns (front: seq<Event>, e: Event)
    requires Ordered(events, from, to) && events != []
    ensures front == events[..|events| - 1] && e == events[|events| - 1] && events == front + [e]
    ensures Ordered(front, from, TimeOf(e)) && from <= TimeOf(e) <= to
  {
    front, e := events[..|events| - 1], events[|events| - 1];
  }

  /** The request is charged, passes, and the key is one of its keys. */
  predicate AdmittedThrough(g: Guard, e: Event, purging: bool, k: string) {
    e.Ask? && Decide(g, e.r, purging).0 == Allowed && k in KeysOf(e.r)
  }

  /** How many requests are admitted through a key. */
  function Admitted(g: Guard, events: seq<Event>, purging: bool, k: string): nat {
    if events == [] then 0
    else
      var front, e := events[..|events| - 1], events[|events| - 1];
      Admitted(g, front, purging, k) + (if AdmittedThrough(GuardAfter(g, front, purging), e, purging, k) then 1 else 0)
  }

  // ---------- one request ----------

  /** The tokens a request takes from a key, whether or not a later key refuses it. */
  function Taken(table: Table, until: map<string, real>, keys: seq<string>, rule: Rule, now: real, purging: bool, k: string): nat
    requires rule.window > 0.0
    decreases |keys|
  {
    if keys == [] then 0
    else
      var (ok, rest) := TbStep(table, keys[0], BurstOf(keys[0], rule.burst), rule.window, InBackoff(until, keys[0], now), now, purging);
      if ok then Taken(rest, until, keys[1..], rule, now, purging, k) + (if keys[0] == k then 1 else 0) else 0
  }

  function TakenBy(g: Guard, e: Event, purging: bool, k: string): nat {
    if e.Ask? && IsCharged(g, e.r)
    then Taken(g.table, g.until, KeysOf(e.r), RuleOf(RuleName(e.r.mtype).value), e.r.now, purging, k)
    else 0
  }

  /** The tokens taken from a key over a run. */
  function Spent(g: Guard, events: seq<Event>, purging: bool, k: string): nat {
    if events == [] then 0
    else
      var front, e := events[..|events| - 1], events[|events| - 1];
      Spent(g, front, purging, k) + TakenBy(GuardAfter(g, front, purging), e, purging, k)
  }

  ghost predicate Ruled(p: Limits, keys: seq<string>, rule: Rule) {
    rule.window > 0.0 && forall i :: 0 <= i < |keys| ==> Governs(p, rule, keys[i])
  }

  lemma RequestIsRuled(p: Limits, r: Request) returns (keys: seq<string>, rule: Rule)
    requires p == CodeLimits() && RuleName(r.mtype).Some?
    ensures keys == KeysOf(r) && rule == RuleOf(RuleName(r.mtype).value) && Ruled(p, keys, rule)
  {
    var name := RuleName(r.mtype).value;
    keys, rule := KeysOf(r), RuleOf(name);
    RuleNamesArePlain(r.mtype);
    forall i | 0 <= i < |keys| ensures Governs(p, rule, keys[i]) {
      KeysNameTheirRule(name, r.ip, r.identity, r.subnet, i);
      RuleGoverns(p, keys[i], name);
    }
  }

  /** One charge of the list, as a charge under the limits. */
  lemma FirstCharge(p: Limits, table: Table, until: map<string, real>, keys: seq<string>, rule: Rule, now: real, purging: bool, k: string)
      returns (c: Call, ok: bool, rest: Table)
    requires keys != [] && Ruled(p, keys, rule)
    ensures c == Call(keys[0], now, InBackoff(until, keys[0], now), purging && |table| > PURGE_SIZE) && (ok, rest) == Serve(p, table, c)
    ensures Ruled(p, keys[1..], rule)
    ensures ChargeAll(table, until, keys, rule, now, purging) ==
            if ok then ChargeAll(rest, until, keys[1..], rule, now, purging) else (rest, Some(keys[0]))
    ensures Taken(table, until, keys, rule, now, purging, k) ==
            if ok then Taken(rest, until, keys[1..], rule, now, purging, k) + (if keys[0] == k then 1 else 0) else 0
  {
    var blocked := InBackoff(until, keys[0], now);
    ChargeIsServe(p, table, keys[0], rule, blocked, now, purging);
    c := Call(keys[0], now, blocked, purging && |table| > PURGE_SIZE);
    ok, rest := Serve(p, table, c).0, Serve(p, table, c).1;
  }

  /** Charging all keys takes the tokens from the levels, and a request that passes takes one
      from each of its keys. */
  lemma {:induction false} ChargeAllTakes(p: Limits, table: Table, until: map<string, real>, keys: seq<string>, rule: Rule, now: real,
                                          purging: bool, k: string)
    requires AllSane(p) && TableOk(p, table, now) && Ruled(p, keys, rule)
    ensures var (table', refused) := ChargeAll(table, until, keys, rule, now, purging);
            var taken := Taken(table, until, keys, rule, now, purging, k);
            && TableOk(p, table', now) && Level(p, table', k, now) == Level(p, table, k, now) - taken as real
            && (refused.None? && k in keys ==> taken >= 1)
    decreases |keys|
  {
    if keys != [] {
      var c, ok, rest := FirstCharge(p, table, until, keys, rule, now, purging, k);
      ServeTakes(p, table, c, k);
      if ok {
        ChargeAllTakes(p, rest, until, keys[1..], rule, now, purging, k);
        assert keys == [keys[0]] + keys[1..];
      }
    }
  }

  lemma ChargedDecide(g: Guard, r: Request, purging: bool, keys: seq<string>, rule: Rule)
    requires IsCharged(g, r) && keys == KeysOf(r) && rule == RuleOf(RuleName(r.mtype).value)
    ensures rule.window > 0.0 && Decide(g, r, purging) == ChargeKeySet(g, keys, rule, r.now, purging)
    ensures forall k :: TakenBy(g, Ask(r), purging, k) == Taken(g.table, g.until, keys, rule, r.now, purging, k)
  {
  }

  lemma KeySetTakes(p: Limits, g: Guard, keys: seq<string>, rule: Rule, now: real, purging: bool, k: string)
      returns (d: Decision, g': Guard, taken: nat)
    requires AllSane(p) && TableOk(p, g.table, now) && Ruled(p, keys, rule)
    ensures (d, g') == ChargeKeySet(g, keys, rule, now, purging) && taken == Taken(g.table, g.until, keys, rule, now, purging, k)
    ensures TableOk(p, g'.table, now) && Level(p, g'.table, k, now) == Level(p, g.table, k, now) - taken as real
    ensures d == Allowed && k in keys ==> taken >= 1
  {
    d, g' := ChargeKeySet(g, keys, rule, now, purging).0, ChargeKeySet(g, keys, rule, now, purging).1;
    taken := Taken(g.table, g.until, keys, rule, now, purging, k);
    ChargeAllTakes(p, g.table, g.until, keys, rule, now, purging, k);
  }

  /** One event takes tokens from the levels, at least one from each key it is admitted
      through. */
  lemma DoTakes(p: Limits, g: Guard, e: Event, purging: bool, k: string) returns (g': Guard, taken: nat)
    requires p == CodeLimits() && AllSane(p) && TableOk(p, g.table, TimeOf(e))
    ensures g' == Do(g, e, purging) && taken == TakenBy(g, e, purging, k)
    ensures TableOk(p, g'.table, TimeOf(e))
    ensures Level(p, g'.table, k, TimeOf(e)) == Level(p, g.table, k, TimeOf(e)) - taken as real
    ensures AdmittedThrough(g, e, purging, k) ==> taken >= 1
  {
    if e.Ask? && IsCharged(g, e.r) {
      var keys, rule := RequestIsRuled(p, e.r);
      var d;
      d, g', taken := KeySetTakes(p, g, keys, rule, e.r.now, purging, k);
      ChargedDecide(g, e.r, purging, keys, rule);
    } else {
      g', taken := Do(g, e, purging), 0;
      Uncharged(g, e, purging);
    }
  }

  lemma Uncharged(g: Guard, e: Event, purging: bool)
    requires e.Ban? || !IsCharged(g, e.r)
    ensures Do(g, e, purging).table == g.table && (e.Ask? ==> Decide(g, e.r, purging).0 != Allowed)
  {
  }

  // ---------- the rate bound ----------

  /** An event at its time takes tokens from the level of a key, at least one if it is a request
      admitted through it. */
  ghost predicate TakesFrom(p: Limits, g: Guard, e: Event, purging: bool, k: string) {
    var after, taken, now := Do(g, e, purging).table, TakenBy(g, e, purging, k), TimeOf(e);
    TableOk(p, g.table, now) ==>
      && TableOk(p, after, now) && Level(p, after, k, now) == Level(p, g.table, k, now) - taken as real
      && (AdmittedThrough(g, e, purging, k) ==> taken >= 1)
  }

  lemma NextTakes(p: Limits, g: Guard, front: seq<Event>, e: Event, purging: bool, k: string) returns (after: Table, taken: nat)
    requires TakesFrom(p, GuardAfter(g, front, purging), e, purging, k) && TableOk(p, GuardAfter(g, front, purging).table, TimeOf(e))
    ensures after == GuardAfter(g, front + [e], purging).table && TableOk(p, after, TimeOf(e))
    ensures Level(p, after, k, TimeOf(e)) == Level(p, GuardAfter(g, front, purging).table, k, TimeOf(e)) - taken as real
    ensures Spent(g, front + [e], purging, k) == Spent(g, front, purging, k) + taken
    ensures Admitted(g, front + [e], purging, k) <= Admitted(g, front, purging, k) + taken
  {
    assert (front + [e])[..|front|] == front;
    after, taken := Do(GuardAfter(g, front, purging), e, purging).table, TakenBy(GuardAfter(g, front, purging), e, purging, k);
  }

  lemma {:induction false} ConservedBy(p: Limits, g: Guard, events: seq<Event>, purging: bool, k: string, from: real, to: real)
      returns (after: Table, spent: nat)
    requires AllSane(p) && TableOk(p, g.table, from) && Ordered(events, from, to)
    requires forall g', e :: TakesFrom(p, g', e, purging, k)
    ensures after == GuardAfter(g, events, purging).table && TableOk(p, after, to)
    ensures spent == Spent(g, events, purging, k) >= Admitted(g, events, purging, k)
    ensures spent as real + Level(p, after, k, to) <= Level(p, g.table, k, from) + p.inflow(k)(from, to)
    decreases |events|
  {
    if events == [] {
      after, spent := g.table, 0;
      LevelRises(p, g.table, k, from, to);
    } else {
      var front, e := FrontOrdered(events, from, to);
      var table, before := ConservedBy(p, g, front, purging, k, from, TimeOf(e));
      var taken;
      after, taken := NextTakes(p, g, front, e, purging, k);
      spent := before + taken;
      BalanceHolds(p, g.table, table, after, k, before, taken, from, TimeOf(e), to);
    }
  }

  /** What was spent and what is left never exceed what there was and what came in, and every
      admitted request has spent. */
  lemma Conserved(p: Limits, g: Guard, events: seq<Event>, purging: bool, k: string, from: real, to: real)
      returns (after: Table, spent: nat)
    requires p == CodeLimits() && AllSane(p) && TableOk(p, g.table, from) && Ordered(events, from, to)
    ensures after == GuardAfter(g, events, purging).table && TableOk(p, after, to)
    ensures spent == Spent(g, events, purging, k) >= Admitted(g, events, purging, k)
    ensures spent as real + Level(p, after, k, to) <= Level(p, g.table, k, from) + p.inflow(k)(from, to)
  {
    forall g': Guard, e: Event ensures TakesFrom(p, g', e, purging, k) {
      if TableOk(p, g'.table, TimeOf(e)) { var _, taken := DoTakes(p, g', e, purging, k); }
    }
    after, spent := ConservedBy(p, g, events, purging, k, from, to);
  }

  lemma BalanceHolds(p: Limits, start: Table, table: Table, after: Table, k: string, before: nat, taken: nat, from: real, now: real,
                     to: real)
    requires AllSane(p) && TableOk(p, start, from) && TableOk(p, table, now) && TableOk(p, after, now) && from <= now <= to
    requires before as real + Level(p, table, k, now) <= Level(p, start, k, from) + p.inflow(k)(from, now)
    requires Level(p, after, k, now) == Level(p, table, k, now) - taken as real
    ensures TableOk(p, after, to)
    ensures (before + taken) as real + Level(p, after, k, to) <= Level(p, start, k, from) + p.inflow(k)(from, to)
  {
    assert p.Sane(k);
    LevelRises(p, after, k, now, to);
    assert p.inflow(k)(from, now) + p.inflow(k)(now, to) == p.inflow(k)(from, to);
  }

  /** The rate bound: in any stretch of time the requests admitted through a key, and even the
      tokens spent on it by requests that another key refused, number at most its burst and a
      burst more per window, from any state the guard can be in. */
  lemma RateBound(p: Limits, g: Guard, events: seq<Event>, k: string, from: real, to: real)
    requires p == CodeLimits() && TableOk(p, g.table, from) && Ordered(events, from, to)
    ensures Admitted(g, events, true, k) <= Spent(g, events, true, k)
    ensures Spent(g, events, true, k) as real <= BurstOfKey(k) + Inflow(BurstOfKey(k), WindowOfKey(k))(from, to)
  {
    CodeLimitsAreSane();
    assert p.Sane(k);
    var after, spent := Conserved(p, g, events, true, k, from, to);
    LevelRises(p, g.table, k, from, from);
    LevelRises(p, after, k, to, to);
    assert p.burst(k) == BurstOfKey(k) && p.inflow(k) == Inflow(BurstOfKey(k), WindowOfKey(k));
  }

  // ---------- purging ----------

  /** Charging the same keys with and without purging refuses the same key. */
  lemma {:induction false} ChargeAllAlike(p: Limits, a: Table, b: Table, until: map<string, real>, keys: seq<string>, rule: Rule, now: real)
    requires AllSane(p) && TableOk(p, a, now) && TableOk(p, b, now) && Alike(p, a, b, now) && Ruled(p, keys, rule)
    ensures var (a', ra) := ChargeAll(a, until, keys, rule, now, true);
            var (b', rb) := ChargeAll(b, until, keys, rule, now, false);
            ra == rb && TableOk(p, a', now) && TableOk(p, b', now) && Alike(p, a', b', now)
    decreases |keys|
  {
    if keys != [] {
      var c, ok, rest := FirstCharge(p, a, until, keys, rule, now, true, "");
      var c', ok', rest' := FirstCharge(p, b, until, keys, rule, now, false, "");
      ServeAlike(p, a, b, c);
      ServeTakes(p, a, c, c.key);
      ServeTakes(p, b, c', c.key);
      if ok { ChargeAllAlike(p, rest, rest', until, keys[1..], rule, now); }
    }
  }

  /** Two guards that differ in stale buckets only. */
  ghost predicate GuardsAlike(p: Limits, a: Guard, b: Guard, now: real)
    requires AllSane(p)
  {
    a.until == b.until && a.bans == b.bans && TableOk(p, a.table, now) && TableOk(p, b.table, now) && Alike(p, a.table, b.table, now)
  }

  lemma KeySetAlike(p: Limits, a: Guard, b: Guard, keys: seq<string>, rule: Rule, now: real)
    requires AllSane(p) && GuardsAlike(p, a, b, now) && Ruled(p, keys, rule)
    ensures ChargeKeySet(a, keys, rule, now, true).0 == ChargeKeySet(b, keys, rule, now, false).0
    ensures GuardsAlike(p, ChargeKeySet(a, keys, rule, now, true).1, ChargeKeySet(b, keys, rule, now, false).1, now)
  {
    ChargeAllAlike(p, a.table, b.table, a.until, keys, rule, now);
  }

  lemma AskAlike(p: Limits, a: Guard, b: Guard, r: Request)
    requires p == CodeLimits() && AllSane(p) && GuardsAlike(p, a, b, r.now)
    ensures GuardsAlike(p, Decide(a, r, true).1, Decide(b, r, false).1, r.now) && Decide(a, r, true).0 == Decide(b, r, false).0
  {
    assert IsCharged(a, r) == IsCharged(b, r);
    if IsCharged(a, r) {
      var keys, rule := RequestIsRuled(p, r);
      KeySetAlike(p, a, b, keys, rule, r.now);
      ChargedDecide(a, r, true, keys, rule);
      ChargedDecide(b, r, false, keys, rule);
    }
  }

  lemma DoAlike(p: Limits, a: Guard, b: Guard, e: Event)
    requires p == CodeLimits() && AllSane(p) && GuardsAlike(p, a, b, TimeOf(e))
    ensures GuardsAlike(p, Do(a, e, true), Do(b, e, false), TimeOf(e))
    ensures e.Ask? ==> Decide(a, e.r, true).0 == Decide(b, e.r, false).0
  {
    if e.Ask? { AskAlike(p, a, b, e.r); }
  }

  lemma GuardsAlikeLater(p: Limits, a: Guard, b: Guard, from: real, to: real)
    requires AllSane(p) && GuardsAlike(p, a, b, from) && from <= to
    ensures GuardsAlike(p, a, b, to)
  {
    AlikeLater(p, a.table, b.table, from, to);
  }

  lemma {:induction false} RunsAlike(p: Limits, g: Guard, events: seq<Event>, from: real, to: real) returns (a: Guard, b: Guard)
    requires p == CodeLimits() && AllSane(p) && TableOk(p, g.table, from) && Ordered(events, from, to)
    ensures a == GuardAfter(g, events, true) && b == GuardAfter(g, events, false) && GuardsAlike(p, a, b, to)
    ensures Answers(g, events, true) == Answers(g, events, false)
  {
    if events == [] {
      a, b := g, g;
      GuardsAlikeLater(p, a, b, from, to);
    } else {
      var front, e := FrontOrdered(events, from, to);
      var a0, b0 := RunsAlike(p, g, front, from, TimeOf(e));
      a, b := NextAlike(p, g, front, a0, b0, e, to);
    }
  }

  lemma NextAlike(p: Limits, g: Guard, front: seq<Event>, a0: Guard, b0: Guard, e: Event, to: real) returns (a: Guard, b: Guard)
    requires p == CodeLimits() && AllSane(p) && GuardsAlike(p, a0, b0, TimeOf(e)) && TimeOf(e) <= to
    requires a0 == GuardAfter(g, front, true) && b0 == GuardAfter(g, front, false)
    requires Answers(g, front, true) == Answers(g, front, false)
    ensures a == GuardAfter(g, front + [e], true) && b == GuardAfter(g, front + [e], false) && GuardsAlike(p, a, b, to)
    ensures Answers(g, front + [e], true) == Answers(g, front + [e], false)
  {
    assert (front + [e])[..|front|] == front;
    a, b := Do(a0, e, true), Do(b0, e, false);
    DoAlike(p, a0, b0, e);
    GuardsAlikeLater(p, a, b, TimeOf(e), to);
  }

  /** Purging is invisible: every request of every run gets the answer that a guard which never
      drops a bucket would give, and the backoffs and bans are the same. */
  lemma PurgeIsInvisible(p: Limits, g: Guard, events: seq<Event>, from: real, to: real)
    requires p == CodeLimits() && TableOk(p, g.table, from) && Ordered(events, from, to)
    ensures Answers(g, events, true) == Answers(g, events, false)
    ensures GuardAfter(g, events, true).until == GuardAfter(g, events, false).until
    ensures GuardAfter(g, events, true).bans == GuardAfter(g, events, false).bans
  {
    CodeLimitsAreSane();
    var a, b := RunsAlike(p, g, events, from, to);
  }

  // ---------- the guard object ----------

  /** Serving a list of events on the object is the run. */
  method ServeAll(guard: StorageGuard, events: seq<Event>) returns (answers: seq<Option<Decision>>)
    modifies guard
    ensures guard.State() == GuardAfter(old(guard.State()), events, true)
    ensures answers == Answers(old(guard.State()), events, true)
  {
    answers := [];
    ghost var start := guard.State();
    for n := 0 to |events|
      invariant guard.State() == GuardAfter(start, events[..n], true)
      invariant answers == Answers(start, events[..n], true)
    {
      assert events[..n + 1][..n] == events[..n];
      var answer := ServeOne(guard, events[n]);
      answers := answers + [answer];
    }
    assert events[..|events|] == events;
  }

  method ServeOne(guard: StorageGuard, e: Event) returns (answer: Option<Decision>)
    modifies guard
    ensures guard.State() == Do(old(guard.State()), e, true)
    ensures answer == Answer(old(guard.State()), e, true)
  {
    match e
    case Ask(r) =>
      var d := guard.Allow(r.ip, r.mtype, r.identity, r.subnet, r.isLocal, r.powSolved, r.now);
      return Some(d);
    case Ban(ip, seconds, identity, isLocal, now) =>
      guard.BanIp(ip, seconds, identity, isLocal, now);
      return None;
  }
}
