/** What the request limiter grants: requests of one peer up to its burst, one after the other
    or all at once, are served. */
module GuardService {
  import opened Bytes
  import opened RateGuard
  import opened GuardRuns

  /** A charge is granted exactly if the key is not blocked and has a token. */
  lemma ServedExactlyWhen(p: Limits, table: Table, c: Call)
    requires AllSane(p) && TableOk(p, table, c.now)
    ensures Serve(p, table, c).0 <==> !c.blocked && Level(p, table, c.key, c.now) >= 1.0
  {
    PurgeKeepsLevels(p, table, c.key, c.now);
  }

  predicate Distinct(keys: seq<string>) { forall i, j :: 0 <= i < j < |keys| ==> keys[i] != keys[j] }

  /** The keys of a request differ in the word after the rule's name. */
  lemma KeysDiffer(rule: string, ip: string, identity: string, subnet: string)
    ensures Distinct(KeySet(rule, ip, identity, subnet))
  {
    var a, b, c := rule + ":id:" + identity, rule + ":ip:" + ip, rule + ":subnet:" + subnet;
    assert a[|rule| + 2] == 'd' && b[|rule| + 2] == 'p' && c[|rule| + 2] == 'u';
  }

  /** No key is in backoff and each has at least `n` tokens. */
  ghost predicate Stocked(p: Limits, table: Table, until: map<string, real>, keys: seq<string>, now: real, n: nat) {
    forall i :: 0 <= i < |keys| ==> !InBackoff(until, keys[i], now) && Level(p, table, keys[i], now) >= n as real
  }

  lemma {:induction false} TakenElsewhere(table: Table, until: map<string, real>, keys: seq<string>, rule: Rule, now: real,
                                          purging: bool, k: string)
    requires rule.window > 0.0 && k !in keys
    ensures Taken(table, until, keys, rule, now, purging, k) == 0
    decreases |keys|
  {
    if keys != [] {
      var t := TbStep(table, keys[0], BurstOf(keys[0], rule.burst), rule.window, InBackoff(until, keys[0], now), now, purging);
      TakenElsewhere(t.1, until, keys[1..], rule, now, purging, k);
    }
  }

  /** The first key is granted, and the others have what they had. */
  lemma FirstServed(p: Limits, table: Table, until: map<string, real>, keys: seq<string>, rule: Rule, now: real, purging: bool, n: nat)
      returns (rest: Table)
    requires AllSane(p) && TableOk(p, table, now) && Ruled(p, keys, rule) && Distinct(keys) && keys != []
    requires n >= 1 && Stocked(p, table, until, keys, now, n)
    ensures TableOk(p, rest, now) && Ruled(p, keys[1..], rule) && Stocked(p, rest, until, keys[1..], now, n)
    ensures Level(p, rest, keys[0], now) >= (n - 1) as real
    ensures ChargeAll(table, until, keys, rule, now, purging) == ChargeAll(rest, until, keys[1..], rule, now, purging)
  {
    var c, ok;
    c, ok, rest := FirstCharge(p, table, until, keys, rule, now, purging, "");
    ServedExactlyWhen(p, table, c);
    ServeTakes(p, table, c, c.key);
    forall i | 1 <= i < |keys| ensures Level(p, rest, keys[i], now) >= n as real { ServeTakes(p, table, c, keys[i]); }
  }

  /** A request whose keys are stocked passes, and takes one token from each. */
  lemma {:induction false} ChargeAllServes(p: Limits, table: Table, until: map<string, real>, keys: seq<string>, rule: Rule, now: real,
                                           purging: bool, n: nat)
    requires AllSane(p) && TableOk(p, table, now) && Ruled(p, keys, rule) && Distinct(keys)
    requires n >= 1 && Stocked(p, table, until, keys, now, n)
    ensures var (table', refused) := ChargeAll(table, until, keys, rule, now, purging);
            refused.None? && TableOk(p, table', now) && Stocked(p, table', until, keys, now, n - 1)
    decreases |keys|
  {
    if keys != [] {
      var rest := FirstServed(p, table, until, keys, rule, now, purging, n);
      ChargeAllServes(p, rest, until, keys[1..], rule, now, purging, n);
      TakenElsewhere(rest, until, keys[1..], rule, now, purging, keys[0]);
      ChargeAllTakes(p, rest, until, keys[1..], rule, now, purging, keys[0]);
    }
  }

  /** The peer is not banned and its keys are stocked. */
  ghost predicate Ready(p: Limits, g: Guard, peer: Request, now: real, n: nat) {
    !BannedIn(g.bans, peer.ip, peer.identity, now) && Stocked(p, g.table, g.until, KeysOf(peer), now, n)
  }

  /** Waiting does no harm. */
  lemma ReadyLater(p: Limits, g: Guard, peer: Request, from: real, to: real, n: nat)
    requires AllSane(p) && TableOk(p, g.table, from) && from <= to && Ready(p, g, peer, from, n)
    ensures TableOk(p, g.table, to) && Ready(p, g, peer, to, n)
  {
    forall i | 0 <= i < |KeysOf(peer)| ensures Level(p, g.table, KeysOf(peer)[i], to) >= n as real {
      LevelRises(p, g.table, KeysOf(peer)[i], from, to);
    }
  }

  /** One request of a peer that is ready. */
  lemma RequestServed(p: Limits, g: Guard, r: Request, n: nat) returns (g': Guard)
    requires p == CodeLimits() && AllSane(p) && TableOk(p, g.table, r.now) && n >= 1 && Ready(p, g, r, r.now, n)
    requires !r.isLocal && !r.powSolved && RuleName(r.mtype).Some?
    ensures Decide(g, r, true) == (Allowed, g') && TableOk(p, g'.table, r.now) && Ready(p, g', r, r.now, n - 1)
  {
    var keys, rule := RequestIsRuled(p, r);
    KeysDiffer(RuleName(r.mtype).value, r.ip, r.identity, r.subnet);
    ChargeAllServes(p, g.table, g.until, keys, rule, r.now, true, n);
    ChargedDecide(g, r, true, keys, rule);
    g' := Decide(g, r, true).1;
  }

  /** All events are requests of the peer. */
  predicate FromPeer(events: seq<Event>, peer: Request) {
    forall i :: 0 <= i < |events| ==> events[i] == Ask(peer.(now := TimeOf(events[i])))
  }

  predicate AllAllowed(answers: seq<Option<Decision>>) { forall i :: 0 <= i < |answers| ==> answers[i] == Some(Allowed) }

  predicate IsChargeable(peer: Request) { !peer.isLocal && !peer.powSolved && RuleName(peer.mtype).Some? }

  /** A peer with `n` tokens on each of its keys has its next `n` requests served, however close
      together they come. */
  lemma {:induction false} BurstIsServed(p: Limits, g: Guard, peer: Request, events: seq<Event>, n: nat, from: real, to: real)
      returns (after: Guard)
    requires p == CodeLimits() && AllSane(p) && TableOk(p, g.table, from) && Ready(p, g, peer, from, n) && IsChargeable(peer)
    requires FromPeer(events, peer) && Ordered(events, from, to) && |events| <= n
    ensures after == GuardAfter(g, events, true) && TableOk(p, after.table, to) && Ready(p, after, peer, to, n - |events|)
    ensures AllAllowed(Answers(g, events, true))
    decreases |events|
  {
    if events == [] {
      after := g;
      ReadyLater(p, g, peer, from, to, n);
    } else {
      var front, e := FrontOrdered(events, from, to);
      assert e == Ask(peer.(now := TimeOf(e)));
      var before := BurstIsServed(p, g, peer, front, n, from, TimeOf(e));
      after := NextIsServed(p, g, peer, front, before, TimeOf(e), n, to);
    }
  }

  lemma NextIsServed(p: Limits, g: Guard, peer: Request, front: seq<Event>, before: Guard, t: real, n: nat, to: real)
      returns (after: Guard)
    requires p == CodeLimits() && AllSane(p) && |front| < n && t <= to && IsChargeable(peer)
    requires before == GuardAfter(g, front, true) && TableOk(p, before.table, t) && Ready(p, before, peer, t, n - |front|)
    requires AllAllowed(Answers(g, front, true))
    ensures after == GuardAfter(g, front + [Ask(peer.(now := t))], true)
    ensures TableOk(p, after.table, to) && Ready(p, after, peer, to, n - |front| - 1)
    ensures AllAllowed(Answers(g, front + [Ask(peer.(now := t))], true))
  {
    var r := peer.(now := t);
    assert (front + [Ask(r)])[..|front|] == front;
    SameKeys(p, before, peer, t, n - |front|);
    after := RequestServed(p, before, r, n - |front|);
    SameKeys(p, after, peer, t, n - |front| - 1);
    ReadyLater(p, after, peer, t, to, n - |front| - 1);
  }

  lemma SameKeys(p: Limits, g: Guard, peer: Request, t: real, n: nat)
    ensures Ready(p, g, peer.(now := t), t, n) <==> Ready(p, g, peer, t, n)
  {
    assert KeysOf(peer.(now := t)) == KeysOf(peer);
  }

  /** A peer not seen before has as many requests of a type served at once as the rule's burst
      says: 25 chunks put, 40 fetched. */
  lemma NewPeerIsServed(g: Guard, peer: Request, events: seq<Event>, from: real, to: real)
    requires TableOk(CodeLimits(), g.table, from) && FromPeer(events, peer) && Ordered(events, from, to) && IsChargeable(peer)
    requires |events| as real <= RuleOf(RuleName(peer.mtype).value).burst
    requires IsNew(g, peer, from)
    ensures AllAllowed(Answers(g, events, true))
  {
    CodeLimitsAreSane();
    NewKeysAreFull(g, peer, from, |events|);
    var after := BurstIsServed(CodeLimits(), g, peer, events, |events|, from, to);
  }

  /** The guard knows nothing of the peer. */
  ghost predicate IsNew(g: Guard, peer: Request, now: real) {
    && !BannedIn(g.bans, peer.ip, peer.identity, now)
    && forall i :: 0 <= i < |KeysOf(peer)| ==> KeysOf(peer)[i] !in g.table && !InBackoff(g.until, KeysOf(peer)[i], now)
  }

  lemma NewKeysAreFull(g: Guard, peer: Request, now: real, n: nat)
    requires RuleName(peer.mtype).Some? && n as real <= RuleOf(RuleName(peer.mtype).value).burst && IsNew(g, peer, now)
    ensures Ready(CodeLimits(), g, peer, now, n)
  {
    var p := CodeLimits();
    var keys, rule := RequestIsRuled(p, peer);
    forall i | 0 <= i < |keys| ensures Level(p, g.table, keys[i], now) >= n as real {
      assert Governs(p, rule, keys[i]);
      BurstIsNoLess(keys[i], RuleName(peer.mtype).value);
    }
  }

  lemma BurstIsNoLess(key: string, name: string)
    ensures BurstOf(key, RuleOf(name).burst) >= RuleOf(name).burst
  {
    var base := RuleOf(name).burst;
    assert base == 3.0 || base == 25.0 || base == 6.0 || base == 40.0 || base == 20.0;
    assert Max(base, base * IP_BURST_MULT) == base * 6.0 && Max(base, base * IP_BURST_MULT * 2.0) == base * 12.0;
  }
}
