/** The parallel nonce search: workers that share a found flag, a stop flag and a result, in
    every interleaving of their steps. */
module Mining {
  import opened Arith
  import opened Bytes
  import opened PrefixScan

  const MAX_NONCE: nat := 0xFFFF_FFFF

  /** The hash function is the one of the prepared machine, for the whole search. */
  datatype Job = Job(prefix: Bytes, target: Bytes, threads: nat, hash: Bytes -> Bytes) {
    function Header(nonce: nat): Bytes { prefix + LE(4, nonce) }
    function HashAt(nonce: nat): Bytes { hash(Header(nonce)) }
    predicate Meets(nonce: nat) { Less(HashAt(nonce), target) }
    /** The worker a nonce belongs to. */
    function Owner(nonce: nat): nat
      requires threads > 0
    {
      nonce % threads
    }
  }

  /** A header is the prefix with the nonce behind it in four little-endian bytes, so headers
      of different nonces differ. */
  lemma HeaderIs(job: Job, nonce: nat)
    requires nonce <= MAX_NONCE
    ensures |job.Header(nonce)| == |job.prefix| + 4 && job.prefix <= job.Header(nonce)
    ensures FromLE(job.Header(nonce)[|job.prefix|..]) == nonce
  {
    PowConstants();
    LERoundTrip(4, nonce);
    assert job.Header(nonce)[|job.prefix|..] == LE(4, nonce);
  }

  lemma HeadersDiffer(job: Job, a: nat, b: nat)
    requires a <= MAX_NONCE && b <= MAX_NONCE
    ensures job.Header(a) == job.Header(b) <==> a == b
  {
    HeaderIs(job, a);
    HeaderIs(job, b);
  }

  // ---------- byte order is number order ----------

  lemma {:induction false} BEFront(x: u8, s: Bytes)
    ensures BE([x] + s) == x * Pow256(|s|) + BE(s) && BE(s) < Pow256(|s|)
  {
    if s == [] {
      assert ([x] + s)[..0] == [];
    } else {
      var front, last := s[..|s| - 1], s[|s| - 1];
      BEFront(x, front);
      assert ([x] + s)[..|s|] == [x] + front;
      assert 256 * (x * Pow256(|front|)) == x * (256 * Pow256(|front|));
    }
  }

  /** Comparing two hashes byte by byte is comparing them as big-endian numbers. */
  lemma {:induction false} ByteOrderIsNumeric(a: Bytes, b: Bytes)
    requires |a| == |b|
    ensures Less(a, b) <==> BE(a) < BE(b)
  {
    if a != [] {
      var p := Pow256(|a| - 1);
      BEFront(a[0], a[1..]);
      BEFront(b[0], b[1..]);
      assert a == [a[0]] + a[1..] && b == [b[0]] + b[1..];
      ByteOrderIsNumeric(a[1..], b[1..]);
      LeadingDigit(a[0], b[0], p, BE(a[1..]), BE(b[1..]));
      LeadingDigit(b[0], a[0], p, BE(b[1..]), BE(a[1..]));
    }
  }

  lemma LeadingDigit(x: nat, y: nat, p: nat, u: nat, v: nat)
    requires u < p && v < p
    ensures x < y ==> x * p + u < y * p + v
  {
    Scale(p, x + 1, y);
    assert p * (x + 1) == x * p + p;
  }

  // ---------- one worker ----------

  /** The worker has hashed its stride up to `nonce` in vain. */
  ghost predicate Searched(job: Job, tid: nat, tried: seq<nat>, nonce: nat) {
    && nonce == tid + |tried| * job.threads
    && forall k :: 0 <= k < |tried| ==> tried[k] == tid + k * job.threads && tried[k] <= MAX_NONCE && !job.Meets(tried[k])
  }

  lemma SearchedNext(job: Job, tid: nat, tried: seq<nat>, nonce: nat)
    requires Searched(job, tid, tried, nonce) && nonce <= MAX_NONCE && !job.Meets(nonce)
    ensures Searched(job, tid, tried + [nonce], nonce + job.threads)
  {
    assert |tried + [nonce]| * job.threads == |tried| * job.threads + job.threads;
  }

  /** One worker on its own: its header buffer is patched in place for every nonce of its
      stride. The flags may be seen set, and the machine may fail, at any moment. */
  method RunWorker(job: Job, tid: nat) returns (tried: seq<nat>, won: Option<nat>, finished: bool)
    requires tid < job.threads
    ensures forall k :: 0 <= k < |tried| ==> tried[k] == tid + k * job.threads && tried[k] <= MAX_NONCE
    ensures forall k :: 0 <= k < |tried| && won != Some(tried[k]) ==> !job.Meets(tried[k])
    ensures won.Some? ==> won.value in tried && job.Meets(won.value)
    ensures finished ==> won.None? && tid + |tried| * job.threads > MAX_NONCE
  {
    tried, won, finished := [], None, false;
    var n := |job.prefix|;
    var header := new u8[n + 4](i => 0);
    forall i | 0 <= i < n { header[i] := job.prefix[i]; }
    var nonce := tid;
    while nonce <= MAX_NONCE
      invariant header.Length == n + 4 && header[..n] == job.prefix
      invariant Searched(job, tid, tried, nonce) && won.None?
      decreases MAX_NONCE + 1 - nonce
    {
      var signalled: bool := *;
      if signalled { return; }
      PatchNonce(header, n, nonce, job);
      var failed: bool := *;
      if failed { return; }
      var h := job.hash(header[..]);
      if Less(h, job.target) { return tried + [nonce], Some(nonce), false; }
      SearchedNext(job, tid, tried, nonce);
      tried, nonce := tried + [nonce], nonce + job.threads;
    }
    finished := true;
  }

  method PatchNonce(header: array<u8>, offset: nat, nonce: nat, ghost job: Job)
    requires header.Length == offset + 4 && header[..offset] == job.prefix
    modifies header
    ensures header[..offset] == job.prefix && header[..] == job.Header(nonce)
  {
    var le := LE(4, nonce);
    forall i | 0 <= i < 4 { header[offset + i] := le[i]; }
    assert header[offset..] == le;
    assert header[..] == header[..offset] + header[offset..];
  }

  // ---------- all workers ----------

  datatype Exit = NoVm | Exhausted | Signalled | HashFailed | Won

  /** Where a worker stands; `next` is the first nonce of its stride it has not hashed. */
  datatype Pc =
    | Starting
    | Checking(next: nat)
    | Hashing(next: nat)
    | Winning(nonce: nat)
    | Publishing(nonce: nat)
    | Done(why: Exit, left: nat)

  datatype Mine = Mine(workers: seq<Pc>, found: bool, stop: bool, result: Option<nat>, log: seq<nat>)

  datatype Action =
    | VmUp(t: nat) | VmFails(t: nat) | Go(t: nat) | Quit(t: nat) | Exhaust(t: nat)
    | Hash(t: nat) | HashFails(t: nat) | Raise(t: nat) | Publish(t: nat) | SetStop

  function Init(job: Job): Mine { Mine(seq(job.threads, _ => Starting), false, false, None, []) }

  /** A relaxed load may miss a flag that another thread has set, so a worker may go on at any
      time; it quits only when one of them is set. */
  predicate Enabled(s: Mine, a: Action) {
    if a.SetStop? then !s.stop else a.t < |s.workers| && Ready(s, s.workers[a.t], a)
  }

  predicate Ready(s: Mine, pc: Pc, a: Action) {
    match a
    case VmUp(_) => pc.Starting?
    case VmFails(_) => pc.Starting?
    case Go(_) => pc.Checking? && pc.next <= MAX_NONCE
    case Quit(_) => pc.Checking? && pc.next <= MAX_NONCE && (s.found || s.stop)
    case Exhaust(_) => pc.Checking? && pc.next > MAX_NONCE
    case Hash(_) => pc.Hashing?
    case HashFails(_) => pc.Hashing?
    case Raise(_) => pc.Winning?
    case Publish(_) => pc.Publishing?
    case SetStop => false
  }

  /** The worker after its step. */
  function Moved(job: Job, s: Mine, pc: Pc, a: Action): Pc
    requires Ready(s, pc, a)
  {
    match a
    case VmUp(t) => Checking(t)
    case VmFails(t) => Done(NoVm, t)
    case Go(_) => Hashing(pc.next)
    case Quit(_) => Done(Signalled, pc.next)
    case Exhaust(_) => Done(Exhausted, pc.next)
    case Hash(_) => if job.Meets(pc.next) then Winning(pc.next) else Checking(pc.next + job.threads)
    case HashFails(_) => Done(HashFailed, pc.next)
    case Raise(_) => Publishing(pc.nonce)
    case Publish(_) => Done(Won, pc.nonce + job.threads)
    case SetStop => pc
  }

  function Apply(job: Job, s: Mine, a: Action): Mine
    requires Enabled(s, a)
  {
    if a.SetStop? then s.(stop := true)
    else
      var pc := s.workers[a.t];
      var s' := s.(workers := s.workers[a.t := Moved(job, s, pc, a)]);
      match a
      case Hash(_) => s'.(log := s.log + [pc.next])
      case Raise(_) => s'.(found := true)
      case Publish(_) => s'.(result := Some(pc.nonce))
      case _ => s'
  }

  /** The state after a list of steps, if each was possible. */
  function After(job: Job, acts: seq<Action>): Option<Mine> {
    if acts == [] then Some(Init(job))
    else
      var s := After(job, acts[..|acts| - 1]);
      if s.Some? && Enabled(s.value, acts[|acts| - 1]) then Some(Apply(job, s.value, acts[|acts| - 1])) else None
  }

  // ---------- the invariant ----------

  /** The first nonce of its stride that a worker has not hashed. */
  function Next(job: Job, pc: Pc, t: nat): nat {
    match pc
    case Starting => t
    case Checking(n) => n
    case Hashing(n) => n
    case Winning(n) => n + job.threads
    case Publishing(n) => n + job.threads
    case Done(_, n) => n
  }

  predicate Successful(pc: Pc) { pc.Winning? || pc.Publishing? || (pc.Done? && pc.why == Won) }

  /** What holds of a worker, given the flags and whether there is a result. */
  predicate PcOk(job: Job, pc: Pc, t: nat, found: bool, stop: bool, result: bool)
    requires job.threads > 0
  {
    && job.Owner(Next(job, pc, t)) == t
    && (pc.Hashing? ==> pc.next <= MAX_NONCE)
    && (pc.Winning? || pc.Publishing? ==> pc.nonce <= MAX_NONCE && job.Meets(pc.nonce))
    && (pc.Publishing? ==> found)
    && (pc.Done? ==> match pc.why
         case Won => result
         case Signalled => found || stop
         case Exhausted => pc.left > MAX_NONCE
         case _ => true)
  }

  predicate WorkerOk(job: Job, s: Mine, t: nat)
    requires t < |s.workers| == job.threads
  {
    PcOk(job, s.workers[t], t, s.found, s.stop, s.result.Some?)
  }

  predicate Logged(job: Job, s: Mine, n: nat)
    requires |s.workers| == job.threads > 0
  {
    n <= MAX_NONCE && n < Next(job, s.workers[job.Owner(n)], job.Owner(n))
  }

  /** The log holds exactly the nonces that the workers have passed, each once, and only a
      successful worker has passed a nonce that meets the target. */
  ghost predicate LogOk(job: Job, s: Mine)
    requires |s.workers| == job.threads > 0
  {
    && (forall n: nat :: n in s.log <==> Logged(job, s, n))
    && (forall i, j :: 0 <= i < j < |s.log| ==> s.log[i] != s.log[j])
    && (forall n :: n in s.log && job.Meets(n) ==> Successful(s.workers[job.Owner(n)]))
  }

  /** A raised flag without a result means that some worker is about to publish. */
  predicate SharedOk(job: Job, s: Mine) {
    && (s.result.Some? ==> s.result.value <= MAX_NONCE && job.Meets(s.result.value))
    && (s.found && s.result.None? ==> exists t :: 0 <= t < |s.workers| && s.workers[t].Publishing?)
  }

  ghost predicate Inv(job: Job, s: Mine) {
    && |s.workers| == job.threads > 0
    && (forall t :: 0 <= t < job.threads ==> WorkerOk(job, s, t))
    && LogOk(job, s) && SharedOk(job, s)
  }

  lemma OwnerOfNext(job: Job, n: nat)
    requires job.threads > 0
    ensures job.Owner(n + job.threads) == job.Owner(n) < job.threads
  {
    Stride(n, job.threads);
  }

  lemma Stride(n: nat, d: nat)
    requires d > 0
    ensures (n + d) % d == n % d
  {
    var q, r := n / d, n % d;
    assert n + d == d * (q + 1) + r;
    Quotient(n + d, d, q + 1, r);
  }

  /** Between a nonce and the next of its stride there is no other of the same worker. */
  lemma NothingBetween(job: Job, n: nat, m: nat)
    requires job.threads > 0 && n < m < n + job.threads
    ensures job.Owner(m) != job.Owner(n)
  {
    var d := job.threads;
    var q, r := n / d, n % d;
    assert n == d * q + r;
    if m < d * (q + 1) {
      Quotient(m, d, q, m - d * q);
    } else {
      assert d * (q + 1) == d * q + d;
      Quotient(m, d, q + 1, m - d * (q + 1));
    }
  }

  lemma InitOk(job: Job)
    requires job.threads > 0
    ensures Inv(job, Init(job))
  {
    forall t: nat | t < job.threads ensures job.Owner(t) == t {
      Quotient(t, job.threads, 0, t);
    }
    forall n: nat ensures !Logged(job, Init(job), n) {
      assert n == job.threads * (n / job.threads) + n % job.threads;
    }
  }

  /** Steps that hash nothing leave the log right. */
  lemma LogKept(job: Job, s: Mine, a: Action)
    requires Inv(job, s) && Enabled(s, a) && !a.Hash?
    ensures LogOk(job, Apply(job, s, a))
  {
    var s' := Apply(job, s, a);
    assert forall t :: 0 <= t < job.threads ==>
      Next(job, s'.workers[t], t) == Next(job, s.workers[t], t) && (Successful(s.workers[t]) ==> Successful(s'.workers[t]));
  }

  /** A hash adds a nonce that no worker has hashed before. */
  lemma LogGrows(job: Job, s: Mine, t: nat)
    requires Inv(job, s) && Enabled(s, Hash(t))
    ensures LogOk(job, Apply(job, s, Hash(t)))
  {
    var s', n := Apply(job, s, Hash(t)), s.workers[t].next;
    assert WorkerOk(job, s, t) && job.Owner(n) == t;
    assert !Logged(job, s, n);
    forall m: nat ensures m in s'.log <==> Logged(job, s', m) {
      if job.Owner(m) == t && n < m < n + job.threads { NothingBetween(job, n, m); }
    }
  }

  /** The worker that moved; its flags are raised and its result published by the same step. */
  lemma MoverKept(job: Job, s: Mine, t: nat, a: Action)
    requires job.threads > 0 && !a.SetStop? && a.t == t < |s.workers| && Ready(s, s.workers[t], a)
    requires PcOk(job, s.workers[t], t, s.found, s.stop, s.result.Some?)
    ensures PcOk(job, Moved(job, s, s.workers[t], a), t, s.found || a.Raise?, s.stop, s.result.Some? || a.Publish?)
  {
    var pc := s.workers[t];
    if a.Hash? { OwnerOfNext(job, pc.next); }
    if a.Publish? { OwnerOfNext(job, pc.nonce); }
  }

  /** A worker that did not move; flags only rise and a result stays. */
  lemma OthersKept(job: Job, pc: Pc, t: nat, found: bool, stop: bool, result: bool, found': bool, stop': bool, result': bool)
    requires job.threads > 0 && PcOk(job, pc, t, found, stop, result)
    requires (found ==> found') && (stop ==> stop') && (result ==> result')
    ensures PcOk(job, pc, t, found', stop', result')
  {
  }

  lemma WorkersKept(job: Job, s: Mine, a: Action)
    requires Inv(job, s) && Enabled(s, a)
    ensures forall t :: 0 <= t < job.threads ==> WorkerOk(job, Apply(job, s, a), t)
  {
    var s' := Apply(job, s, a);
    forall t | 0 <= t < job.threads ensures WorkerOk(job, s', t) {
      assert WorkerOk(job, s, t);
      if !a.SetStop? && a.t == t {
        MoverKept(job, s, t, a);
      } else {
        OthersKept(job, s.workers[t], t, s.found, s.stop, s.result.Some?, s'.found, s'.stop, s'.result.Some?);
      }
    }
  }

  lemma SharedKept(job: Job, s: Mine, a: Action)
    requires Inv(job, s) && Enabled(s, a)
    ensures SharedOk(job, Apply(job, s, a))
  {
    var s' := Apply(job, s, a);
    if s'.found && s'.result.None? {
      var t := if a.Raise? then a.t else WhoPublishes(s);
      assert s'.workers[t].Publishing?;
    }
    if a.Publish? { assert WorkerOk(job, s, a.t); }
  }

  ghost function WhoPublishes(s: Mine): (t: nat)
    requires exists t :: 0 <= t < |s.workers| && s.workers[t].Publishing?
    ensures t < |s.workers| && s.workers[t].Publishing?
  {
    var t :| 0 <= t < |s.workers| && s.workers[t].Publishing?;
    t
  }

  lemma StepKeeps(job: Job, s: Mine, a: Action)
    requires Inv(job, s) && Enabled(s, a)
    ensures Inv(job, Apply(job, s, a))
  {
    WorkersKept(job, s, a);
    SharedKept(job, s, a);
    if a.Hash? { LogGrows(job, s, a.t); } else { LogKept(job, s, a); }
  }

  lemma {:induction false} Always(job: Job, acts: seq<Action>)
    requires job.threads > 0 && After(job, acts).Some?
    ensures Inv(job, After(job, acts).value)
  {
    if acts == [] {
      InitOk(job);
    } else {
      Always(job, acts[..|acts| - 1]);
      StepKeeps(job, After(job, acts[..|acts| - 1]).value, acts[|acts| - 1]);
    }
  }

  // ---------- what the search guarantees ----------

  /** In every interleaving each nonce is hashed at most once, and what is published meets
      the target, as a byte string and as a number. */
  lemma NoNonceTwiceAndResultMeetsTarget(job: Job, acts: seq<Action>)
    requires job.threads > 0 && After(job, acts).Some?
    ensures var s := After(job, acts).value;
            && (forall i, j :: 0 <= i < j < |s.log| ==> s.log[i] != s.log[j])
            && (forall n :: n in s.log ==> n <= MAX_NONCE)
            && (s.result.Some? ==> job.Meets(s.result.value))
            && (s.result.Some? && |job.HashAt(s.result.value)| == |job.target| ==> BE(job.HashAt(s.result.value)) < BE(job.target))
  {
    Always(job, acts);
    var s := After(job, acts).value;
    forall n | n in s.log ensures n <= MAX_NONCE {
      assert n >= 0 ==> Logged(job, s, n);
    }
    if s.result.Some? && |job.HashAt(s.result.value)| == |job.target| {
      ByteOrderIsNumeric(job.HashAt(s.result.value), job.target);
    }
  }

  /** If all workers are through without a result, and none was stopped or failed, then no
      nonce meets the target. */
  lemma ExhaustionIsConclusive(job: Job, acts: seq<Action>, n: nat)
    requires job.threads > 0 && After(job, acts).Some? && n <= MAX_NONCE
    requires var s := After(job, acts).value;
             s.result.None? && !s.stop && forall t :: 0 <= t < |s.workers| ==>
               s.workers[t].Done? && !s.workers[t].why.NoVm? && !s.workers[t].why.HashFailed?
    ensures !job.Meets(n)
  {
    Always(job, acts);
    var s := After(job, acts).value;
    var t := job.Owner(n);
    assert WorkerOk(job, s, t);
    assert s.workers[t].why.Exhausted?;
    assert Logged(job, s, n);
  }

  /** When all workers are through and one of them won, its nonce is there to be returned. */
  lemma WinnerIsPublished(job: Job, acts: seq<Action>, t: nat)
    requires job.threads > 0 && After(job, acts).Some?
    requires var ws := After(job, acts).value.workers; t < |ws| && ws[t].Done? && Successful(ws[t])
    ensures After(job, acts).value.result.Some?
  {
    Always(job, acts);
    assert WorkerOk(job, After(job, acts).value, t);
  }

  // ---------- every run ends ----------

  function Left(n: nat): nat { if n <= MAX_NONCE then MAX_NONCE + 1 - n else 0 }

  /** A bound on the steps a worker can still take. */
  function Rank(pc: Pc): nat {
    match pc
    case Starting => 4 * Left(0) + 4
    case Checking(n) => 4 * Left(n) + 3
    case Hashing(n) => 4 * Left(n) + 2
    case Winning(_) => 2
    case Publishing(_) => 1
    case Done(_, _) => 0
  }

  function Ranks(workers: seq<Pc>): nat {
    if workers == [] then 0 else Rank(workers[0]) + Ranks(workers[1..])
  }

  lemma {:induction false} RanksUpdate(workers: seq<Pc>, t: nat, pc: Pc)
    requires t < |workers|
    ensures Ranks(workers[t := pc]) == Ranks(workers) - Rank(workers[t]) + Rank(pc)
  {
    if t == 0 {
      assert workers[0 := pc][1..] == workers[1..];
    } else {
      assert workers[t := pc][1..] == workers[1..][t - 1 := pc];
      RanksUpdate(workers[1..], t - 1, pc);
    }
  }

  function Budget(s: Mine): nat { Ranks(s.workers) + if s.stop then 0 else 1 }

  lemma RankFalls(job: Job, s: Mine, pc: Pc, a: Action)
    requires job.threads > 0 && Ready(s, pc, a) && (pc.Hashing? ==> pc.next <= MAX_NONCE)
    ensures Rank(Moved(job, s, pc, a)) < Rank(pc)
  {
  }

  lemma StepSpends(job: Job, s: Mine, a: Action)
    requires Inv(job, s) && Enabled(s, a)
    ensures Budget(Apply(job, s, a)) < Budget(s)
  {
    if !a.SetStop? {
      var pc := s.workers[a.t];
      assert WorkerOk(job, s, a.t);
      RankFalls(job, s, pc, a);
      RanksUpdate(s.workers, a.t, Moved(job, s, pc, a));
    }
  }

  /** No interleaving goes on for ever, and none gets stuck before every worker is through. */
  lemma {:induction false} RunsEnd(job: Job, acts: seq<Action>)
    requires job.threads > 0 && After(job, acts).Some?
    ensures |acts| + Budget(After(job, acts).value) <= Budget(Init(job))
    ensures var s := After(job, acts).value;
            forall t :: 0 <= t < |s.workers| && !s.workers[t].Done? ==> exists a: Action :: !a.SetStop? && a.t == t && Enabled(s, a)
  {
    Always(job, acts);
    var s := After(job, acts).value;
    if acts != [] {
      RunsEnd(job, acts[..|acts| - 1]);
      Always(job, acts[..|acts| - 1]);
      StepSpends(job, After(job, acts[..|acts| - 1]).value, acts[|acts| - 1]);
    }
    forall t | 0 <= t < |s.workers| && !s.workers[t].Done?
      ensures exists a: Action :: !a.SetStop? && a.t == t && Enabled(s, a)
    {
      var a := match s.workers[t]
        case Starting => VmUp(t)
        case Checking(n) => if n <= MAX_NONCE then Go(t) else Exhaust(t)
        case Hashing(_) => Hash(t)
        case Winning(_) => Raise(t)
        case Publishing(_) => Publish(t)
        case Done(_, _) => SetStop;
      assert Enabled(s, a) && a.t == t;
    }
  }
}
