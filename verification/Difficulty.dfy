/** The difficulty rules: a weighted mean of recent solve times, a clamp against the previous
    target and an emergency easing. */
module Difficulty {
  import opened Arith
  import opened Bytes
  import opened CompactBits

  const TARGET_BLOCK_TIME: nat := 37
  const LWMA_WINDOW: nat := 75
  const EDA_WINDOW: nat := 48

  datatype Header = Header(timestamp: int, bits: Option<int>)

  function BitsOf(h: Header): int { if h.bits.Some? then h.bits.value else MAX_BITS }

  function TargetOf(h: Header): nat { BitsToTarget(BitsOf(h)) }

  function AtLeastOne(x: int): nat { if x < 1 then 1 else x }

  function Min(a: nat, b: nat): nat { if a < b then a else b }

  // ---------- the weighted mean ----------

  /** The time between two blocks, cut to between one second and six block times. */
  function SolveTime(a: Header, b: Header): (st: nat)
    ensures 1 <= st <= 6 * TARGET_BLOCK_TIME
  {
    var st := b.timestamp - a.timestamp;
    if st > 6 * TARGET_BLOCK_TIME then 6 * TARGET_BLOCK_TIME else AtLeastOne(st)
  }

  function DiffOf(h: Header): (d: nat)
    ensures d >= 1
  {
    AtLeastOne(TargetToDifficulty(TargetOf(h)))
  }

  /** Solve times of the first `m` blocks, each weighted by its place. */
  function WeightedTime(w: seq<Header>, m: nat): nat
    requires m <= |w|
  {
    if m <= 1 then 0 else WeightedTime(w, m - 1) + (m - 1) * SolveTime(w[m - 2], w[m - 1])
  }

  function SumDiff(w: seq<Header>, m: nat): nat
    requires m <= |w|
  {
    if m <= 1 then 0 else SumDiff(w, m - 1) + DiffOf(w[m - 1])
  }

  function Weights(n: nat): nat { if n <= 1 then 0 else Weights(n - 1) + (n - 1) }

  lemma {:induction false} WeightsAre(n: nat)
    ensures n * (n - 1) == 2 * Weights(n)
    ensures n > 1 ==> Weights(n) > 0
  {
    if n > 1 { WeightsAre(n - 1); }
  }

  function AverageDiff(w: seq<Header>): (d: nat)
    requires |w| >= 2
    ensures d >= 1
  {
    AtLeastOne(SumDiff(w, |w|) / (|w| - 1))
  }

  function MeanTime(w: seq<Header>): (t: nat)
    requires |w| >= 2
    ensures t >= 1
  {
    WeightsAre(|w|);
    AtLeastOne(WeightedTime(w, |w|) / Weights(|w|))
  }

  function NextDiff(w: seq<Header>): (d: nat)
    requires |w| >= 2
    ensures d >= 1
  {
    AtLeastOne(AverageDiff(w) * TARGET_BLOCK_TIME / MeanTime(w))
  }

  function Last<T>(s: seq<T>, n: nat): seq<T>
    requires n <= |s|
  {
    s[|s| - n..]
  }

  method CalculateLwmaTarget(prefix: seq<Header>, n: nat) returns (target: nat)
    requires 2 <= n <= |prefix|
    ensures target == DifficultyToTarget(NextDiff(Last(prefix, n)))
  {
    var window := Last(prefix, n);
    WeightsAre(n);
    var k := n * (n - 1) / 2;
    var sumWst, sumDiff := SumWindow(window);
    var avgDiff := AtLeastOne(sumDiff / (n - 1));
    var lwmaSt := AtLeastOne(sumWst / k);
    var nextDiff := AtLeastOne(avgDiff * TARGET_BLOCK_TIME / lwmaSt);
    return DifficultyToTarget(nextDiff);
  }

  method SumWindow(window: seq<Header>) returns (sumWst: nat, sumDiff: nat)
    requires |window| >= 2
    ensures sumWst == WeightedTime(window, |window|) && sumDiff == SumDiff(window, |window|)
  {
    sumWst, sumDiff := 0, 0;
    var prevTs := window[0].timestamp;
    for i := 1 to |window|
      invariant prevTs == window[i - 1].timestamp
      invariant sumWst == WeightedTime(window, i) && sumDiff == SumDiff(window, i)
    {
      var b := window[i];
      var st := CutTime(b.timestamp - prevTs);
      WindowStep(window, i, st);
      sumWst := sumWst + i * st;
      sumDiff := sumDiff + DiffOf(b);
      prevTs := b.timestamp;
    }
  }

  lemma WindowStep(w: seq<Header>, i: nat, st: int)
    requires 1 <= i < |w| && st == SolveTime(w[i - 1], w[i])
    ensures WeightedTime(w, i + 1) == WeightedTime(w, i) + i * st
    ensures SumDiff(w, i + 1) == SumDiff(w, i) + DiffOf(w[i])
  {
  }

  method CutTime(elapsed: int) returns (st: int)
    ensures st == if elapsed > 6 * TARGET_BLOCK_TIME then 6 * TARGET_BLOCK_TIME else AtLeastOne(elapsed)
  {
    var t: int := TARGET_BLOCK_TIME;
    st := elapsed;
    if st < -6 * t { st := -6 * t; }
    if st > 6 * t { st := 6 * t; }
    if st < 1 { st := 1; }
  }

  lemma {:induction false} WeightedTimeAtMost(w: seq<Header>, m: nat, limit: nat)
    requires m <= |w| && forall i :: 0 < i < m ==> SolveTime(w[i - 1], w[i]) <= limit
    ensures WeightedTime(w, m) <= limit * Weights(m)
  {
    if m > 1 {
      WeightedTimeAtMost(w, m - 1, limit);
      Scale(m - 1, SolveTime(w[m - 2], w[m - 1]), limit);
      assert limit * (Weights(m - 1) + (m - 1)) == limit * Weights(m - 1) + (m - 1) * limit;
    }
  }

  lemma {:induction false} WeightedTimeAtLeast(w: seq<Header>, m: nat, limit: nat)
    requires m <= |w| && forall i :: 0 < i < m ==> SolveTime(w[i - 1], w[i]) >= limit
    ensures WeightedTime(w, m) >= limit * Weights(m)
  {
    if m > 1 {
      WeightedTimeAtLeast(w, m - 1, limit);
      Scale(m - 1, limit, SolveTime(w[m - 2], w[m - 1]));
      assert limit * (Weights(m - 1) + (m - 1)) == limit * Weights(m - 1) + (m - 1) * limit;
    }
  }

  lemma MeanTimeAtMost(w: seq<Header>, limit: nat)
    requires |w| >= 2 && limit >= 1 && forall i :: 0 < i < |w| ==> SolveTime(w[i - 1], w[i]) <= limit
    ensures MeanTime(w) <= limit
  {
    WeightsAre(|w|);
    WeightedTimeAtMost(w, |w|, limit);
    var k := Weights(|w|);
    Fits(WeightedTime(w, |w|), k, limit + 1);
    assert k * (limit + 1) == limit * k + k;
  }

  /** One adjustment changes the average difficulty by no more than a factor of six down and
      of the block time up. */
  lemma NextDiffBounds(w: seq<Header>)
    requires |w| >= 2
    ensures AtLeastOne(AverageDiff(w) / 6) <= NextDiff(w) <= AverageDiff(w) * TARGET_BLOCK_TIME
  {
    MeanTimeAtMost(w, 6 * TARGET_BLOCK_TIME);
    RatioBounds(AverageDiff(w), MeanTime(w));
  }

  lemma RatioBounds(avg: nat, mean: nat)
    requires 1 <= mean <= 6 * TARGET_BLOCK_TIME
    ensures avg / 6 <= avg * TARGET_BLOCK_TIME / mean <= avg * TARGET_BLOCK_TIME
  {
    var q, v := avg / 6, avg * TARGET_BLOCK_TIME;
    Scale(q, mean, 6 * TARGET_BLOCK_TIME);
    Fits(v, mean, q);
    Fits(v, mean, v + 1);
    Scale(v + 1, 1, mean);
  }

  // ---------- what the sums and quotients are ----------

  /** Replacing one block changes the sum by the difference of the two difficulties; the first
      block of the window is not counted. */
  lemma {:induction false} SumDiffIsLinear(v: seq<Header>, w: seq<Header>, i: nat, m: nat)
    requires i < |v| == |w| && m <= |v| && forall j :: 0 <= j < |v| && j != i ==> v[j] == w[j]
    ensures SumDiff(w, m) - SumDiff(v, m) == if 0 < i < m then DiffOf(w[i]) - DiffOf(v[i]) else 0
  {
    if m > 1 {
      SumDiffIsLinear(v, w, i, m - 1);
      assert m - 1 == i || v[m - 1] == w[m - 1];
    }
  }

  lemma {:induction false} SumDiffAtLeast(w: seq<Header>, m: nat)
    requires m <= |w|
    ensures SumDiff(w, m) >= m - 1
  {
    if m > 1 { SumDiffAtLeast(w, m - 1); }
  }

  /** Delaying block i by one second against its predecessor, and all later ones with it, adds
      i seconds to the weighted sum. */
  lemma {:induction false} WeightedTimeIsLinear(v: seq<Header>, w: seq<Header>, i: nat, m: nat)
    requires 0 < i < |v| == |w| && m <= |v|
    requires forall j :: 0 < j < |v| && j != i ==> SolveTime(w[j - 1], w[j]) == SolveTime(v[j - 1], v[j])
    ensures WeightedTime(w, m) - WeightedTime(v, m) ==
            if i < m then Product(i, SolveTime(w[i - 1], w[i]) - SolveTime(v[i - 1], v[i])) else 0
  {
    if m > 1 {
      WeightedTimeIsLinear(v, w, i, m - 1);
      Difference(m - 1, SolveTime(v[m - 2], v[m - 1]), SolveTime(w[m - 2], w[m - 1]));
    }
  }

  function Product(x: int, y: int): int { x * y }

  lemma Difference(k: int, a: int, b: int)
    ensures k * b - k * a == Product(k, b - a)
  {
  }

  /** The solve time is the time between the blocks if that is between one second and 222. */
  lemma SolveTimeIs(a: Header, b: Header)
    ensures var d := b.timestamp - a.timestamp;
            && (1 <= d <= 222 ==> SolveTime(a, b) == d)
            && (d < 1 ==> SolveTime(a, b) == 1) && (d > 222 ==> SolveTime(a, b) == 222)
  {
  }

  /** A block's difficulty is how often its target goes into the 2^256 hashes. */
  lemma DiffIs(h: Header)
    requires 1 <= TargetOf(h) <= Pow2(256)
    ensures DiffOf(h) * TargetOf(h) <= Pow2(256) < (DiffOf(h) + 1) * TargetOf(h)
  {
    AllHashes();
    DifficultyIs(TargetOf(h));
    Fits(Pow2(256), TargetOf(h), 1);
  }

  /** The average difficulty is the mean over the blocks after the first, rounded down. */
  lemma AverageIs(w: seq<Header>)
    requires |w| >= 2
    ensures AverageDiff(w) * (|w| - 1) <= SumDiff(w, |w|) < (AverageDiff(w) + 1) * (|w| - 1)
  {
    var sum, n, avg := Averaged(w);
    RoundedDown(sum, n);
  }

  lemma Averaged(w: seq<Header>) returns (sum: nat, n: nat, avg: nat)
    requires |w| >= 2
    ensures sum == SumDiff(w, |w|) >= n == |w| - 1 > 0 && AverageDiff(w) == avg == AtLeastOne(sum / n)
  {
    SumDiffAtLeast(w, |w|);
    sum, n, avg := SumDiff(w, |w|), |w| - 1, AverageDiff(w);
  }

  lemma RoundedDown(v: nat, d: nat)
    requires 0 < d <= v
    ensures AtLeastOne(v / d) * d <= v < (AtLeastOne(v / d) + 1) * d
  {
    Fits(v, d, 1);
    Shares(v, d);
  }

  /** The mean time is the weighted sum over n(n - 1)/2, rounded down. */
  lemma MeanIs(w: seq<Header>)
    requires |w| >= 2
    ensures MeanTime(w) * (|w| * (|w| - 1)) <= 2 * WeightedTime(w, |w|) < (MeanTime(w) + 1) * (|w| * (|w| - 1))
  {
    var k, t := Weights(|w|), MeanTime(w);
    WeightsAre(|w|);
    WeightedTimeAtLeast(w, |w|, 1);
    Fits(WeightedTime(w, |w|), k, 1);
    Shares(WeightedTime(w, |w|), k);
    Doubled(t, k);
    Doubled(t + 1, k);
    assert |w| * (|w| - 1) == 2 * k;
  }

  lemma Doubled(t: nat, k: nat)
    ensures t * (2 * k) == 2 * (t * k)
  {
  }

  /** The next difficulty scales the average by block time over mean time, rounded down, but is
      one at least. */
  lemma NextIs(w: seq<Header>)
    requires |w| >= 2
    ensures var a, t, d := AverageDiff(w) * TARGET_BLOCK_TIME, MeanTime(w), NextDiff(w);
            if a < t then d == 1 else d * t <= a < (d + 1) * t
  {
    var a, t := AverageDiff(w) * TARGET_BLOCK_TIME, MeanTime(w);
    Fits(a, t, 1);
    Shares(a, t);
  }

  /** Blocks that come on time keep the difficulty at its average. */
  lemma SteadyNextDiff(w: seq<Header>)
    requires |w| >= 2 && forall i :: 0 < i < |w| ==> SolveTime(w[i - 1], w[i]) == TARGET_BLOCK_TIME
    ensures NextDiff(w) == AverageDiff(w)
  {
    WeightsAre(|w|);
    WeightedTimeAtMost(w, |w|, TARGET_BLOCK_TIME);
    WeightedTimeAtLeast(w, |w|, TARGET_BLOCK_TIME);
    Quotient(WeightedTime(w, |w|), Weights(|w|), TARGET_BLOCK_TIME, 0);
    Quotient(AverageDiff(w) * TARGET_BLOCK_TIME, TARGET_BLOCK_TIME, AverageDiff(w), 0);
  }

  // ---------- clamp and emergency easing ----------

  /** At most three halves and at least two fifths of the previous target. */
  function Clamp(prev: nat, next: nat, maxTarget: nat): nat {
    var p := AtLeastOne(prev);
    var t := if 2 * next > 3 * p then 3 * p / 2 else if 5 * next < 2 * p then 2 * p / 5 else next;
    Min(t, maxTarget)
  }

  /** A target within the bounds is only capped; one beyond goes to the bound, rounded down. */
  lemma ClampIs(prev: nat, next: nat, maxTarget: nat)
    requires prev >= 1
    ensures 2 * prev <= 5 * next && 2 * next <= 3 * prev ==> Clamp(prev, next, maxTarget) == Min(next, maxTarget)
    ensures 2 * next > 3 * prev ==> exists t: nat :: Clamp(prev, next, maxTarget) == Min(t, maxTarget) && 2 * t <= 3 * prev < 2 * t + 2
    ensures 5 * next < 2 * prev ==> exists t: nat :: Clamp(prev, next, maxTarget) == Min(t, maxTarget) && 5 * t <= 2 * prev < 5 * t + 5
  {
    if 2 * next > 3 * prev {
      var t := 3 * prev / 2;
      assert Clamp(prev, next, maxTarget) == Min(t, maxTarget) && 2 * t <= 3 * prev < 2 * t + 2;
    } else if 5 * next < 2 * prev {
      var t := 2 * prev / 5;
      assert Clamp(prev, next, maxTarget) == Min(t, maxTarget) && 5 * t <= 2 * prev < 5 * t + 5;
    }
  }

  /** With increasing timestamps the elapsed time is the time from the first block to the last. */
  lemma {:induction false} ElapsedIs(w: seq<Header>, m: nat)
    requires 1 <= m <= |w| && forall i :: 0 < i < m ==> w[i - 1].timestamp < w[i].timestamp
    ensures Elapsed(w, m) == w[m - 1].timestamp - w[0].timestamp
  {
    if m > 1 { ElapsedIs(w, m - 1); }
  }

  /** The emergency rule fires exactly when the recent blocks took more than 111 seconds each. */
  lemma EmergencyExactlyWhen(prefix: seq<Header>)
    requires |prefix| >= 2 && forall i :: 0 < i < |prefix| ==> prefix[i - 1].timestamp < prefix[i].timestamp
    ensures var m := if |prefix| < 48 then |prefix| else 48;
            Emergency(prefix) <==> prefix[|prefix| - 1].timestamp - prefix[|prefix| - m].timestamp > 111 * (m - 1)
  {
    var m := Min(EDA_WINDOW, |prefix|);
    var w := Last(prefix, m);
    forall i | 0 < i < m ensures w[i - 1].timestamp < w[i].timestamp {
      assert prefix[|prefix| - m + i - 1].timestamp < prefix[|prefix| - m + i].timestamp;
    }
    ElapsedIs(w, m);
  }

  function Elapsed(w: seq<Header>, m: nat): nat
    requires m <= |w|
  {
    if m <= 1 then 0 else Elapsed(w, m - 1) + AtLeastOne(w[m - 1].timestamp - w[m - 2].timestamp)
  }

  /** The recent blocks took more than three times as long as they should. */
  predicate Emergency(prefix: seq<Header>)
    requires prefix != []
  {
    var m := Min(EDA_WINDOW, |prefix|);
    m >= 2 && Elapsed(Last(prefix, m), m) > 3 * TARGET_BLOCK_TIME * (m - 1)
  }

  method ApplyEda(prefix: seq<Header>, nextTarget: nat, maxTarget: nat) returns (target: nat)
    requires prefix != []
    ensures target == if Emergency(prefix) then Min(2 * TargetOf(prefix[|prefix| - 1]), maxTarget) else nextTarget
  {
    target := nextTarget;
    var m := Min(EDA_WINDOW, |prefix|);
    if m < 2 { return; }
    var w := Last(prefix, m);
    var totalDt, countDt := 0, 0;
    for i := 1 to m
      invariant totalDt == Elapsed(w, i) && countDt == i - 1
    {
      var dt := w[i].timestamp - w[i - 1].timestamp;
      if dt < 1 { dt := 1; }
      totalDt, countDt := totalDt + dt, countDt + 1;
    }
    if totalDt > 3 * TARGET_BLOCK_TIME * countDt {
      target := Min(2 * TargetOf(prefix[|prefix| - 1]), maxTarget);
    }
  }

  function Lwma(prefix: seq<Header>): nat
    requires |prefix| >= 2
  {
    DifficultyToTarget(NextDiff(Last(prefix, Min(LWMA_WINDOW, |prefix|))))
  }

  function MaxTarget(): nat { BitsToTarget(MAX_BITS) }

  function ClampedTarget(prefix: seq<Header>): nat
    requires |prefix| >= 2
  {
    Clamp(TargetOf(prefix[|prefix| - 1]), Lwma(prefix), MaxTarget())
  }

  /** The target the next block has to meet, before it is written in compact form. */
  function ExpectedTarget(prefix: seq<Header>): nat
    requires |prefix| >= 2
  {
    Min(if Emergency(prefix) then Min(2 * TargetOf(prefix[|prefix| - 1]), MaxTarget()) else ClampedTarget(prefix), MaxTarget())
  }

  function ExpectedBits(prefix: seq<Header>, nextHeight: int): int {
    if nextHeight <= 0 || prefix == [] then MAX_BITS
    else if |prefix| < 2 then BitsOf(prefix[|prefix| - 1])
    else TargetToBits(ExpectedTarget(prefix))
  }

  method ExpectedBitsOnPrefix(prefix: seq<Header>, nextHeight: int) returns (bits: int)
    ensures bits == ExpectedBits(prefix, nextHeight)
  {
    if nextHeight <= 0 || prefix == [] { return MAX_BITS; }
    if |prefix| < 2 { return BitsOf(prefix[|prefix| - 1]); }
    var n := Min(LWMA_WINDOW, |prefix|);
    var nextTarget := CalculateLwmaTarget(prefix, n);
    var maxTarget := BitsToTarget(MAX_BITS);
    nextTarget := Clamp(TargetOf(prefix[|prefix| - 1]), nextTarget, maxTarget);
    nextTarget := ApplyEda(prefix, nextTarget, maxTarget);
    if nextTarget > maxTarget { nextTarget := maxTarget; }
    return TargetToBits(nextTarget);
  }

  /** A block is valid when its bits are the ones its own prefix of the chain asks for. */
  method ValidateDifficulty(chain: seq<Header>, height: nat, bits: int) returns (ok: bool)
    ensures ok <==> height == 0 || bits == ExpectedBits(chain[..Min(height, |chain|)], height)
  {
    if height == 0 { return true; }
    var expected := ExpectedBitsOnPrefix(chain[..Min(height, |chain|)], height);
    return bits == expected;
  }

  // ---------- how far the target moves ----------

  /** The target stays between two fifths and twice the previous one, and the cap, exactly
      when the previous one is not zero or the emergency rule fires; without the emergency it
      grows by at most a half. */
  lemma TargetBoundsExactlyWhen(prefix: seq<Header>)
    requires |prefix| >= 2 && TargetOf(prefix[|prefix| - 1]) <= MaxTarget()
    ensures var prev := TargetOf(prefix[|prefix| - 1]);
            2 * prev / 5 <= ExpectedTarget(prefix) <= Min(2 * prev, MaxTarget()) <==> prev >= 1 || Emergency(prefix)
    ensures var prev := TargetOf(prefix[|prefix| - 1]);
            prev >= 1 && !Emergency(prefix) ==> ExpectedTarget(prefix) <= 3 * prev / 2
  {
    MaxTargetIsSmall();
    InBoundsWhen(TargetOf(prefix[|prefix| - 1]), Lwma(prefix), MaxTarget());
  }

  lemma InBoundsWhen(prev: nat, next: nat, maxTarget: nat)
    requires next >= 1 && prev <= maxTarget && maxTarget >= 1
    ensures 2 * prev / 5 <= Clamp(prev, next, maxTarget) <= Min(2 * prev, maxTarget) <==> prev >= 1
    ensures prev >= 1 ==> Clamp(prev, next, maxTarget) <= 3 * prev / 2
  {
  }

  /** In an emergency the target doubles, up to the easiest one. */
  lemma EmergencyDoubles(prefix: seq<Header>)
    requires |prefix| >= 2 && Emergency(prefix)
    ensures var prev := TargetOf(prefix[|prefix| - 1]);
            ExpectedTarget(prefix) == if prev + prev <= MaxTarget() then prev + prev else MaxTarget()
  {
  }

  /** A block without bits counts as one with the easiest target. */
  lemma MissingBits(h: Header)
    requires h.bits == None
    ensures TargetOf(h) == MaxTarget() == 0x1F_FFFF * Pow256(28)
  {
    assert MAX_BITS / 0x100_0000 % 256 == 31 && MAX_BITS % 0x80_0000 == 0x1F_FFFF;
  }

  /** The emergency rule never makes mining harder, exactly when the previous target is not
      zero. */
  lemma EmergencyEasesExactlyWhen(prefix: seq<Header>)
    requires |prefix| >= 2 && Emergency(prefix)
    ensures ExpectedTarget(prefix) >= ClampedTarget(prefix) <==> TargetOf(prefix[|prefix| - 1]) >= 1
  {
    MaxTargetIsSmall();
  }

  lemma MaxTargetIsSmall()
    ensures 0x100_0000 <= 3 * MaxTarget() <= DIFFICULTY_CONST < Pow256(200) && MaxTarget() >= 1
  {
    assert MAX_BITS / 0x100_0000 % 256 == 31 && MAX_BITS % 0x80_0000 == 0x1F_FFFF;
    PowSum(28, 4);
    PowConstants();
    PowGrows(32, 200);
    PowGrows(33, 200);
    PowGrows(4, 28);
    assert Pow256(33) == 256 * Pow256(32);
  }

  // ---------- what the target depends on ----------

  /** Only the last blocks count, as many as the longer window holds. */
  lemma OnlyRecentBlocksCount(earlier: seq<Header>, recent: seq<Header>, nextHeight: int)
    requires |recent| >= LWMA_WINDOW
    ensures ExpectedBits(earlier + recent, nextHeight) == ExpectedBits(recent, nextHeight)
  {
    var all := earlier + recent;
    assert Last(all, LWMA_WINDOW) == Last(recent, LWMA_WINDOW);
    assert Last(all, EDA_WINDOW) == Last(recent, EDA_WINDOW);
    assert all[|all| - 1] == recent[|recent| - 1];
  }

  /** The same chain, but no block of it came sooner. */
  predicate Slower(a: seq<Header>, b: seq<Header>) {
    && |a| == |b|
    && (forall i :: 0 <= i < |a| ==> a[i].bits == b[i].bits)
    && (forall i :: 0 < i < |a| ==> a[i].timestamp - a[i - 1].timestamp <= b[i].timestamp - b[i - 1].timestamp)
  }

  lemma {:induction false} SlowerSums(a: seq<Header>, b: seq<Header>, m: nat)
    requires Slower(a, b) && m <= |a|
    ensures WeightedTime(a, m) <= WeightedTime(b, m) && SumDiff(a, m) == SumDiff(b, m) && Elapsed(a, m) <= Elapsed(b, m)
  {
    if m > 1 {
      SlowerSums(a, b, m - 1);
      assert SolveTime(a[m - 2], a[m - 1]) <= SolveTime(b[m - 2], b[m - 1]);
      Scale(m - 1, SolveTime(a[m - 2], a[m - 1]), SolveTime(b[m - 2], b[m - 1]));
    }
  }

  lemma Antitone(v: nat, x: nat, y: nat)
    requires 1 <= x <= y
    ensures v / y <= v / x
  {
    Fits(v, y, v / y);
    Scale(v / y, x, y);
    Fits(v, x, v / y);
  }

  lemma Monotone(v: nat, w: nat, d: nat)
    requires v <= w && d >= 1
    ensures v / d <= w / d
  {
    Fits(v, d, v / d);
    Fits(w, d, v / d);
  }

  lemma SlowerLwma(a: seq<Header>, b: seq<Header>)
    requires |a| >= 2 && Slower(a, b)
    ensures DifficultyToTarget(NextDiff(a)) <= DifficultyToTarget(NextDiff(b))
  {
    SlowerSums(a, b, |a|);
    WeightsAre(|a|);
    Monotone(WeightedTime(a, |a|), WeightedTime(b, |a|), Weights(|a|));
    Antitone(AverageDiff(a) * TARGET_BLOCK_TIME, MeanTime(a), MeanTime(b));
    Antitone(DIFFICULTY_CONST, NextDiff(b), NextDiff(a));
  }

  lemma SlowerLast(a: seq<Header>, b: seq<Header>, n: nat)
    requires Slower(a, b) && n <= |a|
    ensures Slower(Last(a, n), Last(b, n))
  {
    var x, y, k := Last(a, n), Last(b, n), |a| - n;
    forall i | 0 <= i < n ensures x[i].bits == y[i].bits {
      assert a[k + i].bits == b[k + i].bits;
    }
    forall i | 0 < i < n ensures x[i].timestamp - x[i - 1].timestamp <= y[i].timestamp - y[i - 1].timestamp {
      assert a[k + i].timestamp - a[k + i - 1].timestamp <= b[k + i].timestamp - b[k + i - 1].timestamp;
    }
  }

  lemma SlowerMean(a: seq<Header>, b: seq<Header>)
    requires |a| >= 2 && Slower(a, b)
    ensures Lwma(a) <= Lwma(b)
  {
    var n := Min(LWMA_WINDOW, |a|);
    SlowerLast(a, b, n);
    SlowerLwma(Last(a, n), Last(b, n));
  }

  lemma SlowerEmergency(a: seq<Header>, b: seq<Header>)
    requires |a| >= 2 && Slower(a, b)
    ensures Emergency(a) ==> Emergency(b)
  {
    var m := Min(EDA_WINDOW, |a|);
    SlowerLast(a, b, m);
    SlowerSums(Last(a, m), Last(b, m), m);
  }

  /** If blocks come slower, the next target is never lower. */
  lemma SlowerBlocksNeverLowerTheTarget(a: seq<Header>, b: seq<Header>)
    requires |a| >= 2 && Slower(a, b) && TargetOf(a[|a| - 1]) >= 1
    ensures ExpectedTarget(a) <= ExpectedTarget(b) <= MaxTarget()
  {
    SlowerMean(a, b);
    SlowerEmergency(a, b);
    ClampMonotone(TargetOf(a[|a| - 1]), Lwma(a), Lwma(b), MaxTarget());
  }

  /** The bits of the next block never get harder if blocks come slower, as long as the next
      target lies where the notation keeps the order. */
  lemma SlowerBlocksNeverRaiseDifficulty(a: seq<Header>, b: seq<Header>, nextHeight: int)
    requires |a| >= 2 && nextHeight > 0 && Slower(a, b) && ExpectedTarget(a) >= 0x80_0000
    ensures var easier, harder := BitsToTarget(ExpectedBits(b, nextHeight)), BitsToTarget(ExpectedBits(a, nextHeight));
            harder <= easier && TargetToDifficulty(easier) <= TargetToDifficulty(harder)
  {
    assert TargetOf(a[|a| - 1]) >= 1;
    SlowerBlocksNeverLowerTheTarget(a, b);
    WrittenInOrder(ExpectedTarget(a), ExpectedTarget(b));
  }

  lemma WrittenInOrder(x: nat, y: nat)
    requires 0x80_0000 <= x <= y <= MaxTarget()
    ensures Reread(x) <= Reread(y) && TargetToDifficulty(Reread(y)) <= TargetToDifficulty(Reread(x))
  {
    MaxTargetIsSmall();
    EncodingMonotone(x, y);
    Antitone(DIFFICULTY_CONST, AtLeastOne(Reread(x)), AtLeastOne(Reread(y)));
  }

  lemma ClampMonotone(prev: nat, x: nat, y: nat, maxTarget: nat)
    requires prev >= 1 && x <= y
    ensures Clamp(prev, x, maxTarget) <= Clamp(prev, y, maxTarget) <= Min(2 * prev, maxTarget)
  {
  }

  // ---------- a steady chain ----------

  predicate Steady(prefix: seq<Header>, bits: int) {
    && (forall i :: 0 <= i < |prefix| ==> BitsOf(prefix[i]) == bits)
    && (forall i :: 0 < i < |prefix| ==> prefix[i].timestamp - prefix[i - 1].timestamp == TARGET_BLOCK_TIME)
  }

  /** All but the first of `m` numbers. */
  function SumRest(ds: seq<nat>, m: nat): nat
    requires m <= |ds|
  {
    if m <= 1 then 0 else SumRest(ds, m - 1) + ds[m - 1]
  }

  lemma {:induction false} SumDiffIsSum(w: seq<Header>, ds: seq<nat>, m: nat)
    requires m <= |w| == |ds| && forall i :: 0 <= i < |w| ==> ds[i] == DiffOf(w[i])
    ensures SumDiff(w, m) == SumRest(ds, m)
  {
    if m > 1 { SumDiffIsSum(w, ds, m - 1); }
  }

  lemma {:induction false} ConstantSum(ds: seq<nat>, d: nat, m: nat)
    requires 1 <= m <= |ds| && forall i :: 0 <= i < |ds| ==> ds[i] == d
    ensures SumRest(ds, m) == d * (m - 1)
  {
    if m > 1 {
      ConstantSum(ds, d, m - 1);
      OneMore(d, m - 2);
    }
  }

  lemma SteadyDiffs(w: seq<Header>, d: nat, m: nat)
    requires 1 <= m <= |w| && forall i :: 0 <= i < |w| ==> DiffOf(w[i]) == d
    ensures SumDiff(w, m) == d * (m - 1)
  {
    var ds := seq(|w|, _ => d);
    SumDiffIsSum(w, ds, m);
    ConstantSum(ds, d, m);
  }

  lemma OneMore(d: nat, k: nat)
    ensures d * (k + 1) == d * k + d
  {
  }

  lemma SteadyWindow(w: seq<Header>, d: nat)
    requires |w| >= 2 && (forall i :: 0 < i < |w| ==> SolveTime(w[i - 1], w[i]) == TARGET_BLOCK_TIME)
    requires forall i :: 0 <= i < |w| ==> DiffOf(w[i]) == d
    ensures NextDiff(w) == d
  {
    assert DiffOf(w[0]) == d;
    SteadyDiffs(w, d, |w|);
    MeanOf(SumDiff(w, |w|), d, |w| - 1);
    SteadyNextDiff(w);
  }

  lemma MeanOf(sum: nat, d: nat, k: nat)
    requires k >= 1 && d >= 1 && sum == d * k
    ensures AtLeastOne(sum / k) == d
  {
    Quotient(sum, k, d, 0);
  }

  /** Converting to a difficulty and back rounds a target up, by less than a half, and keeps
      its difficulty. */
  lemma BackAndForth(t: nat, x: nat)
    requires 1 <= t && 3 * t <= DIFFICULTY_CONST && t <= x <= DIFFICULTY_CONST / (DIFFICULTY_CONST / t)
    ensures 2 * x <= 3 * t && DIFFICULTY_CONST / x == DIFFICULTY_CONST / t
  {
    var c := DIFFICULTY_CONST;
    var d := c / t;
    Fits(c, t, d + 1);
    Fits(c, t, 3);
    Fits(c, d, x);
    Fits(c, x, d);
    Antitone(c, t, x);
    assert d * x <= c < t * (d + 1) == t * d + t;
    HalfAgain(d, x, t);
  }

  lemma HalfAgain(d: nat, x: nat, t: nat)
    requires d >= 3 && d * x < d * t + t
    ensures 2 * x <= 3 * t
  {
    if x > t { Scale(x - t, 3, d); assert d * (x - t) == d * x - d * t; }
  }

  lemma ThereAndBack(t: nat)
    requires 1 <= t <= DIFFICULTY_CONST
    ensures DIFFICULTY_CONST / t >= 1 && t <= DIFFICULTY_CONST / (DIFFICULTY_CONST / t)
  {
    Fits(DIFFICULTY_CONST, t, 1);
    Fits(DIFFICULTY_CONST, t, DIFFICULTY_CONST / t);
    Fits(DIFFICULTY_CONST, DIFFICULTY_CONST / t, t);
  }

  lemma SteadyMean(prefix: seq<Header>, bits: int)
    requires |prefix| >= 2 && Steady(prefix, bits)
    ensures Lwma(prefix) == DifficultyToTarget(AtLeastOne(TargetToDifficulty(BitsToTarget(bits))))
  {
    var n := Min(LWMA_WINDOW, |prefix|);
    var w, d := Last(prefix, n), AtLeastOne(TargetToDifficulty(BitsToTarget(bits)));
    forall i | 0 <= i < n ensures DiffOf(w[i]) == d {
      assert w[i] == prefix[|prefix| - n + i];
    }
    SteadyWindow(w, d);
  }

  lemma {:induction false} SteadyElapsed(w: seq<Header>, m: nat)
    requires 1 <= m <= |w| && forall i :: 0 < i < |w| ==> w[i].timestamp - w[i - 1].timestamp == TARGET_BLOCK_TIME
    ensures Elapsed(w, m) == TARGET_BLOCK_TIME * (m - 1)
  {
    if m > 1 { SteadyElapsed(w, m - 1); }
  }

  lemma SteadyIsNoEmergency(prefix: seq<Header>, bits: int)
    requires |prefix| >= 2 && Steady(prefix, bits)
    ensures !Emergency(prefix)
  {
    var m := Min(EDA_WINDOW, |prefix|);
    SteadyElapsed(Last(prefix, m), m);
  }

  lemma SteadyExpected(prefix: seq<Header>, bits: int)
    requires |prefix| >= 2 && Steady(prefix, bits) && 1 <= BitsToTarget(bits) <= MaxTarget()
    ensures var t := BitsToTarget(bits);
            DIFFICULTY_CONST / t >= 1 && t <= DIFFICULTY_CONST / (DIFFICULTY_CONST / t)
            && ExpectedTarget(prefix) == Min(DIFFICULTY_CONST / (DIFFICULTY_CONST / t), MaxTarget())
  {
    var t := BitsToTarget(bits);
    MaxTargetIsSmall();
    ThereAndBack(t);
    BackAndForth(t, DIFFICULTY_CONST / (DIFFICULTY_CONST / t));
    SteadyMean(prefix, bits);
    SteadyIsNoEmergency(prefix, bits);
  }

  /** A chain whose blocks all come on time with the same bits keeps its difficulty exactly:
      neither the two divisions nor the compact form let it drift. */
  lemma SteadyChainKeepsDifficulty(prefix: seq<Header>, bits: int, nextHeight: int)
    requires |prefix| >= 2 && nextHeight > 0 && Steady(prefix, bits) && 0x100_0000 <= BitsToTarget(bits) <= MaxTarget()
    ensures var next := BitsToTarget(ExpectedBits(prefix, nextHeight));
            next >= BitsToTarget(bits) && TargetToDifficulty(next) == TargetToDifficulty(BitsToTarget(bits))
  {
    MaxTargetIsSmall();
    SteadyExpected(prefix, bits);
    RoundsNoFurther(bits, ExpectedTarget(prefix));
    BackAndForth(BitsToTarget(bits), BitsToTarget(TargetToBits(ExpectedTarget(prefix))));
  }
}
