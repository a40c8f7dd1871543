/** Which of two chains a node keeps: the work behind a chain, the block where two chains part
    and the order that decides between them. */
module ForkChoice {
  import opened Arith
  import opened Bytes
  import opened CompactBits
  import opened PrefixScan

  import Mining

  type Hash = Bytes

  const ZERO_HASH: Hash := [0, 0, 0, 0, 0, 0, 0, 0, 0, 0, 0, 0, 0, 0, 0, 0, 0, 0, 0, 0, 0, 0, 0, 0, 0, 0, 0, 0, 0, 0, 0, 0]
  const REORG_LIMIT: int := 1000

  /** What a block's hash covers: its parent, its difficulty and the rest of its header. */
  datatype Link = Link(prev: Hash, bits: int, rest: seq<int>)

  class Block {
    const link: Link
    var chainwork: Option<nat>

    constructor (link: Link)
      ensures this.link == link && chainwork == None
    {
      this.link := link;
      chainwork := None;
    }
  }

  function Links(chain: seq<Block>): (links: seq<Link>)
    ensures |links| == |chain| && forall i :: 0 <= i < |chain| ==> links[i] == chain[i].link
  {
    seq(|chain|, i requires 0 <= i < |chain| => chain[i].link)
  }

  // ---------- work ----------

  /** The hashes it takes on average to meet a target. */
  function WorkFromBits(bits: int): nat {
    var target := BitsToTarget(bits);
    if target <= 0 then 0
    else
      Fits(DIFFICULTY_CONST, target + 1, 0);
      DIFFICULTY_CONST / (target + 1)
  }

  function TotalWork(chain: seq<Link>): nat {
    if chain == [] then 0 else TotalWork(chain[..|chain| - 1]) + WorkFromBits(chain[|chain| - 1].bits)
  }

  /** A block adds work exactly when its target is positive and below the number of hashes. */
  lemma WorkPositiveExactlyWhen(bits: int)
    ensures WorkFromBits(bits) > 0 <==> 1 <= BitsToTarget(bits) < DIFFICULTY_CONST
  {
    Fits(DIFFICULTY_CONST, BitsToTarget(bits) + 1, 1);
  }

  /** The work is how often one more than the target fits into the 2^256 hashes there are. */
  lemma WorkIs(bits: int)
    ensures var t, w := BitsToTarget(bits), WorkFromBits(bits);
            if t == 0 then w == 0 else w * (t + 1) <= Pow2(256) < (w + 1) * (t + 1)
  {
    AllHashes();
    Shares(Pow2(256), BitsToTarget(bits) + 1);
  }

  /** If the easier target leaves room for `k + 1` of the harder one, then the harder target has
      at least `k + 1` times the work: with k = 0, a lower target never has less. */
  lemma HarderTargetHasMoreWork(hard: int, easy: int, k: nat)
    requires BitsToTarget(hard) >= 1 && (k + 1) * (BitsToTarget(hard) + 1) <= BitsToTarget(easy) + 1
    ensures (k + 1) * WorkFromBits(easy) <= WorkFromBits(hard)
  {
    FitsOftener(DIFFICULTY_CONST, BitsToTarget(hard) + 1, BitsToTarget(easy) + 1, k + 1);
  }

  lemma FitsOftener(v: nat, h: nat, e: nat, k: nat)
    requires h > 0 && k > 0 && k * h <= e
    ensures e > 0 && 0 <= v / e && k * (v / e) <= v / h
  {
    Scale(k, 1, h);
    var w := v / e;
    Shares(v, e);
    Fits(v, e, 0);
    Scale(w, k * h, e);
    assert w * (k * h) == h * (k * w);
    Fits(v, h, k * w);
  }

  /** Blocks of the same bits add the same work. */
  lemma {:induction false} EqualBlocks(chain: seq<Link>, bits: int, w: nat)
    requires WorkFromBits(bits) == w && forall i :: 0 <= i < |chain| ==> chain[i].bits == bits
    ensures TotalWork(chain) == |chain| * w
  {
    if chain != [] {
      EqualBlocks(chain[..|chain| - 1], bits, w);
      assert (|chain| - 1) * w + w == |chain| * w;
    }
  }

  /** Of the first `k` blocks of the list, the i-th does not come again. */
  predicate LastPlace(chain: seq<Block>, i: nat, k: nat)
    requires i < k <= |chain|
  {
    forall j :: i < j < k ==> chain[j] != chain[i]
  }

  /** The totals up to each block. */
  ghost function Totals(links: seq<Link>): (t: seq<nat>)
    ensures |t| == |links| && forall i :: 0 <= i < |links| ==> t[i] == TotalWork(links[..i + 1])
  {
    seq(|links|, i requires 0 <= i < |links| => TotalWork(links[..i + 1]))
  }

  ghost predicate Stamped(chain: seq<Block>, totals: seq<nat>, k: nat)
    requires k <= |chain| == |totals|
    reads chain
  {
    forall i :: 0 <= i < k && LastPlace(chain, i, k) ==> chain[i].chainwork == Some(totals[i])
  }

  lemma PlacesBefore(chain: seq<Block>, k: nat)
    requires k < |chain|
    ensures forall i :: 0 <= i < k && LastPlace(chain, i, k + 1) ==> LastPlace(chain, i, k) && chain[i] != chain[k]
  {
  }

  method Stamp(chain: seq<Block>, k: nat, cw: nat, ghost totals: seq<nat>)
    requires k < |chain| == |totals| && Stamped(chain, totals, k) && totals[k] == cw
    modifies chain
    ensures Stamped(chain, totals, k + 1)
  {
    PlacesBefore(chain, k);
    chain[k].chainwork := Some(cw);
  }

  /** Writes the running total into every block; a block that stands in the list twice keeps
      the later one. */
  method ComputeChainwork(chain: seq<Block>) returns (cw: nat)
    modifies chain
    ensures cw == TotalWork(Links(chain)) && Stamped(chain, Totals(Links(chain)), |chain|)
  {
    ghost var links := Links(chain);
    ghost var totals := Totals(links);
    cw := 0;
    for k := 0 to |chain|
      invariant cw == TotalWork(links[..k]) && Stamped(chain, totals, k)
    {
      assert links[..k + 1][..k] == links[..k];
      cw := cw + WorkFromBits(chain[k].link.bits);
      Stamp(chain, k, cw, totals);
    }
    assert links[..|chain|] == links;
  }

  lemma {:induction false} TotalWorkSplit(a: seq<Link>, b: seq<Link>)
    ensures TotalWork(a + b) == TotalWork(a) + TotalWork(b)
  {
    if b == [] {
      assert a + b == a;
    } else {
      var front := b[..|b| - 1];
      TotalWorkSplit(a, front);
      assert (a + b)[..|a + b| - 1] == a + front;
    }
  }

  /** Along a chain of proper targets the work grows with every block. */
  lemma WorkGrows(chain: seq<Link>, i: nat, j: nat)
    requires i < j <= |chain| && forall k :: 0 <= k < |chain| ==> 1 <= BitsToTarget(chain[k].bits) < DIFFICULTY_CONST
    ensures TotalWork(chain[..i]) < TotalWork(chain[..j])
  {
    var tail := chain[i..j];
    assert chain[..j] == chain[..i] + tail;
    TotalWorkSplit(chain[..i], tail);
    var last := chain[j - 1];
    assert tail[|tail| - 1] == last;
    WorkPositiveExactlyWhen(last.bits);
  }

  // ---------- where two chains part ----------

  /** Each block names the hash of the one before, the first the zero hash. */
  predicate HashLinked(hash: Link -> Hash, chain: seq<Link>) {
    && (chain != [] ==> chain[0].prev == ZERO_HASH)
    && (forall i :: 0 < i < |chain| ==> chain[i].prev == hash(chain[i - 1]))
  }

  /** No two blocks of the chains share a hash, and none has the zero hash. */
  predicate NoCollision(hash: Link -> Hash, a: seq<Link>, b: seq<Link>) {
    && (forall x, y :: x in a + b && y in a + b && hash(x) == hash(y) ==> x == y)
    && (forall x :: x in a + b ==> hash(x) != ZERO_HASH)
  }

  /** The length of the longest common prefix. */
  function Common<T(==)>(a: seq<T>, b: seq<T>): (n: nat)
    ensures n <= |a| && n <= |b| && a[..n] == b[..n]
    ensures n < |a| && n < |b| ==> a[n] != b[n]
  {
    if a == [] || b == [] || a[0] != b[0] then 0
    else
      var n := Common(a[1..], b[1..]);
      assert a[..n + 1] == [a[0]] + a[1..][..n] && b[..n + 1] == [b[0]] + b[1..][..n];
      n + 1
  }

  /** Blocks with the same hash stand at the same place and have the same blocks before. */
  lemma {:induction false} SameHashSamePlace(hash: Link -> Hash, a: seq<Link>, b: seq<Link>, i: nat, j: nat)
    requires HashLinked(hash, a) && HashLinked(hash, b) && NoCollision(hash, a, b)
    requires i < |a| && j < |b| && hash(a[i]) == hash(b[j])
    ensures i == j && a[..i + 1] == b[..j + 1]
  {
    assert a[i] in a + b && b[j] in a + b;
    assert a[..i + 1] == a[..i] + [a[i]] && b[..j + 1] == b[..j] + [b[j]];
    assert i > 0 ==> a[i].prev == hash(a[i - 1]) && a[i - 1] in a + b;
    assert j > 0 ==> b[j].prev == hash(b[j - 1]) && b[j - 1] in a + b;
    assert a[0].prev == ZERO_HASH == b[0].prev;
    if i > 0 && j > 0 { SameHashSamePlace(hash, a, b, i - 1, j - 1); }
  }

  /** The last place of a hash in a chain, or -1. */
  function PlaceOf(hash: Link -> Hash, chain: seq<Link>, key: Hash): (i: int)
    ensures -1 <= i < |chain| && (i >= 0 ==> hash(chain[i]) == key)
    ensures i == -1 ==> forall n :: 0 <= n < |chain| ==> hash(chain[n]) != key
  {
    if chain == [] then -1
    else if hash(chain[|chain| - 1]) == key then |chain| - 1
    else PlaceOf(hash, chain[..|chain| - 1], key)
  }

  /** The place in the own chain of the first block met going down from the other tip. */
  function Meeting(hash: Link -> Hash, ours: seq<Link>, theirs: seq<Link>): int {
    if theirs == [] then -1
    else
      var i := PlaceOf(hash, ours, hash(theirs[|theirs| - 1]));
      if i >= 0 then i else Meeting(hash, ours, theirs[..|theirs| - 1])
  }

  method HashIndex(hash: Link -> Hash, ours: seq<Link>) returns (index: map<Hash, nat>)
    ensures forall key :: key in index <==> PlaceOf(hash, ours, key) >= 0
    ensures forall key :: key in index ==> index[key] == PlaceOf(hash, ours, key)
  {
    index := map[];
    for i := 0 to |ours|
      invariant forall key :: key in index <==> PlaceOf(hash, ours[..i], key) >= 0
      invariant forall key :: key in index ==> index[key] == PlaceOf(hash, ours[..i], key)
    {
      assert ours[..i + 1][..i] == ours[..i];
      index := index[hash(ours[i]) := i];
    }
    assert ours[..|ours|] == ours;
  }

  method CommonAncestorHeight(hash: Link -> Hash, ours: seq<Link>, theirs: seq<Link>) returns (h: int)
    ensures h == Meeting(hash, ours, theirs)
  {
    if ours == [] || theirs == [] {
      NothingToMeet(hash, theirs);
      return -1;
    }
    var index := HashIndex(hash, ours);
    for j := |theirs| downto 0
      invariant theirs[..|theirs|] == theirs && Meeting(hash, ours, theirs[..j]) == Meeting(hash, ours, theirs)
    {
      assert theirs[..j + 1][..j] == theirs[..j];
      var key := hash(theirs[j]);
      if key in index { return index[key]; }
    }
    return -1;
  }

  lemma {:induction false} NothingToMeet(hash: Link -> Hash, theirs: seq<Link>)
    ensures Meeting(hash, [], theirs) == -1
  {
    if theirs != [] { NothingToMeet(hash, theirs[..|theirs| - 1]); }
  }

  /** On linked chains without collisions the meeting place is the end of the longest common
      prefix. */
  lemma {:induction false} MeetingIsCommonAncestor(hash: Link -> Hash, ours: seq<Link>, theirs: seq<Link>)
    requires HashLinked(hash, ours) && HashLinked(hash, theirs) && NoCollision(hash, ours, theirs)
    ensures Meeting(hash, ours, theirs) == Common(ours, theirs) - 1
  {
    if theirs != [] {
      var j := |theirs| - 1;
      if Common(ours, theirs) > j { CommonAt(ours, theirs, j); }
      var i := PlaceOf(hash, ours, hash(theirs[j]));
      if i >= 0 {
        SameHashSamePlace(hash, ours, theirs, i, j);
        CommonAtLeast(ours, theirs, j + 1);
      } else {
        CommonOfFront(ours, theirs, j);
        MeetingIsCommonAncestor(hash, ours, theirs[..j]);
      }
    }
  }

  lemma CommonAt<T>(a: seq<T>, b: seq<T>, j: nat)
    requires j < Common(a, b)
    ensures a[j] == b[j]
  {
    var n := Common(a, b);
    assert a[j] == a[..n][j] && b[j] == b[..n][j];
  }

  lemma {:induction false} CommonOfFront<T>(a: seq<T>, b: seq<T>, j: nat)
    requires Common(a, b) <= j <= |b|
    ensures Common(a, b[..j]) == Common(a, b)
  {
    if Common(a, b) > 0 {
      assert b[..j][1..] == b[1..][..j - 1];
      CommonOfFront(a[1..], b[1..], j - 1);
    }
  }

  lemma {:induction false} CommonAtLeast<T>(a: seq<T>, b: seq<T>, n: nat)
    requires n <= |a| && n <= |b| && a[..n] == b[..n]
    ensures Common(a, b) >= n
  {
    if n > 0 {
      assert a[0] == a[..n][0] && b[0] == b[..n][0];
      assert a[1..][..n - 1] == a[..n][1..] && b[1..][..n - 1] == b[..n][1..];
      CommonAtLeast(a[1..], b[1..], n - 1);
    }
  }

  /** Comparing two chains by their work is comparing their branches after the common part. */
  lemma OnlyBranchesCount(a: seq<Link>, b: seq<Link>)
    ensures var n := Common(a, b);
            TotalWork(a) - TotalWork(b) == TotalWork(a[n..]) - TotalWork(b[n..])
  {
    var n := Common(a, b);
    assert a == a[..n] + a[n..] && b == b[..n] + b[n..];
    TotalWorkSplit(a[..n], a[n..]);
    TotalWorkSplit(b[..n], b[n..]);
  }

  // ---------- the choice ----------

  datatype Verdict = Invalid | LessWork | LowerAtEqualWork | TieLost | TooDeep | Replace

  /** More work wins, then more height, then the smaller tip hash. */
  predicate Beats(hash: Link -> Hash, theirs: seq<Link>, ours: seq<Link>) {
    || TotalWork(theirs) > TotalWork(ours)
    || (TotalWork(theirs) == TotalWork(ours) &&
        (|theirs| > |ours| ||
         (|theirs| == |ours| > 0 && Less(hash(theirs[|theirs| - 1]), hash(ours[|ours| - 1])))))
  }

  /** Length counts at equal work only, and the tips at equal work and length. */
  lemma WorkComesFirst(hash: Link -> Hash, a: seq<Link>, b: seq<Link>)
    ensures TotalWork(a) > TotalWork(b) ==> Beats(hash, a, b) && !Beats(hash, b, a)
    ensures TotalWork(a) == TotalWork(b) && |a| > |b| ==> Beats(hash, a, b) && !Beats(hash, b, a)
    ensures TotalWork(a) == TotalWork(b) && |a| == |b| > 0 && |hash(a[|a| - 1])| == |hash(b[|b| - 1])| ==>
              (Beats(hash, a, b) <==> BE(hash(a[|a| - 1])) < BE(hash(b[|b| - 1])))
  {
    if |a| == |b| > 0 && |hash(a[|a| - 1])| == |hash(b[|b| - 1])| {
      Mining.ByteOrderIsNumeric(hash(a[|a| - 1]), hash(b[|b| - 1]));
    }
  }

  /** One block with more work than a whole branch wins over it, however long the branch. */
  lemma OneBlockWins(hash: Link -> Hash, shared: seq<Link>, hard: Link, easy: seq<Link>)
    requires WorkFromBits(hard.bits) > TotalWork(easy)
    ensures Beats(hash, shared + [hard], shared + easy) && !Beats(hash, shared + easy, shared + [hard])
  {
    TotalWorkSplit(shared, easy);
    assert (shared + [hard])[..|shared|] == shared;
    WorkComesFirst(hash, shared + [hard], shared + easy);
  }

  /** One hard block beats `n` equal easy ones on a common chain whenever n + 1 of its targets
      have room in theirs: the longer branch loses. */
  lemma OneHardBlockBeatsMany(hash: Link -> Hash, shared: seq<Link>, hard: Link, easy: seq<Link>, bits: int)
    requires forall i :: 0 <= i < |easy| ==> easy[i].bits == bits
    requires 1 <= BitsToTarget(hard.bits) && BitsToTarget(bits) < DIFFICULTY_CONST
    requires (|easy| + 1) * (BitsToTarget(hard.bits) + 1) <= BitsToTarget(bits) + 1
    ensures Beats(hash, shared + [hard], shared + easy) && !Beats(hash, shared + easy, shared + [hard])
  {
    var w := WorkFromBits(bits);
    HarderTargetHasMoreWork(hard.bits, bits, |easy|);
    Room(|easy|, BitsToTarget(hard.bits), BitsToTarget(bits));
    WorkPositiveExactlyWhen(bits);
    EqualBlocks(easy, bits, w);
    OneMore(|easy|, w);
    OneBlockWins(hash, shared, hard, easy);
  }

  lemma OneMore(n: nat, w: nat)
    ensures (n + 1) * w == n * w + w
  {
  }

  lemma Room(n: nat, h: nat, e: nat)
    requires h >= 1 && (n + 1) * (h + 1) <= e + 1
    ensures e >= 1
  {
    Scale(h + 1, 1, n + 1);
  }

  /** One block of bits 1E0FFFFF beats two of the easiest bits. */
  lemma ShorterBranchWins(hash: Link -> Hash, shared: seq<Link>, hard: Link, first: Link, second: Link)
    requires hard.bits == 0x1E0F_FFFF && first.bits == second.bits == MAX_BITS
    ensures WorkFromBits(hard.bits) == 1048577 && WorkFromBits(first.bits) == 2048
    ensures Beats(hash, shared + [hard], shared + [first, second]) && !Beats(hash, shared + [first, second], shared + [hard])
  {
    HardWork(hard.bits);
    EasyWork(first.bits);
    EqualBlocks([first, second], first.bits, 2048);
    OneBlockWins(hash, shared, hard, [first, second]);
  }

  lemma HardWork(bits: int)
    requires bits == 0x1E0F_FFFF
    ensures WorkFromBits(bits) == 1048577
  {
    var p, t, all, up := InPowers(bits, 30, 0xF_FFFF);
    GoesInto(p, t, 0xF_FFFF, all, up, 1048577, 1);
  }

  lemma EasyWork(bits: int)
    requires bits == MAX_BITS
    ensures WorkFromBits(bits) == 2048
  {
    var p, t, all, up := InPowers(bits, 31, 0x1F_FFFF);
    GoesInto(p, t, 0x1F_FFFF, all, up, 2048, 2048);
  }

  /** A target of `mant` units goes `w` times into `up` units if `c` are left over. */
  lemma GoesInto(p: nat, t: nat, mant: nat, all: nat, up: nat, w: nat, c: nat)
    requires t == mant * p && all == up * p && up == w * mant + c && 1 <= c <= mant && w <= 0x100_0000 <= p
    ensures all / (t + 1) == w
  {
    Scale(p, 1, c);
    Scale(p, c, mant);
    assert up * p == w * (mant * p) + c * p;
    assert (t + 1) * w == w * t + w;
    Quotient(all, t + 1, w, c * p - w);
  }

  /** The target and the number of hashes in units of the target's last place. */
  lemma InPowers(bits: int, exp: nat, mant: nat) returns (p: nat, t: nat, all: nat, up: nat)
    requires bits / 0x100_0000 % 256 == exp && bits % 0x80_0000 == mant && (exp == 30 || exp == 31)
    ensures p >= 0x100_0000 && t == mant * p && up == (if exp == 30 then 0x100_0000_0000 else 0x1_0000_0000) && all == up * p
    ensures mant > 0 ==> WorkFromBits(bits) == all / (t + 1)
  {
    p, all, up := Powers(exp - 3);
    t := TargetIs(bits, exp, mant, p);
    if mant > 0 { Scale(p, 1, mant); }
  }

  lemma TargetIs(bits: int, exp: nat, mant: nat, p: nat) returns (t: nat)
    requires bits / 0x100_0000 % 256 == exp >= 3 && bits % 0x80_0000 == mant && p == Pow256(exp - 3)
    ensures t == BitsToTarget(bits) == mant * p
  {
    t := BitsToTarget(bits);
  }

  lemma Powers(k: nat) returns (p: nat, all: nat, up: nat)
    requires k == 27 || k == 28
    ensures p == Pow256(k) >= 0x100_0000 && up == if k == 27 then 0x100_0000_0000 else 0x1_0000_0000
    ensures all == DIFFICULTY_CONST == up * p
  {
    p, all, up := Pow256(k), DIFFICULTY_CONST, Pow256(32 - k);
    Pow256Of3();
    PowGrows(3, k);
    PowSum(32 - k, k);
    PowConstants();
  }

  /** A replacement would take back too many blocks of the own chain. */
  predicate Deep(hash: Link -> Hash, theirs: seq<Link>, ours: seq<Link>) {
    var fork := Meeting(hash, ours, theirs);
    fork >= 0 && |ours| - 1 - fork > REORG_LIMIT
  }

  /** The limit counts the blocks of the own chain after the common ancestor, and is not
      applied to chains that share nothing. */
  lemma DeepCountsOwnBranch(hash: Link -> Hash, theirs: seq<Link>, ours: seq<Link>)
    requires HashLinked(hash, ours) && HashLinked(hash, theirs) && NoCollision(hash, ours, theirs)
    ensures Deep(hash, theirs, ours) <==> Common(ours, theirs) > 0 && |ours[Common(ours, theirs)..]| > REORG_LIMIT
  {
    MeetingIsCommonAncestor(hash, ours, theirs);
  }

  /** The holder of `ours` goes over to the valid chain `theirs`. */
  predicate Switches(hash: Link -> Hash, ours: seq<Link>, theirs: seq<Link>) {
    Beats(hash, theirs, ours) && !Deep(hash, theirs, ours)
  }

  /** Whether the candidate passed the validation of whole chains is `valid`. */
  method ValidateReplacementChain(hash: Link -> Hash, ours: seq<Block>, theirs: seq<Block>, valid: bool) returns (v: Verdict)
    modifies ours, theirs
    ensures v == Replace <==> valid && Switches(hash, Links(ours), Links(theirs))
    ensures v == TooDeep <==> valid && Beats(hash, Links(theirs), Links(ours)) && Deep(hash, Links(theirs), Links(ours))
  {
    if !valid { return Invalid; }
    var lost := CompareWork(hash, ours, theirs);
    if lost.Some? { return lost.value; }
    if ours != [] && theirs != [] {
      var fork := CommonAncestorHeight(hash, Links(ours), Links(theirs));
      if fork >= 0 && |ours| - 1 - fork > REORG_LIMIT { return TooDeep; }
    } else {
      NothingToMeet(hash, Links(theirs));
    }
    return Replace;
  }

  /** Why the candidate does not beat the own chain. */
  method CompareWork(hash: Link -> Hash, ours: seq<Block>, theirs: seq<Block>) returns (lost: Option<Verdict>)
    modifies ours, theirs
    ensures lost == None <==> Beats(hash, Links(theirs), Links(ours))
    ensures lost.Some? ==> lost.value == LessWork || lost.value == LowerAtEqualWork || lost.value == TieLost
  {
    var theirCw := ComputeChainwork(theirs);
    var ourCw := ComputeChainwork(ours);
    if theirCw < ourCw { return Some(LessWork); }
    if theirCw == ourCw {
      if |theirs| < |ours| { return Some(LowerAtEqualWork); }
      if |theirs| == |ours| {
        if theirs == [] { return Some(TieLost); }
        if !Less(hash(theirs[|theirs| - 1].link), hash(ours[|ours| - 1].link)) { return Some(TieLost); }
      }
    }
    return None;
  }

  /** Of two different chains exactly one beats the other. */
  lemma ExactlyOneBeats(hash: Link -> Hash, a: seq<Link>, b: seq<Link>)
    requires HashLinked(hash, a) && HashLinked(hash, b) && NoCollision(hash, a, b)
    ensures !(Beats(hash, a, b) && Beats(hash, b, a))
    ensures Beats(hash, a, b) || Beats(hash, b, a) <==> a != b
  {
    if |a| == |b| > 0 {
      LessTotal(hash(a[|a| - 1]), hash(b[|b| - 1]));
      TipsDiffer(hash, a, b);
    }
  }

  lemma TipsDiffer(hash: Link -> Hash, a: seq<Link>, b: seq<Link>)
    requires HashLinked(hash, a) && HashLinked(hash, b) && NoCollision(hash, a, b) && |a| == |b| > 0
    ensures a != b ==> hash(a[|a| - 1]) != hash(b[|b| - 1])
  {
    var n := |a| - 1;
    if hash(a[n]) == hash(b[n]) {
      SameHashSamePlace(hash, a, b, n, n);
      assert a[..n + 1] == a && b[..n + 1] == b;
    }
  }

  lemma {:induction false} CommonSymmetric(a: seq<Link>, b: seq<Link>)
    ensures Common(a, b) == Common(b, a)
  {
    if a != [] && b != [] && a[0] == b[0] { CommonSymmetric(a[1..], b[1..]); }
  }

  /** Nodes that hold different valid chains and show them to each other agree afterwards if
      and only if the losing chain shares nothing with the other or has at most REORG_LIMIT
      blocks of its own: then one node goes over. Otherwise both stay for ever. */
  lemma AgreeExactlyWhen(hash: Link -> Hash, a: seq<Link>, b: seq<Link>)
    requires HashLinked(hash, a) && HashLinked(hash, b) && NoCollision(hash, a, b) && a != b
    ensures !(Switches(hash, a, b) && Switches(hash, b, a))
    ensures var loser := if Beats(hash, b, a) then a else b;
            Switches(hash, a, b) || Switches(hash, b, a) <==> Common(a, b) == 0 || |loser| - Common(a, b) <= REORG_LIMIT
  {
    ExactlyOneBeats(hash, a, b);
    CommonSymmetric(a, b);
    assert NoCollision(hash, b, a);
    DeepCountsOwnBranch(hash, a, b);
    DeepCountsOwnBranch(hash, b, a);
  }

  // ---------- two nodes that never agree ----------

  /** A chain that goes on for `n` blocks, marked so that it differs from others. */
  function Branch(hash: Link -> Hash, base: seq<Link>, mark: int, bits: int, n: nat): (chain: seq<Link>)
    requires base != []
    ensures |chain| == |base| + n && base <= chain
  {
    if n == 0 then base
    else
      var front := Branch(hash, base, mark, bits, n - 1);
      front + [Link(hash(front[|front| - 1]), bits, [mark])]
  }

  lemma {:induction false} BranchIsLinked(hash: Link -> Hash, base: seq<Link>, mark: int, bits: int, n: nat)
    requires base != [] && HashLinked(hash, base)
    ensures HashLinked(hash, Branch(hash, base, mark, bits, n))
    ensures n > 0 ==> Branch(hash, base, mark, bits, n)[|base|].rest == [mark]
  {
    if n > 0 { BranchIsLinked(hash, base, mark, bits, n - 1); }
  }

  /** The failing input: two nodes that parted after their first block and have each found more
      than REORG_LIMIT blocks since keep their own chains. */
  lemma LongBranchesNeverJoin(hash: Link -> Hash, bits: int, n: nat)
    requires n > REORG_LIMIT
    requires var base := [Link(ZERO_HASH, bits, [])];
             NoCollision(hash, Branch(hash, base, 0, bits, n), Branch(hash, base, 1, bits, n))
    ensures var base := [Link(ZERO_HASH, bits, [])];
            var a, b := Branch(hash, base, 0, bits, n), Branch(hash, base, 1, bits, n);
            HashLinked(hash, a) && HashLinked(hash, b) && a != b && !Switches(hash, a, b) && !Switches(hash, b, a)
  {
    var base := [Link(ZERO_HASH, bits, [])];
    var a, b := Branch(hash, base, 0, bits, n), Branch(hash, base, 1, bits, n);
    BranchIsLinked(hash, base, 0, bits, n);
    BranchIsLinked(hash, base, 1, bits, n);
    CommonAtLeast(a, b, 1);
    if Common(a, b) > 1 { CommonAt(a, b, 1); }
    AgreeExactlyWhen(hash, a, b);
  }

  lemma BeatsTransitive(hash: Link -> Hash, a: seq<Link>, b: seq<Link>, c: seq<Link>)
    requires Beats(hash, a, b) && Beats(hash, b, c)
    ensures Beats(hash, a, c)
  {
    if |a| == |b| == |c| > 0 && TotalWork(a) == TotalWork(b) == TotalWork(c) {
      LessTransitive(hash(a[|a| - 1]), hash(b[|b| - 1]), hash(c[|c| - 1]));
    }
  }

  /** A chain never loses to its own beginning, if the targets are proper. */
  lemma LongerBeatsItsPrefix(hash: Link -> Hash, chain: seq<Link>, n: nat)
    requires n < |chain| && forall k :: 0 <= k < |chain| ==> 1 <= BitsToTarget(chain[k].bits) < DIFFICULTY_CONST
    ensures Beats(hash, chain, chain[..n])
  {
    WorkGrows(chain, n, |chain|);
    assert chain[..|chain|] == chain;
  }

  lemma TipBeats(hash: Link -> Hash, a: seq<Link>, b: seq<Link>)
    requires |a| == |b| > 0
    ensures Beats(hash, a, b) <==>
            TotalWork(a) > TotalWork(b) || (TotalWork(a) == TotalWork(b) && Less(hash(a[|a| - 1]), hash(b[|b| - 1])))
  {
  }

  /** A block that could stand in the place of the tip; `valid` sums up its height and the
      validation of the changed chain. */
  method IsValidTipCandidate(hash: Link -> Hash, chain: seq<Block>, block: Block, valid: bool) returns (ok: bool)
    modifies chain, block
    ensures ok <==> |chain| >= 2 && valid && block.link.prev == hash(chain[|chain| - 2].link)
                    && Beats(hash, Links(chain)[..|chain| - 1] + [block.link], Links(chain))
  {
    if |chain| < 2 { return false; }
    if block.link.prev != hash(chain[|chain| - 2].link) || !valid { return false; }
    var candidate := chain[..|chain| - 1] + [block];
    assert Links(candidate) == Links(chain)[..|chain| - 1] + [block.link];
    TipBeats(hash, Links(candidate), Links(chain));
    var currentCw := ComputeChainwork(chain);
    var candidateCw := ComputeChainwork(candidate);
    if candidateCw < currentCw { return false; }
    if candidateCw == currentCw && !Less(hash(block.link), hash(chain[|chain| - 1].link)) { return false; }
    return true;
  }
}
