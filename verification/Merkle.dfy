/** Merkle trees over file chunks and over transaction ids: the root, the path of a leaf
    and the verifier that climbs it. An odd level repeats its last node. */
module Merkle {
  import opened Arith

  type Pair<!D> = (D, D) -> D

  datatype Side = Left | Right | Other
  datatype Item<D> = Item(side: Side, hash: D)

  // ---------- the tree ----------

  /** The node at place `i` of a level whose last node is repeated if their number is odd. */
  function Node<D>(level: seq<D>, i: nat): D
    requires level != []
  {
    if i < |level| then level[i] else level[|level| - 1]
  }

  /** The next level: neighbours hashed together, a last node without neighbour with itself. */
  function Up<D>(level: seq<D>, hp: Pair<D>): (up: seq<D>)
    ensures |up| == (|level| + 1) / 2
  {
    if level == [] then []
    else if |level| == 1 then [hp(level[0], level[0])]
    else [hp(level[0], level[1])] + Up(level[2..], hp)
  }

  function Root<D>(level: seq<D>, hp: Pair<D>): D
    requires level != []
    decreases |level|
  {
    if |level| == 1 then level[0] else Root(Up(level, hp), hp)
  }

  function Height(n: nat): nat { if n <= 1 then 0 else 1 + Height((n + 1) / 2) }

  /** The height is the logarithm of the number of leaves, rounded up. */
  lemma {:induction false} HeightIsCeilLog2(n: nat)
    requires n >= 1
    ensures n <= Pow2(Height(n))
    ensures n > 1 ==> Pow2(Height(n) - 1) < n
  {
    if n > 1 {
      HeightIsCeilLog2((n + 1) / 2);
      if n == 2 { assert Height(1) == 0; }
    }
  }

  /** Each node of the next level is the hash of its two children. */
  lemma {:induction false} UpAt<D>(level: seq<D>, hp: Pair<D>, i: nat)
    requires i < |Up(level, hp)|
    ensures Up(level, hp)[i] == hp(Node(level, 2 * i), Node(level, 2 * i + 1))
  {
    if i > 0 { UpAt(level[2..], hp, i - 1); }
  }

  /** Writing the repeated node down changes nothing above. */
  lemma {:induction false} UpPadded<D>(level: seq<D>, hp: Pair<D>)
    requires |level| % 2 == 1
    ensures Up(level + [level[|level| - 1]], hp) == Up(level, hp)
  {
    var padded := level + [level[|level| - 1]];
    if |level| == 1 {
      assert padded[2..] == [];
    } else {
      var rest := level[2..];
      UpPadded(rest, hp);
      assert padded[2..] == rest + [rest[|rest| - 1]];
    }
  }

  method NextLevel<D>(level: seq<D>, hp: Pair<D>) returns (padded: seq<D>, next: seq<D>)
    requires level != []
    ensures padded == if |level| % 2 == 1 then level + [level[|level| - 1]] else level
    ensures next == Up(level, hp)
  {
    padded := level;
    if |padded| % 2 == 1 {
      UpPadded(level, hp);
      padded := padded + [padded[|padded| - 1]];
    }
    next := PairAll(padded, |padded| / 2, hp);
  }

  method PairAll<D>(padded: seq<D>, pairs: nat, hp: Pair<D>) returns (next: seq<D>)
    requires |padded| == 2 * pairs
    ensures next == Up(padded, hp)
  {
    next := [];
    for k := 0 to pairs
      invariant next + Up(padded[2 * k..], hp) == Up(padded, hp)
    {
      assert padded[2 * k..][2..] == padded[2 * (k + 1)..];
      next := next + [hp(padded[2 * k], padded[2 * k + 1])];
    }
  }

  method BuildRoot<D>(leaves: seq<D>, hp: Pair<D>) returns (root: D)
    requires leaves != []
    ensures root == Root(leaves, hp)
  {
    var level := leaves;
    while |level| > 1
      invariant level != [] && Root(level, hp) == Root(leaves, hp)
      decreases |level|
    {
      var _, next := NextLevel(level, hp);
      level := next;
    }
    root := level[0];
  }

  /** The block variant duplicates the last node while pairing instead of appending it
      first; a list without ids has the all-zero root. */
  method MerkleRoot<D>(ids: seq<D>, zero: D, hp: Pair<D>) returns (root: D)
    ensures root == if ids == [] then zero else Root(ids, hp)
  {
    if ids == [] { return zero; }
    if |ids| == 1 { return ids[0]; }
    var layer := ids;
    while |layer| > 1
      invariant layer != [] && Root(layer, hp) == Root(ids, hp)
      decreases |layer|
    {
      layer := PairLayer(layer, hp);
    }
    root := layer[0];
  }

  method PairLayer<D>(layer: seq<D>, hp: Pair<D>) returns (next: seq<D>)
    ensures next == Up(layer, hp)
  {
    next := [];
    var i := 0;
    while i < |layer|
      invariant 0 <= i
      invariant next + Up(if i < |layer| then layer[i..] else [], hp) == Up(layer, hp)
    {
      var left := layer[i];
      var right := if i + 1 < |layer| then layer[i + 1] else layer[i];
      if i + 1 < |layer| { assert layer[i..][2..] == layer[i + 2..]; }
      next := next + [hp(left, right)];
      i := i + 2;
    }
  }

  // ---------- the root binds the leaves ----------

  /** Where the two trees hash different pairs, level by level, the hashes differ. */
  ghost predicate NoCollisionBetween<D>(a: seq<D>, b: seq<D>, hp: Pair<D>)
    requires a != [] && |a| == |b|
    decreases |a|
  {
    |a| > 1 ==> (forall i :: 0 <= i < |Up(a, hp)| ==> PairsMeet(a, b, i, hp)) && NoCollisionBetween(Up(a, hp), Up(b, hp), hp)
  }

  ghost predicate PairsMeet<D>(a: seq<D>, b: seq<D>, i: nat, hp: Pair<D>)
    requires a != [] && |a| == |b|
  {
    hp(Node(a, 2 * i), Node(a, 2 * i + 1)) == hp(Node(b, 2 * i), Node(b, 2 * i + 1)) ==>
      Node(a, 2 * i) == Node(b, 2 * i) && Node(a, 2 * i + 1) == Node(b, 2 * i + 1)
  }

  /** Collisions aside, lists of the same length have the same root only if they are the same. */
  lemma {:induction false} RootBinds<D>(a: seq<D>, b: seq<D>, hp: Pair<D>)
    requires a != [] && |a| == |b| && NoCollisionBetween(a, b, hp)
    ensures Root(a, hp) == Root(b, hp) <==> a == b
    decreases |a|
  {
    if |a| > 1 && Root(a, hp) == Root(b, hp) {
      RootBinds(Up(a, hp), Up(b, hp), hp);
      forall k | 0 <= k < |a| ensures a[k] == b[k] {
        UpAt(a, hp, k / 2);
        UpAt(b, hp, k / 2);
        assert PairsMeet(a, b, k / 2, hp);
        assert a[k] == Node(a, k) && b[k] == Node(b, k);
        assert k == 2 * (k / 2) || k == 2 * (k / 2) + 1;
      }
    }
  }

  /** An injective pair hash has no collisions. */
  lemma {:induction false} InjectiveHasNone<D(!new)>(a: seq<D>, b: seq<D>, hp: Pair<D>)
    requires a != [] && |a| == |b|
    requires forall p, q, r, s :: hp(p, q) == hp(r, s) ==> (p, q) == (r, s)
    ensures NoCollisionBetween(a, b, hp)
    decreases |a|
  {
    if |a| > 1 { InjectiveHasNone(Up(a, hp), Up(b, hp), hp); }
  }

  /** The length is not bound: an odd list and the list with its last leaf repeated have the
      same root whatever the hash is. */
  lemma RepeatedLastHasTheSameRoot<D>(leaves: seq<D>, hp: Pair<D>)
    requires |leaves| % 2 == 1 && |leaves| > 1
    ensures Root(leaves + [leaves[|leaves| - 1]], hp) == Root(leaves, hp)
  {
    UpPadded(leaves, hp);
  }

  // ---------- paths ----------

  /** The other child of the same parent. */
  function Sibling(i: nat): nat { if i % 2 == 1 then i - 1 else i + 1 }

  function SideAt(i: nat): Side { if i % 2 == 1 then Left else Right }

  function PathFor<D>(level: seq<D>, index: nat, hp: Pair<D>): seq<Item<D>>
    requires index < |level|
    decreases |level|
  {
    if |level| == 1 then []
    else [Item(SideAt(index), Node(level, Sibling(index)))] + PathFor(Up(level, hp), index / 2, hp)
  }

  datatype PathResult<D> = EmptyLeaves | IndexOutOfRange | Path(items: seq<Item<D>>)

  method BuildPathInternal<D>(leaves: seq<D>, index: nat, hp: Pair<D>) returns (r: PathResult<D>)
    ensures r == if leaves == [] then EmptyLeaves else if index >= |leaves| then IndexOutOfRange else Path(PathFor(leaves, index, hp))
  {
    if leaves == [] { return EmptyLeaves; }
    if index >= |leaves| { return IndexOutOfRange; }
    var path: seq<Item<D>> := [];
    var level, idx: nat := leaves, index;
    ghost var all := PathFor(leaves, index, hp);
    ghost var rest := all;
    while |level| > 1
      invariant idx < |level| && rest == PathFor(level, idx, hp)
      invariant path + rest == all
      decreases |level|
    {
      var padded, next := NextLevel(level, hp);
      var item := PathStep(padded, idx, level);
      rest := PathFor(next, idx / 2, hp);
      assert path + ([item] + rest) == (path + [item]) + rest;
      path := path + [item];
      idx := idx / 2;
      level := next;
    }
    return Path(path);
  }

  method PathStep<D>(padded: seq<D>, idx: nat, ghost level: seq<D>) returns (item: Item<D>)
    requires idx < |level| && |level| > 1
    requires padded == if |level| % 2 == 1 then level + [level[|level| - 1]] else level
    ensures item == Item(SideAt(idx), Node(level, Sibling(idx)))
  {
    var siblingIdx := if idx % 2 == 1 then idx - 1 else idx + 1;
    var side := if idx % 2 == 1 then Left else Right;
    item := Item(side, padded[siblingIdx]);
  }

  datatype Climbed<D> = BadSide | At(hash: D)

  /** Hash upwards along the path; an unknown side stops it. */
  function Climb<D>(cur: D, path: seq<Item<D>>, hp: Pair<D>): Climbed<D> {
    if path == [] then At(cur)
    else if path[0].side == Other then BadSide
    else Climb(Parent(cur, path[0], hp), path[1..], hp)
  }

  function Parent<D>(x: D, item: Item<D>, hp: Pair<D>): D {
    if item.side == Left then hp(item.hash, x) else hp(x, item.hash)
  }

  predicate Verifies<D(==)>(root: D, leaf: D, path: seq<Item<D>>, hp: Pair<D>) { Climb(leaf, path, hp) == At(root) }

  method GraffMerkleVerify<D(==)>(root: D, leaf: D, path: seq<Item<D>>, hp: Pair<D>) returns (ok: bool)
    ensures ok == Verifies(root, leaf, path, hp)
  {
    var cur := leaf;
    for i := 0 to |path|
      invariant Climb(leaf, path, hp) == Climb(cur, path[i..], hp)
    {
      assert path[i..][1..] == path[i + 1..];
      match path[i].side {
        case Left => cur := hp(path[i].hash, cur);
        case Right => cur := hp(cur, path[i].hash);
        case Other => return false;
      }
    }
    ok := cur == root;
  }

  // ---------- completeness ----------

  /** The path of every leaf verifies it against the root and is as long as the tree is high. */
  lemma {:induction false} PathVerifies<D>(leaves: seq<D>, index: nat, hp: Pair<D>)
    requires index < |leaves|
    ensures Verifies(Root(leaves, hp), leaves[index], PathFor(leaves, index, hp), hp)
    ensures |PathFor(leaves, index, hp)| == Height(|leaves|)
    decreases |leaves|
  {
    if |leaves| > 1 {
      var up, i := Up(leaves, hp), index / 2;
      PathVerifies(up, i, hp);
      UpAt(leaves, hp, i);
      var path := PathFor(leaves, index, hp);
      assert path[1..] == PathFor(up, i, hp);
      assert Parent(leaves[index], path[0], hp) == up[i];
    }
  }

  // ---------- soundness ----------

  /** The node of the level that a full path leads down to, computed from the top: at each
      level one child of the node above, the repeated node standing for itself. */
  function Slot(n: nat, sides: seq<Side>): (k: nat)
    requires n >= 1 && |sides| == Height(n)
    ensures k < n
    decreases n
  {
    if n == 1 then 0
    else
      var k := 2 * Slot((n + 1) / 2, sides[1..]) + (if sides[0] == Left then 1 else 0);
      if k < n then k else n - 1
  }

  function Sides<D>(path: seq<Item<D>>): (s: seq<Side>)
    ensures |s| == |path|
  {
    if path == [] then [] else [path[0].side] + Sides(path[1..])
  }

  /** The pair hashed at one step of the climb. */
  function PairOf<D>(x: D, item: Item<D>): (D, D) { if item.side == Left then (item.hash, x) else (x, item.hash) }

  /** Where the parent of the last step lies, on the level above. */
  function Above<D>(n: nat, path: seq<Item<D>>): (j: nat)
    requires n > 1 && |path| == Height(n)
    ensures j < (n + 1) / 2
  {
    Slot((n + 1) / 2, Sides(path)[1..])
  }

  /** Every hash on the path is the other child at the place its sides lead to. */
  predicate PathMatches<D(==)>(level: seq<D>, path: seq<Item<D>>, hp: Pair<D>)
    requires level != [] && |path| == Height(|level|)
    decreases |level|
  {
    |level| == 1 ||
    var j := Above(|level|, path);
    && path[0].side != Other
    && path[0].hash == Node(level, if path[0].side == Left then 2 * j else 2 * j + 1)
    && PathMatches(Up(level, hp), path[1..], hp)
  }

  /** Climbing from `x` along the path, no hashed pair collides with the pair of the tree at
      the same place. */
  predicate NoCollisionAlong<D(==)>(level: seq<D>, x: D, path: seq<Item<D>>, hp: Pair<D>)
    requires level != [] && |path| == Height(|level|)
    decreases |level|
  {
    |level| == 1 ||
    var j := Above(|level|, path);
    var there := (Node(level, 2 * j), Node(level, 2 * j + 1));
    && (Parent(x, path[0], hp) == hp(there.0, there.1) ==> PairOf(x, path[0]) == there)
    && NoCollisionAlong(Up(level, hp), Parent(x, path[0], hp), path[1..], hp)
  }

  /** An injective pair hash never collides. */
  lemma {:induction false} InjectiveNeverCollides<D(!new)>(level: seq<D>, x: D, path: seq<Item<D>>, hp: Pair<D>)
    requires level != [] && |path| == Height(|level|)
    requires forall a, b, c, d :: hp(a, b) == hp(c, d) ==> (a, b) == (c, d)
    ensures NoCollisionAlong(level, x, path, hp)
    decreases |level|
  {
    if |level| > 1 { InjectiveNeverCollides(Up(level, hp), Parent(x, path[0], hp), path[1..], hp); }
  }

  /** Unless the hash collides along the way, a path as long as the tree is high verifies a
      value exactly when the value is the leaf its sides lead to and its hashes are the
      siblings on the way: nothing but a committed leaf, at its own place, can be proved. */
  lemma {:induction false} VerifiesExactlyWhen<D>(leaves: seq<D>, x: D, path: seq<Item<D>>, hp: Pair<D>)
    requires leaves != [] && |path| == Height(|leaves|) && NoCollisionAlong(leaves, x, path, hp)
    ensures Verifies(Root(leaves, hp), x, path, hp) <==>
            PathMatches(leaves, path, hp) && x == leaves[Slot(|leaves|, Sides(path))]
    decreases |leaves|
  {
    if |leaves| > 1 && path[0].side != Other {
      VerifiesExactlyWhen(Up(leaves, hp), Parent(x, path[0], hp), path[1..], hp);
      UpAt(leaves, hp, Above(|leaves|, path));
    }
  }

  /** Membership: what verifies with a path of full length is one of the leaves. */
  lemma OnlyLeavesVerify<D>(leaves: seq<D>, x: D, path: seq<Item<D>>, hp: Pair<D>)
    requires leaves != [] && |path| == Height(|leaves|) && NoCollisionAlong(leaves, x, path, hp)
    requires Verifies(Root(leaves, hp), x, path, hp)
    ensures x in leaves
  {
    VerifiesExactlyWhen(leaves, x, path, hp);
  }

  // ---------- paths of other lengths ----------

  /** The tree `d` levels above the leaves. */
  function LevelAt<D>(leaves: seq<D>, d: nat, hp: Pair<D>): (level: seq<D>)
    requires leaves != []
    ensures level != []
    decreases d
  {
    if d == 0 then leaves else LevelAt(Up(leaves, hp), d - 1, hp)
  }

  lemma {:induction false} LevelIsATree<D>(leaves: seq<D>, d: nat, hp: Pair<D>)
    requires leaves != [] && d <= Height(|leaves|)
    ensures Height(|LevelAt(leaves, d, hp)|) == Height(|leaves|) - d
    ensures Root(LevelAt(leaves, d, hp), hp) == Root(leaves, hp)
    decreases d
  {
    if d > 0 { LevelIsATree(Up(leaves, hp), d - 1, hp); }
  }

  /** The verifier does not look at the length of the path: `d` steps short of the tree's
      height, it accepts exactly the nodes `d` levels above the leaves. */
  lemma ShorterPathExactlyWhen<D>(leaves: seq<D>, d: nat, x: D, path: seq<Item<D>>, hp: Pair<D>)
    requires leaves != [] && d <= Height(|leaves|)
    requires |path| == Height(|LevelAt(leaves, d, hp)|) && NoCollisionAlong(LevelAt(leaves, d, hp), x, path, hp)
    ensures |path| == Height(|leaves|) - d
    ensures Verifies(Root(leaves, hp), x, path, hp) <==>
            PathMatches(LevelAt(leaves, d, hp), path, hp)
            && x == LevelAt(leaves, d, hp)[Slot(|LevelAt(leaves, d, hp)|, Sides(path))]
  {
    LevelIsATree(leaves, d, hp);
    VerifiesExactlyWhen(LevelAt(leaves, d, hp), x, path, hp);
  }

  /** The sides of a built path lead back to the node it was built for. */
  lemma {:induction false} BuiltPathLeadsBack<D>(level: seq<D>, i: nat, hp: Pair<D>)
    requires i < |level|
    ensures |PathFor(level, i, hp)| == Height(|level|) && Slot(|level|, Sides(PathFor(level, i, hp))) == i
    decreases |level|
  {
    if |level| > 1 {
      BuiltPathLeadsBack(Up(level, hp), i / 2, hp);
      assert PathFor(level, i, hp)[1..] == PathFor(Up(level, hp), i / 2, hp);
    }
  }

  /** Along a built path the tree meets itself, so nothing collides. */
  lemma {:induction false} BuiltPathNeverCollides<D>(level: seq<D>, i: nat, hp: Pair<D>)
    requires i < |level|
    ensures |PathFor(level, i, hp)| == Height(|level|) && NoCollisionAlong(level, level[i], PathFor(level, i, hp), hp)
    decreases |level|
  {
    BuiltPathLeadsBack(level, i, hp);
    if |level| > 1 {
      var path := PathFor(level, i, hp);
      assert path[1..] == PathFor(Up(level, hp), i / 2, hp);
      BuiltPathLeadsBack(Up(level, hp), i / 2, hp);
      BuiltPathNeverCollides(Up(level, hp), i / 2, hp);
      UpAt(level, hp, i / 2);
    }
  }

  /** With paths of this length nothing but leaves can be proved, collisions aside. */
  ghost predicate SoundFor<D(!new)>(leaves: seq<D>, d: nat, hp: Pair<D>)
    requires leaves != []
  {
    forall x: D, path: seq<Item<D>> | |path| == Height(|LevelAt(leaves, d, hp)|) ::
      NoCollisionAlong(LevelAt(leaves, d, hp), x, path, hp) && Verifies(Root(leaves, hp), x, path, hp) ==> x in leaves
  }

  /** Paths `d` steps short prove nothing but leaves if and only if the level `d` steps up
      holds nothing but leaves. */
  lemma SoundForExactlyWhen<D(!new)>(leaves: seq<D>, d: nat, hp: Pair<D>)
    requires leaves != [] && d <= Height(|leaves|)
    ensures SoundFor(leaves, d, hp) <==> forall i :: 0 <= i < |LevelAt(leaves, d, hp)| ==> LevelAt(leaves, d, hp)[i] in leaves
  {
    var level := LevelAt(leaves, d, hp);
    LevelIsATree(leaves, d, hp);
    if SoundFor(leaves, d, hp) {
      forall i | 0 <= i < |level| ensures level[i] in leaves {
        PathVerifies(level, i, hp);
        BuiltPathNeverCollides(level, i, hp);
        assert Verifies(Root(leaves, hp), level[i], PathFor(level, i, hp), hp);
      }
    }
    if forall i :: 0 <= i < |level| ==> level[i] in leaves {
      forall x: D, path: seq<Item<D>> | |path| == Height(|level|) && NoCollisionAlong(level, x, path, hp)
        && Verifies(Root(leaves, hp), x, path, hp) ensures x in leaves
      {
        ShorterPathExactlyWhen(leaves, d, x, path, hp);
      }
    }
  }

  /** In a tree without a leaf among its inner nodes, of the lengths up to its height only the
      height itself is safe. */
  lemma OnlyFullLengthIsSound<D(!new)>(leaves: seq<D>, d: nat, hp: Pair<D>)
    requires leaves != [] && d <= Height(|leaves|)
    requires forall k, i :: 0 < k <= Height(|leaves|) && 0 <= i < |LevelAt(leaves, k, hp)| ==> LevelAt(leaves, k, hp)[i] !in leaves
    ensures SoundFor(leaves, d, hp) <==> d == 0
  {
    SoundForExactlyWhen(leaves, d, hp);
    if d > 0 { assert LevelAt(leaves, d, hp)[0] !in leaves; }
  }

  lemma {:induction false} ClimbSplit<D>(x: D, path: seq<Item<D>>, n: nat, hp: Pair<D>)
    requires n <= |path|
    ensures Climb(x, path, hp) == match Climb(x, path[..n], hp) { case BadSide => BadSide case At(y) => Climb(y, path[n..], hp) }
  {
    if n == 0 {
      assert path[0..] == path;
    } else if path[0].side != Other {
      ClimbSplit(Parent(x, path[0], hp), path[1..], n - 1, hp);
      assert path[..n][1..] == path[1..][..n - 1] && path[1..][n - 1..] == path[n..];
    }
  }

  /** `n` steps longer than the tree is high, the verifier accepts exactly what climbs to a
      leaf in the first `n` steps. */
  lemma LongerPathExactlyWhen<D>(leaves: seq<D>, n: nat, x: D, path: seq<Item<D>>, hp: Pair<D>)
    requires leaves != [] && |path| == Height(|leaves|) + n
    requires Climb(x, path[..n], hp).At? ==> NoCollisionAlong(leaves, Climb(x, path[..n], hp).hash, path[n..], hp)
    ensures Verifies(Root(leaves, hp), x, path, hp) <==>
            PathMatches(leaves, path[n..], hp) && Climb(x, path[..n], hp) == At(leaves[Slot(|leaves|, Sides(path[n..]))])
  {
    ClimbSplit(x, path, n, hp);
    if Climb(x, path[..n], hp).At? {
      VerifiesExactlyWhen(leaves, Climb(x, path[..n], hp).hash, path[n..], hp);
    }
  }

  // ---------- leaves of a file ----------

  function Chunks<T>(data: seq<T>, size: nat): seq<seq<T>>
    requires size > 0
    decreases |data|
  {
    if data == [] then []
    else if |data| <= size then [data]
    else [data[..size]] + Chunks(data[size..], size)
  }

  function Join<T>(parts: seq<seq<T>>): seq<T> { if parts == [] then [] else parts[0] + Join(parts[1..]) }

  /** The chunks are non-empty, all but the last are full, and they join to the data. */
  lemma {:induction false} ChunksCover<T>(data: seq<T>, size: nat)
    requires size > 0
    ensures Join(Chunks(data, size)) == data
    ensures forall i :: 0 <= i < |Chunks(data, size)| ==> 0 < |Chunks(data, size)[i]| <= size
    ensures forall i :: 0 <= i < |Chunks(data, size)| - 1 ==> |Chunks(data, size)[i]| == size
    decreases |data|
  {
    if data == [] {
    } else if |data| <= size {
      assert [data][1..] == [] && data + [] == data;
    } else {
      ChunksCover(data[size..], size);
      assert Chunks(data, size)[1..] == Chunks(data[size..], size);
      assert data[..size] + data[size..] == data;
    }
  }

  /** Their number is the length divided by the size, rounded up. */
  lemma {:induction false} ChunkCount<T>(data: seq<T>, size: nat)
    requires size > 0
    ensures |data| <= size * |Chunks(data, size)|
    ensures data != [] ==> size * (|Chunks(data, size)| - 1) < |data|
    decreases |data|
  {
    if |data| > size {
      var n := |Chunks(data[size..], size)|;
      ChunkCount(data[size..], size);
      assert |Chunks(data, size)| == n + 1;
      assert size * (n + 1) == size * n + size && size * n == size * (n - 1) + size;
    }
  }

  function HashAll<T, D>(h: seq<T> -> D, parts: seq<seq<T>>): seq<D> {
    if parts == [] then [] else [h(parts[0])] + HashAll(h, parts[1..])
  }

  datatype LeavesResult<D> = BadChunk | NoLeaves | Leaves(hashes: seq<D>)

  method LeavesFromBytesInternal<T, D>(data: seq<T>, chunkSize: nat, h: seq<T> -> D) returns (r: LeavesResult<D>)
    ensures r == if chunkSize == 0 then BadChunk else if data == [] then NoLeaves else Leaves(HashAll(h, Chunks(data, chunkSize)))
  {
    if chunkSize == 0 { return BadChunk; }
    if data == [] { return NoLeaves; }
    var leaves: seq<D>, pos := [], 0;
    while pos < |data|
      invariant 0 <= pos <= |data|
      invariant leaves + HashAll(h, Chunks(data[pos..], chunkSize)) == HashAll(h, Chunks(data, chunkSize))
      decreases |data| - pos
    {
      var end := if pos + chunkSize < |data| then pos + chunkSize else |data|;
      NextChunk(data, pos, end, chunkSize);
      leaves := leaves + [h(data[pos..end])];
      pos := end;
    }
    return Leaves(leaves);
  }

  lemma NextChunk<T>(data: seq<T>, pos: nat, end: nat, size: nat)
    requires size > 0 && pos < |data| && end == if pos + size < |data| then pos + size else |data|
    ensures Chunks(data[pos..], size) == [data[pos..end]] + Chunks(data[end..], size)
  {
    var rest := data[pos..];
    if size < |rest| {
      assert rest[..size] == data[pos..end] && rest[size..] == data[end..];
    } else {
      assert rest == data[pos..end] && data[end..] == [];
    }
  }

  // ---------- from the data to a verified path ----------

  function PieceFrom<T>(data: seq<T>, start: nat, size: nat): seq<T> {
    if start >= |data| then [] else if |data| - start <= size then data[start..] else data[start..start + size]
  }

  /** The `i`-th piece of the data, shorter than the others if it is the last. */
  function Piece<T>(data: seq<T>, size: nat, i: nat): seq<T> { PieceFrom(data, size * i, size) }

  lemma PieceOfRest<T>(data: seq<T>, start: nat, size: nat)
    requires size <= |data|
    ensures PieceFrom(data[size..], start, size) == PieceFrom(data, start + size, size)
  {
  }

  /** The `i`-th chunk is the piece of the data at its place. */
  lemma {:induction false} ChunkAt<T>(data: seq<T>, size: nat, i: nat)
    requires size > 0 && i < |Chunks(data, size)|
    ensures Chunks(data, size)[i] == Piece(data, size, i) != []
    decreases |data|
  {
    if i == 0 {
      assert size * 0 == 0;
    } else {
      ChunkAt(data[size..], size, i - 1);
      PieceOfRest(data, size * (i - 1), size);
      assert size * i == size * (i - 1) + size;
    }
  }

  lemma {:induction false} HashAt<T, D>(h: seq<T> -> D, parts: seq<seq<T>>)
    ensures |HashAll(h, parts)| == |parts| && forall i :: 0 <= i < |parts| ==> HashAll(h, parts)[i] == h(parts[i])
  {
    if parts != [] { HashAt(h, parts[1..]); }
  }

  /** A file's leaves. */
  function LeavesOf<T, D>(data: seq<T>, size: nat, h: seq<T> -> D): (leaves: seq<D>)
    requires size > 0 && data != []
    ensures leaves != []
  {
    HashAll(h, Chunks(data, size))
  }

  /** Every piece of the file verifies with the path built for it. */
  lemma PieceVerifies<T, D>(data: seq<T>, size: nat, i: nat, h: seq<T> -> D, hp: Pair<D>)
    requires size > 0 && size * i < |data|
    ensures var leaves := LeavesOf(data, size, h);
            i < |leaves| && Verifies(Root(leaves, hp), h(Piece(data, size, i)), PathFor(leaves, i, hp), hp)
  {
    HashAt(h, Chunks(data, size));
    ChunkCount(data, size);
    PlaceInRange(size, i, |Chunks(data, size)|, |data|);
    ChunkAt(data, size, i);
    PathVerifies(LeavesOf(data, size, h), i, hp);
  }

  lemma PlaceInRange(size: nat, i: nat, n: nat, length: nat)
    requires size * i < length <= size * n
    ensures i < n
  {
    if i >= n { Scale(size, n, i); }
  }

  /** What verifies, with a path of full length and collisions aside, is the piece of the file at
      the place the sides of the path lead to. */
  lemma PieceVerifiesExactlyWhen<T, D>(data: seq<T>, size: nat, piece: seq<T>, path: seq<Item<D>>, h: seq<T> -> D, hp: Pair<D>)
    requires size > 0 && data != [] && |path| == Height(|LeavesOf(data, size, h)|)
    requires NoCollisionAlong(LeavesOf(data, size, h), h(piece), path, hp)
    requires forall i :: 0 <= i < |Chunks(data, size)| && h(piece) == h(Chunks(data, size)[i]) ==> piece == Chunks(data, size)[i]
    ensures var leaves := LeavesOf(data, size, h);
            var i := Slot(|leaves|, Sides(path));
            && Piece(data, size, i) != []
            && (Verifies(Root(leaves, hp), h(piece), path, hp) <==> PathMatches(leaves, path, hp) && piece == Piece(data, size, i))
  {
    var leaves := LeavesOf(data, size, h);
    var i := Slot(|leaves|, Sides(path));
    HashAt(h, Chunks(data, size));
    ChunkAt(data, size, i);
    VerifiesExactlyWhen(leaves, h(piece), path, hp);
  }
}
