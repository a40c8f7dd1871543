/** Prefix scans of the key-value store: the full scan, one page of it, and the loop that
    strings pages together. A table lists its entries in the order of their keys. */
module PrefixScan {
  import opened Bytes

  datatype Entry = Entry(key: Bytes, val: Bytes)

  // ---------- the order of keys ----------

  /** Byte-wise lexicographic order, a proper prefix first. */
  predicate Less(a: Bytes, b: Bytes) {
    b != [] && (a == [] || a[0] < b[0] || (a[0] == b[0] && Less(a[1..], b[1..])))
  }

  lemma {:induction false} LessTotal(a: Bytes, b: Bytes)
    ensures Less(a, b) || a == b || Less(b, a)
    ensures Less(a, b) ==> a != b && !Less(b, a)
  {
    if a != [] && b != [] {
      LessTotal(a[1..], b[1..]);
      assert a == [a[0]] + a[1..] && b == [b[0]] + b[1..];
    }
  }

  lemma {:induction false} LessTransitive(a: Bytes, b: Bytes, c: Bytes)
    requires Less(a, b) && Less(b, c)
    ensures Less(a, c)
  {
    if a != [] && a[0] == b[0] && b[0] == c[0] { LessTransitive(a[1..], b[1..], c[1..]); }
  }

  /** Keys with a common prefix lie together: what is not below the prefix and is below a key
      that has it, has it as well. */
  lemma {:induction false} PrefixContiguous(p: Bytes, a: Bytes, b: Bytes)
    requires !Less(a, p) && Less(a, b) && p <= b
    ensures p <= a
  {
    if p != [] { PrefixContiguous(p[1..], a[1..], b[1..]); }
  }

  lemma {:induction false} PrefixNotBelow(p: Bytes, k: Bytes)
    requires p <= k
    ensures !Less(k, p)
  {
    if p != [] { PrefixNotBelow(p[1..], k[1..]); }
  }

  predicate Sorted(t: seq<Entry>) {
    forall i, j :: 0 <= i < j < |t| ==> Less(t[i].key, t[j].key)
  }

  // ---------- what a scan is for ----------

  predicate After(k: Bytes, after: Option<Bytes>) { after.None? || Less(after.value, k) }

  predicate Wanted(e: Entry, prefix: Bytes, after: Option<Bytes>) { prefix <= e.key && After(e.key, after) }

  /** The entries with the prefix that come after a key, in order. */
  function Select(t: seq<Entry>, prefix: Bytes, after: Option<Bytes>): (s: seq<Entry>)
    ensures |s| <= |t|
  {
    if t == [] then []
    else
      var e := t[|t| - 1];
      Select(t[..|t| - 1], prefix, after) + (if Wanted(e, prefix, after) then [e] else [])
  }

  function Take(n: nat, s: seq<Entry>): seq<Entry> { if n < |s| then s[..n] else s }

  lemma SelectStep(t: seq<Entry>, i: nat, prefix: Bytes, after: Option<Bytes>)
    requires i < |t|
    ensures Select(t[..i + 1], prefix, after) == Select(t[..i], prefix, after) + (if Wanted(t[i], prefix, after) then [t[i]] else [])
  {
    assert t[..i + 1][..i] == t[..i];
  }

  /** What is selected from the front of the table is the front of what is selected. */
  lemma {:induction false} SelectFront(t: seq<Entry>, i: nat, prefix: Bytes, after: Option<Bytes>)
    requires i <= |t|
    ensures Select(t[..i], prefix, after) <= Select(t, prefix, after)
    ensures (forall j :: i <= j < |t| ==> !Wanted(t[j], prefix, after)) ==> Select(t[..i], prefix, after) == Select(t, prefix, after)
    decreases |t| - i
  {
    if i == |t| {
      assert t[..i] == t;
    } else {
      SelectStep(t, i, prefix, after);
      SelectFront(t, i + 1, prefix, after);
    }
  }

  lemma {:induction false} SelectNone(t: seq<Entry>, prefix: Bytes, after: Option<Bytes>)
    requires forall j :: 0 <= j < |t| ==> !Wanted(t[j], prefix, after)
    ensures Select(t, prefix, after) == []
  {
    if t != [] { SelectNone(t[..|t| - 1], prefix, after); }
  }

  /** The selection holds the wanted entries and nothing else. */
  lemma {:induction false} SelectIs(t: seq<Entry>, prefix: Bytes, after: Option<Bytes>)
    ensures forall e :: e in Select(t, prefix, after) <==> e in t && Wanted(e, prefix, after)
  {
    if t != [] {
      SelectIs(t[..|t| - 1], prefix, after);
      assert t == t[..|t| - 1] + [t[|t| - 1]];
    }
  }

  lemma SelectHasPrefix(t: seq<Entry>, prefix: Bytes, after: Option<Bytes>, i: nat)
    requires i < |Select(t, prefix, after)|
    ensures prefix <= Select(t, prefix, after)[i].key
  {
    SelectIs(t, prefix, after);
    assert Select(t, prefix, after)[i] in Select(t, prefix, after);
  }

  lemma {:induction false} SelectSorted(t: seq<Entry>, prefix: Bytes, after: Option<Bytes>)
    requires Sorted(t)
    ensures Sorted(Select(t, prefix, after))
  {
    if t != [] {
      var front, e := t[..|t| - 1], t[|t| - 1];
      SelectSorted(front, prefix, after);
      SelectIs(front, prefix, after);
      var s := Select(front, prefix, after);
      forall i | 0 <= i < |s| ensures Less(s[i].key, e.key) {
        assert s[i] in front;
      }
    }
  }

  /** Once a key at or above the prefix lacks it, no later key has it. */
  lemma NoneBeyond(t: seq<Entry>, i: nat, prefix: Bytes, after: Option<Bytes>)
    requires Sorted(t) && i < |t| && !(prefix <= t[i].key) && !Less(t[i].key, prefix)
    ensures forall j :: i <= j < |t| ==> !Wanted(t[j], prefix, after)
  {
    forall j | i < j < |t| ensures !(prefix <= t[j].key) {
      if prefix <= t[j].key { PrefixContiguous(prefix, t[i].key, t[j].key); }
    }
  }

  // ---------- the cursor ----------

  /** Positions the cursor at the first key that is not below `key`. */
  method SetRange(t: seq<Entry>, key: Bytes) returns (i: nat)
    ensures i <= |t|
    ensures forall j :: 0 <= j < i ==> Less(t[j].key, key)
    ensures i < |t| ==> !Less(t[i].key, key)
  {
    i := 0;
    while i < |t| && Less(t[i].key, key)
      invariant i <= |t| && forall j :: 0 <= j < i ==> Less(t[j].key, key)
    {
      i := i + 1;
    }
  }

  method IterPrefix(t: seq<Entry>, prefix: Bytes) returns (items: seq<Entry>)
    requires Sorted(t)
    ensures items == Select(t, prefix, None)
  {
    if prefix == [] {
      AllSelected(t);
      return t;
    }
    var i := SetRange(t, prefix);
    items := [];
    forall j | 0 <= j < i ensures !Wanted(t[j], prefix, None) {
      if prefix <= t[j].key { PrefixNotBelow(prefix, t[j].key); }
    }
    SelectNone(t[..i], prefix, None);
    while i < |t| && prefix <= t[i].key
      invariant i <= |t| && items == Select(t[..i], prefix, None)
      invariant i < |t| ==> !Less(t[i].key, prefix)
    {
      SelectStep(t, i, prefix, None);
      items := items + [t[i]];
      ghost var k := t[i].key;
      PrefixNotBelow(prefix, k);
      i := i + 1;
      if i < |t| { StillNotBelow(prefix, k, t[i].key); }
    }
    if i < |t| { NoneBeyond(t, i, prefix, None); }
    SelectFront(t, i, prefix, None);
  }

  lemma {:induction false} AllSelected(t: seq<Entry>)
    ensures Select(t, [], None) == t
  {
    if t != [] { AllSelected(t[..|t| - 1]); }
  }

  lemma StillNotBelow(p: Bytes, a: Bytes, b: Bytes)
    requires !Less(a, p) && Less(a, b)
    ensures !Less(b, p)
  {
    if Less(b, p) { LessTransitive(a, b, p); }
  }

  // ---------- one page ----------

  /** A key of the table between the start key and the prefix: the page loop takes it for the
      end of the prefix and stops. */
  predicate Blocks(k: Bytes, prefix: Bytes, after: Option<Bytes>) {
    after.Some? && Less(after.value, k) && Less(k, prefix)
  }

  predicate Blocked(t: seq<Entry>, prefix: Bytes, after: Option<Bytes>) {
    exists j :: 0 <= j < |t| && Blocks(t[j].key, prefix, after)
  }

  function Page(t: seq<Entry>, prefix: Bytes, after: Option<Bytes>, limit: nat): seq<Entry> {
    if Blocked(t, prefix, after) then [] else Take(limit, Select(t, prefix, after))
  }

  method IterPrefixChunk(t: seq<Entry>, prefix: Bytes, startAfter: Option<Bytes>, limit: nat) returns (items: seq<Entry>)
    requires Sorted(t)
    ensures items == Page(t, prefix, startAfter, limit)
  {
    items := [];
    if limit == 0 { return; }
    var seekKey := if startAfter.Some? then startAfter.value else prefix;
    var i: nat := 0;
    if seekKey != [] { i := SetRange(t, seekKey); }
    BelowSeek(t, i, prefix, startAfter, limit);
    while i < |t|
      invariant Scanning(t, i, items, prefix, startAfter, limit)
    {
      var isAfter := startAfter.None? || Less(startAfter.value, t[i].key);
      if isAfter {
        if prefix != [] && !(prefix <= t[i].key) {
          StopsHere(t, i, items, prefix, startAfter, limit);
          return;
        }
        Collect(t, i, items, prefix, startAfter, limit);
        items := items + [t[i]];
        if |items| >= limit { return; }
      } else {
        PassOver(t, i, items, prefix, startAfter, limit);
      }
      i := i + 1;
    }
    EndHere(t, items, prefix, startAfter, limit);
  }

  lemma EndHere(t: seq<Entry>, items: seq<Entry>, prefix: Bytes, after: Option<Bytes>, limit: nat)
    requires Scanning(t, |t|, items, prefix, after, limit)
    ensures items == Page(t, prefix, after, limit)
  {
    assert t[..|t|] == t;
  }

  /** The entries before the cursor are read: the wanted ones collected, none in the way. */
  ghost predicate Passed(t: seq<Entry>, i: nat, items: seq<Entry>, prefix: Bytes, after: Option<Bytes>) {
    i <= |t| && items == Select(t[..i], prefix, after) && forall j :: 0 <= j < i ==> !Blocks(t[j].key, prefix, after)
  }

  /** The page loop goes on. */
  ghost predicate Scanning(t: seq<Entry>, i: nat, items: seq<Entry>, prefix: Bytes, after: Option<Bytes>, limit: nat) {
    && Passed(t, i, items, prefix, after) && |items| < limit
    && (after.None? ==> forall j :: i <= j < |t| ==> !Less(t[j].key, prefix))
  }

  lemma PassOver(t: seq<Entry>, i: nat, items: seq<Entry>, prefix: Bytes, after: Option<Bytes>, limit: nat)
    requires i < |t| && Scanning(t, i, items, prefix, after, limit) && !After(t[i].key, after)
    ensures Scanning(t, i + 1, items, prefix, after, limit)
  {
    SelectStep(t, i, prefix, after);
  }

  /** A wanted entry goes on the page, which is then finished or not. */
  lemma Collect(t: seq<Entry>, i: nat, items: seq<Entry>, prefix: Bytes, after: Option<Bytes>, limit: nat)
    requires Sorted(t) && i < |t| && Scanning(t, i, items, prefix, after, limit) && Wanted(t[i], prefix, after)
    ensures if |items| + 1 < limit then Scanning(t, i + 1, items + [t[i]], prefix, after, limit)
            else items + [t[i]] == Page(t, prefix, after, limit)
  {
    SelectStep(t, i, prefix, after);
    PrefixNotBelow(prefix, t[i].key);
    if |items| + 1 == limit { FullHere(t, i, items + [t[i]], prefix, after, limit); }
  }

  /** A page that has reached its limit holds the first entries of the selection. */
  lemma FullHere(t: seq<Entry>, i: nat, items: seq<Entry>, prefix: Bytes, after: Option<Bytes>, limit: nat)
    requires Sorted(t) && i < |t| && Passed(t, i + 1, items, prefix, after) && prefix <= t[i].key && |items| == limit
    ensures items == Page(t, prefix, after, limit)
  {
    PrefixNotBelow(prefix, t[i].key);
    SelectFront(t, i + 1, prefix, after);
    NoneBlocksAfter(t, i, prefix, after);
  }

  /** Nothing below the seek key is wanted or blocks. */
  lemma BelowSeek(t: seq<Entry>, i: nat, prefix: Bytes, after: Option<Bytes>, limit: nat)
    requires Sorted(t) && i <= |t| && limit > 0
    requires var seek := if after.Some? then after.value else prefix;
             if seek == [] then i == 0
             else (forall j :: 0 <= j < i ==> Less(t[j].key, seek)) && (i < |t| ==> !Less(t[i].key, seek))
    ensures Scanning(t, i, [], prefix, after, limit)
  {
    forall j | 0 <= j < i ensures !Wanted(t[j], prefix, after) && !Blocks(t[j].key, prefix, after) {
      if after.Some? { LessTotal(t[j].key, after.value); }
      if prefix <= t[j].key { PrefixNotBelow(prefix, t[j].key); }
    }
    SelectNone(t[..i], prefix, after);
    if after.None? {
      forall j | i < j < |t| ensures !Less(t[j].key, prefix) {
        StillNotBelow(prefix, t[i].key, t[j].key);
      }
    }
  }

  lemma NoneBlocksAfter(t: seq<Entry>, i: nat, prefix: Bytes, after: Option<Bytes>)
    requires Sorted(t) && i < |t| && !Less(t[i].key, prefix)
    ensures forall j :: i <= j < |t| ==> !Blocks(t[j].key, prefix, after)
  {
    forall j | i < j < |t| ensures !Less(t[j].key, prefix) {
      StillNotBelow(prefix, t[i].key, t[j].key);
    }
  }

  /** The first key after the start that lacks the prefix ends the page: nothing is left when
      it lies beyond the prefix, and everything is lost when it lies below. */
  lemma StopsHere(t: seq<Entry>, i: nat, items: seq<Entry>, prefix: Bytes, after: Option<Bytes>, limit: nat)
    requires Sorted(t) && i < |t| && After(t[i].key, after) && !(prefix <= t[i].key)
    requires Scanning(t, i, items, prefix, after, limit)
    ensures items == Page(t, prefix, after, limit)
  {
    if Less(t[i].key, prefix) {
      assert Blocks(t[i].key, prefix, after);
      forall j | 0 <= j < i ensures !Wanted(t[j], prefix, after) {
        LessTransitive(t[j].key, t[i].key, prefix);
        if prefix <= t[j].key { PrefixNotBelow(prefix, t[j].key); }
      }
      SelectNone(t[..i], prefix, after);
    } else {
      NoneBlocksAfter(t, i, prefix, after);
      NoneBeyond(t, i, prefix, after);
      SelectFront(t, i, prefix, after);
    }
  }

  /** A start key that has the prefix is never blocked; one below the prefix is blocked by any
      key in between, and then the page is empty although entries may follow. */
  lemma PageExactWhen(t: seq<Entry>, prefix: Bytes, after: Option<Bytes>, limit: nat)
    requires limit > 0
    ensures Page(t, prefix, after, limit) == Take(limit, Select(t, prefix, after)) <==>
            !Blocked(t, prefix, after) || Select(t, prefix, after) == []
    ensures after.Some? && prefix <= after.value ==> !Blocked(t, prefix, after)
  {
    if after.Some? && prefix <= after.value {
      forall j | 0 <= j < |t| ensures !Blocks(t[j].key, prefix, after) {
        if Blocks(t[j].key, prefix, after) {
          LessTransitive(after.value, t[j].key, prefix);
          PrefixNotBelow(prefix, after.value);
        }
      }
    }
  }

  /** The failing input: between the start key and the prefix lies a key of another prefix. */
  lemma KeyBetweenHidesThePage(v: Bytes, w: Bytes, limit: nat)
    requires limit > 0
    ensures var t, prefix, after := [Entry([1], v), Entry([2, 0], w)], [2], Some([0]);
            Sorted(t) && Select(t, prefix, after) == [t[1]] && Page(t, prefix, after, limit) == []
  {
    var t, prefix, after := [Entry([1], v), Entry([2, 0], w)], [2], Some([0]);
    assert Less([], []) == false && Less([0], [1]) && Less([1], [2]) && Less([1], [2, 0]) && Less([0], [2, 0]);
    assert Blocks(t[0].key, prefix, after);
    SelectStep(t, 0, prefix, after);
    SelectStep(t, 1, prefix, after);
    assert t[..2] == t && t[..0] == [];
    assert prefix <= [2, 0] && !(prefix <= [1]);
  }

  // ---------- the paging loop ----------

  /** Going on after the n-th entry of a selection leaves the rest of it. */
  lemma {:induction false} SelectAfter(t: seq<Entry>, prefix: Bytes, after: Option<Bytes>, n: nat)
    requires Sorted(t) && 0 < n <= |Select(t, prefix, after)|
    ensures Select(t, prefix, Some(Select(t, prefix, after)[n - 1].key)) == Select(t, prefix, after)[n..]
  {
    var front, e := t[..|t| - 1], t[|t| - 1];
    var s, s0 := Select(t, prefix, after), Select(front, prefix, after);
    if n <= |s0| {
      var k := s0[n - 1].key;
      assert s[n - 1] == s0[n - 1];
      SelectAfter(front, prefix, after, n);
      SelectIs(front, prefix, after);
      assert s0[n - 1] in front && Wanted(s0[n - 1], prefix, after);
      StillWanted(e, k, prefix, after);
      Tail(s0, if Wanted(e, prefix, after) then [e] else [], n);
    } else {
      forall j | 0 <= j < |t| ensures !Less(e.key, t[j].key) { LessTotal(e.key, t[j].key); }
      SelectNone(t, prefix, Some(e.key));
    }
  }

  lemma Tail<T>(a: seq<T>, b: seq<T>, n: nat)
    requires n <= |a|
    ensures (a + b)[n..] == a[n..] + b
  {
  }

  lemma StillWanted(e: Entry, k: Bytes, prefix: Bytes, after: Option<Bytes>)
    requires Less(k, e.key) && After(k, after)
    ensures Wanted(e, prefix, after) <==> Wanted(e, prefix, Some(k))
  {
    if after.Some? { LessTransitive(after.value, k, e.key); }
  }

  lemma Split<T>(done: seq<T>, left: seq<T>, n: nat)
    requires n <= |left|
    ensures (done + left[..n]) + left[n..] == done + left
  {
  }

  /** One page is the front of what is left, and its last key leaves exactly the rest. */
  lemma OnePage(t: seq<Entry>, prefix: Bytes, after: Option<Bytes>, limit: nat, done: seq<Entry>, left: seq<Entry>)
      returns (page: seq<Entry>, rest: seq<Entry>)
    requires Sorted(t) && limit >= 1 && (after.Some? ==> prefix <= after.value) && left == Select(t, prefix, after)
    ensures page == Page(t, prefix, after, limit)
    ensures (done + page) + rest == done + left && |rest| <= |left| && (page != [] ==> |rest| < |left|)
    ensures |page| < limit ==> rest == []
    ensures page != [] ==> prefix <= page[|page| - 1].key && rest == Select(t, prefix, Some(page[|page| - 1].key))
  {
    PageExactWhen(t, prefix, after, limit);
    page := Take(limit, left);
    rest := left[|page|..];
    if page != [] {
      var n := |page|;
      assert page[n - 1] == left[n - 1];
      SelectAfter(t, prefix, after, n);
      SelectHasPrefix(t, prefix, after, n - 1);
    }
    Split(done, left, |page|);
  }

  /** Between two pages: `left` is what the scan still has to give. */
  ghost predicate Ready(t: seq<Entry>, prefix: Bytes, after: Option<Bytes>, items: seq<Entry>, left: seq<Entry>, all: seq<Entry>) {
    (after.Some? ==> prefix <= after.value) && left == Select(t, prefix, after) && items + left == all
  }

  lemma NextPage(t: seq<Entry>, prefix: Bytes, after: Option<Bytes>, limit: nat, items: seq<Entry>, left: seq<Entry>,
                 all: seq<Entry>)
      returns (page: seq<Entry>, rest: seq<Entry>)
    requires Sorted(t) && limit >= 1 && Ready(t, prefix, after, items, left, all)
    ensures page == Page(t, prefix, after, limit)
    ensures |page| < limit ==> items + page == all
    ensures page == [] ==> items == all
    ensures page != [] ==> |rest| < |left| && Ready(t, prefix, Some(page[|page| - 1].key), items + page, rest, all)
  {
    page, rest := OnePage(t, prefix, after, limit, items, left);
    if |page| < limit { assert (items + page) + rest == items + page; }
  }

  /** Pages of any size, each going on after the last key of the one before, give exactly the
      full scan: in order, nothing missing and nothing twice. */
  method IterPrefixPaged(t: seq<Entry>, prefix: Bytes, limit: nat) returns (items: seq<Entry>)
    requires Sorted(t) && limit >= 1
    ensures items == Select(t, prefix, None)
  {
    items := [];
    var startAfter: Option<Bytes> := None;
    ghost var all := Select(t, prefix, None);
    ghost var left := all;
    assert items + left == all;
    while true
      invariant Ready(t, prefix, startAfter, items, left, all)
      decreases |left|
    {
      ghost var page, rest := NextPage(t, prefix, startAfter, limit, items, left, all);
      var chunk := IterPrefixChunk(t, prefix, startAfter, limit);
      if chunk == [] { break; }
      items := items + chunk;
      startAfter := Some(chunk[|chunk| - 1].key);
      left := rest;
      if |chunk| < limit { break; }
    }
  }

  // ---------- a store that changes between pages ----------

  /** The key after which page `i` starts. */
  function StartOf(pages: seq<seq<Entry>>, i: nat): Option<Bytes>
    requires i <= |pages|
  {
    if i == 0 || pages[i - 1] == [] then None else Some(pages[i - 1][|pages[i - 1]| - 1].key)
  }

  /** Every page is read from the table as it is at that moment; all but the last are full. */
  predicate PagedRun(tables: seq<seq<Entry>>, pages: seq<seq<Entry>>, prefix: Bytes, limit: nat) {
    && |tables| == |pages| && limit >= 1
    && (forall i :: 0 <= i < |pages| ==> Sorted(tables[i]) && pages[i] == Page(tables[i], prefix, StartOf(pages, i), limit))
    && (forall i :: 0 <= i < |pages| - 1 ==> |pages[i]| == limit)
  }

  lemma {:induction false} StartHasPrefix(tables: seq<seq<Entry>>, pages: seq<seq<Entry>>, prefix: Bytes, limit: nat, i: nat)
    requires PagedRun(tables, pages, prefix, limit) && i < |pages|
    ensures StartOf(pages, i).Some? ==> prefix <= StartOf(pages, i).value
    ensures pages[i] == Take(limit, Select(tables[i], prefix, StartOf(pages, i)))
  {
    if i > 0 {
      StartHasPrefix(tables, pages, prefix, limit, i - 1);
      SelectIs(tables[i - 1], prefix, StartOf(pages, i - 1));
      assert pages[i - 1][|pages[i - 1]| - 1] in Select(tables[i - 1], prefix, StartOf(pages, i - 1));
    }
    PageExactWhen(tables[i], prefix, StartOf(pages, i), limit);
  }

  /** The entries of a page increase and lie after its start. */
  lemma PageAfterStart(tables: seq<seq<Entry>>, pages: seq<seq<Entry>>, prefix: Bytes, limit: nat, i: nat)
    requires PagedRun(tables, pages, prefix, limit) && i < |pages|
    ensures Sorted(pages[i])
    ensures forall b :: 0 <= b < |pages[i]| ==> pages[i][b] in tables[i] && Wanted(pages[i][b], prefix, StartOf(pages, i))
  {
    var start := StartOf(pages, i);
    StartHasPrefix(tables, pages, prefix, limit, i);
    SelectSorted(tables[i], prefix, start);
    SelectIs(tables[i], prefix, start);
    forall b | 0 <= b < |pages[i]| ensures pages[i][b] in Select(tables[i], prefix, start) {
      assert pages[i][b] == Select(tables[i], prefix, start)[b];
    }
  }

  /** Pages whose entries increase and lie after the page before. */
  predicate Chained(pages: seq<seq<Entry>>) {
    && (forall i :: 0 <= i < |pages| ==> Sorted(pages[i]))
    && (forall i, b :: 0 < i < |pages| && 0 <= b < |pages[i]| ==> Follows(pages[i - 1], pages[i][b]))
  }

  predicate Follows(page: seq<Entry>, e: Entry) { page != [] && Less(page[|page| - 1].key, e.key) }

  lemma RunIsChained(tables: seq<seq<Entry>>, pages: seq<seq<Entry>>, prefix: Bytes, limit: nat)
    requires PagedRun(tables, pages, prefix, limit)
    ensures Chained(pages)
  {
    forall i | 0 <= i < |pages|
      ensures Sorted(pages[i]) && forall b :: 0 <= b < |pages[i]| ==> After(pages[i][b].key, StartOf(pages, i))
    {
      PageAfterStart(tables, pages, prefix, limit, i);
    }
  }

  lemma {:induction false} ChainIncreases(pages: seq<seq<Entry>>, i: nat, a: nat, j: nat, b: nat)
    requires Chained(pages)
    requires i < |pages| && a < |pages[i]| && j < |pages| && b < |pages[j]|
    requires i < j || (i == j && a < b)
    ensures Less(pages[i][a].key, pages[j][b].key)
    decreases j - i
  {
    if i < j {
      var before := pages[j - 1];
      assert Follows(before, pages[j][b]);
      if i < j - 1 || a < |before| - 1 {
        ChainIncreases(pages, i, a, j - 1, |before| - 1);
        LessTransitive(pages[i][a].key, before[|before| - 1].key, pages[j][b].key);
      }
    }
  }

  /** Even if writers change the table between pages, keys come out in increasing order and
      none comes twice. */
  lemma PagesIncrease(tables: seq<seq<Entry>>, pages: seq<seq<Entry>>, prefix: Bytes, limit: nat, i: nat, a: nat, j: nat, b: nat)
    requires PagedRun(tables, pages, prefix, limit)
    requires i < |pages| && a < |pages[i]| && j < |pages| && b < |pages[j]|
    requires i < j || (i == j && a < b)
    ensures Less(pages[i][a].key, pages[j][b].key)
  {
    RunIsChained(tables, pages, prefix, limit);
    ChainIncreases(pages, i, a, j, b);
  }

  /** A wanted entry of the table is on the page, or the page is full and ends before it. */
  lemma OnPageOrLater(t: seq<Entry>, prefix: Bytes, after: Option<Bytes>, limit: nat, e: Entry, page: seq<Entry>)
    requires Sorted(t) && limit >= 1 && e in t && Wanted(e, prefix, after) && page == Take(limit, Select(t, prefix, after))
    ensures e in page || (|page| == limit && Less(page[limit - 1].key, e.key))
  {
    var s := Select(t, prefix, after);
    SelectIs(t, prefix, after);
    SelectSorted(t, prefix, after);
    var at :| 0 <= at < |s| && s[at] == e;
    if at < limit { assert page[at] == e; }
  }

  lemma FoundOrFurther(tables: seq<seq<Entry>>, pages: seq<seq<Entry>>, prefix: Bytes, limit: nat, e: Entry, i: nat)
    requires PagedRun(tables, pages, prefix, limit) && i < |pages| && |pages[|pages| - 1]| < limit
    requires e in tables[i] && Wanted(e, prefix, StartOf(pages, i))
    ensures e in pages[i] || (i + 1 < |pages| && After(e.key, StartOf(pages, i + 1)))
  {
    var t, page := tables[i], pages[i];
    StartHasPrefix(tables, pages, prefix, limit, i);
    OnPageOrLater(t, prefix, StartOf(pages, i), limit, e, page);
    if e !in page { NextStart(pages, i, limit); }
  }

  lemma NextStart(pages: seq<seq<Entry>>, i: nat, limit: nat)
    requires i < |pages| && |pages[i]| == limit >= 1 && |pages[|pages| - 1]| < limit
    ensures i + 1 < |pages| && StartOf(pages, i + 1) == Some(pages[i][limit - 1].key)
  {
  }

  /** An entry that stays in the table during the whole scan is never missed. */
  lemma {:induction false} StableEntryIsFound(tables: seq<seq<Entry>>, pages: seq<seq<Entry>>, prefix: Bytes, limit: nat,
                                              e: Entry, i: nat)
      returns (page: nat)
    requires PagedRun(tables, pages, prefix, limit) && i < |pages| && |pages[|pages| - 1]| < limit
    requires prefix <= e.key && forall j :: 0 <= j < |tables| ==> e in tables[j]
    requires After(e.key, StartOf(pages, i))
    ensures i <= page < |pages| && e in pages[page]
    decreases |pages| - i
  {
    FoundOrFurther(tables, pages, prefix, limit, e, i);
    if e in pages[i] { return i; }
    page := StableEntryIsFound(tables, pages, prefix, limit, e, i + 1);
  }
}
