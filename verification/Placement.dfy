/** Node selection: filter the candidates into a new array, sort that array in place, take a prefix. */
module Placement {
  import opened Records
  import opened Seqs

  /** The comparison a strategy sorts by; the reversed rankings serve reverse selection. */
  datatype Ranking = MostFree | LeastFree | LeastLoaded | MostLoaded

  predicate MoreFree(a: NodeEntry, b: NodeEntry) {
    if a.freeSpace == b.freeSpace then a.chunkCount < b.chunkCount else a.freeSpace > b.freeSpace
  }

  predicate Before(rk: Ranking, a: NodeEntry, b: NodeEntry) {
    match rk
    case MostFree => MoreFree(a, b)
    case LeastFree => MoreFree(b, a)
    case LeastLoaded => a.chunkCount < b.chunkCount
    case MostLoaded => a.chunkCount > b.chunkCount
  }

  function Reverse(rk: Ranking): (r: Ranking)
    ensures forall a, b :: Before(r, a, b) == Before(rk, b, a)
    ensures r != rk
  {
    match rk
    case MostFree => LeastFree
    case LeastFree => MostFree
    case LeastLoaded => MostLoaded
    case MostLoaded => LeastLoaded
  }

  // ----- What a selection must be -----

  function IsEligible(minSpace: int, excluded: set<string>): NodeEntry -> bool {
    (n: NodeEntry) => n.nodeID !in excluded && (minSpace <= 0 || n.freeSpace >= minSpace)
  }

  function IdSet(entries: seq<NodeEntry>): set<string> {
    set n | n in entries :: n.nodeID
  }

  function Eligible(nodes: seq<NodeEntry>, minSpace: int, exclude: seq<NodeEntry>): seq<NodeEntry> {
    Filter(nodes, IsEligible(minSpace, IdSet(exclude)))
  }

  /** `chosen` is `count` elements of `pool` such that nobody left out ranks strictly ahead of anyone chosen. */
  ghost predicate TopOf(rk: Ranking, chosen: seq<NodeEntry>, pool: seq<NodeEntry>, count: nat) {
    && |chosen| == count
    && multiset(chosen) <= multiset(pool)
    && forall x, y :: x in multiset(pool) - multiset(chosen) && y in chosen ==> !Before(rk, x, y)
  }

  ghost predicate Sorted(rk: Ranking, s: seq<NodeEntry>) {
    forall i, j :: 0 <= i < j < |s| ==> !Before(rk, s[j], s[i])
  }

  // ----- Sorting in place -----

  /** The first `n` entries are in order, except that the one at `j` may belong further left. */
  ghost predicate SortedBut(rk: Ranking, s: seq<NodeEntry>, n: nat, j: nat)
    requires n <= |s|
  {
    forall p, q :: 0 <= p < q < n && q != j ==> !Before(rk, s[q], s[p])
  }

  lemma SwapStep(rk: Ranking, s: seq<NodeEntry>, n: nat, j: nat)
    requires 0 < j < n <= |s| && SortedBut(rk, s, n, j) && Before(rk, s[j], s[j - 1])
    ensures var t := s[j - 1 := s[j]][j := s[j - 1]];
            SortedBut(rk, t, n, j - 1) && multiset(t) == multiset(s)
  {}

  lemma SunkIsSorted(rk: Ranking, s: seq<NodeEntry>, n: nat, j: nat)
    requires j < n <= |s| && SortedBut(rk, s, n, j) && (j > 0 ==> !Before(rk, s[j], s[j - 1]))
    ensures Sorted(rk, s[..n])
  {
    forall p | 0 <= p < j ensures !Before(rk, s[j], s[p]) {
      assert p < j - 1 ==> !Before(rk, s[j - 1], s[p]);
    }
  }

  /** Moves the entry at `n` left until the one before it does not rank behind it. */
  method Sink(rk: Ranking, a: array<NodeEntry>, n: nat)
    requires n < a.Length && Sorted(rk, a[..n])
    modifies a
    ensures Sorted(rk, a[..n + 1]) && multiset(a[..]) == multiset(old(a[..]))
  {
    var j := n;
    assert forall k :: 0 <= k < n ==> a[..n][k] == a[..][k];
    while j > 0 && Before(rk, a[j], a[j - 1])
      invariant 0 <= j <= n && SortedBut(rk, a[..], n + 1, j)
      invariant multiset(a[..]) == multiset(old(a[..]))
    {
      SwapStep(rk, a[..], n + 1, j);
      ghost var s := a[..];
      a[j - 1], a[j] := a[j], a[j - 1];
      assert a[..] == s[j - 1 := s[j]][j := s[j - 1]];
      j := j - 1;
    }
    SunkIsSorted(rk, a[..], n + 1, j);
    assert a[..][..n + 1] == a[..n + 1];
  }

  /** Stands for the library sort: some permutation in which nobody precedes a better-ranked entry. */
  method SortInPlace(rk: Ranking, a: array<NodeEntry>)
    modifies a
    ensures multiset(a[..]) == multiset(old(a[..])) && Sorted(rk, a[..])
  {
    for n := 0 to a.Length
      invariant Sorted(rk, a[..n]) && multiset(a[..]) == multiset(old(a[..]))
    {
      Sink(rk, a, n);
    }
    assert a[..a.Length] == a[..];
  }

  method NewArray(s: seq<NodeEntry>) returns (a: array<NodeEntry>)
    ensures fresh(a) && a[..] == s
  {
    a := new NodeEntry[|s|](i requires 0 <= i < |s| => s[i]);
  }

  /** A sorted prefix is a top selection of the whole. */
  lemma PrefixIsTop(rk: Ranking, sorted: seq<NodeEntry>, pool: seq<NodeEntry>, count: nat)
    requires Sorted(rk, sorted) && multiset(sorted) == multiset(pool) && count <= |sorted|
    ensures TopOf(rk, sorted[..count], pool, count)
  {
    assert sorted == sorted[..count] + sorted[count..];
    forall x, y | x in multiset(pool) - multiset(sorted[..count]) && y in sorted[..count] ensures !Before(rk, x, y) {
      assert x in sorted[count..];
      var j :| 0 <= j < |sorted[count..]| && sorted[count..][j] == x;
      var i :| 0 <= i < count && sorted[i] == y;
      assert sorted[count + j] == x;
    }
  }

  /** A node left out by the free-space ranking has no more free space than any chosen one, and where it has as much
      it has no fewer chunks. */
  lemma LeftOutHasLess(chosen: seq<NodeEntry>, pool: seq<NodeEntry>, count: nat, x: NodeEntry, y: NodeEntry)
    requires TopOf(MostFree, chosen, pool, count) && x in multiset(pool) - multiset(chosen) && y in chosen
    ensures x.freeSpace <= y.freeSpace && (x.freeSpace == y.freeSpace ==> y.chunkCount <= x.chunkCount)
  {
    assert !Before(MostFree, x, y);
  }

  /** A node left out by the load ranking has no fewer chunks than any chosen one. */
  lemma LeftOutIsBusier(chosen: seq<NodeEntry>, pool: seq<NodeEntry>, count: nat, x: NodeEntry, y: NodeEntry)
    requires TopOf(LeastLoaded, chosen, pool, count) && x in multiset(pool) - multiset(chosen) && y in chosen
    ensures y.chunkCount <= x.chunkCount
  {
    assert !Before(LeastLoaded, x, y);
  }

  // ----- The strategies -----

  method ExcludedIds(exclude: seq<NodeEntry>) returns (skip: set<string>)
    ensures skip == IdSet(exclude)
  {
    skip := {};
    for i := 0 to |exclude|
      invariant skip == IdSet(exclude[..i])
    {
      assert exclude[..i + 1] == exclude[..i] + [exclude[i]];
      skip := skip + {exclude[i].nodeID};
    }
    assert exclude[..|exclude|] == exclude;
  }

  /** The candidates not excluded, always in a new array. */
  method FilterNodes(nodes: array<NodeEntry>, exclude: seq<NodeEntry>) returns (kept: array<NodeEntry>)
    ensures fresh(kept) && kept[..] == Eligible(nodes[..], 0, exclude)
  {
    var skip := ExcludedIds(exclude);
    var out := [];
    for i := 0 to nodes.Length
      invariant out == Filter(nodes[..][..i], IsEligible(0, skip))
    {
      FilterNext(nodes[..], i, IsEligible(0, skip));
      if nodes[i].nodeID !in skip { out := out + [nodes[i]]; }
    }
    TakeAll(nodes[..]);
    kept := NewArray(out);
  }

  /** The candidates with enough space; without a demand on space, the very array that was given. */
  method FilterByMinSpace(nodes: array<NodeEntry>, minSpace: int) returns (kept: array<NodeEntry>)
    ensures kept[..] == Eligible(nodes[..], minSpace, [])
    ensures if minSpace <= 0 then kept == nodes else fresh(kept)
  {
    if minSpace <= 0 {
      FilterAll(nodes[..], IsEligible(minSpace, IdSet([])));
      return nodes;
    }
    var out := [];
    for i := 0 to nodes.Length
      invariant out == Filter(nodes[..][..i], IsEligible(minSpace, IdSet([])))
    {
      FilterNext(nodes[..], i, IsEligible(minSpace, IdSet([])));
      if nodes[i].freeSpace >= minSpace { out := out + [nodes[i]]; }
    }
    TakeAll(nodes[..]);
    kept := NewArray(out);
  }

  lemma {:induction false} FilterTwice(nodes: seq<NodeEntry>, minSpace: int, exclude: seq<NodeEntry>)
    ensures Eligible(Eligible(nodes, 0, exclude), minSpace, []) == Eligible(nodes, minSpace, exclude)
  {
    if |nodes| > 0 {
      var init, last := nodes[..|nodes| - 1], nodes[|nodes| - 1];
      FilterTwice(init, minSpace, exclude);
      assert nodes == init + [last];
      FilterSnoc(init, last, IsEligible(0, IdSet(exclude)));
      FilterSnoc(init, last, IsEligible(minSpace, IdSet(exclude)));
      if last.nodeID !in IdSet(exclude) {
        FilterSnoc(Eligible(init, 0, exclude), last, IsEligible(minSpace, IdSet([])));
      }
    }
  }

  /** Selection succeeds exactly when enough candidates are eligible, and then returns a top selection of
      them; on failure it returns all eligible candidates. The sort runs in place on an array made by the
      filters, so the caller's array is left alone: there is no `modifies` clause. */
  method SelectNodes(rk: Ranking, nodes: array<NodeEntry>, minSpace: int, count: nat, exclude: seq<NodeEntry>)
    returns (chosen: seq<NodeEntry>, ok: bool)
    ensures ok <==> count <= |Eligible(nodes[..], minSpace, exclude)|
    ensures ok ==> TopOf(rk, chosen, Eligible(nodes[..], minSpace, exclude), count)
    ensures !ok ==> multiset(chosen) == multiset(Eligible(nodes[..], minSpace, exclude))
  {
    var candidates := FilterNodes(nodes, exclude);
    candidates := FilterByMinSpace(candidates, minSpace);
    FilterTwice(nodes[..], minSpace, exclude);
    ghost var pool := candidates[..];
    SortInPlace(rk, candidates);
    SameSize(candidates[..], pool);
    if candidates.Length < count { return candidates[..], false; }
    PrefixIsTop(rk, candidates[..], pool, count);
    assert candidates[..][..count] == candidates[..count];
    return candidates[..count], true;
  }

  lemma SameSize(s: seq<NodeEntry>, t: seq<NodeEntry>)
    requires multiset(s) == multiset(t)
    ensures |s| == |t|
  {
    assert |multiset(s)| == |s| && |multiset(t)| == |t|;
  }

  /** Reverse selection sorts by the reversed ranking. */
  method SelectNodeReverse(rk: Ranking, nodes: array<NodeEntry>, minSpace: int, count: nat, exclude: seq<NodeEntry>)
    returns (chosen: seq<NodeEntry>, ok: bool)
    ensures ok <==> count <= |Eligible(nodes[..], minSpace, exclude)|
    ensures ok ==> TopOf(Reverse(rk), chosen, Eligible(nodes[..], minSpace, exclude), count)
    ensures !ok ==> multiset(chosen) == multiset(Eligible(nodes[..], minSpace, exclude))
  {
    chosen, ok := SelectNodes(Reverse(rk), nodes, minSpace, count, exclude);
  }

  /** The mirror image: what a reverse selection leaves behind is a forward selection of the rest. */
  lemma ReverseIsMirror(rk: Ranking, removed: seq<NodeEntry>, rest: seq<NodeEntry>, pool: seq<NodeEntry>)
    requires TopOf(Reverse(rk), removed, pool, |removed|)
    requires multiset(rest) == multiset(pool) - multiset(removed) && |rest| + |removed| == |pool|
    ensures TopOf(rk, rest, pool, |pool| - |removed|)
  {
    forall x, y | x in multiset(pool) - multiset(rest) && y in rest ensures !Before(rk, x, y) {
      assert x in removed && y in multiset(pool) - multiset(removed);
      assert !Before(Reverse(rk), y, x);
    }
  }

  datatype Option<T> = None | Some(value: T)

  /** The least loaded node by a running minimum; the earliest one on ties. */
  method LeastLoadedPrimary(nodes: seq<NodeEntry>) returns (best: Option<NodeEntry>)
    ensures best.None? <==> nodes == []
    ensures best.Some? ==> exists i :: 0 <= i < |nodes| && nodes[i] == best.value
                                       && (forall k :: 0 <= k < |nodes| ==> !Before(LeastLoaded, nodes[k], best.value))
                                       && (forall k :: 0 <= k < i ==> Before(LeastLoaded, best.value, nodes[k]))
  {
    if nodes == [] { return None; }
    var b, at := nodes[0], 0;
    for i := 1 to |nodes|
      invariant 0 <= at < i && nodes[at] == b
      invariant forall k :: 0 <= k < i ==> b.chunkCount <= nodes[k].chunkCount
      invariant forall k :: 0 <= k < at ==> b.chunkCount < nodes[k].chunkCount
    {
      if nodes[i].chunkCount < b.chunkCount { b, at := nodes[i], i; }
    }
    return Some(b);
  }

  /** The node with the most free space: the head of a sorted copy. */
  method MostFreePrimary(nodes: array<NodeEntry>) returns (best: Option<NodeEntry>)
    ensures best.None? <==> nodes.Length == 0
    ensures best.Some? ==> best.value in nodes[..] && forall n :: n in nodes[..] ==> !Before(MostFree, n, best.value)
  {
    if nodes.Length == 0 { return None; }
    var copy := NewArray(nodes[..]);
    SortInPlace(MostFree, copy);
    SameSize(copy[..], nodes[..]);
    HeadIsBest(MostFree, copy[..], nodes[..]);
    return Some(copy[0]);
  }

  lemma HeadIsBest(rk: Ranking, sorted: seq<NodeEntry>, pool: seq<NodeEntry>)
    requires Sorted(rk, sorted) && multiset(sorted) == multiset(pool) && |sorted| > 0
    ensures sorted[0] in pool && forall n :: n in pool ==> !Before(rk, n, sorted[0])
  {
    assert sorted[0] in multiset(sorted);
    forall n | n in pool ensures !Before(rk, n, sorted[0]) {
      assert n in multiset(sorted);
    }
  }
}
