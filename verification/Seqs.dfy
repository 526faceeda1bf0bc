/** Sequence vocabulary shared by the model: duplicate-freedom, order-preserving
    filtering and removal of one position. */
module Seqs {

  predicate NoDup<T(==)>(s: seq<T>) {
    forall i, j :: 0 <= i < j < |s| ==> s[i] != s[j]
  }

  function ToSet<T>(s: seq<T>): set<T> {
    set x | x in s
  }

  lemma TakeNext<T>(s: seq<T>, i: nat)
    requires i < |s|
    ensures s[..i + 1] == s[..i] + [s[i]]
  {}

  lemma TakeAll<T>(s: seq<T>)
    ensures s[..|s|] == s && s[..0] == []
  {}

  lemma ConcatAssociates<T>(a: seq<T>, b: seq<T>, c: seq<T>)
    ensures (a + b) + c == a + (b + c)
  {}

  /** The elements of `s` that satisfy `p`, in order. */
  function Filter<T(!new)>(s: seq<T>, p: T -> bool): (r: seq<T>)
    ensures |r| <= |s|
    ensures forall x :: x in r <==> x in s && p(x)
  {
    if |s| == 0 then []
    else
      var rest := Filter(s[..|s| - 1], p);
      assert s == s[..|s| - 1] + [s[|s| - 1]];
      if p(s[|s| - 1]) then rest + [s[|s| - 1]] else rest
  }

  lemma FilterSnoc<T(!new)>(s: seq<T>, x: T, p: T -> bool)
    ensures Filter(s + [x], p) == Filter(s, p) + (if p(x) then [x] else [])
  {
    assert (s + [x])[..|s|] == s;
  }

  lemma FilterNext<T(!new)>(s: seq<T>, i: nat, p: T -> bool)
    requires i < |s|
    ensures Filter(s[..i + 1], p) == Filter(s[..i], p) + (if p(s[i]) then [s[i]] else [])
    ensures !p(s[i]) ==> Filter(s[..i + 1], p) == Filter(s[..i], p)
  {
    TakeNext(s, i);
    FilterSnoc(s[..i], s[i], p);
  }

  lemma {:induction false} FilterConcat<T(!new)>(s: seq<T>, t: seq<T>, p: T -> bool)
    ensures Filter(s + t, p) == Filter(s, p) + Filter(t, p)
  {
    if |t| == 0 {
      assert s + t == s;
    } else {
      var init, last := t[..|t| - 1], t[|t| - 1];
      assert s + t == (s + init) + [last] && t == init + [last];
      FilterSnoc(s + init, last, p);
      FilterSnoc(init, last, p);
      FilterConcat(s, init, p);
    }
  }

  lemma {:induction false} FilterNoDup<T(!new)>(s: seq<T>, p: T -> bool)
    requires NoDup(s)
    ensures NoDup(Filter(s, p))
  {
    if |s| > 0 {
      var init, last := s[..|s| - 1], s[|s| - 1];
      FilterNoDup(init, p);
      assert last !in Filter(init, p);
    }
  }

  lemma {:induction false} FilterAll<T(!new)>(s: seq<T>, p: T -> bool)
    requires forall x :: x in s ==> p(x)
    ensures Filter(s, p) == s
  {
    if |s| > 0 {
      FilterAll(s[..|s| - 1], p);
    }
  }

  lemma {:induction false} FilterNone<T(!new)>(s: seq<T>, p: T -> bool)
    requires forall x :: x in s ==> !p(x)
    ensures Filter(s, p) == []
  {
    if |s| > 0 {
      FilterNone(s[..|s| - 1], p);
    }
  }

  ghost predicate Increasing(at: seq<nat>, n: nat) {
    (forall i, j :: 0 <= i < j < |at| ==> at[i] < at[j]) && forall i :: 0 <= i < |at| ==> at[i] < n
  }

  /** `r` is read off `s` at increasing positions, exactly those that satisfy `p`. */
  ghost predicate SelectsAt<T(!new)>(at: seq<nat>, s: seq<T>, r: seq<T>, p: T -> bool) {
    && Increasing(at, |s|) && |at| == |r|
    && (forall k :: 0 <= k < |at| ==> r[k] == s[at[k]])
    && (forall i :: 0 <= i < |s| ==> (i in at <==> p(s[i])))
  }

  lemma SelectsNext<T(!new)>(at: seq<nat>, s: seq<T>, r: seq<T>, x: T, p: T -> bool)
    requires SelectsAt(at, s, r, p)
    ensures if p(x) then SelectsAt(at + [|s|], s + [x], r + [x], p) else SelectsAt(at, s + [x], r, p)
  {
    if !p(x) { assert |s| !in at; }
  }

  lemma {:induction false} FilterAt<T(!new)>(s: seq<T>, p: T -> bool) returns (at: seq<nat>)
    ensures SelectsAt(at, s, Filter(s, p), p)
  {
    at := [];
    if |s| > 0 {
      var n := |s| - 1;
      at := FilterAt(s[..n], p);
      SelectsNext(at, s[..n], Filter(s[..n], p), s[n], p);
      assert s == s[..n] + [s[n]];
      if p(s[n]) { at := at + [n]; }
    }
  }

  function RemoveAt<T>(s: seq<T>, i: nat): seq<T>
    requires i < |s|
  {
    s[..i] + s[i + 1..]
  }

  /** In a duplicate-free sequence, removing position `i` removes exactly that value. */
  lemma RemoveAtExact<T>(s: seq<T>, i: nat)
    requires i < |s| && NoDup(s)
    ensures NoDup(RemoveAt(s, i))
    ensures forall x :: x in RemoveAt(s, i) <==> x in s && x != s[i]
  {
    var r := RemoveAt(s, i);
    forall x | x in s && x != s[i] ensures x in r {
      var k :| 0 <= k < |s| && s[k] == x;
      assert r[if k < i then k else k - 1] == x;
    }
  }

  lemma ToSetSnoc<T>(s: seq<T>, x: T)
    ensures ToSet(s + [x]) == ToSet(s) + {x}
    ensures x in s ==> ToSet(s) == ToSet(s) + {x}
  {}

  lemma {:induction false} ToSetSize<T>(s: seq<T>)
    requires NoDup(s)
    ensures |ToSet(s)| == |s|
  {
    if |s| > 0 {
      var init, last := s[..|s| - 1], s[|s| - 1];
      assert s == init + [last];
      ToSetSize(init);
      assert ToSet(s) == ToSet(init) + {last};
    }
  }
}
