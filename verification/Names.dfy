/** Names that are not in use, and sets of names as lists. */
module Names {
  import opened Seqs

  lemma {:induction false} LengthBound(used: set<string>) returns (b: nat)
    ensures forall s :: s in used ==> |s| < b
    decreases used
  {
    b := 0;
    if used != {} {
      var s :| s in used;
      var rest := LengthBound(used - {s});
      b := if rest <= |s| then |s| + 1 else rest;
    }
  }

  lemma FreshName(used: set<string>) returns (name: string)
    ensures name !in used
  {
    var b := LengthBound(used);
    name := seq(b, i => 'n');
  }

  lemma {:induction false} FreshNames(used: set<string>, n: nat) returns (names: seq<string>)
    ensures |names| == n && NoDup(names) && forall x :: x in names ==> x !in used
  {
    names := [];
    if n > 0 {
      var init := FreshNames(used, n - 1);
      var last := FreshName(used + ToSet(init));
      names := init + [last];
    }
  }

  lemma {:induction false} Listed(names: set<string>) returns (list: seq<string>)
    ensures NoDup(list) && ToSet(list) == names && |list| == |names|
    decreases names
  {
    list := [];
    if names != {} {
      var x :| x in names;
      var rest := Listed(names - {x});
      list := rest + [x];
      ToSetSnoc(rest, x);
    }
  }
}
