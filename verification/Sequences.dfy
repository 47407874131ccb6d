/** Functions on sequences that several modules use. */
module Sequences {

  predicate NoDuplicates<T(==)>(s: seq<T>) {
    forall i, j :: 0 <= i < j < |s| ==> s[i] != s[j]
  }

  function Reverse<T>(s: seq<T>): (r: seq<T>)
    ensures |r| == |s| && forall i :: 0 <= i < |s| ==> r[i] == s[|s| - 1 - i]
  {
    if s == [] then [] else Reverse(s[1..]) + [s[0]]
  }

  lemma ReverseSplits<T>(s: seq<T>, x: T)
    ensures Reverse([x] + s) == Reverse(s) + [x]
    ensures Reverse(s + [x]) == [x] + Reverse(s)
  {
    assert ([x] + s)[1..] == s;
  }

  function Filter<T>(s: seq<T>, keep: T -> bool): seq<T> {
    if s == [] then [] else (if keep(s[0]) then [s[0]] else []) + Filter(s[1..], keep)
  }

  lemma {:induction false} FilterHolds<T(!new)>(s: seq<T>, keep: T -> bool)
    ensures forall x :: x in Filter(s, keep) <==> x in s && keep(x)
  {
    if s != [] {
      FilterHolds(s[1..], keep);
      assert forall x :: x in s <==> x == s[0] || x in s[1..];
    }
  }

  lemma {:induction false} FilterSnoc<T>(s: seq<T>, x: T, keep: T -> bool)
    ensures Filter(s + [x], keep) == Filter(s, keep) + (if keep(x) then [x] else [])
  {
    var all := s + [x];
    if s == [] {
      assert all[1..] == [];
    } else {
      var first, rest := if keep(s[0]) then [s[0]] else [], s[1..];
      FilterSnoc(rest, x, keep);
      assert all[0] == s[0] && all[1..] == rest + [x];
      assert Filter(all, keep) == first + Filter(rest + [x], keep);
      assert Filter(s, keep) == first + Filter(rest, keep);
    }
  }

  lemma {:induction false} FilterAgrees<T>(s: seq<T>, f: T -> bool, g: T -> bool)
    requires forall x :: x in s ==> f(x) == g(x)
    ensures Filter(s, f) == Filter(s, g)
  {
    if s != [] {
      assert s[0] in s && forall x :: x in s[1..] ==> x in s;
      FilterAgrees(s[1..], f, g);
    }
  }
}
