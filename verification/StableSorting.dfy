/** A stable sort by a comparison function, as `Array.prototype.sort` is. */
module StableSorting {
  import opened Sequences

  type Comparator<!T> = (T, T) -> int

  /** A consistent comparison: a total preorder in which opposite arguments give opposite signs. */
  ghost predicate IsOrder<T(!new)>(compare: Comparator<T>) {
    && (forall a, b :: compare(a, b) <= 0 <==> compare(b, a) >= 0)
    && (forall a, b, c :: compare(a, b) <= 0 && compare(b, c) <= 0 ==> compare(a, c) <= 0)
  }

  ghost predicate IsSorted<T>(s: seq<T>, compare: Comparator<T>) {
    forall i, j {:trigger compare(s[i], s[j])} :: 0 <= i < j < |s| ==> compare(s[i], s[j]) <= 0
  }

  /** Comparing by a key is an order if comparing the keys is. */
  lemma OrderByKey<S(!new), K(!new)>(key: S -> K, before: Comparator<S>, compare: Comparator<K>)
    requires IsOrder(compare) && forall a, b :: before(a, b) == compare(key(a), key(b))
    ensures IsOrder(before)
  {
    forall a, b ensures before(a, b) <= 0 <==> before(b, a) >= 0 {
      assert compare(key(a), key(b)) <= 0 <==> compare(key(b), key(a)) >= 0;
    }
    forall a, b, c | before(a, b) <= 0 && before(b, c) <= 0 ensures before(a, c) <= 0 {
      assert compare(key(a), key(b)) <= 0 && compare(key(b), key(c)) <= 0;
    }
  }

  /** An element that came earlier goes before those that compare equal to it. */
  function Insert<T>(x: T, s: seq<T>, compare: Comparator<T>): seq<T> {
    if s == [] || compare(x, s[0]) <= 0 then [x] + s else [s[0]] + Insert(x, s[1..], compare)
  }

  function Sort<T>(s: seq<T>, compare: Comparator<T>): seq<T> {
    if s == [] then [] else Insert(s[0], Sort(s[1..], compare), compare)
  }

  lemma {:induction false} InsertPermutes<T>(x: T, s: seq<T>, compare: Comparator<T>)
    ensures multiset(Insert(x, s, compare)) == multiset(s) + multiset{x}
  {
    if s != [] {
      assert s == [s[0]] + s[1..];
      if compare(x, s[0]) > 0 {
        InsertPermutes(x, s[1..], compare);
      }
    }
  }

  lemma {:induction false} SortPermutes<T>(s: seq<T>, compare: Comparator<T>)
    ensures multiset(Sort(s, compare)) == multiset(s)
  {
    if s != [] {
      assert s == [s[0]] + s[1..];
      SortPermutes(s[1..], compare);
      InsertPermutes(s[0], Sort(s[1..], compare), compare);
    }
  }

  lemma PermutationsShareMembers<T>(s: seq<T>, t: seq<T>)
    requires multiset(s) == multiset(t)
    ensures forall x :: x in s <==> x in t
  {
    assert forall x :: x in s <==> x in multiset(s);
    assert forall x :: x in t <==> x in multiset(t);
  }

  lemma LeastComesFirst<T(!new)>(s: seq<T>, x: T, compare: Comparator<T>)
    requires IsOrder(compare) && IsSorted(s, compare) && x in s
    ensures compare(s[0], x) <= 0
  {
    var i :| 0 <= i < |s| && s[i] == x;
    if i == 0 {
      assert compare(x, x) <= 0 <==> compare(x, x) >= 0;
    }
  }

  lemma TailIsSorted<T>(s: seq<T>, compare: Comparator<T>)
    requires s != [] && IsSorted(s, compare)
    ensures IsSorted(s[1..], compare) && forall a :: a in s[1..] ==> a in s
  {
  }

  lemma SortedBefore<T>(x: T, s: seq<T>, compare: Comparator<T>)
    requires IsSorted(s, compare) && forall y :: y in s ==> compare(x, y) <= 0
    ensures IsSorted([x] + s, compare)
  {
    var r := [x] + s;
    forall i, j | 0 <= i < j < |r| ensures compare(r[i], r[j]) <= 0 {
      assert r[j] == s[j - 1] && r[j] in s;
      assert i > 0 ==> r[i] == s[i - 1] && compare(s[i - 1], s[j - 1]) <= 0;
    }
  }

  lemma {:induction false} InsertSorts<T(!new)>(x: T, s: seq<T>, compare: Comparator<T>)
    requires IsOrder(compare) && IsSorted(s, compare)
    ensures IsSorted(Insert(x, s, compare), compare)
  {
    if s != [] {
      forall y | y in s ensures compare(s[0], y) <= 0 {
        LeastComesFirst(s, y, compare);
      }
      if compare(x, s[0]) <= 0 {
        SortedBefore(x, s, compare);
      } else {
        TailIsSorted(s, compare);
        InsertSorts(x, s[1..], compare);
        InsertPermutes(x, s[1..], compare);
        PermutationsShareMembers(Insert(x, s[1..], compare), s[1..] + [x]);
        SortedBefore(s[0], Insert(x, s[1..], compare), compare);
      }
    }
  }

  lemma {:induction false} SortSorts<T(!new)>(s: seq<T>, compare: Comparator<T>)
    requires IsOrder(compare)
    ensures IsSorted(Sort(s, compare), compare)
  {
    if s != [] {
      SortSorts(s[1..], compare);
      InsertSorts(s[0], Sort(s[1..], compare), compare);
    }
  }

  /** `same` picks the elements that compare equal to k. */
  ghost predicate PicksEquals<T(!new)>(same: T -> bool, compare: Comparator<T>, k: T) {
    forall x :: same(x) <==> compare(x, k) == 0
  }

  lemma {:induction false} InsertKeepsEquals<T(!new)>(x: T, s: seq<T>, compare: Comparator<T>, k: T, same: T -> bool)
    requires IsOrder(compare) && PicksEquals(same, compare, k)
    ensures Filter(Insert(x, s, compare), same) == Filter([x] + s, same)
  {
    var all := [x] + s;
    assert all[0] == x && all[1..] == s;
    if s != [] && compare(x, s[0]) > 0 {
      var r := [s[0]] + Insert(x, s[1..], compare);
      InsertKeepsEquals(x, s[1..], compare, k, same);
      assert ([x] + s[1..])[1..] == s[1..] && r[1..] == Insert(x, s[1..], compare);
      NotBothEqual(x, s[0], compare, k);
    }
  }

  lemma NotBothEqual<T(!new)>(x: T, y: T, compare: Comparator<T>, k: T)
    requires IsOrder(compare) && compare(x, y) > 0
    ensures !(compare(x, k) == 0 && compare(y, k) == 0)
  {
    assert compare(k, y) <= 0 <==> compare(y, k) >= 0;
    assert compare(x, k) <= 0 && compare(k, y) <= 0 ==> compare(x, y) <= 0;
  }

  /** Elements that compare equal keep their order. */
  lemma {:induction false} SortIsStable<T(!new)>(s: seq<T>, compare: Comparator<T>, k: T, same: T -> bool)
    requires IsOrder(compare) && PicksEquals(same, compare, k)
    ensures Filter(Sort(s, compare), same) == Filter(s, same)
  {
    if s != [] {
      var sorted := Sort(s[1..], compare);
      SortIsStable(s[1..], compare, k, same);
      InsertKeepsEquals(s[0], sorted, compare, k, same);
      assert ([s[0]] + sorted)[1..] == sorted;
    }
  }

  /** A sorted sequence is left as it is, elements that compare equal included. */
  lemma {:induction false} SortedIsFixed<T>(s: seq<T>, compare: Comparator<T>)
    requires IsSorted(s, compare)
    ensures Sort(s, compare) == s
  {
    if s != [] {
      SortedIsFixed(s[1..], compare);
      assert s == [s[0]] + s[1..];
      assert |s| > 1 ==> compare(s[0], s[1]) <= 0;
    }
  }

  lemma TailsPermute<T>(s: seq<T>, t: seq<T>)
    requires s != [] && t != [] && s[0] == t[0] && multiset(s) == multiset(t)
    ensures multiset(s[1..]) == multiset(t[1..])
  {
    assert s == [s[0]] + s[1..] && t == [s[0]] + t[1..];
    assert multiset(s[1..]) == multiset(s) - multiset{s[0]};
    assert multiset(t[1..]) == multiset(t) - multiset{s[0]};
  }

  lemma HeadsAgree<T(!new)>(s: seq<T>, t: seq<T>, compare: Comparator<T>)
    requires IsOrder(compare) && IsSorted(s, compare) && IsSorted(t, compare)
    requires s != [] && t != [] && forall x :: x in s <==> x in t
    ensures s[0] in s && t[0] in s && compare(s[0], t[0]) == 0
  {
    assert t[0] in s && s[0] in t;
    LeastComesFirst(s, t[0], compare);
    LeastComesFirst(t, s[0], compare);
  }

  /** If only equal elements compare equal, there is one sorted arrangement. */
  lemma {:induction false} SortedIsUnique<T(!new)>(s: seq<T>, t: seq<T>, compare: Comparator<T>)
    requires IsOrder(compare) && IsSorted(s, compare) && IsSorted(t, compare) && multiset(s) == multiset(t)
    requires forall a, b :: a in s && b in s && compare(a, b) == 0 ==> a == b
    ensures s == t
  {
    assert |s| == |multiset(s)| == |multiset(t)| == |t|;
    if s != [] {
      PermutationsShareMembers(s, t);
      HeadsAgree(s, t, compare);
      TailsPermute(s, t);
      TailIsSorted(s, compare);
      TailIsSorted(t, compare);
      SortedIsUnique(s[1..], t[1..], compare);
      assert s == [s[0]] + s[1..] && t == [t[0]] + t[1..];
    }
  }

  /** The order of the inputs does not matter. */
  lemma SortIgnoresOrder<T(!new)>(s: seq<T>, t: seq<T>, compare: Comparator<T>)
    requires IsOrder(compare) && multiset(s) == multiset(t)
    requires forall a, b :: a in s && b in s && compare(a, b) == 0 ==> a == b
    ensures Sort(s, compare) == Sort(t, compare)
  {
    SortPermutes(s, compare);
    SortPermutes(t, compare);
    SortSorts(s, compare);
    SortSorts(t, compare);
    PermutationsShareMembers(s, Sort(s, compare));
    SortedIsUnique(Sort(s, compare), Sort(t, compare), compare);
  }

  function Map<S, T>(s: seq<S>, f: S -> T): (r: seq<T>)
    ensures |r| == |s| && forall i :: 0 <= i < |s| ==> r[i] == f(s[i])
  {
    if s == [] then [] else [f(s[0])] + Map(s[1..], f)
  }

  lemma {:induction false} InsertCommutes<S(!new), T>(
    x: S, s: seq<S>, f: S -> T, before: Comparator<S>, after: Comparator<T>)
    requires forall a, b :: before(a, b) == after(f(a), f(b))
    ensures Map(Insert(x, s, before), f) == Insert(f(x), Map(s, f), after)
  {
    if s != [] && before(x, s[0]) > 0 {
      InsertCommutes(x, s[1..], f, before, after);
      assert Insert(x, s, before)[1..] == Insert(x, s[1..], before);
      assert Map(s, f)[1..] == Map(s[1..], f);
    } else {
      assert ([x] + s)[1..] == s;
    }
  }

  /** Sorting commutes with a projection that keeps what is compared. */
  lemma {:induction false} SortCommutes<S(!new), T>(s: seq<S>, f: S -> T, before: Comparator<S>, after: Comparator<T>)
    requires forall a, b :: before(a, b) == after(f(a), f(b))
    ensures Map(Sort(s, before), f) == Sort(Map(s, f), after)
  {
    if s != [] {
      SortCommutes(s[1..], f, before, after);
      InsertCommutes(s[0], Sort(s[1..], before), f, before, after);
      assert Map(s, f)[1..] == Map(s[1..], f);
    }
  }
}
