/**
 The least minute with a property, found by trying one minute after the other; times are in
 milliseconds. `limit(n)` is where a scan that starts at minute n gives up.
 */
module MinuteScan {
  import opened Types

  function Scan(p: nat -> bool, n: nat, end: int): Option<nat>
    decreases end - n
  {
    if n >= end then None else if p(n) then Some(n) else Scan(p, n + 1, end)
  }

  lemma {:induction false} ScanFinds(p: nat -> bool, n: nat, m: nat, end: int)
    requires n <= m < end && p(m)
    requires forall k: nat :: n <= k < m ==> !p(k)
    ensures Scan(p, n, end) == Some(m)
    decreases m - n
  {
    if n < m {
      ScanFinds(p, n + 1, m, end);
    }
  }

  lemma {:induction false} ScanFails(p: nat -> bool, n: nat, end: int)
    requires forall k: nat :: n <= k < end ==> !p(k)
    ensures Scan(p, n, end) == None
    decreases end - n
  {
    if n < end {
      ScanFails(p, n + 1, end);
    }
  }

  lemma {:induction false} ScanIsLeast(p: nat -> bool, n: nat, end: int)
    ensures match Scan(p, n, end)
            case Some(m) => n <= m < end && p(m) && forall k: nat :: n <= k < m ==> !p(k)
            case None => forall k: nat :: n <= k < end ==> !p(k)
    decreases end - n
  {
    if n < end && !p(n) {
      ScanIsLeast(p, n + 1, end);
    }
  }

  /** The first whole minute strictly after the reference. */
  function After(reference: nat): nat {
    reference / 60000 + 1
  }

  function NextTime(p: nat -> bool, limit: nat -> int, reference: nat): Option<nat> {
    match Scan(p, After(reference), limit(After(reference)))
    case Some(m) => Some(m * 60000)
    case None => None
  }

  lemma NextTimeIsLeast(p: nat -> bool, limit: nat -> int, reference: nat)
    ensures match NextTime(p, limit, reference)
            case Some(t) =>
              && t > reference && t % 60000 == 0 && p(t / 60000) && t / 60000 < limit(After(reference))
              && forall n: nat :: reference < n * 60000 < t ==> !p(n)
            case None => forall n: nat :: reference < n * 60000 && n < limit(After(reference)) ==> !p(n)
  {
    ScanIsLeast(p, After(reference), limit(After(reference)));
  }

  /** The first k results of asking again from each result. */
  function Times(p: nat -> bool, limit: nat -> int, reference: nat, k: nat): seq<nat>
    decreases k
  {
    if k == 0 || NextTime(p, limit, reference).None? then []
    else
      var t := NextTime(p, limit, reference).value;
      [t] + Times(p, limit, t, k - 1)
  }

  /** `times` are later than the reference, in order, all have the property, and none up to the last is missing. */
  ghost predicate Enumerates(p: nat -> bool, reference: nat, times: seq<nat>) {
    && (forall i :: 0 <= i < |times| ==> times[i] > reference && times[i] % 60000 == 0 && p(times[i] / 60000))
    && (forall i, j :: 0 <= i < j < |times| ==> times[i] < times[j])
    && (forall n: nat, i :: 0 <= i < |times| && reference < n * 60000 <= times[i] && p(n) ==> n * 60000 in times)
  }

  /** The list ends early only where asking again fails. */
  lemma {:induction false} TimesEndWhereNoneIsLeft(p: nat -> bool, limit: nat -> int, reference: nat, k: nat)
    ensures var times := Times(p, limit, reference, k);
            && |times| <= k
            && (|times| < k ==> NextTime(p, limit, if times == [] then reference else times[|times| - 1]).None?)
    decreases k
  {
    if k > 0 && NextTime(p, limit, reference).Some? {
      TimesEndWhereNoneIsLeft(p, limit, NextTime(p, limit, reference).value, k - 1);
    }
  }

  lemma FirstTimeThenRest(p: nat -> bool, reference: nat, t: nat, rest: seq<nat>)
    requires t > reference && t % 60000 == 0 && p(t / 60000)
    requires forall n: nat :: reference < n * 60000 < t ==> !p(n)
    requires Enumerates(p, t, rest)
    ensures Enumerates(p, reference, [t] + rest)
  {
    var times := [t] + rest;
    assert forall i :: 0 < i < |times| ==> times[i] == rest[i - 1];
    forall n: nat, i | 0 <= i < |times| && reference < n * 60000 <= times[i] && p(n) ensures n * 60000 in times {
      if n * 60000 <= t {
        assert times[0] == n * 60000;
      } else {
        assert times[i] == rest[i - 1];
        assert n * 60000 in rest;
      }
    }
  }

  lemma {:induction false} TimesEnumerate(p: nat -> bool, limit: nat -> int, reference: nat, k: nat)
    ensures Enumerates(p, reference, Times(p, limit, reference, k))
    decreases k
  {
    if k > 0 && NextTime(p, limit, reference).Some? {
      var t := NextTime(p, limit, reference).value;
      NextTimeIsLeast(p, limit, reference);
      TimesEnumerate(p, limit, t, k - 1);
      FirstTimeThenRest(p, reference, t, Times(p, limit, t, k - 1));
    }
  }
}
