/** Server rotation: `sntp_try_next_server` moves to the cyclic successor of the current
    server among the usable ones. */
module Rotation {
  import opened Words

  /** The table index `e` places after `cur`, for one turn round a table of `n`. */
  function At(n: nat, cur: nat, e: nat): nat
    requires cur < n && e <= n
  {
    if cur + e < n then cur + e else cur + e - n
  }

  /** The first usable server at least `d` places on, short of a full circle. */
  function Search(n: nat, usable: set<nat>, cur: nat, d: nat): (r: Option<nat>)
    requires cur < n && d <= n
    ensures r.None? <==> forall e :: d <= e < n ==> At(n, cur, e) !in usable
    ensures r.Some? ==> exists e: nat :: Nearest(n, usable, cur, d, e) && r.value == At(n, cur, e)
    decreases n - d
  {
    if d == n then
      None
    else if At(n, cur, d) in usable then
      assert Nearest(n, usable, cur, d, d);
      Some(At(n, cur, d))
    else
      var r := Search(n, usable, cur, d + 1);
      assert r.Some? ==> exists e: nat :: Nearest(n, usable, cur, d, e) && r.value == At(n, cur, e) by {
        if r.Some? {
          var e: nat :| Nearest(n, usable, cur, d + 1, e) && r.value == At(n, cur, e);
          assert Nearest(n, usable, cur, d, e);
        }
      }
      r
  }

  ghost predicate Nearest(n: nat, usable: set<nat>, cur: nat, d: nat, e: nat)
    requires cur < n
  {
    && d <= e < n && At(n, cur, e) in usable
    && forall g :: d <= g < e ==> At(n, cur, g) !in usable
  }

  /** The current server after `sntp_try_next_server`: unchanged if no other is usable. */
  function Rotate(n: nat, usable: set<nat>, cur: nat): (next: nat)
    requires cur < n
    ensures next < n
    ensures cur in usable ==> next in usable
  {
    match Search(n, usable, cur, 1)
    case None => cur
    case Some(j) => j
  }

  function RotateN(n: nat, usable: set<nat>, cur: nat, k: nat): (r: nat)
    requires cur < n
    ensures r < n
    ensures cur in usable ==> r in usable
    decreases k
  {
    if k == 0 then cur else RotateN(n, usable, Rotate(n, usable, cur), k - 1)
  }

  lemma {:induction false} RotateOnceMore(n: nat, usable: set<nat>, cur: nat, k: nat)
    requires cur < n
    ensures RotateN(n, usable, cur, k + 1) == Rotate(n, usable, RotateN(n, usable, cur, k))
    decreases k
  {
    if k > 0 {
      RotateOnceMore(n, usable, Rotate(n, usable, cur), k - 1);
    }
  }

  // ----- One turn round the table -----

  /** The usable servers met from offset `o` (exclusive) to a full circle (inclusive). */
  ghost function Tour(n: nat, usable: set<nat>, cur: nat, o: nat): seq<nat>
    requires cur < n && o <= n
    decreases n - o
  {
    if o == n then []
    else if At(n, cur, o + 1) in usable then [At(n, cur, o + 1)] + Tour(n, usable, cur, o + 1)
    else Tour(n, usable, cur, o + 1)
  }

  lemma {:induction false} TourMembers(n: nat, usable: set<nat>, cur: nat, o: nat, x: nat)
    requires cur < n && o <= n
    ensures x in Tour(n, usable, cur, o)
            <==> x in usable && exists e :: o < e <= n && At(n, cur, e) == x
    decreases n - o
  {
    if o < n {
      TourMembers(n, usable, cur, o + 1, x);
      assert At(n, cur, o + 1) == x || At(n, cur, o + 1) != x;
    }
  }

  lemma {:induction false} TourDistinct(n: nat, usable: set<nat>, cur: nat, o: nat)
    requires cur < n && o <= n
    ensures Distinct(Tour(n, usable, cur, o))
    decreases n - o
  {
    if o < n {
      TourDistinct(n, usable, cur, o + 1);
      TourMembers(n, usable, cur, o + 1, At(n, cur, o + 1));
    }
  }

  ghost function Elements(s: seq<nat>): set<nat> { set x | x in s }

  lemma {:induction false} DistinctSize(s: seq<nat>)
    requires Distinct(s)
    ensures |Elements(s)| == |s|
  {
    if s == [] {
      assert Elements(s) == {};
    } else {
      DistinctSize(s[1..]);
      assert s[0] !in Elements(s[1..]);
      assert Elements(s) == Elements(s[1..]) + {s[0]};
    }
  }

  /** The next usable offset, which exists because a full circle ends on a usable server. */
  lemma {:induction false} TourStep(n: nat, usable: set<nat>, cur: nat, o: nat) returns (next: nat)
    requires cur < n && o < n && cur in usable
    ensures o < next <= n && At(n, cur, next) in usable
    ensures forall g :: o < g < next ==> At(n, cur, g) !in usable
    ensures Tour(n, usable, cur, o) == [At(n, cur, next)] + Tour(n, usable, cur, next)
    decreases n - o
  {
    if At(n, cur, o + 1) in usable {
      next := o + 1;
    } else {
      next := TourStep(n, usable, cur, o + 1);
    }
  }

  lemma RotateStep(n: nat, usable: set<nat>, cur: nat, o: nat, next: nat)
    requires cur < n && o < next <= n && cur in usable && At(n, cur, next) in usable
    requires forall g :: o < g < next ==> At(n, cur, g) !in usable
    ensures Rotate(n, usable, At(n, cur, o)) == At(n, cur, next)
  {
    var c := At(n, cur, o);
    forall e: nat | 1 <= e < next - o
      ensures At(n, c, e) !in usable
    {
      assert At(n, c, e) == At(n, cur, o + e);
    }
    if next - o < n {
      assert At(n, c, next - o) == At(n, cur, next);
      assert Nearest(n, usable, c, 1, next - o);
    }
  }

  lemma {:induction false} RotationsFollowTour(n: nat, usable: set<nat>, cur: nat, o: nat, k: nat)
    requires cur < n && o <= n && cur in usable && k < |Tour(n, usable, cur, o)|
    ensures RotateN(n, usable, At(n, cur, o), k + 1) == Tour(n, usable, cur, o)[k]
    decreases k
  {
    var next := TourStep(n, usable, cur, o);
    RotateStep(n, usable, cur, o, next);
    if k == 0 {
      assert RotateN(n, usable, At(n, cur, next), 0) == At(n, cur, next);
    } else {
      RotationsFollowTour(n, usable, cur, next, k - 1);
    }
  }

  lemma {:induction false} TourEndsAtStart(n: nat, usable: set<nat>, cur: nat, o: nat)
    requires cur < n && o < n && cur in usable
    ensures var t := Tour(n, usable, cur, o); |t| > 0 && t[|t| - 1] == cur
    decreases n - o
  {
    if o + 1 < n {
      TourEndsAtStart(n, usable, cur, o + 1);
    }
  }

  ghost predicate Visited(n: nat, usable: set<nat>, cur: nat, rotations: nat, u: nat)
    requires cur < n
  {
    exists i: nat :: 1 <= i <= rotations && RotateN(n, usable, cur, i) == u
  }

  lemma TourIsUsable(n: nat, usable: set<nat>, cur: nat)
    requires cur in usable && forall u :: u in usable ==> u < n
    ensures forall x: nat :: x in Tour(n, usable, cur, 0) <==> x in usable
    ensures |Tour(n, usable, cur, 0)| == |usable|
  {
    var t := Tour(n, usable, cur, 0);
    forall x: nat
      ensures x in t <==> x in usable
    {
      TourMembers(n, usable, cur, 0, x);
      if x in usable {
        assert At(n, cur, if x > cur then x - cur else x + n - cur) == x;
      }
    }
    assert Elements(t) == usable;
    TourDistinct(n, usable, cur, 0);
    DistinctSize(t);
  }

  /** Fair rotation: over `k` usable servers, `k` rotations visit each of them exactly
      once and come back to the first. */
  lemma FullCircle(n: nat, usable: set<nat>, cur: nat)
    requires cur in usable && forall u :: u in usable ==> u < n
    ensures RotateN(n, usable, cur, |usable|) == cur
    ensures forall i: nat, j: nat :: 1 <= i < j <= |usable| ==> RotateN(n, usable, cur, i) != RotateN(n, usable, cur, j)
    ensures forall u: nat :: u in usable ==> Visited(n, usable, cur, |usable|, u)
  {
    var t := Tour(n, usable, cur, 0);
    TourDistinct(n, usable, cur, 0);
    TourIsUsable(n, usable, cur);
    TourEndsAtStart(n, usable, cur, 0);
    forall i: nat | 1 <= i <= |t|
      ensures RotateN(n, usable, cur, i) == t[i - 1]
    {
      RotationsFollowTour(n, usable, cur, 0, i - 1);
    }
    forall u: nat | u in usable
      ensures Visited(n, usable, cur, |usable|, u)
    {
      var k: nat :| k < |t| && t[k] == u;
      assert RotateN(n, usable, cur, k + 1) == u;
      assert Visited(n, usable, cur, |usable|, u);
    }
  }
}
