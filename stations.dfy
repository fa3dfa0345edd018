/**
  The station table of one metro line and the queries the trip engine asks of it:
  lookup by order, the stations in a range of orders, sorting by order, the nearest
  station to a position and whether any station is near a position.
 */
module Stations {
  import opened Options

  /** A latitude/longitude pair. */
  datatype Coordinate = Coordinate(latitude: real, longitude: real)

  /**
    The distance in metres from a station's coordinate to a position. The platform
    computes it (great-circle geometry); the model never looks inside it.
   */
  type Distance = (Coordinate, Coordinate) -> real

  /** A station: display name, position along the line, coordinate, minutes to the next higher order. */
  datatype Station = Station(name: string, order: int, coordinate: Coordinate, minutesToNext: Option<int>)

  /** `minutesToNext ?? 0`. */
  function MinutesOf(st: Station): int {
    st.minutesToNext.GetOr(0)
  }

  /** No two stations of the table share an order. */
  predicate UniqueOrders(s: seq<Station>) {
    forall i, j :: 0 <= i < j < |s| ==> s[i].order != s[j].order
  }

  /** No station of the table has a negative travel time. */
  predicate NonNegativeMinutes(s: seq<Station>) {
    forall i :: 0 <= i < |s| ==> MinutesOf(s[i]) >= 0
  }

  /** `stations.first(where: { $0.order == o })`. */
  function FirstWithOrder(s: seq<Station>, o: int): (r: Option<Station>)
    ensures r.None? <==> forall i :: 0 <= i < |s| ==> s[i].order != o
    ensures r.Some? ==> r.value in s && r.value.order == o
  {
    if |s| == 0 then None
    else if s[0].order == o then Some(s[0])
    else FirstWithOrder(s[1..], o)
  }

  /** In a table with unique orders, the station found for an order is the only one with it. */
  lemma {:induction false} FirstWithOrderUnique(s: seq<Station>, k: nat)
    requires UniqueOrders(s) && k < |s|
    ensures FirstWithOrder(s, s[k].order) == Some(s[k])
  {
    if k > 0 {
      assert s[0].order != s[k].order;
      assert UniqueOrders(s[1..]) by {
        forall i, j | 0 <= i < j < |s| - 1 ensures s[1..][i].order != s[1..][j].order {
          assert s[1..][i] == s[i + 1] && s[1..][j] == s[j + 1];
        }
      }
      FirstWithOrderUnique(s[1..], k - 1);
    }
  }

  /** The stations whose order lies in `[lo, hi)`, in table order (a `filter`). */
  function Between(s: seq<Station>, lo: int, hi: int): seq<Station> {
    if |s| == 0 then []
    else (if lo <= s[0].order < hi then [s[0]] else []) + Between(s[1..], lo, hi)
  }

  /** The filter keeps exactly the stations of the table whose order lies in `[lo, hi)`. */
  lemma {:induction false} BetweenMembers(s: seq<Station>, lo: int, hi: int)
    ensures forall x :: x in Between(s, lo, hi) <==> x in s && lo <= x.order < hi
  {
    if |s| > 0 {
      BetweenMembers(s[1..], lo, hi);
      assert s == [s[0]] + s[1..];
    }
  }

  /** An empty range of orders holds no station. */
  lemma {:induction false} BetweenEmptyRange(s: seq<Station>, lo: int, hi: int)
    requires hi <= lo
    ensures Between(s, lo, hi) == []
  {
    if |s| > 0 {
      BetweenEmptyRange(s[1..], lo, hi);
    }
  }

  /** The total of `minutesToNext ?? 0` over a list of stations. */
  function SumMinutes(xs: seq<Station>): int {
    if |xs| == 0 then 0 else MinutesOf(xs[0]) + SumMinutes(xs[1..])
  }

  /** Splitting the range `[lo, hi)` at `mid` splits the count and the minutes of its stations. */
  lemma {:induction false} BetweenSplit(s: seq<Station>, lo: int, mid: int, hi: int)
    requires lo <= mid <= hi
    ensures |Between(s, lo, hi)| == |Between(s, lo, mid)| + |Between(s, mid, hi)|
    ensures SumMinutes(Between(s, lo, hi)) == SumMinutes(Between(s, lo, mid)) + SumMinutes(Between(s, mid, hi))
  {
    if |s| > 0 {
      BetweenSplit(s[1..], lo, mid, hi);
      var h := if lo <= s[0].order < hi then [s[0]] else [];
      SumMinutesAppend(h, Between(s[1..], lo, hi));
      SumMinutesAppend(if lo <= s[0].order < mid then [s[0]] else [], Between(s[1..], lo, mid));
      SumMinutesAppend(if mid <= s[0].order < hi then [s[0]] else [], Between(s[1..], mid, hi));
    }
  }

  lemma {:induction false} SumMinutesAppend(xs: seq<Station>, ys: seq<Station>)
    ensures SumMinutes(xs + ys) == SumMinutes(xs) + SumMinutes(ys)
  {
    if |xs| > 0 {
      assert (xs + ys)[0] == xs[0];
      assert (xs + ys)[1..] == xs[1..] + ys;
      SumMinutesAppend(xs[1..], ys);
    } else {
      assert xs + ys == ys;
    }
  }

  /**
    With unique orders, the range holding the single order `o` contains exactly the
    station `first(where:)` finds for it, and nothing when there is none.
   */
  lemma {:induction false} BetweenSingleOrder(s: seq<Station>, o: int)
    requires UniqueOrders(s)
    ensures FirstWithOrder(s, o).None? ==> Between(s, o, o + 1) == []
    ensures FirstWithOrder(s, o).Some? ==> Between(s, o, o + 1) == [FirstWithOrder(s, o).value]
  {
    if |s| > 0 {
      assert UniqueOrders(s[1..]) by {
        forall i, j | 0 <= i < j < |s| - 1 ensures s[1..][i].order != s[1..][j].order {
          assert s[1..][i] == s[i + 1] && s[1..][j] == s[j + 1];
        }
      }
      BetweenSingleOrder(s[1..], o);
      if s[0].order == o {
        assert forall i :: 0 <= i < |s[1..]| ==> s[1..][i].order != o by {
          forall i | 0 <= i < |s[1..]| ensures s[1..][i].order != o {
            assert s[1..][i] == s[i + 1];
          }
        }
      }
    }
  }

  /** The minutes of a table with no negative travel time, over any range, are not negative. */
  lemma {:induction false} SumMinutesNonNegative(s: seq<Station>, lo: int, hi: int)
    requires NonNegativeMinutes(s)
    ensures SumMinutes(Between(s, lo, hi)) >= 0
  {
    if |s| > 0 {
      assert NonNegativeMinutes(s[1..]) by {
        forall i | 0 <= i < |s| - 1 ensures MinutesOf(s[1..][i]) >= 0 {
          assert s[1..][i] == s[i + 1];
        }
      }
      SumMinutesNonNegative(s[1..], lo, hi);
      var h := if lo <= s[0].order < hi then [s[0]] else [];
      SumMinutesAppend(h, Between(s[1..], lo, hi));
      assert SumMinutes(h) >= 0 by {
        assert MinutesOf(s[0]) >= 0;
      }
    }
  }

  // Sorting by order (`sorted { $0.order < $1.order }` and its descending twin)

  /** `a` may come before `b` in travel order. */
  predicate InTravelOrder(a: int, b: int, ascending: bool) {
    if ascending then a <= b else a >= b
  }

  predicate SortedBy(xs: seq<Station>, ascending: bool) {
    forall i, j :: 0 <= i < j < |xs| ==> InTravelOrder(xs[i].order, xs[j].order, ascending)
  }

  function Insert(x: Station, xs: seq<Station>, ascending: bool): (r: seq<Station>)
    requires SortedBy(xs, ascending)
    ensures SortedBy(r, ascending)
    ensures multiset(r) == multiset(xs) + multiset{x}
  {
    if |xs| == 0 || InTravelOrder(x.order, xs[0].order, ascending) then
      ConsSorted(x, xs, ascending);
      [x] + xs
    else
      var rest := Insert(x, xs[1..], ascending);
      assert xs == [xs[0]] + xs[1..];
      assert rest[0] in multiset(xs[1..]) + multiset{x};
      ConsSorted(xs[0], rest, ascending);
      [xs[0]] + rest
  }

  /** A station that comes no later than the head of a sorted sequence can go in front of it. */
  lemma ConsSorted(y: Station, ys: seq<Station>, ascending: bool)
    requires SortedBy(ys, ascending)
    requires |ys| == 0 || InTravelOrder(y.order, ys[0].order, ascending)
    ensures SortedBy([y] + ys, ascending)
  {
    forall i, j | 0 <= i < j < |[y] + ys|
      ensures InTravelOrder(([y] + ys)[i].order, ([y] + ys)[j].order, ascending)
    {
      if i == 0 && j > 1 {
        assert InTravelOrder(ys[0].order, ys[j - 1].order, ascending);
      }
    }
  }

  /** The stations of `xs` reordered by order, ascending or descending. */
  function SortByOrder(xs: seq<Station>, ascending: bool): (r: seq<Station>)
    ensures SortedBy(r, ascending)
    ensures multiset(r) == multiset(xs)
  {
    if |xs| == 0 then []
    else
      assert xs == [xs[0]] + xs[1..];
      Insert(xs[0], SortByOrder(xs[1..], ascending), ascending)
  }

  /** A list sorted by order whose orders are distinct is strictly ordered. */
  lemma StrictlySorted(xs: seq<Station>, ascending: bool, i: int, j: int)
    requires SortedBy(xs, ascending) && UniqueOrders(xs) && 0 <= i < j < |xs|
    ensures if ascending then xs[i].order < xs[j].order else xs[i].order > xs[j].order
  {
  }

  /** A station occurring at two positions of a list occurs at least twice in its multiset. */
  lemma TwoOccurrences(ys: seq<Station>, i: int, j: int)
    requires 0 <= i < j < |ys| && ys[i] == ys[j]
    ensures multiset(ys)[ys[i]] >= 2
  {
    assert ys == ys[..j] + ys[j..];
    assert ys[..j][i] == ys[i];
    assert ys[j..][0] == ys[j];
    assert multiset(ys) == multiset(ys[..j]) + multiset(ys[j..]);
  }

  /**
    A list whose stations all come from a table with unique orders, and which holds
    no station twice, has unique orders.
   */
  lemma UniqueOrdersOfSubcollection(s: seq<Station>, ys: seq<Station>)
    requires UniqueOrders(s)
    requires forall x :: x in ys ==> x in s
    requires forall x :: multiset(ys)[x] <= 1
    ensures UniqueOrders(ys)
  {
    forall i, j | 0 <= i < j < |ys| ensures ys[i].order != ys[j].order {
      if ys[i] == ys[j] {
        TwoOccurrences(ys, i, j);
        assert false;
      }
      assert ys[i] in ys && ys[j] in ys;
      var a :| 0 <= a < |s| && s[a] == ys[i];
      var b :| 0 <= b < |s| && s[b] == ys[j];
      if a < b {
        assert s[a].order != s[b].order;
      } else if b < a {
        assert s[b].order != s[a].order;
      }
    }
  }

  /** Filtering a table does not duplicate its stations. */
  lemma {:induction false} BetweenSubMultiset(s: seq<Station>, lo: int, hi: int)
    ensures multiset(Between(s, lo, hi)) <= multiset(s)
  {
    if |s| > 0 {
      var head: seq<Station> := if lo <= s[0].order < hi then [s[0]] else [];
      var rest := Between(s[1..], lo, hi);
      BetweenSubMultiset(s[1..], lo, hi);
      assert s == [s[0]] + s[1..];
      assert multiset(s) == multiset{s[0]} + multiset(s[1..]);
      assert multiset(Between(s, lo, hi)) == multiset(head) + multiset(rest);
      assert multiset(head) <= multiset{s[0]};
    }
  }

  /** A list with unique orders holds each station at most once. */
  lemma {:induction false} DuplicateInUnique(xs: seq<Station>, x: Station)
    requires UniqueOrders(xs)
    ensures multiset(xs)[x] <= 1
  {
    if |xs| > 0 {
      assert xs == [xs[0]] + xs[1..];
      assert UniqueOrders(xs[1..]) by {
        forall i, j | 0 <= i < j < |xs| - 1 ensures xs[1..][i].order != xs[1..][j].order {
          assert xs[1..][i] == xs[i + 1] && xs[1..][j] == xs[j + 1];
        }
      }
      DuplicateInUnique(xs[1..], x);
      if xs[0] == x {
        assert x !in xs[1..] by {
          forall k | 0 <= k < |xs| - 1 ensures xs[1..][k] != x {
            assert xs[1..][k] == xs[k + 1];
            assert xs[0].order != xs[k + 1].order;
          }
        }
      }
    }
  }

  // Nearest station (`stations.min { d(lhs) < d(rhs) }`) and proximity

  /** Distance from a station to a position. */
  function DistanceTo(distance: Distance, st: Station, position: Coordinate): real {
    distance(st.coordinate, position)
  }

  /**
    `s[best]` is the first station of `s[..upTo]` at minimum distance: no station is
    nearer, and every earlier one is strictly farther.
   */
  predicate FirstNearest(s: seq<Station>, distance: Distance, position: Coordinate, best: int, upTo: int)
    requires 0 <= best < upTo <= |s|
  {
    && (forall j :: 0 <= j < upTo ==> DistanceTo(distance, s[best], position) <= DistanceTo(distance, s[j], position))
    && (forall j :: 0 <= j < best ==> DistanceTo(distance, s[j], position) > DistanceTo(distance, s[best], position))
  }

  /** The left fold of `min(by:)` from index `i` on: a later station replaces `best` only when strictly nearer. */
  function NearestFrom(s: seq<Station>, distance: Distance, position: Coordinate, i: nat, best: nat): (k: nat)
    requires best < i <= |s|
    requires FirstNearest(s, distance, position, best, i)
    ensures k < |s| && FirstNearest(s, distance, position, k, |s|)
    decreases |s| - i
  {
    if i == |s| then best
    else if DistanceTo(distance, s[i], position) < DistanceTo(distance, s[best], position) then
      NearestFrom(s, distance, position, i + 1, i)
    else
      NearestFrom(s, distance, position, i + 1, best)
  }

  /** `nearestStation(to:)`: the first station at minimum distance, or none for an empty table. */
  function NearestStation(s: seq<Station>, distance: Distance, position: Coordinate): (r: Option<Station>)
    ensures r.None? <==> |s| == 0
    ensures r.Some? ==> exists k :: 0 <= k < |s| && s[k] == r.value && FirstNearest(s, distance, position, k, |s|)
  {
    if |s| == 0 then None
    else
      var k := NearestFrom(s, distance, position, 1, 0);
      Some(s[k])
  }

  /**
    The nearest station is no later in the table than any station at minimum distance:
    of several equally near stations, the first one listed wins.
   */
  lemma NearestIsFirstMinimal(s: seq<Station>, distance: Distance, position: Coordinate, i: int)
    requires 0 <= i < |s|
    requires forall j :: 0 <= j < |s| ==> DistanceTo(distance, s[i], position) <= DistanceTo(distance, s[j], position)
    ensures NearestStation(s, distance, position).Some?
    ensures exists k :: 0 <= k <= i && NearestStation(s, distance, position) == Some(s[k])
  {
    var r := NearestStation(s, distance, position);
    var k :| 0 <= k < |s| && s[k] == r.value && FirstNearest(s, distance, position, k, |s|);
    assert DistanceTo(distance, s[i], position) <= DistanceTo(distance, s[k], position);
    assert k <= i;
  }

  /** Some station lies within `radius` metres of `position`. */
  predicate NearAny(s: seq<Station>, distance: Distance, position: Coordinate, radius: real) {
    exists i :: 0 <= i < |s| && DistanceTo(distance, s[i], position) <= radius
  }

  /** `isUserNearAnyStation`: scan the table, stopping at the first station within range. */
  method IsUserNearAnyStation(s: seq<Station>, distance: Distance, position: Coordinate, radius: real)
    returns (near: bool)
    ensures near <==> NearAny(s, distance, position, radius)
  {
    var i := 0;
    while i < |s|
      invariant 0 <= i <= |s|
      invariant forall j :: 0 <= j < i ==> DistanceTo(distance, s[j], position) > radius
    {
      if DistanceTo(distance, s[i], position) <= radius {
        return true;
      }
      i := i + 1;
    }
    return false;
  }
}
