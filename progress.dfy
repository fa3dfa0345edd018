/**
  What is left of a trip from the current station to the destination: the number of
  stations, the minutes and the next station (the loop of
  `computeRemainingStationsAndTime`), and the lists of stations shown to the rider
  (`computeUpcomingStations`, `middleStations`).
 */
module Progress {
  import opened Options
  import opened Stations

  datatype Direction = Forward | Backward

  /** The result tuple `(stations, minutes, next)`. */
  datatype Remaining = Remaining(stations: int, minutes: int, next: Option<Station>)

  const Nothing := Remaining(0, 0, None)

  function Abs(x: int): int {
    if x < 0 then -x else x
  }

  /**
    One iteration of the walk: an order with no station is skipped; otherwise the station
    is counted, its minutes added, and on the first counted station `next` becomes `after`.
   */
  function Visit(acc: Remaining, st: Option<Station>, after: Option<Station>): Remaining {
    match st
    case None => acc
    case Some(x) =>
      Remaining(acc.stations + 1, acc.minutes + MinutesOf(x), if acc.stations == 0 then after else acc.next)
  }

  /** The forward walk once it has visited the orders `lo ..< hi`, in ascending order. */
  function WalkUp(s: seq<Station>, lo: int, hi: int): Remaining
    decreases hi - lo
  {
    if hi <= lo then Nothing
    else Visit(WalkUp(s, lo, hi - 1), FirstWithOrder(s, hi - 1), FirstWithOrder(s, hi))
  }

  /** The backward walk once it has visited the orders `hi, hi - 1, ..., lo + 1`. */
  function WalkDown(s: seq<Station>, hi: int, lo: int): Remaining
    decreases hi - lo
  {
    if hi <= lo then Nothing
    else Visit(WalkDown(s, hi, lo + 1), FirstWithOrder(s, lo + 1), FirstWithOrder(s, lo))
  }

  /** What `computeRemainingStationsAndTime(from: current, to: dest)` returns. */
  function RemainingFrom(s: seq<Station>, direction: Option<Direction>, current: Station, dest: Station): Remaining {
    match direction
    case None => Remaining(Abs(dest.order - current.order), 0, None)
    case Some(Forward) =>
      if current.order >= dest.order then Nothing else WalkUp(s, current.order, dest.order)
    case Some(Backward) =>
      if current.order <= dest.order then Nothing else WalkDown(s, current.order, dest.order)
  }

  /** `computeRemainingStationsAndTime`, with its two counting loops. */
  method ComputeRemainingStationsAndTime(s: seq<Station>, direction: Option<Direction>, current: Station, dest: Station)
    returns (count: int, minutes: int, next: Option<Station>)
    ensures Remaining(count, minutes, next) == RemainingFrom(s, direction, current, dest)
  {
    if direction.None? {
      return Abs(dest.order - current.order), 0, None;
    }
    count, minutes, next := 0, 0, None;
    if direction.value == Forward {
      if current.order >= dest.order {
        return 0, 0, None;
      }
      for order := current.order to dest.order
        invariant Remaining(count, minutes, next) == WalkUp(s, current.order, order)
      {
        var st := FirstWithOrder(s, order);
        assert WalkUp(s, current.order, order + 1) == Visit(Remaining(count, minutes, next), st, FirstWithOrder(s, order + 1));
        if st.Some? {
          if count == 0 {
            next := FirstWithOrder(s, order + 1);
          }
          minutes := minutes + MinutesOf(st.value);
          count := count + 1;
        }
      }
    } else {
      if current.order <= dest.order {
        return 0, 0, None;
      }
      var order := current.order;
      while order > dest.order
        invariant dest.order <= order <= current.order
        invariant Remaining(count, minutes, next) == WalkDown(s, current.order, order)
      {
        var st := FirstWithOrder(s, order);
        assert WalkDown(s, current.order, order - 1) == Visit(Remaining(count, minutes, next), st, FirstWithOrder(s, order - 1));
        if st.Some? {
          if count == 0 {
            next := FirstWithOrder(s, order - 1);
          }
          minutes := minutes + MinutesOf(st.value);
          count := count + 1;
        }
        order := order - 1;
      }
    }
  }

  // What the walks compute, stated over the table itself

  /**
    In a table with unique orders the forward walk over `[lo, hi)` counts exactly the
    stations with an order in that range, and its minutes are their total travel time.
   */
  lemma {:induction false} WalkUpCountsRange(s: seq<Station>, lo: int, hi: int)
    requires UniqueOrders(s) && lo <= hi
    ensures WalkUp(s, lo, hi).stations == |Between(s, lo, hi)|
    ensures WalkUp(s, lo, hi).minutes == SumMinutes(Between(s, lo, hi))
    decreases hi - lo
  {
    if lo < hi {
      var o := hi - 1;
      var prev := WalkUp(s, lo, o);
      WalkUpCountsRange(s, lo, o);
      BetweenSplit(s, lo, o, o + 1);
      BetweenSingleOrder(s, o);
      VisitStep(prev, FirstWithOrder(s, o), FirstWithOrder(s, hi), Between(s, o, o + 1));
      assert WalkUp(s, lo, hi) == Visit(prev, FirstWithOrder(s, o), FirstWithOrder(s, hi));
    } else {
      BetweenEmptyRange(s, lo, hi);
    }
  }

  /** The backward walk from `hi` down to `lo + 1` counts the stations with order in `(lo, hi]`. */
  lemma {:induction false} WalkDownCountsRange(s: seq<Station>, hi: int, lo: int)
    requires UniqueOrders(s) && lo <= hi
    ensures WalkDown(s, hi, lo).stations == |Between(s, lo + 1, hi + 1)|
    ensures WalkDown(s, hi, lo).minutes == SumMinutes(Between(s, lo + 1, hi + 1))
    decreases hi - lo
  {
    if lo < hi {
      var o := lo + 1;
      var prev := WalkDown(s, hi, o);
      var here := Between(s, o, o + 1);
      WalkDownCountsRange(s, hi, o);
      BetweenSplit(s, o, o + 1, hi + 1);
      BetweenSingleOrder(s, o);
      VisitStep(prev, FirstWithOrder(s, o), FirstWithOrder(s, lo), here);
      assert WalkDown(s, hi, lo) == Visit(prev, FirstWithOrder(s, o), FirstWithOrder(s, lo));
    } else {
      BetweenEmptyRange(s, lo + 1, hi + 1);
    }
  }

  /** A visit adds the station it finds, if any, to the count and its minutes to the total. */
  lemma VisitStep(acc: Remaining, st: Option<Station>, after: Option<Station>, here: seq<Station>)
    requires st.None? ==> here == []
    requires st.Some? ==> here == [st.value]
    ensures Visit(acc, st, after).stations == acc.stations + |here|
    ensures Visit(acc, st, after).minutes == acc.minutes + SumMinutes(here)
  {
    if st.Some? {
      assert here[1..] == [];
    }
  }

  /** A walk that has visited a station has a positive count. */
  lemma {:induction false} WalkUpCountsFirst(s: seq<Station>, lo: int, hi: int)
    requires lo < hi && FirstWithOrder(s, lo).Some?
    ensures WalkUp(s, lo, hi).stations >= 1
    decreases hi - lo
  {
    if lo < hi - 1 {
      WalkUpCountsFirst(s, lo, hi - 1);
    }
  }

  lemma {:induction false} WalkDownCountsFirst(s: seq<Station>, hi: int, lo: int)
    requires lo < hi && FirstWithOrder(s, hi).Some?
    ensures WalkDown(s, hi, lo).stations >= 1
    decreases hi - lo
  {
    if lo + 1 < hi {
      WalkDownCountsFirst(s, hi, lo + 1);
    }
  }

  /** Walking forward from a station of the table, `next` is the station one order up. */
  lemma {:induction false} WalkUpNext(s: seq<Station>, lo: int, hi: int)
    requires lo < hi && FirstWithOrder(s, lo).Some?
    ensures WalkUp(s, lo, hi).next == FirstWithOrder(s, lo + 1)
    decreases hi - lo
  {
    var prev := WalkUp(s, lo, hi - 1);
    assert WalkUp(s, lo, hi) == Visit(prev, FirstWithOrder(s, hi - 1), FirstWithOrder(s, hi));
    if lo < hi - 1 {
      WalkUpNext(s, lo, hi - 1);
      WalkUpCountsFirst(s, lo, hi - 1);
    } else {
      assert prev == Nothing;
    }
  }

  /** Walking backward from a station of the table, `next` is the station one order down. */
  lemma {:induction false} WalkDownNext(s: seq<Station>, hi: int, lo: int)
    requires lo < hi && FirstWithOrder(s, hi).Some?
    ensures WalkDown(s, hi, lo).next == FirstWithOrder(s, hi - 1)
    decreases hi - lo
  {
    var o := lo + 1;
    assert WalkDown(s, hi, lo) == Visit(WalkDown(s, hi, o), FirstWithOrder(s, o), FirstWithOrder(s, lo));
    if o < hi {
      WalkDownNext(s, hi, o);
      WalkDownCountsFirst(s, hi, o);
    } else {
      assert WalkDown(s, hi, o) == Nothing;
    }
  }

  /** A walk over a range where every order has a station counts one station per order. */
  lemma {:induction false} WalkUpDense(s: seq<Station>, lo: int, hi: int)
    requires lo <= hi
    requires forall o :: lo <= o < hi ==> FirstWithOrder(s, o).Some?
    ensures WalkUp(s, lo, hi).stations == hi - lo
    decreases hi - lo
  {
    if lo < hi {
      WalkUpDense(s, lo, hi - 1);
    }
  }

  lemma {:induction false} WalkDownDense(s: seq<Station>, hi: int, lo: int)
    requires lo <= hi
    requires forall o :: lo < o <= hi ==> FirstWithOrder(s, o).Some?
    ensures WalkDown(s, hi, lo).stations == hi - lo
    decreases hi - lo
  {
    if lo < hi {
      WalkDownDense(s, hi, lo + 1);
    }
  }

  /**
    Forward, in a table with unique orders, `computeRemainingStationsAndTime` covers the
    orders `[current, dest)`: `stations` counts the stations there, `minutes` totals their
    `minutesToNext` (nil as 0), and from a station of the table `next` is the one an order up.
   */
  lemma RemainingForward(s: seq<Station>, current: Station, dest: Station)
    requires UniqueOrders(s) && current.order < dest.order
    ensures RemainingFrom(s, Some(Forward), current, dest).stations == |Between(s, current.order, dest.order)|
    ensures RemainingFrom(s, Some(Forward), current, dest).minutes == SumMinutes(Between(s, current.order, dest.order))
    ensures current in s ==> RemainingFrom(s, Some(Forward), current, dest).next == FirstWithOrder(s, current.order + 1)
  {
    WalkUpCountsRange(s, current.order, dest.order);
    if current in s {
      WalkUpNext(s, current.order, dest.order);
    }
  }

  /**
    Backward, it covers the orders `(dest, current]`, and from a station of the table
    `next` is the one an order down.
   */
  lemma RemainingBackward(s: seq<Station>, current: Station, dest: Station)
    requires UniqueOrders(s) && current.order > dest.order
    ensures RemainingFrom(s, Some(Backward), current, dest).stations == |Between(s, dest.order + 1, current.order + 1)|
    ensures RemainingFrom(s, Some(Backward), current, dest).minutes == SumMinutes(Between(s, dest.order + 1, current.order + 1))
    ensures current in s ==> RemainingFrom(s, Some(Backward), current, dest).next == FirstWithOrder(s, current.order - 1)
  {
    WalkDownCountsRange(s, current.order, dest.order);
    if current in s {
      WalkDownNext(s, current.order, dest.order);
    }
  }

  /** Neither the count nor, for a table without negative travel times, the minutes are negative. */
  lemma RemainingNonNegative(s: seq<Station>, direction: Option<Direction>, current: Station, dest: Station)
    requires UniqueOrders(s) && NonNegativeMinutes(s)
    ensures RemainingFrom(s, direction, current, dest).stations >= 0
    ensures RemainingFrom(s, direction, current, dest).minutes >= 0
  {
    match direction
    case None =>
    case Some(Forward) =>
      if current.order < dest.order {
        RemainingForward(s, current, dest);
        SumMinutesNonNegative(s, current.order, dest.order);
      }
    case Some(Backward) =>
      if current.order > dest.order {
        RemainingBackward(s, current, dest);
        SumMinutesNonNegative(s, dest.order + 1, current.order + 1);
      }
  }

  // Station lists in travel order

  /** Sorting keeps exactly the stations it is given. */
  lemma SortKeepsMembers(xs: seq<Station>, ascending: bool)
    ensures forall x :: x in SortByOrder(xs, ascending) <==> x in xs
  {
    var r := SortByOrder(xs, ascending);
    forall x ensures x in r <==> x in xs {
      assert x in r <==> x in multiset(r);
      assert x in xs <==> x in multiset(xs);
    }
  }

  /** The stations with order in `[lo, hi)`, sorted by order in the given sense. */
  function SortedRange(s: seq<Station>, lo: int, hi: int, ascending: bool): (r: seq<Station>)
    ensures forall x :: x in r <==> x in s && lo <= x.order < hi
    ensures SortedBy(r, ascending)
    ensures multiset(r) == multiset(Between(s, lo, hi)) && |r| == |Between(s, lo, hi)|
  {
    BetweenMembers(s, lo, hi);
    SortKeepsMembers(Between(s, lo, hi), ascending);
    var r := SortByOrder(Between(s, lo, hi), ascending);
    assert |multiset(r)| == |r| && |multiset(Between(s, lo, hi))| == |Between(s, lo, hi)|;
    r
  }

  /**
    The stations ahead of order `from` up to and including order `to`, in travel order:
    orders in `(from, to]` ascending, in `[to, from)` descending; none when `to` is not ahead.
   */
  function Ahead(s: seq<Station>, ascending: bool, from: int, to: int): (r: seq<Station>)
    ensures forall x :: x in r <==> x in s && if ascending then from < x.order <= to else to <= x.order < from
    ensures SortedBy(r, ascending)
  {
    if ascending then
      if from < to then SortedRange(s, from + 1, to + 1, true) else []
    else
      if from > to then SortedRange(s, to, from, false) else []
  }

  /** `computeUpcomingStations(from: current, to: dest)`. */
  function UpcomingStations(s: seq<Station>, direction: Option<Direction>, current: Station, dest: Station): (r: seq<Station>)
    ensures forall x :: x in r <==>
      && x in s
      && direction.Some?
      && (direction.value == Forward ==> current.order < x.order <= dest.order)
      && (direction.value == Backward ==> dest.order <= x.order < current.order)
    ensures direction.Some? ==> SortedBy(r, direction.value == Forward)
  {
    match direction
    case None => []
    case Some(d) => Ahead(s, d == Forward, current.order, dest.order)
  }

  /** The stations with order strictly between `a` and `b`, sorted from `a` towards `b`. */
  function Inside(s: seq<Station>, a: int, b: int): (r: seq<Station>)
    ensures forall x :: x in r <==> x in s && (a < x.order < b || b < x.order < a)
    ensures SortedBy(r, b > a)
  {
    if b > a then SortedRange(s, a + 1, b, true)
    else if b < a then SortedRange(s, b + 1, a, false)
    else []
  }

  /** `middleStations`: the stations strictly between the start and the destination, in travel order. */
  function MiddleStations(s: seq<Station>, start: Option<Station>, dest: Option<Station>): (r: seq<Station>)
    ensures forall x :: x in r <==>
      && x in s && start.Some? && dest.Some?
      && ((start.value.order < x.order < dest.value.order) || (dest.value.order < x.order < start.value.order))
    ensures start.Some? && dest.Some? ==> SortedBy(r, dest.value.order > start.value.order)
  {
    if start.None? || dest.None? then [] else Inside(s, start.value.order, dest.value.order)
  }

  /** A sorted range of a table with unique orders is strictly in travel order. */
  lemma StrictTravelOrder(s: seq<Station>, lo: int, hi: int, ascending: bool)
    requires UniqueOrders(s)
    ensures var r := SortedRange(s, lo, hi, ascending);
      forall i, j :: 0 <= i < j < |r| ==> if ascending then r[i].order < r[j].order else r[i].order > r[j].order
  {
    var r := SortedRange(s, lo, hi, ascending);
    BetweenSubMultiset(s, lo, hi);
    forall x ensures multiset(r)[x] <= 1 {
      DuplicateInUnique(s, x);
    }
    UniqueOrdersOfSubcollection(s, r);
    forall i, j | 0 <= i < j < |r| ensures if ascending then r[i].order < r[j].order else r[i].order > r[j].order {
      StrictlySorted(r, ascending, i, j);
    }
  }

  /** With unique orders, the stations ahead are strictly in travel order. */
  lemma AheadStrictlyInTravelOrder(s: seq<Station>, ascending: bool, from: int, to: int)
    requires UniqueOrders(s)
    ensures var r := Ahead(s, ascending, from, to);
      forall i, j :: 0 <= i < j < |r| ==> if ascending then r[i].order < r[j].order else r[i].order > r[j].order
  {
    if ascending && from < to {
      StrictTravelOrder(s, from + 1, to + 1, true);
    } else if !ascending && from > to {
      StrictTravelOrder(s, to, from, false);
    }
  }

  /** With unique orders, the upcoming list is strictly ascending forward and strictly descending backward. */
  lemma UpcomingStrictlyInTravelOrder(s: seq<Station>, direction: Direction, current: Station, dest: Station)
    requires UniqueOrders(s)
    ensures var up := UpcomingStations(s, Some(direction), current, dest);
      forall i, j :: 0 <= i < j < |up| ==> if direction == Forward then up[i].order < up[j].order else up[i].order > up[j].order
  {
    AheadStrictlyInTravelOrder(s, direction == Forward, current.order, dest.order);
  }

  /** A station of the table is the one station with its order. */
  lemma BetweenHoldsStation(s: seq<Station>, x: Station)
    requires UniqueOrders(s) && x in s
    ensures |Between(s, x.order, x.order + 1)| == 1
  {
    var i :| 0 <= i < |s| && s[i] == x;
    assert s[i].order == x.order;
    BetweenSingleOrder(s, x.order);
  }

  /**
    When the current station and the destination belong to a table with unique orders,
    the upcoming list is as long as the remaining-station count: the ranges `(current,
    dest]` and `[current, dest)` (or their backward twins) hold equally many stations.
   */
  lemma UpcomingMatchesRemaining(s: seq<Station>, direction: Direction, current: Station, dest: Station)
    requires UniqueOrders(s) && current in s && dest in s
    ensures |UpcomingStations(s, Some(direction), current, dest)| == RemainingFrom(s, Some(direction), current, dest).stations
  {
    match direction
    case Forward =>
      if current.order < dest.order {
        ForwardRangesAgree(s, current, dest);
      }
    case Backward =>
      if current.order > dest.order {
        BackwardRangesAgree(s, current, dest);
      }
  }

  lemma ForwardRangesAgree(s: seq<Station>, current: Station, dest: Station)
    requires UniqueOrders(s) && current in s && dest in s && current.order < dest.order
    ensures |UpcomingStations(s, Some(Forward), current, dest)| == RemainingFrom(s, Some(Forward), current, dest).stations
  {
    AheadCount(s, true, current.order, dest.order);
    RemainingForward(s, current, dest);
    ShiftedRangeSameCount(s, current, dest);
  }

  lemma BackwardRangesAgree(s: seq<Station>, current: Station, dest: Station)
    requires UniqueOrders(s) && current in s && dest in s && current.order > dest.order
    ensures |UpcomingStations(s, Some(Backward), current, dest)| == RemainingFrom(s, Some(Backward), current, dest).stations
  {
    AheadCount(s, false, current.order, dest.order);
    RemainingBackward(s, current, dest);
    ShiftedRangeSameCount(s, dest, current);
  }

  /** The stations ahead are as many as the range they are drawn from. */
  lemma AheadCount(s: seq<Station>, ascending: bool, from: int, to: int)
    ensures ascending && from < to ==> |Ahead(s, ascending, from, to)| == |Between(s, from + 1, to + 1)|
    ensures !ascending && from > to ==> |Ahead(s, ascending, from, to)| == |Between(s, to, from)|
  {
  }

  /**
    For two stations `a`, `b` of a table with unique orders and `a.order < b.order`, the
    ranges `(a, b]` and `[a, b)` hold equally many stations.
   */
  lemma ShiftedRangeSameCount(s: seq<Station>, a: Station, b: Station)
    requires UniqueOrders(s) && a in s && b in s && a.order < b.order
    ensures |Between(s, a.order + 1, b.order + 1)| == |Between(s, a.order, b.order)|
  {
    var lo, hi := a.order, b.order;
    BetweenSplit(s, lo, lo + 1, hi + 1);
    BetweenSplit(s, lo, hi, hi + 1);
    BetweenHoldsStation(s, a);
    BetweenHoldsStation(s, b);
  }
}
