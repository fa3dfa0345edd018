/**
  `MetroData.yellowLineStations`: the nine stations of the Riyadh Metro yellow line,
  listed from the King Abdullah Financial District terminus (order 8) down to Airport
  Terminals 1-2 (order 0). Names are the localization keys of the station names.
 */
module MetroData {
  import opened Options
  import opened Stations
  import opened Progress

  /** Travel minutes to the next station, indexed by order 0..8. */
  const MinutesByOrder: seq<int> := [3, 3, 11, 3, 6, 3, 4, 5, 5]

  /** The table, in the order it is written: strictly descending orders. */
  function YellowLineStations(): (r: seq<Station>)
    ensures |r| == 9
    ensures forall i :: 0 <= i < |r| ==> r[i].order == 8 - i
    ensures forall i :: 0 <= i < |r| ==> r[i].minutesToNext.Some?
    ensures forall i :: 0 <= i < |r| ==> MinutesOf(r[i]) == MinutesByOrder[r[i].order]
    ensures UniqueOrders(r) && NonNegativeMinutes(r)
  {
    [
      Station("station.kafd", 8, Coordinate(24.7671553, 46.6432711), Some(5)),
      Station("station.ar_rabi", 7, Coordinate(24.7862360, 46.6601248), Some(5)),
      Station("station.uthman_bin_affan", 6, Coordinate(24.8013955, 46.6961421), Some(4)),
      Station("station.sabic", 5, Coordinate(24.8070691, 46.7095294), Some(3)),
      Station("station.pnu1", 4, Coordinate(24.8414744, 46.7174164), Some(6)),
      Station("station.pnu2", 3, Coordinate(24.8596218, 46.7045103), Some(3)),
      Station("station.airport_t5", 2, Coordinate(24.9407856, 46.7102385), Some(11)),
      Station("station.airport_t3_4", 1, Coordinate(24.9560402, 46.7021429), Some(3)),
      Station("station.airport_t1_2", 0, Coordinate(24.9609970, 46.6989819), Some(3))
    ]
  }

  /** Every order 0..8 names exactly one station of the table, the one at index `8 - order`. */
  lemma YellowLineOrders(o: int)
    requires 0 <= o <= 8
    ensures FirstWithOrder(YellowLineStations(), o) == Some(YellowLineStations()[8 - o])
  {
    FirstWithOrderUnique(YellowLineStations(), 8 - o);
  }

  /** No station has an order outside 0..8. */
  lemma YellowLineNoOtherOrders(o: int)
    requires o < 0 || o > 8
    ensures FirstWithOrder(YellowLineStations(), o).None?
  {
  }

  /** The shape of the table the worked examples rely on: order `8 - i` at index `i`. */
  predicate DescendingFromEight(s: seq<Station>) {
    && |s| == 9
    && (forall i :: 0 <= i < |s| ==> s[i].order == 8 - i)
    && (forall i :: 0 <= i < |s| ==> MinutesOf(s[i]) == MinutesByOrder[s[i].order])
  }

  /**
    Travelling forward from Airport T3-4 (order 1) to PNU 1 (order 4) passes 3 stations
    and takes 3 + 11 + 3 = 17 minutes; the next station is Airport T5 (order 2).
   */
  lemma ForwardOneToFour()
    ensures var s := YellowLineStations();
      RemainingFrom(s, Some(Forward), s[7], s[4]) == Remaining(3, 17, Some(s[6]))
  {
    ForwardOneToFourOn(YellowLineStations());
  }

  /** The forward example on any table of the same shape. */
  lemma ForwardOneToFourOn(s: seq<Station>)
    requires DescendingFromEight(s)
    ensures RemainingFrom(s, Some(Forward), s[7], s[4]) == Remaining(3, 17, Some(s[6]))
  {
    StationAt(s, 7);
    StationAt(s, 6);
    StationAt(s, 5);
    StationAt(s, 4);
    WalkUpStep(s, 1, 2, Nothing, s[7], Some(s[6]));
    WalkUpStep(s, 1, 3, Remaining(1, 3, Some(s[6])), s[6], Some(s[5]));
    WalkUpStep(s, 1, 4, Remaining(2, 14, Some(s[6])), s[5], Some(s[4]));
  }

  /**
    Travelling backward from PNU 1 (order 4) to Airport T3-4 (order 1) counts the orders
    4, 3 and 2: 3 stations and 6 + 3 + 11 = 20 minutes; the next station is PNU 2 (order 3).
   */
  lemma BackwardFourToOne()
    ensures var s := YellowLineStations();
      RemainingFrom(s, Some(Backward), s[4], s[7]) == Remaining(3, 20, Some(s[5]))
  {
    BackwardFourToOneOn(YellowLineStations());
  }

  /** The backward example on any table of the same shape. */
  lemma BackwardFourToOneOn(s: seq<Station>)
    requires DescendingFromEight(s)
    ensures RemainingFrom(s, Some(Backward), s[4], s[7]) == Remaining(3, 20, Some(s[5]))
  {
    StationAt(s, 4);
    StationAt(s, 5);
    StationAt(s, 6);
    StationAt(s, 7);
    WalkDownStep(s, 4, 3, Nothing, s[4], Some(s[5]));
    WalkDownStep(s, 4, 2, Remaining(1, 6, Some(s[5])), s[5], Some(s[6]));
    WalkDownStep(s, 4, 1, Remaining(2, 9, Some(s[5])), s[6], Some(s[7]));
  }

  /** In a table of that shape, index `k` holds the one station of order `8 - k`. */
  lemma StationAt(s: seq<Station>, k: nat)
    requires DescendingFromEight(s) && k < 9
    ensures FirstWithOrder(s, 8 - k) == Some(s[k])
    ensures MinutesOf(s[k]) == MinutesByOrder[8 - k]
  {
    assert UniqueOrders(s);
    FirstWithOrderUnique(s, k);
  }

  /** One step of the forward walk, visiting the station `x` of order `hi - 1`. */
  lemma WalkUpStep(s: seq<Station>, lo: int, hi: int, acc: Remaining, x: Station, after: Option<Station>)
    requires lo < hi && WalkUp(s, lo, hi - 1) == acc
    requires FirstWithOrder(s, hi - 1) == Some(x) && FirstWithOrder(s, hi) == after
    ensures WalkUp(s, lo, hi) == Visit(acc, Some(x), after)
  {
  }

  /** One step of the backward walk, visiting the station `x` of order `lo + 1`. */
  lemma WalkDownStep(s: seq<Station>, hi: int, lo: int, acc: Remaining, x: Station, after: Option<Station>)
    requires lo < hi && WalkDown(s, hi, lo + 1) == acc
    requires FirstWithOrder(s, lo + 1) == Some(x) && FirstWithOrder(s, lo) == after
    ensures WalkDown(s, hi, lo) == Visit(acc, Some(x), after)
  {
  }

  /**
    Because the table is written in descending order and `min(by:)` keeps the first of
    equally near stations, a tie between two nearest stations goes to the higher order.
   */
  lemma NearestTieGoesToHigherOrder(distance: Distance, position: Coordinate, a: Station, b: Station)
    requires a in YellowLineStations() && b in YellowLineStations() && a.order > b.order
    requires DistanceTo(distance, a, position) == DistanceTo(distance, b, position)
    requires forall x :: x in YellowLineStations() ==> DistanceTo(distance, a, position) <= DistanceTo(distance, x, position)
    ensures NearestStation(YellowLineStations(), distance, position) != Some(b)
    ensures NearestStation(YellowLineStations(), distance, position).value.order >= a.order
  {
    var s := YellowLineStations();
    var i :| 0 <= i < |s| && s[i] == a;
    NearestIsFirstMinimal(s, distance, position, i);
  }
}
