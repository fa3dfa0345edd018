/**
  What the trip flow of `MetroTripViewModel` guarantees: the guards of `startTrip`, how a
  trip sets off, how progress updates move the stations and fire the one-shot alerts, the
  reset laws, and a consistency invariant every operation keeps.
 */
module TripLaws {
  import opened Options
  import opened Stations
  import opened Progress
  import opened Notifications
  import opened TripEngine

  /**
    The station a trip starts from: on the change-destination path the last passed station
    (else the start), otherwise the station nearest a location fix within range of the line.
   */
  function Origin(line: Line, t: Trip, location: Option<Coordinate>): Option<Station> {
    if t.isChangingDestination then
      if t.lastPassedStation.Some? then t.lastPassedStation else t.startStation
    else if location.None? || !NearAny(line.stations, line.distance, location.value, NearStationDistance) then None
    else NearestStation(line.stations, line.distance, location.value)
  }

  /** The location the first progress update of a trip is computed for. */
  function DepartureLocation(t: Trip, location: Option<Coordinate>, origin: Station): Coordinate {
    if t.isChangingDestination then origin.coordinate else location.GetOr(origin.coordinate)
  }

  /** The statuses `startTrip` reports when it cannot start. */
  predicate IsGuardStatus(s: Status) {
    s.ChooseDestination? || s.UnknownError? || s.NoLocation? || s.NotNearMetro?
  }

  // startTrip

  /** Each guard of `startTrip` sets only the status and makes no notification call. */
  lemma StartTripGuards(line: Line, t: Trip, location: Option<Coordinate>)
    ensures t.selectedDestination.None? ==>
      StartTrip(line, t, location) == Step(t.(statusText := ChooseDestination), [])
    ensures t.selectedDestination.Some? && t.isChangingDestination && t.lastPassedStation.None? && t.startStation.None? ==>
      StartTrip(line, t, location) == Step(t.(statusText := UnknownError), [])
    ensures t.selectedDestination.Some? && !t.isChangingDestination && location.None? ==>
      StartTrip(line, t, location) == Step(t.(statusText := NoLocation), [])
    ensures (t.selectedDestination.Some? && !t.isChangingDestination && location.Some?
             && !NearAny(line.stations, line.distance, location.value, NearStationDistance)) ==>
      StartTrip(line, t, location) == Step(t.(statusText := NotNearMetro), [])
  {
  }

  /** `updateProgress` leaves the status alone, clears it, or reports the arrival. */
  lemma UpdateProgressStatus(line: Line, t: Trip, location: Coordinate)
    ensures var r := UpdateProgress(line, t, location);
      r.trip.statusText == t.statusText || r.trip.statusText == Blank || r.trip.statusText.Arrived?
  {
  }

  /** Setting off never ends in a guard status: the first progress update clears or reports arrival. */
  lemma DepartNotGuard(line: Line, t1: Trip, location: Coordinate, dest: Station)
    requires t1.statusText == Blank
    ensures !IsGuardStatus(Depart(line, t1, location, dest).trip.statusText)
  {
    UpdateProgressStatus(line, t1, location);
  }

  /** Past its guards, `startTrip` continues from the origin on one of its two paths. */
  lemma StartTripFromOrigin(line: Line, t: Trip, location: Option<Coordinate>)
    requires t.selectedDestination.Some? && Origin(line, t, location).Some?
    ensures var dest := t.selectedDestination.value; var origin := Origin(line, t, location).value;
      StartTrip(line, t, location) ==
        if t.isChangingDestination then ContinueFrom(line, t.(startStation := Some(origin)), origin, dest)
        else StartFrom(line, t.(startStation := Some(origin), lastPassedStation := Some(origin)), origin, dest, location.value)
  {
  }

  /**
    Conversely, a guard status comes only from a guard: whenever `startTrip` ends with one,
    nothing but the status changed and no notification call was made.
   */
  lemma GuardStatusOnlyFromGuards(line: Line, t: Trip, location: Option<Coordinate>)
    ensures var r := StartTrip(line, t, location);
      IsGuardStatus(r.trip.statusText) ==> r.calls == [] && r.trip == t.(statusText := r.trip.statusText)
    ensures var r := StartTrip(line, t, location);
      IsGuardStatus(r.trip.statusText) <==> t.selectedDestination.None? || Origin(line, t, location).None?
  {
    if t.selectedDestination.Some? && Origin(line, t, location).Some? {
      var dest := t.selectedDestination.value;
      var origin := Origin(line, t, location).value;
      StartTripFromOrigin(line, t, location);
      if dest.order != origin.order {
        if t.isChangingDestination {
          DepartNotGuard(line, SetOff(t.(startStation := Some(origin)), origin, dest).(isChangingDestination := false), origin.coordinate, dest);
        } else {
          DepartNotGuard(line, SetOff(t.(startStation := Some(origin), lastPassedStation := Some(origin)), origin, dest), location.value, dest);
        }
      }
    }
  }

  /**
    When the trip would start at the destination itself, it ends at once: not tracking,
    nothing remaining, an arrival alert, and the trip notifications cancelled.
   */
  lemma StartTripAtDestination(line: Line, t: Trip, location: Option<Coordinate>)
    requires t.selectedDestination.Some? && Origin(line, t, location).Some?
    requires t.selectedDestination.value.order == Origin(line, t, location).value.order
    ensures var r := StartTrip(line, t, location); var dest := t.selectedDestination.value;
      && r.calls == [Cancel]
      && !r.trip.isTracking && r.trip.showArrivalSheet
      && r.trip.stationsRemaining == 0 && r.trip.etaMinutes == 0
      && r.trip.nextStation.None? && r.trip.upcomingStations == []
      && r.trip.currentNearestStation == Some(dest)
      && r.trip.activeAlert == Some(Arrival(dest.name))
      && r.trip.startStation == Origin(line, t, location)
      && r.trip.statusText == (if t.isChangingDestination then Arrived(dest.name) else AlreadyAtDestination(dest.name))
      && r.trip.isChangingDestination == t.isChangingDestination
      && r.trip.tripDirection == t.tripDirection
  {
    StartTripFromOrigin(line, t, location);
  }

  /**
    Otherwise the trip sets off from the origin: the direction is forward exactly when the
    destination's order is higher, the first progress update runs at the origin (or the
    location fix), and tracking stays on unless that update already finds the rider arrived.
   */
  lemma StartTripSetsOff(line: Line, t: Trip, location: Option<Coordinate>)
    requires t.selectedDestination.Some? && Origin(line, t, location).Some? && |line.stations| > 0
    requires t.selectedDestination.value.order != Origin(line, t, location).value.order
    ensures var r := StartTrip(line, t, location); var dest := t.selectedDestination.value;
      var origin := Origin(line, t, location).value; var at := DepartureLocation(t, location, origin);
      && (r.trip.tripDirection == Some(Forward) <==> dest.order > origin.order)
      && (r.trip.tripDirection == Some(Backward) <==> dest.order < origin.order)
      && r.trip.startStation == Some(origin)
      && r.trip.selectedDestination == t.selectedDestination
      && !r.trip.isChangingDestination
      && (r.trip.isTracking <==> line.distance(dest.coordinate, at) > ArrivalDistance)
      && (r.trip.didFireArrivalAlert <==> !r.trip.isTracking)
      && r.trip.currentNearestStation == NearestStation(line.stations, line.distance, at)
      && r.trip.etaMinutes == RemainingFrom(line.stations, r.trip.tripDirection, r.trip.currentNearestStation.value, dest).minutes
  {
    var dest := t.selectedDestination.value;
    var origin := Origin(line, t, location).value;
    var at := DepartureLocation(t, location, origin);
    var t1 := Departing(t, origin, dest);
    StartTripFromOrigin(line, t, location);
    assert StartTrip(line, t, location).trip == UpdateProgress(line, t1, at).trip;
    UpdateProgressMoves(line, t1, at);
  }

  /**
    The notifications a trip that sets off requests with a positive delay: the approaching
    one at `eta - 3` minutes when `eta > 3`, and the arrival one at `eta` minutes when `eta > 0`.
   */
  lemma StartTripSchedules(line: Line, t: Trip, location: Option<Coordinate>)
    requires t.selectedDestination.Some? && Origin(line, t, location).Some?
    requires t.selectedDestination.value.order != Origin(line, t, location).value.order
    ensures var r := StartTrip(line, t, location); var dest := t.selectedDestination.value;
      && (forall m :: m > 0 ==> (ScheduleApproaching(m, dest.name) in r.calls <==> r.trip.etaMinutes > 3 && m == r.trip.etaMinutes - 3))
      && (forall m :: m > 0 ==> (ScheduleArrival(m, dest.name) in r.calls <==> r.trip.etaMinutes > 0 && m == r.trip.etaMinutes))
  {
    var dest := t.selectedDestination.value;
    var origin := Origin(line, t, location).value;
    var at := DepartureLocation(t, location, origin);
    var t1 := Departing(t, origin, dest);
    var u := UpdateProgress(line, t1, at);
    StartTripFromOrigin(line, t, location);
    assert StartTrip(line, t, location) == Step(u.trip, u.calls + ScheduleCalls(u.trip.etaMinutes, dest.name));
    forall m | m > 0
      ensures ScheduleApproaching(m, dest.name) !in u.calls && ScheduleArrival(m, dest.name) !in u.calls
    {
      UpdateProgressCalls(line, t1, at);
    }
  }

  /** The trip as `startTrip` hands it to its first progress update. */
  function Departing(t: Trip, origin: Station, dest: Station): Trip {
    if t.isChangingDestination then SetOff(t.(startStation := Some(origin)), origin, dest).(isChangingDestination := false)
    else SetOff(t.(startStation := Some(origin), lastPassedStation := Some(origin)), origin, dest)
  }

  /** The calls `updateProgress` itself makes are immediate ones, for zero minutes. */
  lemma UpdateProgressCalls(line: Line, t: Trip, location: Coordinate)
    ensures forall c :: c in UpdateProgress(line, t, location).calls ==> c.Cancel? || c.minutes == 0
  {
  }

  /** The notifications a trip's estimated time leaves pending: the approaching one, then the arrival one. */
  lemma ScheduleCallsPending(p: Pending, eta: int, name: string)
    ensures DeliverAll(p, ScheduleCalls(eta, name)) ==
      Pending(if eta > 3 then Some(Request(name, (eta - 3) * 60)) else p.approaching,
              if eta > 0 then Some(Request(name, eta * 60)) else p.arrival)
  {
    var a: seq<NotificationCall> := if eta > 3 then [ScheduleApproaching(Max(eta - 3, 1), name)] else [];
    var b: seq<NotificationCall> := if eta > 0 then [ScheduleArrival(eta, name)] else [];
    DeliverAllAppend(p, a, b);
  }

  // updateProgress and userLocationUpdated

  /**
    A progress update moves the nearest station to the one nearest the location, and the
    last passed station with it only when the nearest station's order changed; the counts
    and the next station are those of `computeRemainingStationsAndTime` from there.
   */
  lemma UpdateProgressMoves(line: Line, t: Trip, location: Coordinate)
    requires t.selectedDestination.Some? && |line.stations| > 0
    ensures var r := UpdateProgress(line, t, location);
      var nearest := NearestStation(line.stations, line.distance, location).value;
      && r.trip.currentNearestStation == Some(nearest)
      && r.trip.lastPassedStation ==
           (if t.currentNearestStation.Some? && t.currentNearestStation.value.order == nearest.order
            then t.lastPassedStation else Some(nearest))
      && Remaining(r.trip.stationsRemaining, r.trip.etaMinutes, r.trip.nextStation)
         == RemainingFrom(line.stations, t.tripDirection, nearest, t.selectedDestination.value)
      && r.trip.selectedDestination == t.selectedDestination && r.trip.startStation == t.startStation
      && r.trip.tripDirection == t.tripDirection && r.trip.isChangingDestination == t.isChangingDestination
  {
    var found := NearestStation(line.stations, line.distance, location);
    var dest := t.selectedDestination.value;
    var t1 := Refresh(line, t, found.value, dest);
    TailsKeepPosition(line, t1, found.value, dest);
  }

  /** The stations, counts, destination, direction and path of a trip. */
  predicate SamePosition(a: Trip, b: Trip) {
    && a.currentNearestStation == b.currentNearestStation && a.lastPassedStation == b.lastPassedStation
    && a.stationsRemaining == b.stationsRemaining && a.etaMinutes == b.etaMinutes && a.nextStation == b.nextStation
    && a.selectedDestination == b.selectedDestination && a.startStation == b.startStation
    && a.tripDirection == b.tripDirection && a.isChangingDestination == b.isChangingDestination
  }

  /** What follows the refresh in `updateProgress` moves no station and no count. */
  lemma TailsKeepPosition(line: Line, t1: Trip, nearest: Station, dest: Station)
    ensures SamePosition(ArriveAt(t1, dest).trip, t1)
    ensures SamePosition(PassBy(line, t1, nearest, dest).trip, t1)
  {
  }

  /**
    Within `arrivalDistance` of the destination the trip stops: tracking off, the arrival
    sheet shown, no upcoming stations. The first time only, the arrival alert is raised,
    and the trip notifications are replaced by an arrival notification due in one second.
   */
  lemma UpdateProgressArrives(line: Line, t: Trip, location: Coordinate, p: Pending)
    requires t.selectedDestination.Some? && |line.stations| > 0
    requires line.distance(t.selectedDestination.value.coordinate, location) <= ArrivalDistance
    ensures var r := UpdateProgress(line, t, location); var dest := t.selectedDestination.value;
      && !r.trip.isTracking && r.trip.showArrivalSheet && r.trip.upcomingStations == []
      && r.trip.statusText == Arrived(dest.name)
      && r.trip.didFireArrivalAlert
      && r.calls == (if t.didFireArrivalAlert then [] else [Cancel, ScheduleArrival(0, dest.name)])
      && r.trip.activeAlert == (if t.didFireArrivalAlert then t.activeAlert else Some(Arrival(dest.name)))
      && (!t.didFireArrivalAlert ==> DeliverAll(p, r.calls) == Pending(None, Some(Request(dest.name, 1))))
  {
    var r := UpdateProgress(line, t, location);
    if !t.didFireArrivalAlert {
      var name := t.selectedDestination.value.name;
      var arrival := [ScheduleArrival(0, name)];
      assert r.calls[1..] == arrival && arrival[1..] == [];
      assert DeliverAll(p, r.calls) == DeliverAll(NothingPending, arrival);
      assert DeliverAll(NothingPending, arrival) == DeliverAll(Deliver(NothingPending, arrival[0]), []);
    }
  }

  /**
    Farther from the destination the status is cleared, tracking is untouched, and the
    approaching alert is raised exactly when it has not fired yet and the rider is at the
    station just before the destination. The immediate approaching request it makes asks
    for zero minutes, which the notification manager drops: nothing pending changes.
   */
  lemma UpdateProgressOnTheWay(line: Line, t: Trip, location: Coordinate, p: Pending)
    requires t.selectedDestination.Some? && |line.stations| > 0
    requires line.distance(t.selectedDestination.value.coordinate, location) > ArrivalDistance
    ensures var r := UpdateProgress(line, t, location); var dest := t.selectedDestination.value;
      var nearest := NearestStation(line.stations, line.distance, location).value;
      && r.trip.statusText == Blank
      && r.trip.isTracking == t.isTracking
      && r.trip.didFireArrivalAlert == t.didFireArrivalAlert
      && (r.trip.didFireApproachingAlert <==> t.didFireApproachingAlert || ApproachingNow(line, t, nearest, dest))
      && (ApproachingNow(line, t, nearest, dest) ==>
            r.trip.activeAlert == Some(Approaching(dest.name, r.trip.etaMinutes))
            && r.calls == [ScheduleApproaching(0, dest.name)])
      && (!ApproachingNow(line, t, nearest, dest) ==> r.calls == [] && r.trip.activeAlert == t.activeAlert)
      && DeliverAll(p, r.calls) == p
  {
    var r := UpdateProgress(line, t, location);
    if r.calls != [] {
      ApproachingDropped(p, 0, t.selectedDestination.value.name);
      assert r.calls[1..] == [];
    }
  }

  /** `userLocationUpdated` does nothing when not tracking or without a location fix. */
  lemma UserLocationUpdatedIdle(line: Line, t: Trip, location: Option<Coordinate>)
    requires !t.isTracking || location.None?
    ensures UserLocationUpdated(line, t, location) == Step(t, [])
  {
  }

  /** A second progress update for the same location changes nothing and calls nothing. */
  lemma UpdateProgressIdempotent(line: Line, t: Trip, location: Coordinate)
    ensures var r := UpdateProgress(line, t, location);
      UpdateProgress(line, r.trip, location) == Step(r.trip, [])
  {
    var r := UpdateProgress(line, t, location);
    var found := NearestStation(line.stations, line.distance, location);
    if t.selectedDestination.Some? && found.Some? {
      var dest := t.selectedDestination.value;
      var nearest := found.value;
      TailsKeepPosition(line, Refresh(line, t, nearest, dest), nearest, dest);
      assert LastPassed(r.trip, nearest) == r.trip.lastPassedStation;
      if line.distance(dest.coordinate, location) > ArrivalDistance {
        assert !ApproachingNow(line, r.trip, nearest, dest);
      }
    }
  }

  // One-shot alerts over a ride

  /** A ride: a series of location updates, with all the calls they make, in order. */
  function Ride(line: Line, t: Trip, locations: seq<Option<Coordinate>>): Step
    decreases |locations|
  {
    if |locations| == 0 then Step(t, [])
    else
      var u := UserLocationUpdated(line, t, locations[0]);
      var rest := Ride(line, u.trip, locations[1..]);
      Step(rest.trip, u.calls + rest.calls)
  }

  /** How many arrival notifications a series of calls requests. */
  function Arrivals(calls: seq<NotificationCall>): nat {
    if |calls| == 0 then 0 else (if calls[0].ScheduleArrival? then 1 else 0) + Arrivals(calls[1..])
  }

  /** How many approaching notifications a series of calls requests. */
  function Approachings(calls: seq<NotificationCall>): nat {
    if |calls| == 0 then 0 else (if calls[0].ScheduleApproaching? then 1 else 0) + Approachings(calls[1..])
  }

  lemma {:induction false} CountsAppend(a: seq<NotificationCall>, b: seq<NotificationCall>)
    ensures Arrivals(a + b) == Arrivals(a) + Arrivals(b)
    ensures Approachings(a + b) == Approachings(a) + Approachings(b)
    decreases |a|
  {
    if |a| == 0 {
      assert a + b == b;
    } else {
      assert (a + b)[0] == a[0] && (a + b)[1..] == a[1..] + b;
      CountsAppend(a[1..], b);
    }
  }

  /**
    One location update requests an arrival (or approaching) notification exactly when it
    raises the matching one-shot flag, and never lowers either flag.
   */
  lemma UpdateFlags(line: Line, t: Trip, location: Option<Coordinate>)
    ensures var r := UserLocationUpdated(line, t, location);
      && (t.didFireArrivalAlert ==> r.trip.didFireArrivalAlert)
      && (t.didFireApproachingAlert ==> r.trip.didFireApproachingAlert)
      && Arrivals(r.calls) == (if r.trip.didFireArrivalAlert && !t.didFireArrivalAlert then 1 else 0)
      && Approachings(r.calls) == (if r.trip.didFireApproachingAlert && !t.didFireApproachingAlert then 1 else 0)
  {
    if t.isTracking && location.Some? {
      var found := NearestStation(line.stations, line.distance, location.value);
      if t.selectedDestination.Some? && found.Some? {
        var dest := t.selectedDestination.value;
        var t1 := Refresh(line, t, found.value, dest);
        assert t1.didFireArrivalAlert == t.didFireArrivalAlert && t1.didFireApproachingAlert == t.didFireApproachingAlert;
        if line.distance(dest.coordinate, location.value) <= ArrivalDistance {
          ArriveAtFlags(t1, dest);
        } else {
          PassByFlags(line, t1, found.value, dest);
        }
      }
    }
  }

  /** The arrival branch requests an arrival notification exactly when it raises its flag. */
  lemma ArriveAtFlags(t1: Trip, dest: Station)
    ensures var r := ArriveAt(t1, dest);
      && r.trip.didFireArrivalAlert && r.trip.didFireApproachingAlert == t1.didFireApproachingAlert
      && Arrivals(r.calls) == (if t1.didFireArrivalAlert then 0 else 1)
      && Approachings(r.calls) == 0
  {
    ArrivalCalls(dest.name);
  }

  /** The approaching branch requests an approaching notification exactly when it raises its flag. */
  lemma PassByFlags(line: Line, t1: Trip, nearest: Station, dest: Station)
    ensures var r := PassBy(line, t1, nearest, dest);
      && r.trip.didFireArrivalAlert == t1.didFireArrivalAlert
      && (r.trip.didFireApproachingAlert <==> t1.didFireApproachingAlert || ApproachingNow(line, t1, nearest, dest))
      && Arrivals(r.calls) == 0
      && Approachings(r.calls) == (if ApproachingNow(line, t1, nearest, dest) then 1 else 0)
  {
    ApproachingCalls(dest.name);
  }

  /** The calls of the arrival branch request one arrival notification. */
  lemma ArrivalCalls(name: string)
    ensures Arrivals([Cancel, ScheduleArrival(0, name)]) == 1
    ensures Approachings([Cancel, ScheduleArrival(0, name)]) == 0
  {
    var tail := [ScheduleArrival(0, name)];
    assert [Cancel, ScheduleArrival(0, name)][1..] == tail;
    assert tail[1..] == [];
    assert Arrivals(tail) == 1 && Approachings(tail) == 0;
  }

  /** The calls of the approaching branch request one approaching notification. */
  lemma ApproachingCalls(name: string)
    ensures Arrivals([ScheduleApproaching(0, name)]) == 0
    ensures Approachings([ScheduleApproaching(0, name)]) == 1
  {
    assert [ScheduleApproaching(0, name)][1..] == [];
  }

  /**
    However many location updates a ride has, the arrival notification is requested at most
    once, and not at all once the arrival alert has fired.
   */
  lemma {:induction false} ArrivalAtMostOnce(line: Line, t: Trip, locations: seq<Option<Coordinate>>)
    ensures var r := Ride(line, t, locations);
      && (t.didFireArrivalAlert ==> r.trip.didFireArrivalAlert)
      && Arrivals(r.calls) == (if r.trip.didFireArrivalAlert && !t.didFireArrivalAlert then 1 else 0)
    decreases |locations|
  {
    if |locations| > 0 {
      var u := UserLocationUpdated(line, t, locations[0]);
      var rest := Ride(line, u.trip, locations[1..]);
      UpdateFlags(line, t, locations[0]);
      ArrivalAtMostOnce(line, u.trip, locations[1..]);
      CountsAppend(u.calls, rest.calls);
    }
  }

  /** Likewise the approaching alert's notification, at most once per trip leg. */
  lemma {:induction false} ApproachingAtMostOnce(line: Line, t: Trip, locations: seq<Option<Coordinate>>)
    ensures var r := Ride(line, t, locations);
      && (t.didFireApproachingAlert ==> r.trip.didFireApproachingAlert)
      && Approachings(r.calls) == (if r.trip.didFireApproachingAlert && !t.didFireApproachingAlert then 1 else 0)
    decreases |locations|
  {
    if |locations| > 0 {
      var u := UserLocationUpdated(line, t, locations[0]);
      var rest := Ride(line, u.trip, locations[1..]);
      UpdateFlags(line, t, locations[0]);
      ApproachingAtMostOnce(line, u.trip, locations[1..]);
      CountsAppend(u.calls, rest.calls);
    }
  }

  // A consistency invariant

  /**
    What holds between the stored properties in every reachable state: a tracked trip has a
    destination and a direction and is not mid-change; a nearest or start station comes with
    a last passed station; and a fired arrival alert means tracking has stopped.
   */
  predicate Consistent(t: Trip) {
    && (t.isTracking ==> t.selectedDestination.Some? && t.tripDirection.Some? && !t.isChangingDestination)
    && (t.currentNearestStation.Some? ==> t.lastPassedStation.Some?)
    && (t.startStation.Some? ==> t.lastPassedStation.Some?)
    && (t.didFireArrivalAlert ==> !t.isTracking)
  }

  lemma UpdateProgressKeepsConsistent(line: Line, t: Trip, location: Coordinate)
    requires Consistent(t)
    ensures Consistent(UpdateProgress(line, t, location).trip)
  {
    var found := NearestStation(line.stations, line.distance, location);
    if t.selectedDestination.Some? && found.Some? {
      var dest := t.selectedDestination.value;
      var t1 := Refresh(line, t, found.value, dest);
      RefreshKeepsConsistent(line, t, found.value, dest);
      ArriveAtKeepsConsistent(t1, dest);
      PassByKeepsConsistent(line, t1, found.value, dest);
    }
  }

  lemma RefreshKeepsConsistent(line: Line, t: Trip, nearest: Station, dest: Station)
    requires Consistent(t)
    ensures Consistent(Refresh(line, t, nearest, dest))
  {
  }

  lemma ArriveAtKeepsConsistent(t1: Trip, dest: Station)
    requires Consistent(t1)
    ensures Consistent(ArriveAt(t1, dest).trip)
  {
  }

  lemma PassByKeepsConsistent(line: Line, t1: Trip, nearest: Station, dest: Station)
    requires Consistent(t1)
    ensures Consistent(PassBy(line, t1, nearest, dest).trip)
  {
  }

  /** `startTrip` keeps the invariant. */
  lemma StartTripKeepsConsistent(line: Line, t: Trip, location: Option<Coordinate>)
    requires Consistent(t)
    ensures Consistent(StartTrip(line, t, location).trip)
  {
    if t.selectedDestination.Some? && Origin(line, t, location).Some? {
      var dest := t.selectedDestination.value;
      var origin := Origin(line, t, location).value;
      StartTripFromOrigin(line, t, location);
      if t.isChangingDestination {
        ContinueFromKeepsConsistent(line, t.(startStation := Some(origin)), origin, dest);
      } else {
        StartFromKeepsConsistent(line, t.(startStation := Some(origin), lastPassedStation := Some(origin)), origin, dest, location.value);
      }
    }
  }

  lemma ContinueFromKeepsConsistent(line: Line, t0: Trip, origin: Station, dest: Station)
    requires Consistent(t0) && t0.selectedDestination.Some? && t0.startStation.Some?
    ensures Consistent(ContinueFrom(line, t0, origin, dest).trip)
  {
    if dest.order != origin.order {
      UpdateProgressKeepsConsistent(line, SetOff(t0, origin, dest).(isChangingDestination := false), origin.coordinate);
    }
  }

  lemma StartFromKeepsConsistent(line: Line, t0: Trip, origin: Station, dest: Station, location: Coordinate)
    requires Consistent(t0) && t0.selectedDestination.Some? && !t0.isChangingDestination && t0.lastPassedStation.Some?
    ensures Consistent(StartFrom(line, t0, origin, dest, location).trip)
  {
    if dest.order != origin.order {
      UpdateProgressKeepsConsistent(line, SetOff(t0, origin, dest), location);
    }
  }

  /** Every operation of the view model keeps the invariant, starting from the initial state. */
  lemma ConsistentPreserved(line: Line, t: Trip, location: Option<Coordinate>, station: Station)
    requires Consistent(t)
    ensures Consistent(Initial())
    ensures Consistent(SelectDestination(t, station))
    ensures Consistent(ClearActiveAlert(t))
    ensures Consistent(StartTrip(line, t, location).trip)
    ensures Consistent(UserLocationUpdated(line, t, location).trip)
    ensures Consistent(EndTripAndReset(t).trip)
    ensures Consistent(CancelAndChooseAgain(t).trip)
  {
    StartTripKeepsConsistent(line, t, location);
    UserLocationUpdatedKeepsConsistent(line, t, location);
    SmallStepsKeepConsistent(t, station);
  }

  lemma UserLocationUpdatedKeepsConsistent(line: Line, t: Trip, location: Option<Coordinate>)
    requires Consistent(t)
    ensures Consistent(UserLocationUpdated(line, t, location).trip)
  {
    if t.isTracking && location.Some? {
      UpdateProgressKeepsConsistent(line, t, location.value);
    }
  }

  lemma SmallStepsKeepConsistent(t: Trip, station: Station)
    requires Consistent(t)
    ensures Consistent(Initial())
    ensures Consistent(SelectDestination(t, station))
    ensures Consistent(ClearActiveAlert(t))
    ensures Consistent(EndTripAndReset(t).trip)
    ensures Consistent(CancelAndChooseAgain(t).trip)
  {
  }

  /** Once the arrival alert has fired, further location updates change nothing. */
  lemma ArrivedStaysPut(line: Line, t: Trip, location: Option<Coordinate>)
    requires Consistent(t) && t.didFireArrivalAlert
    ensures UserLocationUpdated(line, t, location) == Step(t, [])
  {
  }

  // Changing destination

  /**
    After `cancelAndChooseAgain` and a new destination, `startTrip` continues from the last
    passed station without needing a location fix: the location is ignored and none of the
    guard statuses can come up.
   */
  lemma ChangeNeedsNoFix(line: Line, t: Trip, dest: Station, location: Option<Coordinate>)
    requires Consistent(t)
    requires t.currentNearestStation.Some? || t.lastPassedStation.Some? || t.startStation.Some?
    ensures var c := SelectDestination(CancelAndChooseAgain(t).trip, dest);
      && StartTrip(line, c, location) == StartTrip(line, c, None)
      && !IsGuardStatus(StartTrip(line, c, location).trip.statusText)
      && StartTrip(line, c, location).trip.startStation == CancelAndChooseAgain(t).trip.lastPassedStation
  {
    var cancelled := CancelAndChooseAgain(t).trip;
    var c := SelectDestination(cancelled, dest);
    assert c.selectedDestination == Some(dest) && c.isChangingDestination;
    assert c.lastPassedStation == cancelled.lastPassedStation && c.lastPassedStation.Some?;
    assert StartTrip(line, c, location) == ContinueFromBase(line, c, dest);
    assert StartTrip(line, c, None) == ContinueFromBase(line, c, dest);
    GuardStatusOnlyFromGuards(line, c, location);
    ContinueFromKeepsStart(line, c.(startStation := c.lastPassedStation), c.lastPassedStation.value, dest);
  }

  /** The change-destination path keeps the start station it has recorded. */
  lemma ContinueFromKeepsStart(line: Line, t0: Trip, origin: Station, dest: Station)
    ensures ContinueFrom(line, t0, origin, dest).trip.startStation == t0.startStation
  {
    if dest.order != origin.order {
      UpdateProgressKeepsStart(line, SetOff(t0, origin, dest).(isChangingDestination := false), origin.coordinate);
    }
  }

  /** A progress update never moves the start station. */
  lemma UpdateProgressKeepsStart(line: Line, t: Trip, location: Coordinate)
    ensures UpdateProgress(line, t, location).trip.startStation == t.startStation
  {
    var found := NearestStation(line.stations, line.distance, location);
    if t.selectedDestination.Some? && found.Some? {
      TailsKeepPosition(line, Refresh(line, t, found.value, t.selectedDestination.value), found.value, t.selectedDestination.value);
    }
  }

  /**
    `cancelAndChooseAgain` keeps only where the rider is: apart from the start, nearest and
    last passed stations and the change-destination flag, the view model is as new.
   */
  lemma CancelKeepsOnlyPosition(t: Trip)
    ensures var r := CancelAndChooseAgain(t).trip;
      r == Initial().(
        startStation := t.startStation,
        currentNearestStation := t.currentNearestStation,
        lastPassedStation := r.lastPassedStation,
        isChangingDestination := true)
  {
  }

  // What the tracking sheet shows

  /**
    When the direction of travel agrees with the start and the destination (as `startTrip`
    leaves it), the reached middle stations form a prefix of the middle list.
   */
  lemma ReachedMiddlePrefix(line: Line, t: Trip, i: int, j: int)
    requires t.startStation.Some? && t.selectedDestination.Some?
    requires t.tripDirection == Some(DirectionTowards(t.startStation.value, t.selectedDestination.value))
    requires 0 <= i < j < |Middle(line, t)|
    requires IsStationReached(t, Middle(line, t)[j])
    ensures IsStationReached(t, Middle(line, t)[i])
  {
    var m := Middle(line, t);
    assert InTravelOrder(m[i].order, m[j].order, t.selectedDestination.value.order > t.startStation.value.order);
  }
}
