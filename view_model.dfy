/**
  `MetroTripViewModel` itself: the stored properties as fields, and each operation as a
  method that updates them one at a time, as the view model does. Every method is proved
  to leave the fields as the matching transition of `TripEngine` says, and the
  notification manager with the calls that transition lists.
 */
module ViewModel {
  import opened Options
  import opened Stations
  import opened Progress
  import opened Notifications
  import opened TripEngine

  class MetroTripViewModel {
    const stations: seq<Station>
    const distance: Distance
    const notificationManager: LocalNotificationManager

    var selectedDestination: Option<Station>
    var isTracking: bool
    var startStation: Option<Station>
    var currentNearestStation: Option<Station>
    var lastPassedStation: Option<Station>
    var nextStation: Option<Station>
    var stationsRemaining: int
    var etaMinutes: int
    var statusText: Status
    var showArrivalSheet: bool
    var activeAlert: Option<AlertType>
    var upcomingStations: seq<Station>
    var tripDirection: Option<Direction>
    var didFireApproachingAlert: bool
    var didFireArrivalAlert: bool
    var isChangingDestination: bool

    /** The stored properties as one value. */
    function Snapshot(): Trip
      reads this
    {
      Trip(selectedDestination, isTracking, startStation, currentNearestStation, lastPassedStation,
           nextStation, stationsRemaining, etaMinutes, statusText, showArrivalSheet, activeAlert,
           upcomingStations, tripDirection, didFireApproachingAlert, didFireArrivalAlert, isChangingDestination)
    }

    function OnLine(): Line {
      Line(stations, distance)
    }

    /** The notification manager has received `calls` since it had `log` and `pending`. */
    ghost predicate Notified(log: seq<NotificationCall>, pending: Pending, calls: seq<NotificationCall>)
      reads notificationManager
    {
      notificationManager.log == log + calls && notificationManager.pending == DeliverAll(pending, calls)
    }

    constructor (stations: seq<Station>, distance: Distance, notificationManager: LocalNotificationManager)
      ensures this.stations == stations && this.distance == distance && this.notificationManager == notificationManager
      ensures Snapshot() == Initial()
    {
      this.stations := stations;
      this.distance := distance;
      this.notificationManager := notificationManager;
      selectedDestination := None;
      isTracking := false;
      startStation := None;
      currentNearestStation := None;
      lastPassedStation := None;
      nextStation := None;
      stationsRemaining := 0;
      etaMinutes := 0;
      statusText := Blank;
      showArrivalSheet := false;
      activeAlert := None;
      upcomingStations := [];
      tripDirection := None;
      didFireApproachingAlert := false;
      didFireArrivalAlert := false;
      isChangingDestination := false;
    }

    /** `selectDestination(_:)`. */
    method SelectDestination(station: Station)
      modifies this
      ensures Snapshot() == TripEngine.SelectDestination(old(Snapshot()), station)
    {
      selectedDestination := Some(station);
    }

    /** `clearActiveAlert()`. */
    method ClearActiveAlert()
      modifies this
      ensures Snapshot() == TripEngine.ClearActiveAlert(old(Snapshot()))
    {
      activeAlert := None;
    }

    /** `updateProgress(for:)`. */
    method UpdateProgress(location: Coordinate)
      modifies this, notificationManager
      ensures Snapshot() == TripEngine.UpdateProgress(OnLine(), old(Snapshot()), location).trip
      ensures Notified(old(notificationManager.log), old(notificationManager.pending),
                       TripEngine.UpdateProgress(OnLine(), old(Snapshot()), location).calls)
    {
      var found := NearestStation(stations, distance, location);
      if selectedDestination.None? || found.None? {
        return;
      }
      var dest := selectedDestination.value;
      var nearest := found.value;

      MoveTo(nearest, dest);

      var distanceToDest := distance(dest.coordinate, location);
      if distanceToDest <= ArrivalDistance {
        Arrive(dest);
        return;
      }
      PassBy(nearest, dest);
    }

    /** The first half of `updateProgress`: the nearest and last passed stations, the counts and the upcoming list. */
    method MoveTo(nearest: Station, dest: Station)
      modifies this
      ensures Snapshot() == Refresh(OnLine(), old(Snapshot()), nearest, dest)
    {
      PassStation(nearest);

      var count, minutes, next := ComputeRemainingStationsAndTime(stations, tripDirection, nearest, dest);
      stationsRemaining := count;
      etaMinutes := minutes;
      nextStation := next;

      upcomingStations := UpcomingStations(stations, tripDirection, nearest, dest);
    }

    /** A new nearest station becomes the last passed one. */
    method PassStation(nearest: Station)
      modifies this
      ensures Snapshot() == old(Snapshot()).(
        lastPassedStation := LastPassed(old(Snapshot()), nearest),
        currentNearestStation := Some(nearest))
    {
      if currentNearestStation.None? || currentNearestStation.value.order != nearest.order {
        lastPassedStation := Some(nearest);
      }
      currentNearestStation := Some(nearest);
    }

    /** The arrival branch of `updateProgress`. */
    method Arrive(dest: Station)
      modifies this, notificationManager
      ensures Snapshot() == ArriveAt(old(Snapshot()), dest).trip
      ensures Notified(old(notificationManager.log), old(notificationManager.pending), ArriveAt(old(Snapshot()), dest).calls)
    {
      statusText := Arrived(dest.name);
      isTracking := false;
      showArrivalSheet := true;
      upcomingStations := [];
      if !didFireArrivalAlert {
        FireArrivalAlert(dest);
      }
    }

    /** The arrival alert, and the arrival notification in place of any pending one. */
    method FireArrivalAlert(dest: Station)
      modifies this, notificationManager
      ensures Snapshot() == old(Snapshot()).(activeAlert := Some(Arrival(dest.name)), didFireArrivalAlert := true)
      ensures Notified(old(notificationManager.log), old(notificationManager.pending), [Cancel, ScheduleArrival(0, dest.name)])
    {
      activeAlert := Some(Arrival(dest.name));
      didFireArrivalAlert := true;
      notificationManager.CancelTripNotifications();
      notificationManager.ScheduleArrivalNotification(0, dest.name);
      DeliverTwo(old(notificationManager.pending), Cancel, ScheduleArrival(0, dest.name));
    }

    /** The rest of `updateProgress` short of the destination: the approaching alert. */
    method PassBy(nearest: Station, dest: Station)
      modifies this, notificationManager
      ensures Snapshot() == TripEngine.PassBy(OnLine(), old(Snapshot()), nearest, dest).trip
      ensures Notified(old(notificationManager.log), old(notificationManager.pending),
                       TripEngine.PassBy(OnLine(), old(Snapshot()), nearest, dest).calls)
    {
      statusText := Blank;
      if !didFireApproachingAlert && tripDirection.Some? {
        var previousOrder := match tripDirection.value
          case Forward => dest.order - 1
          case Backward => dest.order + 1;
        var prevStation := FirstWithOrder(stations, previousOrder);
        if previousOrder != dest.order && prevStation.Some? && nearest.order == prevStation.value.order {
          FireApproachingAlert(dest);
        }
      }
    }

    /** The approaching alert, with the estimate it shows, and an immediate approaching request. */
    method FireApproachingAlert(dest: Station)
      modifies this, notificationManager
      ensures Snapshot() == old(Snapshot()).(activeAlert := Some(Approaching(dest.name, etaMinutes)), didFireApproachingAlert := true)
      ensures Notified(old(notificationManager.log), old(notificationManager.pending), [ScheduleApproaching(0, dest.name)])
    {
      activeAlert := Some(Approaching(dest.name, etaMinutes));
      didFireApproachingAlert := true;
      notificationManager.ScheduleApproachingNotification(0, dest.name);
      DeliverOne(old(notificationManager.pending), ScheduleApproaching(0, dest.name));
    }

    /** `userLocationUpdated(_:)`. */
    method UserLocationUpdated(location: Option<Coordinate>)
      modifies this, notificationManager
      ensures Snapshot() == TripEngine.UserLocationUpdated(OnLine(), old(Snapshot()), location).trip
      ensures Notified(old(notificationManager.log), old(notificationManager.pending),
                       TripEngine.UserLocationUpdated(OnLine(), old(Snapshot()), location).calls)
    {
      if !isTracking || location.None? {
        return;
      }
      UpdateProgress(location.value);
    }

    /**
      The two notification requests that follow the first progress update of a trip:
      approaching at `max(eta - 3, 1)` minutes when `eta > 3`, arrival at `eta` when `eta > 0`.
     */
    method ScheduleForEta(dest: Station)
      modifies notificationManager
      ensures Notified(old(notificationManager.log), old(notificationManager.pending), ScheduleCalls(etaMinutes, dest.name))
    {
      ghost var log0, pending0 := notificationManager.log, notificationManager.pending;
      ghost var approaching: seq<NotificationCall> := [];
      if etaMinutes > 3 {
        notificationManager.ScheduleApproachingNotification(Max(etaMinutes - 3, 1), dest.name);
        approaching := [ScheduleApproaching(Max(etaMinutes - 3, 1), dest.name)];
        DeliverOne(pending0, approaching[0]);
      }
      assert Notified(log0, pending0, approaching);
      ghost var pending1 := notificationManager.pending;
      ghost var arrival: seq<NotificationCall> := [];
      if etaMinutes > 0 {
        notificationManager.ScheduleArrivalNotification(etaMinutes, dest.name);
        arrival := [ScheduleArrival(etaMinutes, dest.name)];
        DeliverOne(pending1, arrival[0]);
      }
      DeliverAllAppend(pending0, approaching, arrival);
      assert ScheduleCalls(etaMinutes, dest.name) == approaching + arrival;
    }

    /** `startTrip(userLocation:)`. */
    method StartTrip(userLocation: Option<Coordinate>)
      modifies this, notificationManager
      ensures Snapshot() == TripEngine.StartTrip(OnLine(), old(Snapshot()), userLocation).trip
      ensures Notified(old(notificationManager.log), old(notificationManager.pending),
                       TripEngine.StartTrip(OnLine(), old(Snapshot()), userLocation).calls)
    {
      if selectedDestination.None? {
        statusText := ChooseDestination;
        return;
      }
      var dest := selectedDestination.value;
      if isChangingDestination {
        ContinueFromBase(dest);
        return;
      }
      StartFromLocation(dest, userLocation);
    }

    /** The change-destination path of `startTrip`. */
    method ContinueFromBase(dest: Station)
      requires selectedDestination == Some(dest)
      modifies this, notificationManager
      ensures Snapshot() == TripEngine.ContinueFromBase(OnLine(), old(Snapshot()), dest).trip
      ensures Notified(old(notificationManager.log), old(notificationManager.pending),
                       TripEngine.ContinueFromBase(OnLine(), old(Snapshot()), dest).calls)
    {
      var baseStation := if lastPassedStation.Some? then lastPassedStation else startStation;
      if baseStation.None? {
        statusText := UnknownError;
        return;
      }
      startStation := baseStation;
      ContinueFrom(baseStation.value, dest);
    }

    /** The change-destination path once its origin is recorded. */
    method ContinueFrom(origin: Station, dest: Station)
      requires selectedDestination == Some(dest)
      modifies this, notificationManager
      ensures Snapshot() == TripEngine.ContinueFrom(OnLine(), old(Snapshot()), origin, dest).trip
      ensures Notified(old(notificationManager.log), old(notificationManager.pending),
                       TripEngine.ContinueFrom(OnLine(), old(Snapshot()), origin, dest).calls)
    {
      if dest.order == origin.order {
        ArriveAtOnce(dest, Arrived(dest.name));
        return;
      }

      SetOff(origin, dest);
      isChangingDestination := false;

      SetOffAndSchedule(origin.coordinate, dest);
    }

    /** The fresh path of `startTrip`. */
    method StartFromLocation(dest: Station, userLocation: Option<Coordinate>)
      requires selectedDestination == Some(dest)
      modifies this, notificationManager
      ensures Snapshot() == TripEngine.StartFromLocation(OnLine(), old(Snapshot()), dest, userLocation).trip
      ensures Notified(old(notificationManager.log), old(notificationManager.pending),
                       TripEngine.StartFromLocation(OnLine(), old(Snapshot()), dest, userLocation).calls)
    {
      if userLocation.None? {
        statusText := NoLocation;
        return;
      }
      StartNear(dest, userLocation.value);
    }

    /** The fresh path of `startTrip` with a location fix. */
    method StartNear(dest: Station, location: Coordinate)
      requires selectedDestination == Some(dest)
      modifies this, notificationManager
      ensures Snapshot() == TripEngine.StartNear(OnLine(), old(Snapshot()), dest, location).trip
      ensures Notified(old(notificationManager.log), old(notificationManager.pending),
                       TripEngine.StartNear(OnLine(), old(Snapshot()), dest, location).calls)
    {
      var near := IsUserNearAnyStation(stations, distance, location, NearStationDistance);
      if !near {
        statusText := NotNearMetro;
        return;
      }
      var found := NearestStation(stations, distance, location);
      if found.None? {
        // The `unknownError` guard cannot fire here: a line with a station in range is not empty.
        assert false;
      }
      var origin := found.value;

      startStation := Some(origin);
      lastPassedStation := Some(origin);
      StartFrom(origin, dest, location);
    }

    /** The fresh path once its origin is recorded. */
    method StartFrom(origin: Station, dest: Station, location: Coordinate)
      requires selectedDestination == Some(dest)
      modifies this, notificationManager
      ensures Snapshot() == TripEngine.StartFrom(OnLine(), old(Snapshot()), origin, dest, location).trip
      ensures Notified(old(notificationManager.log), old(notificationManager.pending),
                       TripEngine.StartFrom(OnLine(), old(Snapshot()), origin, dest, location).calls)
    {
      if dest.order == origin.order {
        ArriveAtOnce(dest, AlreadyAtDestination(dest.name));
        return;
      }

      SetOff(origin, dest);

      SetOffAndSchedule(location, dest);
    }

    /** Direction, tracking and re-armed alerts, as `startTrip` sets them before the first update. */
    method SetOff(origin: Station, dest: Station)
      modifies this
      ensures Snapshot() == TripEngine.SetOff(old(Snapshot()), origin, dest)
    {
      if dest.order > origin.order {
        tripDirection := Some(Forward);
      } else {
        tripDirection := Some(Backward);
      }
      ArmTracking();
    }

    /** Tracking on, no arrival sheet, both alerts re-armed, and a blank status. */
    method ArmTracking()
      modifies this
      ensures Snapshot() == old(Snapshot()).(
        isTracking := true,
        showArrivalSheet := false,
        didFireApproachingAlert := false,
        didFireArrivalAlert := false,
        statusText := Blank)
    {
      isTracking := true;
      showArrivalSheet := false;
      didFireApproachingAlert := false;
      didFireArrivalAlert := false;
      statusText := Blank;
    }

    /** The arrival branch of `startTrip`: the origin already is the destination. */
    method ArriveAtOnce(dest: Station, status: Status)
      modifies this, notificationManager
      ensures Snapshot() == ArrivedAtOnce(old(Snapshot()), dest, status)
      ensures Notified(old(notificationManager.log), old(notificationManager.pending), [Cancel])
    {
      StandAt(dest);
      statusText := status;
      showArrivalSheet := true;
      isTracking := false;
      activeAlert := Some(Arrival(dest.name));
      notificationManager.CancelTripNotifications();
      DeliverOne(old(notificationManager.pending), Cancel);
    }

    /** Nothing left to travel: the destination is the nearest station. */
    method StandAt(dest: Station)
      modifies this
      ensures Snapshot() == old(Snapshot()).(
        currentNearestStation := Some(dest),
        stationsRemaining := 0,
        etaMinutes := 0,
        nextStation := None,
        upcomingStations := [])
    {
      currentNearestStation := Some(dest);
      stationsRemaining := 0;
      etaMinutes := 0;
      nextStation := None;
      upcomingStations := [];
    }

    /** The end of `startTrip` once the trip is set off: the first progress update and the trip notifications. */
    method SetOffAndSchedule(location: Coordinate, dest: Station)
      requires selectedDestination == Some(dest)
      modifies this, notificationManager
      ensures Snapshot() == Depart(OnLine(), old(Snapshot()), location, dest).trip
      ensures Notified(old(notificationManager.log), old(notificationManager.pending),
                       Depart(OnLine(), old(Snapshot()), location, dest).calls)
    {
      ghost var log0, pending0 := notificationManager.log, notificationManager.pending;
      ghost var u := TripEngine.UpdateProgress(OnLine(), Snapshot(), location);
      UpdateProgress(location);
      ghost var pending1 := notificationManager.pending;
      ScheduleForEta(dest);
      DeliverAllAppend(pending0, u.calls, ScheduleCalls(etaMinutes, dest.name));
    }

    /** `resetProgress(keepDestination:)`. */
    method ResetProgress(keepDestination: bool)
      modifies this
      ensures Snapshot() == TripEngine.ResetProgress(old(Snapshot()), keepDestination)
    {
      if !keepDestination {
        selectedDestination := None;
        startStation := None;
        lastPassedStation := None;
      }
      currentNearestStation := None;
      ClearCounts();
      DisarmAlerts();
      isChangingDestination := false;
    }

    /** No next station, nothing remaining, nothing upcoming. */
    method ClearCounts()
      modifies this
      ensures Snapshot() == old(Snapshot()).(nextStation := None, stationsRemaining := 0, etaMinutes := 0, upcomingStations := [])
    {
      nextStation := None;
      stationsRemaining := 0;
      etaMinutes := 0;
      upcomingStations := [];
    }

    /** No arrival sheet, no direction, no alert shown, and both alerts re-armed. */
    method DisarmAlerts()
      modifies this
      ensures Snapshot() == old(Snapshot()).(
        showArrivalSheet := false,
        tripDirection := None,
        didFireApproachingAlert := false,
        didFireArrivalAlert := false,
        activeAlert := None)
    {
      showArrivalSheet := false;
      tripDirection := None;
      didFireApproachingAlert := false;
      didFireArrivalAlert := false;
      activeAlert := None;
    }

    /** `endTripAndReset()`: back to the initial state, with the trip notifications cancelled. */
    method EndTripAndReset()
      modifies this, notificationManager
      ensures Snapshot() == Initial()
      ensures Snapshot() == TripEngine.EndTripAndReset(old(Snapshot())).trip
      ensures Notified(old(notificationManager.log), old(notificationManager.pending), [Cancel])
    {
      isTracking := false;
      ResetProgress(false);
      statusText := Blank;
      notificationManager.CancelTripNotifications();
      DeliverOne(old(notificationManager.pending), Cancel);
    }

    /** `cancelAndChooseAgain()`. */
    method CancelAndChooseAgain()
      modifies this, notificationManager
      ensures Snapshot() == TripEngine.CancelAndChooseAgain(old(Snapshot())).trip
      ensures Notified(old(notificationManager.log), old(notificationManager.pending), [Cancel])
    {
      StopAndRemember();
      selectedDestination := None;
      ClearCounts();
      DisarmAlerts();
      AwaitNewDestination();
    }

    /** Tracking off, and the nearest station (when there is one) kept as the last passed one. */
    method StopAndRemember()
      modifies this
      ensures Snapshot() == old(Snapshot()).(
        isTracking := false,
        lastPassedStation := if old(currentNearestStation).Some? then old(currentNearestStation) else old(lastPassedStation))
    {
      isTracking := false;

      if currentNearestStation.Some? {
        lastPassedStation := currentNearestStation;
      }
    }

    /** A blank status, the change-destination path armed, and the trip notifications cancelled. */
    method AwaitNewDestination()
      modifies this, notificationManager
      ensures Snapshot() == old(Snapshot()).(statusText := Blank, isChangingDestination := true)
      ensures Notified(old(notificationManager.log), old(notificationManager.pending), [Cancel])
    {
      statusText := Blank;
      isChangingDestination := true;
      notificationManager.CancelTripNotifications();
      DeliverOne(old(notificationManager.pending), Cancel);
    }
  }

  lemma DeliverOne(p: Pending, c: NotificationCall)
    ensures DeliverAll(p, [c]) == Deliver(p, c)
  {
    assert [c][1..] == [];
  }

  lemma DeliverTwo(p: Pending, a: NotificationCall, b: NotificationCall)
    ensures DeliverAll(p, [a, b]) == Deliver(Deliver(p, a), b)
  {
    assert [a, b][1..] == [b];
    DeliverOne(Deliver(p, a), b);
  }
}
