/**
  The trip flow of `MetroTripViewModel` as pure transitions on a snapshot of its stored
  properties. Each transition returns the new snapshot together with the calls it makes
  on the notification manager, in order. The class in module `ViewModel` performs the
  same steps by assigning its fields one at a time and is proved equal to these functions.
 */
module TripEngine {
  import opened Options
  import opened Stations
  import opened Progress
  import opened Notifications

  /** `nearStationDistance`: how close (in metres) the rider must be to some station to start a trip. */
  const NearStationDistance: real := 500000.0

  /** `arrivalDistance`: how close (in metres) to the destination counts as arrived. */
  const ArrivalDistance: real := 10.0

  /** `statusText`, as the localization key it is built from (with the station name where the key takes one). */
  datatype Status =
    | Blank
    | ChooseDestination
    | UnknownError
    | NoLocation
    | NotNearMetro
    | Arrived(name: string)
    | AlreadyAtDestination(name: string)

  /** `MetroAlertType`. */
  datatype AlertType =
    | Approaching(stationName: string, etaMinutes: int)
    | Arrival(stationName: string)

  /** The stored properties of `MetroTripViewModel`. */
  datatype Trip = Trip(
    selectedDestination: Option<Station>,
    isTracking: bool,
    startStation: Option<Station>,
    currentNearestStation: Option<Station>,
    lastPassedStation: Option<Station>,
    nextStation: Option<Station>,
    stationsRemaining: int,
    etaMinutes: int,
    statusText: Status,
    showArrivalSheet: bool,
    activeAlert: Option<AlertType>,
    upcomingStations: seq<Station>,
    tripDirection: Option<Direction>,
    didFireApproachingAlert: bool,
    didFireArrivalAlert: bool,
    isChangingDestination: bool)

  /** A transition's result: the new snapshot and the notification calls made, in order. */
  datatype Step = Step(trip: Trip, calls: seq<NotificationCall>)

  /** The fixed surroundings of a trip: the station table and the distance between two coordinates. */
  datatype Line = Line(stations: seq<Station>, distance: Distance)

  /** The state of a freshly created view model. */
  function Initial(): Trip {
    Trip(None, false, None, None, None, None, 0, 0, Blank, false, None, [], None, false, false, false)
  }

  /** `selectDestination`. */
  function SelectDestination(t: Trip, station: Station): (r: Trip)
    ensures r.selectedDestination == Some(station)
    ensures r.(selectedDestination := t.selectedDestination) == t
  {
    t.(selectedDestination := Some(station))
  }

  /** `clearActiveAlert`. */
  function ClearActiveAlert(t: Trip): (r: Trip)
    ensures r.activeAlert.None?
    ensures r.(activeAlert := t.activeAlert) == t
  {
    t.(activeAlert := None)
  }

  // Progress while riding

  /** The order of the station just before the destination in the direction of travel. */
  function PreviousOrder(direction: Direction, dest: Station): int {
    match direction
    case Forward => dest.order - 1
    case Backward => dest.order + 1
  }

  /**
    The approaching alert fires when it has not fired yet, the direction is known, and the
    nearest station is the one just before the destination.
   */
  predicate ApproachingNow(line: Line, t: Trip, nearest: Station, dest: Station) {
    && !t.didFireApproachingAlert
    && t.tripDirection.Some?
    && var prevOrder := PreviousOrder(t.tripDirection.value, dest);
       var prev := FirstWithOrder(line.stations, prevOrder);
       prevOrder != dest.order && prev.Some? && nearest.order == prev.value.order
  }

  /** `lastPassedStation` moves to the nearest station only when the nearest station's order changes. */
  function LastPassed(t: Trip, nearest: Station): Option<Station> {
    if t.currentNearestStation.None? || t.currentNearestStation.value.order != nearest.order then Some(nearest)
    else t.lastPassedStation
  }

  /**
    The first half of `updateProgress`: move to the nearest station and recompute what
    remains of the trip from there.
   */
  function Refresh(line: Line, t: Trip, nearest: Station, dest: Station): Trip {
    var rem := RemainingFrom(line.stations, t.tripDirection, nearest, dest);
    t.(
      lastPassedStation := LastPassed(t, nearest),
      currentNearestStation := Some(nearest),
      stationsRemaining := rem.stations,
      etaMinutes := rem.minutes,
      nextStation := rem.next,
      upcomingStations := UpcomingStations(line.stations, t.tripDirection, nearest, dest))
  }

  /** Within `arrivalDistance`: stop, and raise the arrival alert unless it already fired. */
  function ArriveAt(t1: Trip, dest: Station): Step {
    var t2 := t1.(statusText := Arrived(dest.name), isTracking := false, showArrivalSheet := true, upcomingStations := []);
    if !t1.didFireArrivalAlert then
      Step(t2.(activeAlert := Some(Arrival(dest.name)), didFireArrivalAlert := true), [Cancel, ScheduleArrival(0, dest.name)])
    else
      Step(t2, [])
  }

  /** Not there yet: clear the status, and raise the approaching alert at the station before the destination. */
  function PassBy(line: Line, t1: Trip, nearest: Station, dest: Station): Step {
    var t2 := t1.(statusText := Blank);
    if ApproachingNow(line, t1, nearest, dest) then
      Step(t2.(activeAlert := Some(Approaching(dest.name, t1.etaMinutes)), didFireApproachingAlert := true),
           [ScheduleApproaching(0, dest.name)])
    else
      Step(t2, [])
  }

  /** `updateProgress(for:)`. */
  function UpdateProgress(line: Line, t: Trip, location: Coordinate): Step {
    var found := NearestStation(line.stations, line.distance, location);
    if t.selectedDestination.None? || found.None? then Step(t, [])
    else
      var dest := t.selectedDestination.value;
      var t1 := Refresh(line, t, found.value, dest);
      if line.distance(dest.coordinate, location) <= ArrivalDistance then ArriveAt(t1, dest)
      else PassBy(line, t1, found.value, dest)
  }

  /** `userLocationUpdated`: progress only while tracking and with a location fix. */
  function UserLocationUpdated(line: Line, t: Trip, location: Option<Coordinate>): Step {
    if !t.isTracking || location.None? then Step(t, [])
    else UpdateProgress(line, t, location.value)
  }

  // Starting a trip

  /**
    The notifications requested once a trip is under way: an approaching one three minutes
    before the estimated arrival (never less than one minute), and an arrival one at it.
   */
  function ScheduleCalls(eta: int, name: string): (r: seq<NotificationCall>)
    ensures Cancel !in r
    ensures forall m :: ScheduleApproaching(m, name) in r <==> eta > 3 && m == eta - 3
    ensures forall m :: ScheduleArrival(m, name) in r <==> eta > 0 && m == eta
    ensures forall c :: c in r ==> c.stationName == name
  {
    (if eta > 3 then [ScheduleApproaching(Max(eta - 3, 1), name)] else [])
    + (if eta > 0 then [ScheduleArrival(eta, name)] else [])
  }

  /** The origin already is the destination: the trip ends before it starts. */
  function ArrivedAtOnce(t: Trip, dest: Station, status: Status): Trip {
    t.(
      currentNearestStation := Some(dest),
      stationsRemaining := 0,
      etaMinutes := 0,
      nextStation := None,
      upcomingStations := [],
      statusText := status,
      showArrivalSheet := true,
      isTracking := false,
      activeAlert := Some(Arrival(dest.name)))
  }

  /** The direction from the origin towards the destination. */
  function DirectionTowards(origin: Station, dest: Station): Direction {
    if dest.order > origin.order then Forward else Backward
  }

  /** Setting off from `origin`: direction chosen, tracking on, both alerts re-armed. */
  function SetOff(t: Trip, origin: Station, dest: Station): Trip {
    t.(
      tripDirection := Some(DirectionTowards(origin, dest)),
      isTracking := true,
      showArrivalSheet := false,
      didFireApproachingAlert := false,
      didFireArrivalAlert := false,
      statusText := Blank)
  }

  /** The first progress update of a trip followed by the notifications for its estimated time. */
  function Depart(line: Line, t: Trip, location: Coordinate, dest: Station): Step {
    var u := UpdateProgress(line, t, location);
    Step(u.trip, u.calls + ScheduleCalls(u.trip.etaMinutes, dest.name))
  }

  /** `startTrip(userLocation:)`. */
  function StartTrip(line: Line, t: Trip, userLocation: Option<Coordinate>): Step {
    if t.selectedDestination.None? then Step(t.(statusText := ChooseDestination), [])
    else if t.isChangingDestination then ContinueFromBase(line, t, t.selectedDestination.value)
    else StartFromLocation(line, t, t.selectedDestination.value, userLocation)
  }

  /**
    The change-destination path of `startTrip`: continue from the last passed station (or
    the start), using its coordinate in place of a location fix.
   */
  function ContinueFromBase(line: Line, t: Trip, dest: Station): Step {
    var base := if t.lastPassedStation.Some? then t.lastPassedStation else t.startStation;
    if base.None? then Step(t.(statusText := UnknownError), [])
    else ContinueFrom(line, t.(startStation := base), base.value, dest)
  }

  /** The change-destination path once its origin is recorded as the start. */
  function ContinueFrom(line: Line, t0: Trip, origin: Station, dest: Station): Step {
    if dest.order == origin.order then
      Step(ArrivedAtOnce(t0, dest, Arrived(dest.name)), [Cancel])
    else
      Depart(line, SetOff(t0, origin, dest).(isChangingDestination := false), origin.coordinate, dest)
  }

  /** The fresh path of `startTrip`: start from the station nearest a location fix. */
  function StartFromLocation(line: Line, t: Trip, dest: Station, userLocation: Option<Coordinate>): Step {
    if userLocation.None? then Step(t.(statusText := NoLocation), [])
    else StartNear(line, t, dest, userLocation.value)
  }

  /** The fresh path with a location fix: the rider must be near the line. */
  function StartNear(line: Line, t: Trip, dest: Station, location: Coordinate): Step {
    if !NearAny(line.stations, line.distance, location, NearStationDistance) then
      Step(t.(statusText := NotNearMetro), [])
    else
      var found := NearestStation(line.stations, line.distance, location);
      if found.None? then Step(t.(statusText := UnknownError), [])
      else
        var origin := found.value;
        StartFrom(line, t.(startStation := Some(origin), lastPassedStation := Some(origin)), origin, dest, location)
  }

  /** The fresh path once its origin is recorded as the start and the last passed station. */
  function StartFrom(line: Line, t0: Trip, origin: Station, dest: Station, location: Coordinate): Step {
    if dest.order == origin.order then
      Step(ArrivedAtOnce(t0, dest, AlreadyAtDestination(dest.name)), [Cancel])
    else
      Depart(line, SetOff(t0, origin, dest), location, dest)
  }

  // Ending a trip

  /** `resetProgress(keepDestination:)`. */
  function ResetProgress(t: Trip, keepDestination: bool): Trip {
    var t1 := if keepDestination then t else t.(selectedDestination := None, startStation := None, lastPassedStation := None);
    t1.(
      currentNearestStation := None,
      nextStation := None,
      stationsRemaining := 0,
      etaMinutes := 0,
      upcomingStations := [],
      showArrivalSheet := false,
      tripDirection := None,
      didFireApproachingAlert := false,
      didFireArrivalAlert := false,
      activeAlert := None,
      isChangingDestination := false)
  }

  /** `endTripAndReset`: whatever the state, the view model is as new and trip notifications are cancelled. */
  function EndTripAndReset(t: Trip): (r: Step)
    ensures r == Step(Initial(), [Cancel])
  {
    var t1 := ResetProgress(t.(isTracking := false), false);
    Step(t1.(statusText := Blank), [Cancel])
  }

  /**
    `cancelAndChooseAgain`: stop tracking, remember where the rider is, drop the destination
    and everything derived from it, and switch to the change-destination path.
   */
  function CancelAndChooseAgain(t: Trip): (r: Step)
    ensures r.calls == [Cancel]
    ensures r.trip.lastPassedStation == if t.currentNearestStation.Some? then t.currentNearestStation else t.lastPassedStation
    ensures r.trip.startStation == t.startStation && r.trip.currentNearestStation == t.currentNearestStation
    ensures r.trip.isChangingDestination && !r.trip.isTracking
  {
    var t1 := t.(isTracking := false);
    var t2 := if t1.currentNearestStation.Some? then t1.(lastPassedStation := t1.currentNearestStation) else t1;
    var t3 := t2.(
      selectedDestination := None,
      nextStation := None,
      stationsRemaining := 0,
      etaMinutes := 0,
      upcomingStations := [],
      showArrivalSheet := false,
      tripDirection := None,
      didFireApproachingAlert := false,
      didFireArrivalAlert := false,
      activeAlert := None,
      statusText := Blank,
      isChangingDestination := true);
    Step(t3, [Cancel])
  }

  // Queries

  /** `middleStations`. */
  function Middle(line: Line, t: Trip): seq<Station> {
    MiddleStations(line.stations, t.startStation, t.selectedDestination)
  }

  /** The reference station of `isStationReached`: last passed, else nearest, else start. */
  function ReferenceStation(t: Trip): Option<Station> {
    if t.lastPassedStation.Some? then t.lastPassedStation
    else if t.currentNearestStation.Some? then t.currentNearestStation
    else t.startStation
  }

  /** `isStationReached`. */
  function IsStationReached(t: Trip, station: Station): (r: bool)
    ensures r <==>
      && t.tripDirection.Some? && ReferenceStation(t).Some?
      && (t.tripDirection.value == Forward ==> station.order <= ReferenceStation(t).value.order)
      && (t.tripDirection.value == Backward ==> station.order >= ReferenceStation(t).value.order)
  {
    if t.tripDirection.None? then false
    else
      var reference := ReferenceStation(t);
      if reference.None? then false
      else
        match t.tripDirection.value
        case Forward => station.order <= reference.value.order
        case Backward => station.order >= reference.value.order
  }
}
