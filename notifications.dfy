/**
  The part of `LocalNotificationManager` the trip engine relies on: which requests it
  keeps pending, and how it turns a delay in minutes into a trigger delay in seconds.
  The operating system's notification centre is reduced to the two request slots it
  holds under the identifiers "approaching_notification" and "arrival_notification".
 */
module Notifications {
  import opened Options

  /** A call the trip engine makes on the notification manager. */
  datatype NotificationCall =
    | Cancel
    | ScheduleApproaching(minutes: int, stationName: string)
    | ScheduleArrival(minutes: int, stationName: string)

  /** A pending request: the station named in its title and its trigger delay in seconds. */
  datatype Request = Request(stationName: string, delaySeconds: int)

  /** The pending requests under the two trip identifiers. */
  datatype Pending = Pending(approaching: Option<Request>, arrival: Option<Request>)

  const NothingPending := Pending(None, None)

  function Max(a: int, b: int): int {
    if a >= b then a else b
  }

  /**
    The trigger delay of an approaching notification: requests for zero or fewer minutes
    are dropped, and the one-second floor never applies to what is left.
   */
  function ApproachingDelay(minutes: int): (r: Option<int>)
    ensures r.None? <==> minutes <= 0
    ensures r.Some? ==> r.value == minutes * 60 && r.value >= 60
  {
    if minutes <= 0 then None else Some(Max(minutes * 60, 1))
  }

  /**
    The trigger delay of an arrival notification: negative minutes count as zero, and
    zero becomes one second, so the delay is always positive.
   */
  function ArrivalDelay(minutes: int): (r: int)
    ensures r >= 1
    ensures minutes <= 0 ==> r == 1
    ensures minutes > 0 ==> r == minutes * 60
  {
    var clamped := Max(minutes, 0);
    if clamped == 0 then 1 else clamped * 60
  }

  /** The pending requests after one call: a new request replaces the one under its identifier. */
  function Deliver(p: Pending, call: NotificationCall): Pending {
    match call
    case Cancel => NothingPending
    case ScheduleApproaching(minutes, name) =>
      var delay := ApproachingDelay(minutes);
      if delay.None? then p else p.(approaching := Some(Request(name, delay.value)))
    case ScheduleArrival(minutes, name) =>
      p.(arrival := Some(Request(name, ArrivalDelay(minutes))))
  }

  /** The pending requests after a series of calls, in order. */
  function DeliverAll(p: Pending, calls: seq<NotificationCall>): Pending
    decreases |calls|
  {
    if |calls| == 0 then p else DeliverAll(Deliver(p, calls[0]), calls[1..])
  }

  /** Delivering two series of calls is delivering the first, then the second. */
  lemma {:induction false} DeliverAllAppend(p: Pending, a: seq<NotificationCall>, b: seq<NotificationCall>)
    ensures DeliverAll(p, a + b) == DeliverAll(DeliverAll(p, a), b)
    decreases |a|
  {
    if |a| > 0 {
      assert (a + b)[0] == a[0] && (a + b)[1..] == a[1..] + b;
      DeliverAllAppend(Deliver(p, a[0]), a[1..], b);
    } else {
      assert a + b == b;
    }
  }

  /** An approaching request is dropped exactly when it asks for zero or fewer minutes. */
  lemma ApproachingDropped(p: Pending, minutes: int, name: string)
    ensures minutes <= 0 ==> Deliver(p, ScheduleApproaching(minutes, name)) == p
    ensures minutes > 0 ==> Deliver(p, ScheduleApproaching(minutes, name)).approaching == Some(Request(name, minutes * 60))
    ensures Deliver(p, ScheduleApproaching(minutes, name)).arrival == p.arrival
  {
  }

  /** An arrival request always lands, leaving the approaching slot alone. */
  lemma ArrivalAlwaysPending(p: Pending, minutes: int, name: string)
    ensures Deliver(p, ScheduleArrival(minutes, name)).arrival.Some?
    ensures Deliver(p, ScheduleArrival(minutes, name)).arrival.value.delaySeconds >= 1
    ensures Deliver(p, ScheduleArrival(minutes, name)).approaching == p.approaching
  {
  }

  /** After a cancel, whatever was pending before no longer matters. */
  lemma {:induction false} CancelForgets(p: Pending, q: Pending, calls: seq<NotificationCall>)
    ensures DeliverAll(p, [Cancel] + calls) == DeliverAll(q, [Cancel] + calls)
  {
    assert ([Cancel] + calls)[1..] == calls;
  }

  /**
    `LocalNotificationManager`: the pending requests, and (for stating what a caller did)
    the calls it has received.
   */
  class LocalNotificationManager {
    var pending: Pending
    ghost var log: seq<NotificationCall>

    constructor ()
      ensures pending == NothingPending && log == []
    {
      pending := NothingPending;
      log := [];
    }

    /** `cancelTripNotifications`: remove both trip requests. */
    method CancelTripNotifications()
      modifies this
      ensures pending == NothingPending
      ensures log == old(log) + [Cancel]
    {
      pending := NothingPending;
      log := log + [Cancel];
    }

    /** `scheduleApproachingNotification(inMinutes:stationName:)`. */
    method ScheduleApproachingNotification(minutes: int, stationName: string)
      modifies this
      ensures pending == Deliver(old(pending), ScheduleApproaching(minutes, stationName))
      ensures log == old(log) + [ScheduleApproaching(minutes, stationName)]
    {
      log := log + [ScheduleApproaching(minutes, stationName)];
      if minutes <= 0 {
        return;
      }
      var seconds := minutes * 60;
      pending := pending.(approaching := Some(Request(stationName, Max(seconds, 1))));
    }

    /** `scheduleArrivalNotification(inMinutes:stationName:)`. */
    method ScheduleArrivalNotification(minutes: int, stationName: string)
      modifies this
      ensures pending == Deliver(old(pending), ScheduleArrival(minutes, stationName))
      ensures log == old(log) + [ScheduleArrival(minutes, stationName)]
    {
      log := log + [ScheduleArrival(minutes, stationName)];
      var clampedMinutes := Max(minutes, 0);
      var seconds := if clampedMinutes == 0 then 1 else clampedMinutes * 60;
      pending := pending.(arrival := Some(Request(stationName, seconds)));
    }
  }
}
