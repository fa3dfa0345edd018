# Wasalt trip engine in Dafny

Wasalt follows a rider along the Riyadh Metro yellow line. It works out the direction of
travel, the nearest and last passed stations, how many stations and minutes remain, and the
stations still ahead. It raises an "approaching" and an "arrival" alert once per trip leg,
and backs each one with a local notification. This project models that engine as
`MetroTripViewModel` does it, together with the yellow-line station table and the onboarding
page counter, and proves what the code promises about them.

Modules, one per concern:

- `Stations`: the station record and the table queries the engine relies on. These are
  `first(where:)` by order, `filter` on an order range, sorting by order, the nearest station
  (the left fold of `min(by:)`) and the proximity scan of `isUserNearAnyStation`.
- `Progress`: `computeRemainingStationsAndTime` as a method with its two counting loops,
  proved equal to the walk functions `WalkUp` and `WalkDown`. It also holds what those walks
  count over the table, and `computeUpcomingStations` and `middleStations`.
- `Notifications`: the delay rule of `LocalNotificationManager`. The manager is a class that
  holds the requests pending under its two identifiers and, as ghost state, the log of calls.
- `TripEngine`: the stored properties of `MetroTripViewModel` as one `Trip` value. Each
  operation is a transition that returns the new `Trip` and the notification calls it made,
  in order.
- `TripLaws`: what those transitions guarantee. This covers the `startTrip` guards, setting
  off, progress updates, one-shot alerts over a whole ride, the reset laws, and an invariant
  that every operation keeps.
- `ViewModel`: the class `MetroTripViewModel`, whose fields are the stored properties. Its
  methods update them one at a time, as the Swift code does. Each method is proved to end in
  the state the matching `TripEngine` transition gives, and to leave the notification manager
  with exactly that transition's calls.
- `MetroData`: the nine-station table, and two worked examples of remaining stations and
  minutes on it.
- `Onboarding`: `OnboardingViewModel.next()` and `skip()`.

Distances come from the platform. A `Distance` function value is passed in with the table and
never looked into. The two thresholds, 500000 m near the line and 10 m at the destination,
are constants. `statusText` is the localization key it is built from, with the station name
where the key takes one.

Where the system's design documentation and its code disagree, the model follows the code:

- Of several equally near stations, `min(by:)` keeps the first one listed. The yellow line is
  listed from order 8 down, so a tie goes to the higher order (`MetroData.NearestTieGoesToHigherOrder`),
  not to the lowest.
- Reaching the destination in `updateProgress` clears the upcoming list, but it leaves
  `stationsRemaining` and `etaMinutes` as computed from the nearest station. It does not zero them.
- The immediate approaching request that `updateProgress` makes asks for 0 minutes, and
  `scheduleApproachingNotification` drops any request for zero or fewer minutes. So the
  approaching alert never leaves a notification pending (`TripLaws.UpdateProgressOnTheWay`).
  Only the arrival request is raised to a one-second delay.
- When `startTrip` finds the origin already at the destination, it sets the arrival alert but
  not `didFireArrivalAlert`. On the change-destination path it also leaves
  `isChangingDestination` set.
- The remaining-minutes walk covers the orders from the current station up to, but not
  including, the destination (forward), or from the current station down to just above it
  (backward). It adds the `minutesToNext` of each station it meets. The table's minutes by order
  0..8 are `[3, 3, 11, 3, 6, 3, 4, 5, 5]`.

## Model

| member | source | states |
|---|---|---|
| Stations.FirstWithOrder | Wasalt/ViewModels/MetroTripViewModel.swift:339 | `first(where: order == o)` is none exactly when no station has order `o`, and otherwise a station of the table with that order |
| Stations.FirstWithOrderUnique | Wasalt/ViewModels/MetroTripViewModel.swift:307 | in a table with unique orders, looking up a station's order finds that very station |
| Stations.BetweenMembers | Wasalt/ViewModels/MetroTripViewModel.swift:369-370 | the order filter keeps exactly the table's stations whose order lies in the range |
| Stations.SortByOrder | Wasalt/ViewModels/MetroTripViewModel.swift:371 | `sorted` by order returns a permutation of its input that is in ascending (or descending) order |
| Stations.NearestStation | Wasalt/ViewModels/MetroTripViewModel.swift:381-389 | `nearestStation` is none only for an empty table; otherwise it is a station no other station is nearer than, and every station listed before it is strictly farther |
| Stations.NearestIsFirstMinimal | Wasalt/ViewModels/MetroTripViewModel.swift:381-389 | among equally near stations the first one listed is chosen |
| Stations.IsUserNearAnyStation | Wasalt/ViewModels/MetroTripViewModel.swift:391-400 | the scan returns true exactly when some station lies within the radius |
| Progress.ComputeRemainingStationsAndTime | Wasalt/ViewModels/MetroTripViewModel.swift:324-361 | both counting loops return the walk `RemainingFrom`: `(abs(dest - current), 0, nil)` without a direction, `(0, 0, nil)` when at or past the destination |
| Progress.WalkUpCountsRange | Wasalt/ViewModels/MetroTripViewModel.swift:336-346 | forward, with unique orders, the count is the number of stations with order in `[current, dest)` and the minutes are their total `minutesToNext` (nil as 0) |
| Progress.WalkDownCountsRange | Wasalt/ViewModels/MetroTripViewModel.swift:347-357 | backward, the count and minutes cover the stations with order in `(dest, current]` |
| Progress.WalkUpNext | Wasalt/ViewModels/MetroTripViewModel.swift:340-342 | walking forward from a station of the table, `next` is the station one order up |
| Progress.WalkDownNext | Wasalt/ViewModels/MetroTripViewModel.swift:351-353 | walking backward from a station of the table, `next` is the station one order down |
| Progress.WalkUpDense | Wasalt/ViewModels/MetroTripViewModel.swift:338-345 | when every order of the range has a station, the forward count is `dest - current` |
| Progress.WalkDownDense | Wasalt/ViewModels/MetroTripViewModel.swift:349-356 | likewise backward: `current - dest` |
| Progress.RemainingForward | Wasalt/ViewModels/MetroTripViewModel.swift:336-346 | the forward result of `computeRemainingStationsAndTime`: count and minutes over `[current, dest)`, and `next` one order up |
| Progress.RemainingBackward | Wasalt/ViewModels/MetroTripViewModel.swift:347-357 | the backward result: count and minutes over `(dest, current]`, and `next` one order down |
| Progress.RemainingNonNegative | Wasalt/ViewModels/MetroTripViewModel.swift:324-361 | the count is never negative, and the minutes are not negative for a table without negative travel times |
| Progress.Ahead | Wasalt/ViewModels/MetroTripViewModel.swift:366-378 | once the direction is known, the list holds exactly the stations with order in `(current, dest]` (forward) or `[dest, current)` (backward), sorted in travel order; the guard makes it empty when the destination is not ahead |
| Progress.Inside | Wasalt/ViewModels/MetroTripViewModel.swift:222-232 | once start and destination are known, the list holds exactly the stations strictly between their orders, sorted from start towards destination |
| Progress.AheadStrictlyInTravelOrder | Wasalt/ViewModels/MetroTripViewModel.swift:366-378 | with unique orders, the stations ahead are strictly ascending forward and strictly descending backward |
| Progress.UpcomingStations | Wasalt/ViewModels/MetroTripViewModel.swift:363-379 | the upcoming list holds exactly the stations with order in `(current, dest]` forward or `[dest, current)` backward, and none without a direction, sorted in travel order |
| Progress.UpcomingStrictlyInTravelOrder | Wasalt/ViewModels/MetroTripViewModel.swift:363-379 | with unique orders the upcoming list is strictly ascending forward and strictly descending backward |
| Progress.UpcomingMatchesRemaining | Wasalt/ViewModels/MetroTripViewModel.swift:262-267 | for a current station and destination on the line, the upcoming list is exactly as long as the remaining-station count |
| Progress.MiddleStations | Wasalt/ViewModels/MetroTripViewModel.swift:216-233 | `middleStations` holds exactly the stations strictly between start and destination, in travel order, and is empty when either is nil or they have the same order |
| Progress.StrictTravelOrder | Wasalt/ViewModels/MetroTripViewModel.swift:222-229 | a filtered and sorted range of a table with unique orders is strictly in travel order |
| Notifications.ApproachingDelay | Wasalt/ViewModels/MetroTripViewModel.swift:573-587 | an approaching request is dropped exactly when it asks for zero or fewer minutes; otherwise its delay is `minutes * 60` seconds, at least 60 |
| Notifications.ArrivalDelay | Wasalt/ViewModels/MetroTripViewModel.swift:609-615 | an arrival delay is always positive: 1 second for zero or fewer minutes, `minutes * 60` otherwise |
| Notifications.ApproachingDropped | Wasalt/ViewModels/MetroTripViewModel.swift:573-598 | a non-positive approaching request changes nothing pending; a positive one replaces the approaching request and leaves the arrival one |
| Notifications.ArrivalAlwaysPending | Wasalt/ViewModels/MetroTripViewModel.swift:601-626 | an arrival request always lands with a positive delay, leaving the approaching request |
| Notifications.CancelForgets | Wasalt/ViewModels/MetroTripViewModel.swift:564-570 | after a cancel, what was pending before makes no difference to what is pending later |
| Notifications.LocalNotificationManager.constructor | Wasalt/ViewModels/MetroTripViewModel.swift:555-556 | a new manager has nothing pending and has received no call |
| Notifications.LocalNotificationManager.CancelTripNotifications | Wasalt/ViewModels/MetroTripViewModel.swift:564-571 | both trip requests are removed |
| Notifications.LocalNotificationManager.ScheduleApproachingNotification | Wasalt/ViewModels/MetroTripViewModel.swift:573-599 | the pending requests become `Deliver` of the approaching call: dropped for zero or fewer minutes, else replacing the old request |
| Notifications.LocalNotificationManager.ScheduleArrivalNotification | Wasalt/ViewModels/MetroTripViewModel.swift:601-627 | the pending arrival request is replaced by one with the clamped delay |
| TripEngine.SelectDestination | Wasalt/ViewModels/MetroTripViewModel.swift:51-53 | the destination is set and nothing else changes |
| TripEngine.ClearActiveAlert | Wasalt/ViewModels/MetroTripViewModel.swift:212-214 | the active alert is cleared and nothing else changes |
| TripEngine.ScheduleCalls | Wasalt/ViewModels/MetroTripViewModel.swift:102-113 | after a trip sets off: an approaching request at `eta - 3` minutes exactly when `eta > 3`, an arrival request at `eta` exactly when `eta > 0`, no cancel, all for the destination |
| TripEngine.EndTripAndReset | Wasalt/ViewModels/MetroTripViewModel.swift:183-188 | whatever the state, the view model is as new and the only call is a cancel |
| TripEngine.CancelAndChooseAgain | Wasalt/ViewModels/MetroTripViewModel.swift:190-210 | one cancel; the last passed station becomes the nearest one when there is one; start and nearest stations kept; tracking off; change-destination path armed |
| TripEngine.IsStationReached | Wasalt/ViewModels/MetroTripViewModel.swift:235-251 | false without a direction or a reference station (last passed, else nearest, else start); otherwise forward `order <= ref`, backward `order >= ref` |
| TripLaws.StartTripGuards | Wasalt/ViewModels/MetroTripViewModel.swift:55-128 | no destination, no base station on the change path, no location fix, or no station in range: each sets only its status and makes no call |
| TripLaws.GuardStatusOnlyFromGuards | Wasalt/ViewModels/MetroTripViewModel.swift:55-128 | conversely, `startTrip` ends in a guard status exactly when a guard applies, and then changed only the status and made no call |
| TripLaws.StartTripFromOrigin | Wasalt/ViewModels/MetroTripViewModel.swift:61-131 | past its guards, `startTrip` records the origin (the last passed station else the start, or the station nearest the fix) and continues from it |
| TripLaws.DepartNotGuard | Wasalt/ViewModels/MetroTripViewModel.swift:156-162 | a trip that has set off never shows a guard status after its first progress update |
| TripLaws.StartTripAtDestination | Wasalt/ViewModels/MetroTripViewModel.swift:68-147 | an origin at the destination ends the trip at once: tracking off, nothing remaining, arrival sheet and alert, one cancel, the right status for each path, direction and change flag untouched |
| TripLaws.StartTripSetsOff | Wasalt/ViewModels/MetroTripViewModel.swift:85-162 | otherwise the direction is forward exactly when the destination's order is higher, the start is the origin, the change flag is cleared, and the first update runs at the origin (or fix): tracking stays on exactly when the rider is not already within 10 m |
| TripLaws.StartTripSchedules | Wasalt/ViewModels/MetroTripViewModel.swift:102-175 | the positive-delay requests of a trip that sets off: approaching at `eta - 3` exactly when `eta > 3`, arrival at `eta` exactly when `eta > 0` |
| TripLaws.ScheduleCallsPending | Wasalt/ViewModels/MetroTripViewModel.swift:164-175 | what those requests leave pending: approaching due in `(eta - 3) * 60` s when `eta > 3`, arrival due in `eta * 60` s when `eta > 0` |
| TripLaws.UpdateProgressCalls | Wasalt/ViewModels/MetroTripViewModel.swift:282-319 | `updateProgress` itself only cancels or requests notifications for zero minutes |
| TripLaws.UpdateProgressStatus | Wasalt/ViewModels/MetroTripViewModel.swift:253-294 | `updateProgress` leaves the status, clears it, or reports the arrival |
| TripLaws.UpdateProgressMoves | Wasalt/ViewModels/MetroTripViewModel.swift:253-267 | the nearest station moves to the one nearest the location; the last passed one follows only when the nearest order changed; counts and next station are those of `computeRemainingStationsAndTime` from there; destination, start, direction and path unchanged |
| TripLaws.UpdateProgressArrives | Wasalt/ViewModels/MetroTripViewModel.swift:273-291 | within 10 m: tracking off, arrival sheet, nothing upcoming, arrived status; the first time only, the arrival alert, a cancel and an arrival request, which leave just an arrival notification due in 1 s |
| TripLaws.UpdateProgressOnTheWay | Wasalt/ViewModels/MetroTripViewModel.swift:294-321 | farther away: blank status, tracking untouched, the approaching alert raised exactly when unfired at the station before the destination, with its zero-minute request, which changes nothing pending |
| TripLaws.UserLocationUpdatedIdle | Wasalt/ViewModels/MetroTripViewModel.swift:178-181 | no change and no call when not tracking or without a fix |
| TripLaws.UpdateProgressIdempotent | Wasalt/ViewModels/MetroTripViewModel.swift:253-322 | a second update for the same location changes nothing and makes no call |
| TripLaws.UpdateFlags | Wasalt/ViewModels/MetroTripViewModel.swift:282-320 | one location update requests an arrival (approaching) notification exactly when it raises that one-shot flag, and never lowers a flag |
| TripLaws.ArrivalAtMostOnce | Wasalt/ViewModels/MetroTripViewModel.swift:282-290 | over any ride, the arrival notification is requested at most once, and never once its alert has fired |
| TripLaws.ApproachingAtMostOnce | Wasalt/ViewModels/MetroTripViewModel.swift:296-320 | over any ride, the approaching notification is requested at most once per leg |
| TripLaws.ConsistentPreserved | Wasalt/ViewModels/MetroTripViewModel.swift:43-214 | the initial state is consistent and every operation keeps it so: a tracked trip has a destination and a direction and is not mid-change, a nearest or start station comes with a last passed one, and a fired arrival alert means tracking stopped |
| TripLaws.ArrivedStaysPut | Wasalt/ViewModels/MetroTripViewModel.swift:178-181 | in a consistent state, once the arrival alert has fired, location updates change nothing |
| TripLaws.ChangeNeedsNoFix | Wasalt/ViewModels/MetroTripViewModel.swift:61-66 | after `cancelAndChooseAgain` and a new destination, `startTrip` ignores the location, hits no guard, and starts from the remembered station |
| TripLaws.CancelKeepsOnlyPosition | Wasalt/ViewModels/MetroTripViewModel.swift:190-210 | `cancelAndChooseAgain` leaves the view model as new apart from the start, nearest and last passed stations and the change flag |
| TripLaws.ReachedMiddlePrefix | Wasalt/ViewModels/MetroTripViewModel.swift:216-251 | with the direction `startTrip` sets, the reached middle stations are a prefix of the middle list |
| ViewModel.MetroTripViewModel.constructor | Wasalt/ViewModels/MetroTripViewModel.swift:18-49 | a new view model holds the table and manager it is given and is in the initial state |
| ViewModel.MetroTripViewModel.SelectDestination | Wasalt/ViewModels/MetroTripViewModel.swift:51-53 | the fields become `TripEngine.SelectDestination` of the old ones |
| ViewModel.MetroTripViewModel.ClearActiveAlert | Wasalt/ViewModels/MetroTripViewModel.swift:212-214 | the fields become `TripEngine.ClearActiveAlert` of the old ones |
| ViewModel.MetroTripViewModel.UpdateProgress | Wasalt/ViewModels/MetroTripViewModel.swift:253-322 | fields and notification manager end as `TripEngine.UpdateProgress` says |
| ViewModel.MetroTripViewModel.MoveTo | Wasalt/ViewModels/MetroTripViewModel.swift:257-267 | the nearest and last passed stations, counts and upcoming list are recomputed |
| ViewModel.MetroTripViewModel.PassStation | Wasalt/ViewModels/MetroTripViewModel.swift:257-260 | the last passed station follows the nearest one only when its order changes |
| ViewModel.MetroTripViewModel.Arrive | Wasalt/ViewModels/MetroTripViewModel.swift:273-291 | the arrival branch, as `TripEngine.ArriveAt` |
| ViewModel.MetroTripViewModel.FireArrivalAlert | Wasalt/ViewModels/MetroTripViewModel.swift:282-290 | the arrival alert and flag, then a cancel and a zero-minute arrival request |
| ViewModel.MetroTripViewModel.PassBy | Wasalt/ViewModels/MetroTripViewModel.swift:294-321 | the branch short of the destination, as `TripEngine.PassBy` |
| ViewModel.MetroTripViewModel.FireApproachingAlert | Wasalt/ViewModels/MetroTripViewModel.swift:310-319 | the approaching alert with the current estimate, its flag, and a zero-minute approaching request |
| ViewModel.MetroTripViewModel.UserLocationUpdated | Wasalt/ViewModels/MetroTripViewModel.swift:178-181 | as `TripEngine.UserLocationUpdated` |
| ViewModel.MetroTripViewModel.ScheduleForEta | Wasalt/ViewModels/MetroTripViewModel.swift:102-113 | the manager receives exactly `ScheduleCalls(etaMinutes, dest)` |
| ViewModel.MetroTripViewModel.StartTrip | Wasalt/ViewModels/MetroTripViewModel.swift:55-176 | fields and notification manager end as `TripEngine.StartTrip` says |
| ViewModel.MetroTripViewModel.ContinueFromBase | Wasalt/ViewModels/MetroTripViewModel.swift:61-66 | the change-destination path from its base station, or the unknown-error status without one |
| ViewModel.MetroTripViewModel.ContinueFrom | Wasalt/ViewModels/MetroTripViewModel.swift:68-114 | the change-destination path once the origin is recorded |
| ViewModel.MetroTripViewModel.StartFromLocation | Wasalt/ViewModels/MetroTripViewModel.swift:117-120 | the fresh path, or the no-location status without a fix |
| ViewModel.MetroTripViewModel.StartNear | Wasalt/ViewModels/MetroTripViewModel.swift:121-131 | the fresh path with a fix, or the not-near-metro status |
| ViewModel.MetroTripViewModel.StartFrom | Wasalt/ViewModels/MetroTripViewModel.swift:133-175 | the fresh path once the origin is recorded |
| ViewModel.MetroTripViewModel.SetOff | Wasalt/ViewModels/MetroTripViewModel.swift:150-160 | direction towards the destination, tracking on, alerts re-armed, blank status |
| ViewModel.MetroTripViewModel.ArmTracking | Wasalt/ViewModels/MetroTripViewModel.swift:156-160 | tracking on, no arrival sheet, both flags cleared, blank status |
| ViewModel.MetroTripViewModel.ArriveAtOnce | Wasalt/ViewModels/MetroTripViewModel.swift:133-147 | the origin-is-destination branch and its one cancel |
| ViewModel.MetroTripViewModel.StandAt | Wasalt/ViewModels/MetroTripViewModel.swift:134-138 | the destination becomes the nearest station with nothing left to travel |
| ViewModel.MetroTripViewModel.SetOffAndSchedule | Wasalt/ViewModels/MetroTripViewModel.swift:162-175 | the first progress update followed by the trip notifications |
| ViewModel.MetroTripViewModel.ResetProgress | Wasalt/ViewModels/MetroTripViewModel.swift:402-419 | the fields become `TripEngine.ResetProgress` of the old ones |
| ViewModel.MetroTripViewModel.ClearCounts | Wasalt/ViewModels/MetroTripViewModel.swift:409-412 | no next station, nothing remaining or upcoming |
| ViewModel.MetroTripViewModel.DisarmAlerts | Wasalt/ViewModels/MetroTripViewModel.swift:413-417 | no arrival sheet, direction or alert, both flags cleared |
| ViewModel.MetroTripViewModel.EndTripAndReset | Wasalt/ViewModels/MetroTripViewModel.swift:183-188 | the view model ends in the initial state, with one cancel |
| ViewModel.MetroTripViewModel.CancelAndChooseAgain | Wasalt/ViewModels/MetroTripViewModel.swift:190-210 | fields and manager end as `TripEngine.CancelAndChooseAgain` says |
| ViewModel.MetroTripViewModel.StopAndRemember | Wasalt/ViewModels/MetroTripViewModel.swift:191-195 | tracking off, and the nearest station kept as the last passed one |
| ViewModel.MetroTripViewModel.AwaitNewDestination | Wasalt/ViewModels/MetroTripViewModel.swift:207-209 | blank status, change path armed, one cancel |
| MetroData.YellowLineStations | Wasalt/Models/MetroData.swift:12-22 | nine stations listed with orders 8 down to 0, each with a travel time, by order `[3, 3, 11, 3, 6, 3, 4, 5, 5]`; unique orders, no negative minutes |
| MetroData.YellowLineOrders | Wasalt/Models/MetroData.swift:13-21 | each order 0..8 finds exactly the station at index `8 - order` |
| MetroData.YellowLineNoOtherOrders | Wasalt/Models/MetroData.swift:13-21 | no station has an order outside 0..8 |
| MetroData.ForwardOneToFour | Wasalt/Models/MetroData.swift:18-20 | forward from order 1 to order 4: 3 stations, 3 + 11 + 3 = 17 minutes, next is order 2 |
| MetroData.ForwardOneToFourOn | Wasalt/ViewModels/MetroTripViewModel.swift:336-346 | the same count on any table listed from order 8 down with those minutes |
| MetroData.BackwardFourToOne | Wasalt/Models/MetroData.swift:17-19 | backward from order 4 to order 1: 3 stations, 6 + 3 + 11 = 20 minutes, next is order 3 |
| MetroData.BackwardFourToOneOn | Wasalt/ViewModels/MetroTripViewModel.swift:347-357 | the same count on any table of that shape |
| MetroData.NearestTieGoesToHigherOrder | Wasalt/ViewModels/MetroTripViewModel.swift:381-389 | on the yellow line a tie for nearest station goes to the higher order |
| Onboarding.Pages | Wasalt/ViewModels/OnboardingViewModel.swift:17-38 | three onboarding pages |
| Onboarding.NextState | Wasalt/ViewModels/OnboardingViewModel.swift:40-48 | before the last page: one page on, finished unchanged; on the last page: finished, page unchanged; a page stays a page |
| Onboarding.SkipState | Wasalt/ViewModels/OnboardingViewModel.swift:50-54 | finished, page unchanged |
| Onboarding.NextKeepsPage | Wasalt/ViewModels/OnboardingViewModel.swift:40-47 | any number of `next()` calls keeps the page within the three pages |
| Onboarding.FinishedStays | Wasalt/ViewModels/OnboardingViewModel.swift:40-47 | once finished, further `next()` calls keep it finished |
| Onboarding.NextFinishesAfter | Wasalt/ViewModels/OnboardingViewModel.swift:40-47 | from page `p`, onboarding is finished after `n` calls exactly when `n >= 3 - p` |
| Onboarding.ThreeNextsFromStart | Wasalt/ViewModels/OnboardingViewModel.swift:13-47 | from a new view model three calls finish onboarding and two do not |
| Onboarding.OnboardingViewModel.constructor | Wasalt/ViewModels/OnboardingViewModel.swift:13-38 | page 0, not finished, the three pages |
| Onboarding.OnboardingViewModel.Next | Wasalt/ViewModels/OnboardingViewModel.swift:40-48 | the fields become `NextState` of the old ones, and the page stays a page |
| Onboarding.OnboardingViewModel.Skip | Wasalt/ViewModels/OnboardingViewModel.swift:50-54 | the fields become `SkipState` of the old ones |

## Left out

- `InAppAlertManager` (banner, timers, torch and vibration) is presentation, timers and hardware, not trip logic.
- The operating system's notification centre is reduced to the two pending request slots. Notification content (title, sound) and authorization (`requestAuthIfNeeded`) are not modelled.
- `CLLocation` distances are a function value passed in; the great-circle geometry and floating-point arithmetic are not modelled.
- Swift's `Int` is unbounded here. The overflow trap of `minutes * 60` for huge estimates is not modelled.
- `@Published`, `@AppStorage` and `withAnimation` are plain fields and assignments; publication, persistence and animation are not modelled.
- `String.localized` is not modelled: statuses, alerts and station names are their localization keys.
- `TrackingSheet.swift` and `WasaltApp.swift` are not part of this model. The sheet only reads `middleStations`, `isStationReached` and `etaMinutes` and calls the reset methods.
- The `unknownError` guard after the proximity check of `startTrip` (MetroTripViewModel.swift:125-128) cannot fire: a table with a station in range is not empty. The method proves that branch dead instead of setting the status.
- `lastPassedStation` is not proved to move only in the direction of travel, because the code does not check the direction when it updates it.
