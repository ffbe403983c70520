/**
 * The driver dashboard's trip state (`tripActive`, `tripId`) and the three
 * handlers it passes to the trip panel. Each handler awaits one `driverAPI`
 * call; the call's outcome is a parameter, and the model records the calls made.
 */
module DriverDashboard {
  import opened Common
  import Api

  /** A `driverAPI` call the dashboard makes. */
  datatype DriverCall =
    | StartTripCall(busId: string)
    | EndTripCall(tripId: Option<string>)
    | ReportDelayCall(busId: string, reason: string)

  /** The text beside the status dot. */
  function StatusText(tripActive: bool): string
  {
    if tripActive then "Trip in Progress" else "No Active Trip"
  }

  /** The "Trip ID" line is rendered only for a truthy id. */
  predicate TripIdShown(tripId: Option<string>)
  {
    tripId.Some? && tripId.value != ""
  }

  class Dashboard {
    var tripActive: bool
    var tripId: Option<string>
    /** The bus this driver drives; the only value its state ever has. */
    const busId: string
    var calls: seq<DriverCall>
    var alerts: seq<string>

    /** A trip is active exactly when an id is held. */
    predicate Valid()
      reads this
    {
      tripActive <==> tripId.Some?
    }

    /** The dashboard on first render: no trip. */
    constructor ()
      ensures Valid()
      ensures !tripActive && tripId == None && busId == "BUS001"
      ensures calls == [] && alerts == []
    {
      tripActive := false;
      tripId := None;
      busId := "BUS001";
      calls := [];
      alerts := [];
    }

    /**
     * `handleStartTrip`: asks for a trip for this bus; `outcome` is the resolved
     * trip id, or `None` when the call rejects, which leaves the trip state alone.
     */
    method HandleStartTrip(outcome: Option<string>)
      requires Valid()
      modifies this`tripActive, this`tripId, this`calls
      ensures Valid()
      ensures calls == old(calls) + [StartTripCall(busId)]
      ensures outcome.Some? ==> tripActive && tripId == outcome
      ensures outcome.None? ==> tripActive == old(tripActive) && tripId == old(tripId)
    {
      calls := calls + [StartTripCall(busId)];
      if outcome.Some? {
        tripId := outcome;
        tripActive := true;
      }
    }

    /** `handleEndTrip`: ends the held trip; only a resolved call clears the state. */
    method HandleEndTrip(ok: bool)
      requires Valid()
      modifies this`tripActive, this`tripId, this`calls
      ensures Valid()
      ensures calls == old(calls) + [EndTripCall(old(tripId))]
      ensures ok ==> !tripActive && tripId == None
      ensures !ok ==> tripActive == old(tripActive) && tripId == old(tripId)
    {
      calls := calls + [EndTripCall(tripId)];
      if ok {
        tripActive := false;
        tripId := None;
      }
    }

    /** `handleReportDelay`: reports for the bus, not the trip, and never touches the trip state. */
    method HandleReportDelay(reason: string, ok: bool)
      modifies this`calls, this`alerts
      ensures calls == old(calls) + [ReportDelayCall(busId, reason)]
      ensures alerts == old(alerts) + (if ok then ["Delay reported successfully"] else [])
    {
      calls := calls + [ReportDelayCall(busId, reason)];
      if ok {
        alerts := alerts + ["Delay reported successfully"];
      }
    }
  }

  /** The id the mock `driverAPI.startTrip` resolves with is always shown. */
  lemma MockTripIdShown(now: nat)
    ensures TripIdShown(Some(Api.MockTripId(now)))
  {
  }

  /**
   * Against the mock API, which always resolves: starting at time `now` and
   * then ending returns the dashboard to "No Active Trip", and the end call
   * names the trip that was started.
   */
  method MockTripCycle(d: Dashboard, now: nat)
    requires d.Valid()
    modifies d
    ensures d.Valid() && !d.tripActive && d.tripId == None
    ensures StatusText(d.tripActive) == "No Active Trip"
    ensures d.calls == old(d.calls) + [StartTripCall(d.busId), EndTripCall(Some(Api.MockTripId(now)))]
  {
    d.HandleStartTrip(Some(Api.MockTripId(now)));
    assert StatusText(d.tripActive) == "Trip in Progress";
    d.HandleEndTrip(true);
  }
}
