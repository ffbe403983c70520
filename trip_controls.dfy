/**
 * The driver's trip panel: its local state (`isTracking`, `delayReason`,
 * `showDelayForm`), the interval that pushes the current location, and the
 * requests it makes of its parent through the `onStartTrip`, `onEndTrip` and
 * `onReportDelay` callbacks. The props `tripActive`, `location` and `busId`
 * are parameters of the methods that depend on them.
 */
module TripControls {
  import opened Common
  import opened LocationService

  /** A call the panel makes to one of its parent's callbacks. */
  datatype Request = StartTrip | EndTrip | ReportDelay(reason: string)

  /** One `busAPI.updateLocation(busId, location)` call. */
  datatype LocationUpdate = LocationUpdate(busId: string, location: CurrentFix)

  /** The condition under which the location-sending interval exists. */
  predicate ShouldSend(tripActive: bool, isTracking: bool, location: Option<CurrentFix>)
  {
    tripActive && isTracking && location.Some?
  }

  /** The start button is rendered only while no trip is active. */
  predicate StartButtonShown(tripActive: bool)
  {
    !tripActive
  }

  /** The start button is disabled while there is no location. */
  predicate StartButtonDisabled(location: Option<CurrentFix>)
  {
    location.None?
  }

  /** The end button, the tracking badge and the delay section are rendered only during a trip. */
  predicate TripSectionShown(tripActive: bool)
  {
    tripActive
  }

  /** On the screen, exactly one of the start button and the trip section is present. */
  lemma StartOrTripSection(tripActive: bool)
    ensures StartButtonShown(tripActive) != TripSectionShown(tripActive)
  {
  }

  class ControlsState {
    var isTracking: bool
    var delayReason: string
    var showDelayForm: bool
    /** The live interval, with the bus id and the location its callback captured. */
    var interval: Option<LocationUpdate>
    /** Calls made to the parent's callbacks, oldest first. */
    var requests: seq<Request>
    /** Location updates the interval has sent, oldest first. */
    var sent: seq<LocationUpdate>

    /** The panel as first rendered. */
    constructor ()
      ensures !isTracking && delayReason == "" && !showDelayForm
      ensures interval == None && requests == [] && sent == []
    {
      isTracking := false;
      delayReason := "";
      showDelayForm := false;
      interval := None;
      requests := [];
      sent := [];
    }

    /** The interval is on for these props exactly when the effect would have created one. */
    predicate IntervalMatches(tripActive: bool, location: Option<CurrentFix>, busId: string)
      reads this
    {
      interval == if ShouldSend(tripActive, isTracking, location)
        then Some(LocationUpdate(busId, location.value)) else None
    }

    /**
     * The effect on `[tripActive, isTracking, location, busId]`: clears the
     * previous interval and starts a new one only when the three conditions hold.
     */
    method SyncInterval(tripActive: bool, location: Option<CurrentFix>, busId: string)
      modifies this`interval
      ensures IntervalMatches(tripActive, location, busId)
    {
      interval := None;
      if tripActive && isTracking && location.Some? {
        interval := Some(LocationUpdate(busId, location.value));
      }
    }

    /** One period of the interval: sends the captured location, if an interval exists. */
    method Tick()
      modifies this`sent
      ensures sent == old(sent) + (if interval.Some? then [interval.value] else [])
    {
      if interval.Some? {
        sent := sent + [interval.value];
      }
    }

    /** `handleStart`: asks the parent to start a trip and turns tracking on. */
    method HandleStart()
      modifies this`requests, this`isTracking
      ensures requests == old(requests) + [StartTrip] && isTracking
    {
      requests := requests + [StartTrip];
      isTracking := true;
    }

    /** `handleEnd`: turns tracking off and asks the parent to end the trip. */
    method HandleEnd()
      modifies this`requests, this`isTracking
      ensures requests == old(requests) + [EndTrip] && !isTracking
    {
      isTracking := false;
      requests := requests + [EndTrip];
    }

    /** The "Report Delay/Issue" button. */
    method OpenDelayForm()
      modifies this`showDelayForm
      ensures showDelayForm
    {
      showDelayForm := true;
    }

    /** Typing in the delay textarea. */
    method EditDelayReason(text: string)
      modifies this`delayReason
      ensures delayReason == text
    {
      delayReason := text;
    }

    /**
     * `handleDelaySubmit`: forwards the reason, exactly as typed, when its trimmed
     * form is non-empty, then clears it and hides the form; otherwise nothing changes.
     */
    method HandleDelaySubmit() returns (reported: bool)
      modifies this`requests, this`delayReason, this`showDelayForm
      ensures reported <==> !AllWhitespace(old(delayReason))
      ensures reported ==>
        (requests == old(requests) + [ReportDelay(old(delayReason))] &&
         delayReason == "" && !showDelayForm)
      ensures !reported ==>
        (requests == old(requests) && delayReason == old(delayReason) &&
         showDelayForm == old(showDelayForm))
    {
      TrimEmptyIff(delayReason);
      reported := Trim(delayReason) != "";
      if reported {
        requests := requests + [ReportDelay(delayReason)];
        delayReason := "";
        showDelayForm := false;
      }
    }

    /** The cancel button: hides the form and clears the reason without reporting. */
    method CancelDelay()
      modifies this`delayReason, this`showDelayForm
      ensures !showDelayForm && delayReason == ""
    {
      showDelayForm := false;
      delayReason := "";
    }
  }

  /**
   * Ending a trip from the panel and re-running the effect leaves no interval,
   * so no further location is sent, whatever the props are.
   */
  method EndStopsSending(c: ControlsState, tripActive: bool, location: Option<CurrentFix>, busId: string)
    modifies c
    ensures c.interval == None
    ensures c.sent == old(c.sent)
    ensures c.requests == old(c.requests) + [EndTrip]
  {
    c.HandleEnd();
    c.SyncInterval(tripActive, location, busId);
    c.Tick();
  }

  /**
   * Starting from the panel while the trip is active and a location is known
   * makes the next tick send that location for this bus.
   */
  method StartThenTickSends(c: ControlsState, location: CurrentFix, busId: string)
    modifies c
    ensures c.sent == old(c.sent) + [LocationUpdate(busId, location)]
    ensures c.requests == old(c.requests) + [StartTrip]
  {
    c.HandleStart();
    c.SyncInterval(true, Some(location), busId);
    c.Tick();
  }
}
