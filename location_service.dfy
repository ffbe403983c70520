/**
 * The browser-geolocation wrapper: one-shot position requests, the watch
 * subscription's success filter, error messages, watch cancellation, the
 * permission query and the geofence checker. The browser APIs themselves are
 * inputs: whether they exist, and what they answered.
 */
module LocationService {
  import opened Common
  import opened Helpers

  /** A position as the browser reports it. */
  datatype RawPosition = RawPosition(latitude: JsValue, longitude: JsValue, accuracy: real, timestamp: int)

  /** A fix as the watch delivers it to its success callback. */
  datatype Fix = Fix(lat: JsValue, lng: JsValue, accuracy: real, timestamp: int)

  /** A fix as `getCurrentPosition` resolves it: no timestamp. */
  datatype CurrentFix = CurrentFix(lat: JsValue, lng: JsValue, accuracy: real)

  // GeolocationPositionError codes (W3C Geolocation API, section 8).
  const PermissionDenied := 1
  const PositionUnavailable := 2
  const Timeout := 3

  /** The message `getCurrentPosition` rejects with for a geolocation error code. */
  function ErrorMessage(code: int): string
  {
    if code == PermissionDenied then "Location permission denied"
    else if code == PositionUnavailable then "Location information unavailable"
    else if code == Timeout then "Location request timed out"
    else "Unable to retrieve location"
  }

  /** The three known codes get three distinct messages; any other code gets the generic one. */
  lemma ErrorMessageMeaning(code: int)
    ensures ErrorMessage(code) == "Unable to retrieve location" <==> code !in {1, 2, 3}
    ensures ErrorMessage(code) == "Location permission denied" <==> code == 1
    ensures ErrorMessage(code) == "Location information unavailable" <==> code == 2
    ensures ErrorMessage(code) == "Location request timed out" <==> code == 3
  {
  }

  datatype Answer = Position(p: RawPosition) | Failure(code: int)

  /** `getCurrentPosition()`: rejects without geolocation support, otherwise forwards the browser's answer. */
  function GetCurrentPosition(supported: bool, answer: Answer): (r: Result)
    ensures !supported ==> r == Rejected("Geolocation is not supported by your browser")
    ensures supported && answer.Failure? ==> r == Rejected(ErrorMessage(answer.code))
    ensures supported && answer.Position? ==>
      r == Resolved(CurrentFix(answer.p.latitude, answer.p.longitude, answer.p.accuracy))
  {
    if !supported then Rejected("Geolocation is not supported by your browser")
    else match answer
      case Position(p) => Resolved(CurrentFix(p.latitude, p.longitude, p.accuracy))
      case Failure(code) => Rejected(ErrorMessage(code))
  }

  datatype Result = Resolved(fix: CurrentFix) | Rejected(message: string)

  /** The fix the watch hands on, copied field by field from the raw position. */
  function ShapeFix(p: RawPosition): Fix
  {
    Fix(p.latitude, p.longitude, p.accuracy, p.timestamp)
  }

  /** The watch's success callback: a fix for a valid position, nothing otherwise. */
  function OnPosition(p: RawPosition): (r: Option<Fix>)
    ensures r.Some? <==> IsValidCoordinate(p.latitude, p.longitude)
    ensures r.Some? ==>
      (r.value.lat == p.latitude && r.value.lng == p.longitude &&
       r.value.accuracy == p.accuracy && r.value.timestamp == p.timestamp)
  {
    var fix := ShapeFix(p);
    if IsValidCoordinate(fix.lat, fix.lng) then Some(fix) else None
  }

  /** What the browser reports to a watch, one callback at a time. */
  datatype WatchEvent = PositionEvent(p: RawPosition) | ErrorEvent(code: int)

  /** What the wrapper's callers receive: fixes for `onSuccess`, raw errors for `onError`. */
  datatype Callback = Success(fix: Fix) | Error(code: int)

  /** The callbacks a stream of browser events produces through `watchPosition`. */
  function Callbacks(events: seq<WatchEvent>): seq<Callback>
  {
    if events == [] then []
    else
      var head := match events[0]
        case PositionEvent(p) => (match OnPosition(p) case Some(f) => [Success(f)] case None => [])
        case ErrorEvent(code) => [Error(code)];
      head + Callbacks(events[1..])
  }

  /** Delivery is a stream transformation: later events never change earlier callbacks. */
  lemma {:induction false} CallbacksAppend(a: seq<WatchEvent>, b: seq<WatchEvent>)
    ensures Callbacks(a + b) == Callbacks(a) + Callbacks(b)
  {
    if a == [] {
      assert a + b == b;
    } else {
      assert (a + b)[1..] == a[1..] + b;
      CallbacksAppend(a[1..], b);
    }
  }

  /** Every fix delivered to `onSuccess` is a valid coordinate. */
  lemma {:induction false} DeliveredFixesValid(events: seq<WatchEvent>)
    ensures forall k :: 0 <= k < |Callbacks(events)| && Callbacks(events)[k].Success? ==>
      IsValidCoordinate(Callbacks(events)[k].fix.lat, Callbacks(events)[k].fix.lng)
  {
    if events != [] {
      DeliveredFixesValid(events[1..]);
    }
  }

  /** An invalid position is dropped silently: it adds no callback at all. */
  lemma InvalidPositionDropped(events: seq<WatchEvent>, p: RawPosition)
    requires !IsValidCoordinate(p.latitude, p.longitude)
    ensures Callbacks(events + [PositionEvent(p)]) == Callbacks(events)
  {
    CallbacksAppend(events, [PositionEvent(p)]);
    assert [PositionEvent(p)][1..] == [];
  }

  /** A valid position adds exactly its own fix, after everything delivered before it. */
  lemma ValidPositionDelivered(events: seq<WatchEvent>, p: RawPosition)
    requires IsValidCoordinate(p.latitude, p.longitude)
    ensures Callbacks(events + [PositionEvent(p)]) == Callbacks(events) + [Success(ShapeFix(p))]
  {
    CallbacksAppend(events, [PositionEvent(p)]);
    assert [PositionEvent(p)][1..] == [];
  }

  /** Errors are passed on unchanged and are never filtered. */
  lemma ErrorForwarded(events: seq<WatchEvent>, code: int)
    ensures Callbacks(events + [ErrorEvent(code)]) == Callbacks(events) + [Error(code)]
  {
    CallbacksAppend(events, [ErrorEvent(code)]);
    assert [ErrorEvent(code)][1..] == [];
  }

  /** The number of fixes delivered equals the number of valid positions reported. */
  function ValidPositions(events: seq<WatchEvent>): nat
  {
    if events == [] then 0
    else
      var e := events[0];
      var here := if e.PositionEvent? && IsValidCoordinate(e.p.latitude, e.p.longitude) then 1 else 0;
      ValidPositions(events[1..]) + here
  }

  function SuccessCount(cs: seq<Callback>): nat
  {
    if cs == [] then 0 else SuccessCount(cs[1..]) + (if cs[0].Success? then 1 else 0)
  }

  lemma {:induction false} SuccessCountAppend(a: seq<Callback>, b: seq<Callback>)
    ensures SuccessCount(a + b) == SuccessCount(a) + SuccessCount(b)
  {
    if a == [] {
      assert a + b == b;
    } else {
      assert (a + b)[1..] == a[1..] + b;
      SuccessCountAppend(a[1..], b);
    }
  }

  lemma {:induction false} DeliveredCount(events: seq<WatchEvent>)
    ensures SuccessCount(Callbacks(events)) == ValidPositions(events)
  {
    if events != [] {
      DeliveredCount(events[1..]);
      var head := Callbacks([events[0]]);
      CallbacksAppend([events[0]], events[1..]);
      assert [events[0]] + events[1..] == events;
      assert [events[0]][1..] == [];
      SuccessCountAppend(head, Callbacks(events[1..]));
    }
  }

  /** The outcome of starting a watch. */
  datatype WatchStart = WatchStart(watchId: Option<int>, errors: seq<string>)

  /** `watchPosition(...)`: without geolocation, one error and a null id; otherwise the browser's id. */
  function WatchPosition(supported: bool, browserId: int): (w: WatchStart)
    ensures !supported ==> w.watchId == None && w.errors == ["Geolocation is not supported"]
    ensures supported ==> w.watchId == Some(browserId) && w.errors == []
  {
    if !supported then WatchStart(None, ["Geolocation is not supported"])
    else WatchStart(Some(browserId), [])
  }

  /** The truthiness of a watch id: present and non-zero. */
  predicate Truthy(watchId: Option<int>)
  {
    watchId.Some? && watchId.value != 0
  }

  /** `clearWatch(watchId)`: whether the browser's `clearWatch` is called. */
  function ClearWatch(watchId: Option<int>, supported: bool): (cleared: bool)
    ensures cleared ==> supported && watchId.Some?
    ensures watchId == Some(0) ==> !cleared
    ensures supported && watchId.Some? && watchId.value != 0 ==> cleared
  {
    Truthy(watchId) && supported
  }

  /** `requestLocationPermission()`: the query's state, or "unavailable" when the API is missing or the query throws. */
  function RequestLocationPermission(hasPermissionsApi: bool, queryState: Option<string>): (s: string)
    ensures !hasPermissionsApi || queryState.None? ==> s == "unavailable"
    ensures hasPermissionsApi && queryState.Some? ==> s == queryState.value
  {
    if !hasPermissionsApi then "unavailable"
    else match queryState
      case Some(state) => state
      case None => "unavailable"
  }

  datatype GeofenceResult = GeofenceResult(isInside: bool, distance: real)

  /** The checker `createGeofence(center, radius)` returns, applied to a position at `distance` metres. */
  function CreateGeofence(radius: real): real -> GeofenceResult
  {
    distance => GeofenceResult(distance <= radius, distance)
  }

  /** The checker decides as `isWithinGeofence` does and reports the distance it compared. */
  lemma GeofenceAgrees(radius: real, distance: real)
    ensures CreateGeofence(radius)(distance).isInside <==> IsWithinGeofence(distance, radius)
    ensures CreateGeofence(radius)(distance).distance == distance
  {
  }
}
