/**
 * The client utility functions: coordinate validation, the geofence decision,
 * human-readable durations and distances, and the colour lookups used on maps
 * and badges. Great-circle distance is not computed here: it reaches the model
 * as a non-negative real number of metres.
 */
module Helpers {
  import opened Common

  /** A JavaScript value where a number is expected. */
  datatype JsValue =
    | Num(r: real)   // a finite number
    | NaN
    | PosInfinity
    | NegInfinity
    | NotNumber      // `undefined`, `null`, a string, an object, ...

  predicate IsNumber(v: JsValue)
  {
    !v.NotNumber?
  }

  /** `v >= c` on a number: false for NaN, true for +Infinity. */
  predicate AtLeast(v: JsValue, c: real)
    requires IsNumber(v)
  {
    match v
    case Num(r) => r >= c
    case NaN => false
    case PosInfinity => true
    case NegInfinity => false
  }

  /** `v <= c` on a number: false for NaN, true for -Infinity. */
  predicate AtMost(v: JsValue, c: real)
    requires IsNumber(v)
  {
    match v
    case Num(r) => r <= c
    case NaN => false
    case PosInfinity => false
    case NegInfinity => true
  }

  /** `isValidCoordinate(lat, lng)`: both numbers and both in their inclusive ranges. */
  predicate IsValidCoordinate(lat: JsValue, lng: JsValue)
  {
    && IsNumber(lat)
    && IsNumber(lng)
    && AtLeast(lat, -90.0) && AtMost(lat, 90.0)
    && AtLeast(lng, -180.0) && AtMost(lng, 180.0)
  }

  /** The accepted pairs are exactly the finite numbers in range; NaN and the infinities are rejected. */
  lemma ValidCoordinateIff(lat: JsValue, lng: JsValue)
    ensures IsValidCoordinate(lat, lng) <==>
      lat.Num? && lng.Num? && -90.0 <= lat.r <= 90.0 && -180.0 <= lng.r <= 180.0
  {
  }

  /** The range ends themselves are accepted. */
  lemma ValidCoordinateCorners()
    ensures IsValidCoordinate(Num(90.0), Num(180.0)) && IsValidCoordinate(Num(-90.0), Num(-180.0))
    ensures !IsValidCoordinate(Num(90.5), Num(0.0)) && !IsValidCoordinate(Num(0.0), Num(-180.5))
  {
  }

  /** `isWithinGeofence`, given the distance between the point and the centre. */
  predicate IsWithinGeofence(distance: real, radius: real)
  {
    distance <= radius
  }

  /** A point exactly on the boundary is inside. */
  lemma GeofenceBoundaryInside(radius: real)
    requires radius >= 0.0
    ensures IsWithinGeofence(radius, radius)
  {
  }

  /** Membership is monotone in the radius. */
  lemma GeofenceMonotone(distance: real, r: real, r': real)
    requires r <= r'
    ensures IsWithinGeofence(distance, r) ==> IsWithinGeofence(distance, r')
  {
  }

  // ---------------------------------------------------------------------------
  // formatTime over whole minutes

  /** `formatTime(minutes)` for an integer number of minutes. */
  function FormatTime(minutes: int): string
  {
    if minutes < 1 then "Less than a minute"
    else if minutes < 60 then NatToString(minutes) + " min"
    else
      var hours := minutes / 60;
      var mins := minutes % 60;
      if mins == 0 then NatToString(hours) + " hr"
      else HoursMinutesText(hours, mins)
  }

  function HoursMinutesText(hours: nat, mins: nat): string
  {
    NatToString(hours) + " hr " + NatToString(mins) + " min"
  }

  /** Reads a rendered duration back as a number of minutes. */
  function ReadTime(s: string): Option<int>
  {
    ReadWords(Split(s, ' '))
  }

  function ReadWords(p: seq<string>): Option<int>
  {
    if |p| == 2 && p[1] == "min" then
      match ParseNat(p[0])
      case Some(m) => Some(m)
      case None => None
    else if |p| == 2 && p[1] == "hr" then
      match ParseNat(p[0])
      case Some(h) => Some(h * 60)
      case None => None
    else if |p| == 4 && p[1] == "hr" && p[3] == "min" then
      match ParseNat(p[0])
      case Some(h) => (match ParseNat(p[2]) case Some(m) => Some(h * 60 + m) case None => None)
      case None => None
    else None
  }

  lemma NumeralHasNoSpace(n: nat)
    ensures ' ' !in NatToString(n)
  {
    var s := NatToString(n);
    assert forall i :: 0 <= i < |s| ==> s[i] != ' ';
  }

  /** Splits `a + " " + b` where `a` has no space and `b` is a single word. */
  lemma SplitTwo(a: string, b: string)
    requires ' ' !in a && ' ' !in b
    ensures Split(a + " " + b, ' ') == [a, b]
  {
    SplitAfterFirst(a, b, ' ');
    SplitWithoutSeparator(b, ' ');
  }

  lemma ReadMinutes(m: nat)
    ensures ReadTime(NatToString(m) + " min") == Some(m)
  {
    var ms := NatToString(m);
    NumeralHasNoSpace(m);
    ParseNatToString(m);
    SplitTwo(ms, "min");
    assert ms + " min" == ms + " " + "min";
  }

  lemma ReadHours(h: nat)
    ensures ReadTime(NatToString(h) + " hr") == Some(h * 60)
  {
    var hs := NatToString(h);
    NumeralHasNoSpace(h);
    ParseNatToString(h);
    SplitTwo(hs, "hr");
    assert hs + " hr" == hs + " " + "hr";
    assert "hr" != "min" by { assert |"hr"| != |"min"|; }
  }

  lemma ReadHoursMinutes(h: nat, m: nat)
    ensures ReadTime(HoursMinutesText(h, m)) == Some(h * 60 + m)
  {
    var hs, ms := NatToString(h), NatToString(m);
    NumeralHasNoSpace(h);
    NumeralHasNoSpace(m);
    ParseNatToString(h);
    ParseNatToString(m);
    var tail := ms + " " + "min";
    SplitTwo(ms, "min");
    var mid := "hr" + [' '] + tail;
    SplitAfterFirst("hr", tail, ' ');
    var s := hs + [' '] + mid;
    SplitAfterFirst(hs, mid, ' ');
    assert s == HoursMinutesText(h, m);
    var p := Split(s, ' ');
    assert p == [hs, "hr", ms, "min"];
    ReadFourWords(hs, ms, h, m);
  }

  lemma ReadFourWords(hs: string, ms: string, h: nat, m: nat)
    requires ParseNat(hs) == Some(h) && ParseNat(ms) == Some(m)
    ensures ReadWords([hs, "hr", ms, "min"]) == Some(h * 60 + m)
  {
  }

  /** Every duration of at least one minute is rendered so that it reads back exactly. */
  lemma ReadFormatTime(minutes: int)
    requires minutes >= 1
    ensures ReadTime(FormatTime(minutes)) == Some(minutes)
  {
    if minutes < 60 {
      ReadMinutes(minutes);
    } else {
      var h, m := minutes / 60, minutes % 60;
      assert h * 60 + m == minutes;
      if m == 0 {
        ReadHours(h);
      } else {
        ReadHoursMinutes(h, m);
      }
    }
  }

  /** Distinct durations of a minute or more are rendered differently. */
  lemma FormatTimeInjective(m1: int, m2: int)
    requires m1 >= 1 && m2 >= 1 && FormatTime(m1) == FormatTime(m2)
    ensures m1 == m2
  {
    ReadFormatTime(m1);
    ReadFormatTime(m2);
  }

  /** In the two-part form the minutes are strictly between 0 and 60 and recombine to the input. */
  lemma FormatTimeTwoPart(minutes: int)
    requires minutes >= 60 && minutes % 60 != 0
    ensures exists h: nat, r: nat ::
      (0 < r < 60 && h * 60 + r == minutes &&
       FormatTime(minutes) == NatToString(h) + " hr " + NatToString(r) + " min")
  {
    var h, r := minutes / 60, minutes % 60;
    assert 0 < r < 60 && h * 60 + r == minutes;
    assert FormatTime(minutes) == NatToString(h) + " hr " + NatToString(r) + " min";
  }

  /** A duration under a minute has the fixed text, and everything else is a reading of minutes. */
  lemma FormatTimeUnderOne(minutes: int)
    ensures minutes < 1 <==> FormatTime(minutes) == "Less than a minute"
  {
    if minutes >= 1 {
      var lead := if minutes < 60 then minutes else minutes / 60;
      assert FormatTime(minutes)[0] == NatToString(lead)[0];
      assert IsDigit(FormatTime(minutes)[0]);
    }
  }

  // ---------------------------------------------------------------------------
  // formatDistance over whole metres

  /** Below 2^53 every whole number of metres is an exact double. */
  const ExactIntegerLimit: nat := 0x20_0000_0000_0000

  /** The tenths of a kilometre nearest to `meters` metres. */
  function Tenths(meters: nat): nat
  {
    (meters + 50) / 100
  }

  /**
   * `formatDistance(meters)` for a whole number of metres. The kilometre branch
   * rounds with `toFixed(1)`; at an exact tie (`meters % 100 == 50`) the result
   * depends on the binary value of `meters / 1000`, so the model gives None there.
   */
  function FormatDistance(meters: nat): Option<string>
  {
    if meters < 1000 then Some(NatToString(meters) + " m")
    else if meters >= ExactIntegerLimit || meters % 100 == 50 then None
    else
      var t := Tenths(meters);
      Some(NatToString(t / 10) + "." + [DigitChar(t % 10)] + " km")
  }

  /** Short distances read as whole metres; the kilometre text carries the nearest tenth. */
  lemma FormatDistanceMeaning(meters: nat)
    ensures meters < 1000 ==> FormatDistance(meters) == Some(NatToString(meters) + " m")
    ensures 1000 <= meters < ExactIntegerLimit && meters % 100 != 50 ==>
      exists t: nat :: -50 < t * 100 - meters < 50 && t >= 10 &&
        FormatDistance(meters) == Some(NatToString(t / 10) + "." + [DigitChar(t % 10)] + " km")
  {
    if 1000 <= meters < ExactIntegerLimit && meters % 100 != 50 {
      var t := Tenths(meters);
      assert t * 100 <= meters + 50 < t * 100 + 100;
      assert -50 < t * 100 - meters < 50 && t >= 10;
      assert FormatDistance(meters) == Some(NatToString(t / 10) + "." + [DigitChar(t % 10)] + " km");
    }
  }

  // ---------------------------------------------------------------------------
  // Colour lookups

  const RoutePalette: seq<string> :=
    ["#FF6B6B", "#4ECDC4", "#45B7D1", "#FFA07A", "#98D8C8", "#F7DC6F", "#BB8FCE", "#85C1E2"]

  /** JavaScript's `%`, whose remainder takes the sign of the dividend. */
  function JsRemainder(a: int, b: int): (r: int)
    requires b > 0
    ensures -b < r < b
    ensures a >= 0 ==> r == a % b
    ensures a < 0 ==> r == -((-a) % b)
  {
    if a >= 0 then a % b else -((-a) % b)
  }

  /** `getRouteColor(index)`: None where the array index is negative (`undefined`). */
  function GetRouteColor(index: int): Option<string>
  {
    var k := JsRemainder(index, |RoutePalette|);
    if k >= 0 then Some(RoutePalette[k]) else None
  }

  /** For a non-negative index the palette repeats with period 8. */
  lemma RouteColorPeriodic(index: int)
    requires index >= 0
    ensures GetRouteColor(index) == Some(RoutePalette[index % 8])
    ensures GetRouteColor(index + 8) == GetRouteColor(index)
  {
  }

  /** A negative index gives `undefined` unless it is a multiple of 8. */
  lemma RouteColorNegative(index: int)
    requires index < 0
    ensures GetRouteColor(index).None? <==> index % 8 != 0
    ensures index % 8 == 0 ==> GetRouteColor(index) == Some("#FF6B6B")
  {
    assert (-index) % 8 == 0 <==> index % 8 == 0;
  }

  const IdleColor := "#6B7280"
  const ActiveColor := "#10B981"
  const DelayedColor := "#F59E0B"
  const BreakdownColor := "#EF4444"

  /** `getStatusColor(status)`: a lookup in the client's four statuses, with the idle colour as default. */
  function GetStatusColor(status: string): string
  {
    if status == "idle" then IdleColor
    else if status == "active" then ActiveColor
    else if status == "delayed" then DelayedColor
    else if status == "breakdown" then BreakdownColor
    else IdleColor
  }

  /** The four statuses get four different colours; every other status looks idle. */
  lemma StatusColorMeaning(status: string)
    ensures GetStatusColor(status) == IdleColor <==> status !in {"active", "delayed", "breakdown"}
    ensures GetStatusColor(status) == ActiveColor <==> status == "active"
    ensures GetStatusColor(status) == DelayedColor <==> status == "delayed"
    ensures GetStatusColor(status) == BreakdownColor <==> status == "breakdown"
  {
  }
}
