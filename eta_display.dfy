/**
 * The student's ETA card: the badge that classifies an estimated arrival into
 * one of four buckets, and the choice between spinner, estimate and error text.
 */
module EtaDisplay {
  import opened Common

  /** An estimate from the routing service: metres and minutes. */
  datatype Eta = Eta(distance: real, duration: real)

  datatype StatusInfo = StatusInfo(text: string, color: string, icon: string)

  const Calculating := StatusInfo("Calculating...", "info", "\U{23F1}\U{FE0F}")
  const ArrivingSoon := StatusInfo("Arriving Soon", "success", "\U{1F68C}")
  const OnTime := StatusInfo("On Time", "success", "\U{2705}")
  const EnRoute := StatusInfo("En Route", "warning", "\U{1F6A6}")
  const Delayed := StatusInfo("Delayed", "danger", "\U{26A0}\U{FE0F}")

  /** `getStatusInfo()`: no estimate yet, or one of four duration buckets. */
  function GetStatusInfo(eta: Option<Eta>): StatusInfo
  {
    match eta
    case None => Calculating
    case Some(e) =>
      if e.duration < 5.0 then ArrivingSoon
      else if e.duration < 15.0 then OnTime
      else if e.duration < 30.0 then EnRoute
      else Delayed
  }

  /** The order of the buckets, from soonest to latest. */
  function Rank(s: StatusInfo): nat
  {
    if s == ArrivingSoon then 0
    else if s == OnTime then 1
    else if s == EnRoute then 2
    else 3
  }

  /** Each bucket is chosen exactly on its half-open interval of durations. */
  lemma StatusBuckets(d: real, distance: real)
    ensures GetStatusInfo(Some(Eta(distance, d))) == ArrivingSoon <==> d < 5.0
    ensures GetStatusInfo(Some(Eta(distance, d))) == OnTime <==> 5.0 <= d < 15.0
    ensures GetStatusInfo(Some(Eta(distance, d))) == EnRoute <==> 15.0 <= d < 30.0
    ensures GetStatusInfo(Some(Eta(distance, d))) == Delayed <==> 30.0 <= d
  {
  }

  /** Without an estimate the badge reads "Calculating..." in the info colour. */
  lemma NoEtaCalculating()
    ensures GetStatusInfo(None).text == "Calculating..." && GetStatusInfo(None).color == "info"
    ensures forall e :: GetStatusInfo(Some(e)) != Calculating
  {
  }

  /** A later estimate never gets an earlier bucket; the boundaries belong to the upper bucket. */
  lemma StatusMonotone(e1: Eta, e2: Eta)
    requires e1.duration <= e2.duration
    ensures Rank(GetStatusInfo(Some(e1))) <= Rank(GetStatusInfo(Some(e2)))
  {
  }

  lemma StatusBoundaries(distance: real)
    ensures GetStatusInfo(Some(Eta(distance, 5.0))) == OnTime
    ensures GetStatusInfo(Some(Eta(distance, 15.0))) == EnRoute
    ensures GetStatusInfo(Some(Eta(distance, 30.0))) == Delayed
  {
  }

  /**
   * The estimate `calculateETA` returns from its `catch`: when the maps script
   * fails to load, or when constructing the Distance Matrix service throws.
   * The loader resolves to `window.google.maps` and the code then reads `.maps`
   * from that again, so the construction throws whenever the script loads.
   * A routing request that fails rejects the returned promise past the `catch`
   * instead, and then the card gets no estimate.
   */
  const FallbackEta := Eta(5000.0, 15.0)

  /** The fallback estimate, which is the one the card shows, reads "En Route". */
  lemma FallbackIsEnRoute()
    ensures GetStatusInfo(Some(FallbackEta)).text == "En Route"
    ensures GetStatusInfo(Some(FallbackEta)).color == "warning"
  {
  }

  datatype Body = Spinner | Estimate(eta: Eta) | Unavailable

  /** The card body: the spinner while loading, then the estimate if there is one. */
  function CardBody(loading: bool, eta: Option<Eta>): (b: Body)
    ensures b.Estimate? <==> !loading && eta.Some?
    ensures b.Estimate? ==> Some(b.eta) == eta
    ensures b == Spinner <==> loading
  {
    if loading then Spinner else match eta case Some(e) => Estimate(e) case None => Unavailable
  }
}
