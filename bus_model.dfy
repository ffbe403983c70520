/**
 * The `Bus` schema: required paths, the trimmed and unique `busId`, the
 * numeric minimums, the defaults and the status enum, and how the server's
 * statuses are painted by the client's status colours.
 */
module BusModel {
  import opened Common
  import Helpers

  /** The fields handed to `new Bus(...)`; `None` for a key that is absent. */
  datatype BusFields = BusFields(
    busId: Option<string>, name: Option<string>, routeName: Option<string>,
    capacity: Option<real>, currentPassengers: Option<real>, driver: Option<string>,
    status: Option<string>, lat: Option<real>, lng: Option<real>, isActive: Option<bool>)

  /** A document after setters and defaults, before validation. */
  datatype BusCandidate = BusCandidate(
    busId: Option<string>, name: Option<string>, routeName: Option<string>,
    capacity: Option<real>, currentPassengers: real, driver: Option<string>,
    status: string, lat: Option<real>, lng: Option<real>, isActive: bool)

  const Statuses: set<string> := {"active", "inactive", "delayed", "maintenance"}

  /** `new Bus(fields)`: `busId` and `name` trimmed; the defaults of the three defaulted paths. */
  function NewBus(f: BusFields): (c: BusCandidate)
    ensures f.status.None? ==> c.status == "inactive"
    ensures f.currentPassengers.None? ==> c.currentPassengers == 0.0
    ensures f.isActive.None? ==> c.isActive
    ensures f.busId.Some? ==> c.busId == Some(Trim(f.busId.value))
    ensures f.busId.None? ==> c.busId == None
    ensures f.name.Some? ==> c.name == Some(Trim(f.name.value))
    ensures f.name.None? ==> c.name == None
    ensures f.status.Some? ==> c.status == f.status.value
    ensures f.currentPassengers.Some? ==> c.currentPassengers == f.currentPassengers.value
    ensures f.isActive.Some? ==> c.isActive == f.isActive.value
    ensures c.routeName == f.routeName && c.capacity == f.capacity && c.driver == f.driver
    ensures c.lat == f.lat && c.lng == f.lng
  {
    BusCandidate(
      match f.busId case None => None case Some(s) => Some(Trim(s)),
      match f.name case None => None case Some(s) => Some(Trim(s)),
      f.routeName, f.capacity,
      match f.currentPassengers case None => 0.0 case Some(n) => n,
      f.driver,
      match f.status case None => "inactive" case Some(s) => s,
      f.lat, f.lng,
      match f.isActive case None => true case Some(b) => b)
  }

  /** Which validator failed on a path; the schema gives no messages of its own. */
  datatype Kind = Required | BelowMinimum | NotInEnum

  datatype BusError = BusError(path: string, kind: Kind)

  predicate MissingText(v: Option<string>)
  {
    v.None? || v.value == ""
  }

  function Check(failed: bool, path: string, kind: Kind): seq<BusError>
  {
    if failed then [BusError(path, kind)] else []
  }

  /** Every failing path in schema order, each with its first failing validator. */
  function BusErrors(c: BusCandidate): seq<BusError>
  {
    Check(MissingText(c.busId), "busId", Required) +
    Check(MissingText(c.name), "name", Required) +
    Check(MissingText(c.routeName), "routeName", Required) +
    (if c.capacity.None? then [BusError("capacity", Required)]
     else Check(c.capacity.value < 1.0, "capacity", BelowMinimum)) +
    Check(c.currentPassengers < 0.0, "currentPassengers", BelowMinimum) +
    Check(c.status !in Statuses, "status", NotInEnum)
  }

  /** The schema's constraints, stated directly. */
  predicate AcceptableBus(c: BusCandidate)
  {
    && c.busId.Some? && c.busId.value != ""
    && c.name.Some? && c.name.value != ""
    && c.routeName.Some? && c.routeName.value != ""
    && c.capacity.Some? && c.capacity.value >= 1.0
    && c.currentPassengers >= 0.0
    && c.status in Statuses
  }

  lemma BusErrorsIff(c: BusCandidate)
    ensures BusErrors(c) == [] <==> AcceptableBus(c)
  {
  }

  /**
   * Only busId, name, routeName and capacity must be given: with them valid, the
   * defaults pass, the location and driver are optional, and the passenger count
   * is not compared with the capacity.
   */
  lemma MinimalBusAccepted(busId: string, name: string, routeName: string, capacity: real)
    requires Trim(busId) != "" && Trim(name) != "" && routeName != "" && capacity >= 1.0
    ensures BusErrors(NewBus(BusFields(Some(busId), Some(name), Some(routeName), Some(capacity),
                                       None, None, None, None, None, None))) == []
  {
  }

  /** Any non-negative passenger count is accepted, however large beside the capacity. */
  lemma PassengersNotBoundedByCapacity(busId: string, name: string, routeName: string,
                                      capacity: real, passengers: real)
    requires Trim(busId) != "" && Trim(name) != "" && routeName != "" && capacity >= 1.0
    requires passengers >= 0.0
    ensures BusErrors(NewBus(BusFields(Some(busId), Some(name), Some(routeName), Some(capacity),
                                       Some(passengers), None, None, None, None, None))) == []
  {
  }

  /** A stored bus: the validated values the rest of the model reads. */
  datatype BusDoc = BusDoc(busId: string, name: string, capacity: real, status: string)

  /** Bus ids are unique in a collection. */
  predicate UniqueIds(buses: seq<BusDoc>)
  {
    forall a, b :: 0 <= a < b < |buses| ==> buses[a].busId != buses[b].busId
  }

  datatype InsertResult = Inserted(buses: seq<BusDoc>) | Invalid(errors: seq<BusError>) | DuplicateKey

  /** `Bus.create(fields)`: validation first, then the unique index on `busId`. */
  function InsertBus(buses: seq<BusDoc>, f: BusFields): (r: InsertResult)
    ensures r.Invalid? <==> BusErrors(NewBus(f)) != []
    ensures r.DuplicateKey? ==> exists k :: 0 <= k < |buses| && buses[k].busId == NewBus(f).busId.value
    ensures r.Inserted? ==> |r.buses| == |buses| + 1 && r.buses[..|buses|] == buses
    ensures r.Inserted? ==> r.buses[|buses|].busId == Trim(f.busId.value)
    ensures r.Inserted? ==> forall k :: 0 <= k < |buses| ==> buses[k].busId != r.buses[|buses|].busId
  {
    var c := NewBus(f);
    var errors := BusErrors(c);
    if errors != [] then Invalid(errors)
    else
      BusErrorsIff(c);
      var id := c.busId.value;
      if exists k :: 0 <= k < |buses| && buses[k].busId == id then DuplicateKey
      else Inserted(buses + [BusDoc(id, c.name.value, c.capacity.value, c.status)])
  }

  /** Inserting keeps the bus ids unique. */
  lemma InsertKeepsIdsUnique(buses: seq<BusDoc>, f: BusFields)
    requires UniqueIds(buses)
    ensures InsertBus(buses, f).Inserted? ==> UniqueIds(InsertBus(buses, f).buses)
  {
  }

  /** Every stored status is one of the schema's four. */
  lemma InsertedStatusInEnum(buses: seq<BusDoc>, f: BusFields)
    ensures InsertBus(buses, f).Inserted? ==> InsertBus(buses, f).buses[|buses|].status in Statuses
  {
    var c := NewBus(f);
    BusErrorsIff(c);
  }

  /**
   * The server's statuses are not the client's: "active" and "delayed" get their
   * own colours, while "inactive" and "maintenance" fall to the idle colour.
   */
  lemma ServerStatusColors()
    ensures Helpers.GetStatusColor("active") == Helpers.ActiveColor
    ensures Helpers.GetStatusColor("delayed") == Helpers.DelayedColor
    ensures Helpers.GetStatusColor("inactive") == Helpers.IdleColor
    ensures Helpers.GetStatusColor("maintenance") == Helpers.IdleColor
    ensures forall s :: s in Statuses ==>
      Helpers.GetStatusColor(s) != Helpers.BreakdownColor
  {
    Helpers.StatusColorMeaning("inactive");
    Helpers.StatusColorMeaning("maintenance");
  }
}
