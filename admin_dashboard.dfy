/**
 * The admin dashboard: the fetched buses, the loading flag and the selected
 * bus; the active and delayed counts, the badge of each bus, the selection mark
 * and which of the error, loading and dashboard views is shown.
 */
module AdminDashboard {
  import opened Common
  import Api

  /** `buses.filter(b => b.status === status).length`. */
  function CountStatus(buses: seq<Api.MockBus>, status: string): (n: nat)
    ensures n <= |buses|
  {
    if buses == [] then 0
    else (if buses[0].status == status then 1 else 0) + CountStatus(buses[1..], status)
  }

  /** The statuses of the buses, in order. */
  function StatusesOf(buses: seq<Api.MockBus>): (r: seq<string>)
    ensures |r| == |buses| && forall k :: 0 <= k < |buses| ==> r[k] == buses[k].status
  {
    seq(|buses|, k requires 0 <= k < |buses| => buses[k].status)
  }

  /** The count is how often the status occurs among the buses' statuses. */
  lemma {:induction false} CountStatusMeaning(buses: seq<Api.MockBus>, status: string)
    ensures CountStatus(buses, status) == multiset(StatusesOf(buses))[status]
  {
    if buses != [] {
      CountStatusMeaning(buses[1..], status);
      assert StatusesOf(buses) == [buses[0].status] + StatusesOf(buses[1..]);
    }
  }

  /** Counting over a join is counting over each part. */
  lemma {:induction false} CountStatusAppend(a: seq<Api.MockBus>, b: seq<Api.MockBus>, status: string)
    ensures CountStatus(a + b, status) == CountStatus(a, status) + CountStatus(b, status)
  {
    if a != [] {
      assert (a + b)[1..] == a[1..] + b;
      CountStatusAppend(a[1..], b, status);
    } else {
      assert a + b == b;
    }
  }

  /** No bus is counted under two statuses: the active and delayed counts together are at most the total. */
  lemma {:induction false} TwoCountsBounded(buses: seq<Api.MockBus>, s: string, t: string)
    requires s != t
    ensures CountStatus(buses, s) + CountStatus(buses, t) <= |buses|
  {
    if buses != [] {
      TwoCountsBounded(buses[1..], s, t);
    }
  }

  /** The mock fleet has two active buses and one delayed. */
  lemma MockFleetCounts()
    ensures CountStatus(Api.MockBuses, "active") == 2
    ensures CountStatus(Api.MockBuses, "delayed") == 1
  {
    assert Api.MockBuses[1..][1..][1..] == [];
  }

  /** The badge class: `badge-success`, `badge-warning` or `badge-info`. */
  function BadgeClass(status: string): (c: string)
    ensures c == "badge-success" <==> status == "active"
    ensures c == "badge-warning" <==> status == "delayed"
    ensures c == "badge-info" <==> status != "active" && status != "delayed"
  {
    if status == "active" then "badge-success"
    else if status == "delayed" then "badge-warning"
    else "badge-info"
  }

  /** `selectedBus?.id === bus.id`. */
  predicate IsSelected(selected: Option<Api.MockBus>, bus: Api.MockBus)
  {
    selected.Some? && selected.value.id == bus.id
  }

  /** Without a selection nothing is marked; with one, exactly the buses sharing its id. */
  lemma SelectionMeaning(selected: Option<Api.MockBus>, buses: seq<Api.MockBus>)
    ensures selected.None? ==> forall k :: 0 <= k < |buses| ==> !IsSelected(selected, buses[k])
    ensures selected.Some? && Api.FindBus(buses, selected.value.id).Some? ==>
      IsSelected(selected, Api.FindBus(buses, selected.value.id).value)
    ensures forall k :: 0 <= k < |buses| ==> (IsSelected(selected, buses[k]) <==>
      selected.Some? && buses[k].id == selected.value.id)
  {
  }

  /** Which of the three renders the dashboard produces. */
  datatype View = MapsError | Loading | Dashboard(total: nat, active: nat, delayed: nat)

  /** A maps load error first, then a maps script still loading or the first fetch pending, then the dashboard. */
  function Render(loadError: bool, isLoaded: bool, loading: bool, buses: seq<Api.MockBus>): (v: View)
    ensures v == MapsError <==> loadError
    ensures v == Loading <==> !loadError && (!isLoaded || loading)
    ensures v.Dashboard? ==> v.active + v.delayed <= v.total == |buses|
    ensures v.Dashboard? ==>
      v.active == CountStatus(buses, "active") && v.delayed == CountStatus(buses, "delayed")
  {
    if loadError then MapsError
    else if !isLoaded || loading then Loading
    else
      TwoCountsBounded(buses, "active", "delayed");
      Dashboard(|buses|, CountStatus(buses, "active"), CountStatus(buses, "delayed"))
  }

  class AdminState {
    var buses: seq<Api.MockBus>
    var loading: bool
    var selected: Option<Api.MockBus>

    /** The first render: no buses, loading, nothing selected. */
    constructor ()
      ensures buses == [] && loading && selected == None
    {
      buses := [];
      loading := true;
      selected := None;
    }

    /**
     * `fetchBuses()`, given what `busAPI.getAllBuses()` settled to: the buses
     * are replaced on success and kept on failure, and loading stops either way.
     */
    method FetchBuses(outcome: Option<seq<Api.MockBus>>)
      modifies this`buses, this`loading
      ensures !loading
      ensures outcome.Some? ==> buses == outcome.value
      ensures outcome.None? ==> buses == old(buses)
    {
      if outcome.Some? {
        buses := outcome.value;
      }
      loading := false;
    }

    /** A click on a bus in the list selects it. */
    method SelectBus(bus: Api.MockBus)
      modifies this`selected
      ensures selected == Some(bus) && IsSelected(selected, bus)
    {
      selected := Some(bus);
    }
  }

  /**
   * A refresh replaces the list with new objects, yet the bus with the selected
   * id is still marked, because the mark compares ids.
   */
  method RefreshKeepsSelection(s: AdminState, bus: Api.MockBus, fetched: seq<Api.MockBus>, k: nat)
    requires k < |fetched| && fetched[k].id == bus.id
    modifies s
    ensures s.buses == fetched && IsSelected(s.selected, s.buses[k])
  {
    s.SelectBus(bus);
    s.FetchBuses(Some(fetched));
  }
}
