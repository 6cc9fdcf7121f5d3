/**
 * A Context and its Devices: who owns a Device graph while it is open, being closed, parked until its
 * callbacks have drained, and freed (src/api/c_api.cpp).
 */
module ContextGraph {
  import opened Common

  // ----- State -----------------------------------------------------------------------------------

  /** Transfers of a Device that libusb still owes a callback: its own, and those of each Channel. */
  datatype Traffic = Traffic(own: nat, channels: seq<nat>)

  /**
   * Devices are numbered in the order they were opened. `closing` are those a running close has consumed,
   * `cancelled` whether it has cancelled their transfers; `reaping` have left the graveyard to be destroyed.
   * `reserved` is the number of entries the graveyard can take without allocating.
   */
  datatype Graph = Graph(devices: seq<nat>, closing: seq<nat>, graveyard: seq<nat>, reaping: seq<nat>, freed: seq<nat>,
                         cancelled: set<nat>, reserved: nat, traffic: seq<Traffic>)

  const NEW_GRAPH := Graph([], [], [], [], [], {}, 0, [])

  predicate NoTransfers(channels: seq<nat>) {
    forall k :: 0 <= k < |channels| ==> channels[k] == 0
  }

  /** `graph_drained`. */
  predicate Drained(g: Graph, d: nat) {
    d < |g.traffic| && g.traffic[d].own == 0 && NoTransfers(g.traffic[d].channels)
  }

  /** The list without its first `d`. */
  function Without(s: seq<nat>, d: nat): (r: seq<nat>)
    ensures d !in s ==> r == s
  {
    if |s| == 0 then [] else if s[0] == d then s[1..] else [s[0]] + Without(s[1..], d)
  }

  // ----- Steps -----------------------------------------------------------------------------------

  /** One critical section, callback or submission. */
  datatype Act =
    | Open
    | BeginClose(d: nat)
    | Cancel(d: nat)
    | FinishClose(d: nat)
    | Reap(d: nat)
    | Destroy(d: nat)
    | AddChannel(d: nat)
    | SendReport(d: nat)
    | ReportDone(d: nat)
    | SendBulk(d: nat, channel: nat)
    | BulkDone(d: nat, channel: nat)

  /** `aoahid_device_open`: room for one more in both vectors, then the new Device. */
  function Opened(g: Graph): Graph {
    g.(reserved := Max(g.reserved, |g.devices| + |g.graveyard| + 1), devices := g.devices + [|g.traffic|],
       traffic := g.traffic + [Traffic(0, [])])
  }

  /** A Device can still start transfers: it is open, or its close has not cancelled yet. */
  predicate CanSend(g: Graph, d: nat) {
    d < |g.traffic| && (d in g.devices || d in g.closing) && d !in g.cancelled
  }

  function Tell(g: Graph, d: nat, t: Traffic): Graph
    requires d < |g.traffic|
  {
    g.(traffic := g.traffic[d := t])
  }

  function Step(g: Graph, a: Act): Graph {
    match a
    case Open => Opened(g)
    case BeginClose(d) =>
      if d in g.devices then g.(devices := Without(g.devices, d), closing := g.closing + [d]) else g
    case Cancel(d) => if d in g.closing then g.(cancelled := g.cancelled + {d}) else g
    case FinishClose(d) =>
      if d !in g.closing || d !in g.cancelled then g
      else if Drained(g, d) then g.(closing := Without(g.closing, d), freed := g.freed + [d])
      else g.(closing := Without(g.closing, d), graveyard := g.graveyard + [d],
              reserved := Max(g.reserved, |g.graveyard| + 1))
    case Reap(d) =>
      if d in g.graveyard && Drained(g, d) then g.(graveyard := Without(g.graveyard, d), reaping := g.reaping + [d])
          else g
    case Destroy(d) => if d in g.reaping && Drained(g, d) then
        g.(reaping := Without(g.reaping, d), freed := g.freed + [d]) else g
    case AddChannel(d) =>
      if CanSend(g, d) then Tell(g, d, g.traffic[d].(channels := g.traffic[d].channels + [0])) else g
    case SendReport(d) => if CanSend(g, d) then Tell(g, d, g.traffic[d].(own := g.traffic[d].own + 1)) else g
    case ReportDone(d) =>
      if d < |g.traffic| && g.traffic[d].own > 0 then Tell(g, d, g.traffic[d].(own := g.traffic[d].own - 1)) else g
    case SendBulk(d, c) =>
      if CanSend(g, d) && c < |g.traffic[d].channels|
      then Tell(g, d, g.traffic[d].(channels := g.traffic[d].channels[c := g.traffic[d].channels[c] + 1])) else g
    case BulkDone(d, c) =>
      if d < |g.traffic| && c < |g.traffic[d].channels| && g.traffic[d].channels[c] > 0
      then Tell(g, d, g.traffic[d].(channels := g.traffic[d].channels[c := g.traffic[d].channels[c] - 1])) else g
  }

  function Run(g: Graph, acts: seq<Act>): Graph {
    if |acts| == 0 then g else Step(Run(g, acts[..|acts| - 1]), acts[|acts| - 1])
  }

  // ----- Owners ----------------------------------------------------------------------------------

  /** How many places own a Device graph. */
  function Owners(g: Graph, d: nat): nat {
    multiset(g.devices)[d] + multiset(g.closing)[d] + multiset(g.graveyard)[d] + multiset(g.reaping)[d]
        + multiset(g.freed)[d]
  }

  /** Every opened Device is in exactly one place. */
  ghost predicate Owned(g: Graph) {
    forall d: nat :: Owners(g, d) == if d < |g.traffic| then 1 else 0
  }

  /** A cancelled Device is past its sending; what is being destroyed, or freed, has drained. */
  ghost predicate Quiet(g: Graph) {
    && (forall d :: d in g.graveyard || d in g.reaping || d in g.freed ==> d in g.cancelled)
    && (forall d :: d in g.reaping || d in g.freed ==> Drained(g, d))
  }

  ghost predicate GraphOk(g: Graph) {
    Owned(g) && Quiet(g)
  }

  lemma {:induction false} WithoutCounts(s: seq<nat>, d: nat)
    requires d in s
    ensures multiset(s) == multiset(Without(s, d)) + multiset{d} && |s| == |Without(s, d)| + 1
  {
    assert s == [s[0]] + s[1..];
    if s[0] != d {
      WithoutCounts(s[1..], d);
    }
  }

  lemma WithoutMembers(s: seq<nat>, d: nat, x: nat)
    requires d in s && x in Without(s, d)
    ensures x in s
  {
    WithoutCounts(s, d);
    assert x in multiset(Without(s, d));
  }

  /** A Device that moves from one list to another is owned as before, and so is every other. */
  lemma Moved(from: seq<nat>, to: seq<nat>, d: nat)
    requires d in from
    ensures forall x: nat ::
              multiset(Without(from, d))[x] + multiset(to + [d])[x] == multiset(from)[x] + multiset(to)[x]
  {
    WithoutCounts(from, d);
  }

  lemma OwnedOnce(g: Graph, d: nat)
    requires Owned(g)
    ensures multiset(g.devices)[d] <= 1 && multiset(g.closing)[d] <= 1 && multiset(g.graveyard)[d] <= 1
    ensures multiset(g.reaping)[d] <= 1 && multiset(g.freed)[d] <= 1
    ensures d in g.devices || d in g.closing || d in g.graveyard || d in g.reaping || d in g.freed ==> d < |g.traffic|
    ensures d in g.freed ==> d !in g.devices && d !in g.closing && d !in g.graveyard && d !in g.reaping
    ensures d in g.reaping ==> d !in g.devices && d !in g.closing && d !in g.graveyard
    ensures d in g.graveyard ==> d !in g.devices && d !in g.closing
  {
    assert Owners(g, d) == if d < |g.traffic| then 1 else 0;
  }

  lemma OpenOwned(g: Graph)
    requires GraphOk(g)
    ensures GraphOk(Opened(g))
  {
    var r, d0 := Opened(g), |g.traffic|;
    forall d: nat
      ensures Owners(r, d) == if d < |r.traffic| then 1 else 0
    {
      assert Owners(g, d) == if d < |g.traffic| then 1 else 0;
      assert multiset(r.devices)[d] == multiset(g.devices)[d] + if d == d0 then 1 else 0;
    }
    forall d | d in r.reaping || d in r.freed
      ensures Drained(r, d)
    {
      OwnedOnce(g, d);
      assert Drained(g, d);
    }
  }

  lemma SameOwners(g: Graph, r: Graph)
    requires Owned(g) && (forall x: nat :: Owners(r, x) == Owners(g, x)) && |r.traffic| == |g.traffic|
    ensures Owned(r)
  {
  }

  lemma BeginKeeps(g: Graph, d: nat)
    requires GraphOk(g)
    ensures GraphOk(Step(g, BeginClose(d)))
  {
    hide Owned, Drained, Without;
    var r := Step(g, BeginClose(d));
    if d in g.devices {
      Moved(g.devices, g.closing, d);
    }
    SameOwners(g, r);
    SameDrained(g, r);
  }

  lemma FinishKeeps(g: Graph, d: nat)
    requires GraphOk(g)
    ensures GraphOk(Step(g, FinishClose(d)))
  {
    hide Owned, Drained, Without;
    var r := Step(g, FinishClose(d));
    if d in g.closing {
      Moved(g.closing, g.freed, d);
      Moved(g.closing, g.graveyard, d);
    }
    SameOwners(g, r);
    SameDrained(g, r);
  }

  lemma ReapKeeps(g: Graph, d: nat)
    requires GraphOk(g)
    ensures GraphOk(Step(g, Reap(d)))
  {
    hide Owned, Drained, Without;
    var r := Step(g, Reap(d));
    SameDrained(g, r);
    if d in g.graveyard {
      Moved(g.graveyard, g.reaping, d);
      forall x | x in Without(g.graveyard, d)
        ensures x in g.graveyard
      {
        WithoutMembers(g.graveyard, d, x);
      }
    }
    SameOwners(g, r);
  }

  lemma DestroyKeeps(g: Graph, d: nat)
    requires GraphOk(g)
    ensures GraphOk(Step(g, Destroy(d)))
  {
    hide Owned, Drained, Without;
    var r := Step(g, Destroy(d));
    SameDrained(g, r);
    if d in g.reaping {
      Moved(g.reaping, g.freed, d);
      forall x | x in Without(g.reaping, d)
        ensures x in g.reaping
      {
        WithoutMembers(g.reaping, d, x);
      }
    }
    SameOwners(g, r);
  }

  lemma SameDrained(g: Graph, r: Graph)
    requires r.traffic == g.traffic
    ensures forall d :: Drained(r, d) == Drained(g, d)
  {
  }

  /** Traffic changes only where the Device may send, or shrinks. */
  lemma TrafficKeeps(g: Graph, a: Act)
    requires GraphOk(g) && (a.AddChannel? || a.SendReport? || a.ReportDone? || a.SendBulk? || a.BulkDone?)
    ensures GraphOk(Step(g, a))
  {
    var r := Step(g, a);
    SameOwners(g, r);
    OwnedOnce(g, a.d);
    forall d | d in r.reaping || d in r.freed
      ensures Drained(r, d)
    {
      OwnedOnce(g, d);
      assert Drained(g, d);
    }
  }

  lemma StepKeeps(g: Graph, a: Act)
    requires GraphOk(g)
    ensures GraphOk(Step(g, a))
  {
    hide GraphOk, Opened;
    match a
    case Open => OpenOwned(g);
    case Cancel(d) => CancelKeeps(g, d);
    case BeginClose(d) => BeginKeeps(g, d);
    case FinishClose(d) => FinishKeeps(g, d);
    case Reap(d) => ReapKeeps(g, d);
    case Destroy(d) => DestroyKeeps(g, d);
    case _ => TrafficKeeps(g, a);
  }

  lemma CancelKeeps(g: Graph, d: nat)
    requires GraphOk(g)
    ensures GraphOk(Step(g, Cancel(d)))
  {
    hide Drained;
    var r := Step(g, Cancel(d));
    SameDrained(g, r);
    SameOwners(g, r);
  }

  lemma NothingReserved()
    ensures |NEW_GRAPH.devices| + |NEW_GRAPH.closing| + |NEW_GRAPH.graveyard| == 0 && GraphOk(NEW_GRAPH)
  {
  }

  lemma {:induction false} RunKeeps(g: Graph, acts: seq<Act>)
    requires GraphOk(g)
    ensures GraphOk(Run(g, acts))
  {
    hide GraphOk, Step;
    if |acts| == 0 {
    } else {
      RunKeeps(g, acts[..|acts| - 1]);
      StepKeeps(Run(g, acts[..|acts| - 1]), acts[|acts| - 1]);
    }
  }

  /** In every run an opened Device is in exactly one place, and what has been freed owes no callback. */
  lemma OneOwner(acts: seq<Act>, d: nat)
    ensures var g := Run(NEW_GRAPH, acts);
            && Owners(g, d) == (if d < |g.traffic| then 1 else 0)
            && (d in g.freed ==> Drained(g, d))
  {
    hide Run, Drained;
    NothingReserved();
    RunKeeps(NEW_GRAPH, acts);
    OwnedOnce(Run(NEW_GRAPH, acts), d);
  }

  /** A Device is freed once: once freed it stays freed, and never had or has a transfer left. */
  lemma {:induction false} FreedForever(acts: seq<Act>, more: seq<Act>, d: nat)
    requires d in Run(NEW_GRAPH, acts).freed
    ensures var g := Run(NEW_GRAPH, acts + more);
            multiset(g.freed)[d] == 1 && Drained(g, d) && d !in g.devices && d !in g.closing && d !in g.graveyard
                && d !in g.reaping
  {
    hide Drained, Step, Owned;
    if |more| == 0 {
      assert acts + more == acts;
    } else {
      var prefix := acts + more[..|more| - 1];
      FreedForever(acts, more[..|more| - 1], d);
      assert (acts + more)[..|acts + more| - 1] == prefix;
      FreedGrows(Run(NEW_GRAPH, prefix), more[|more| - 1]);
    }
    NothingReserved();
    RunKeeps(NEW_GRAPH, acts + more);
    OwnedOnce(Run(NEW_GRAPH, acts + more), d);
  }

  lemma FreedGrows(g: Graph, a: Act)
    ensures forall d :: d in g.freed ==> d in Step(g, a).freed
  {
    hide Drained, Without, Opened;
    assert Opened(g).freed == g.freed by {
      OpenedFreed(g);
    }
  }

  lemma OpenedFreed(g: Graph)
    ensures Opened(g).freed == g.freed
  {
  }

  // ----- Parking without allocating --------------------------------------------------------------

  /** Every Device that may still have to be parked has its place in the graveyard reserved. */
  predicate Reserved(g: Graph) {
    |g.devices| + |g.closing| + |g.graveyard| <= g.reserved
  }

  /** Opening keeps the reserve exactly when no close is running, or there happens to be room already. */
  lemma OpenReserves(g: Graph)
    requires Reserved(g)
    ensures Reserved(Opened(g)) <==> |g.closing| == 0 || |g.devices| + |g.closing| + |g.graveyard| < g.reserved
  {
  }

  lemma StepReserved(g: Graph, a: Act)
    requires Reserved(g) && (a.Open? ==> |g.closing| == 0)
    ensures Reserved(Step(g, a))
    ensures a.FinishClose? ==> Step(g, a).reserved == g.reserved
  {
    hide Drained, Without;
    if a.BeginClose? && a.d in g.devices {
      WithoutCounts(g.devices, a.d);
    } else if a.FinishClose? && a.d in g.closing {
      WithoutCounts(g.closing, a.d);
    } else if a.Reap? && a.d in g.graveyard {
      WithoutCounts(g.graveyard, a.d);
    }
  }

  /** Calls on the Context are serialized: no Device is opened while another is being closed. */
  predicate Serialized(acts: seq<Act>) {
    forall k :: 0 <= k < |acts| && acts[k].Open? ==> |Run(NEW_GRAPH, acts[..k]).closing| == 0
  }

  lemma {:induction false} ReserveHolds(acts: seq<Act>)
    requires Serialized(acts)
    ensures Reserved(Run(NEW_GRAPH, acts))
  {
    hide Step, GraphOk;
    NothingReserved();
    if |acts| == 0 {
    } else {
      var prefix := acts[..|acts| - 1];
      forall k | 0 <= k < |prefix| && prefix[k].Open?
        ensures |Run(NEW_GRAPH, prefix[..k]).closing| == 0
      {
        assert prefix[..k] == acts[..k] && acts[k].Open?;
      }
      ReserveHolds(prefix);
      RunKeeps(NEW_GRAPH, prefix);
      StepReserved(Run(NEW_GRAPH, prefix), acts[|acts| - 1]);
    }
  }

  /** Parking never allocates in a serialized run: the graveyard has room for the Device it is given. */
  lemma ParkingNeverAllocates(acts: seq<Act>, d: nat)
    requires Serialized(acts) && d in Run(NEW_GRAPH, acts).closing
    ensures var g := Run(NEW_GRAPH, acts); |g.graveyard| < g.reserved && Step(g, FinishClose(d)).reserved == g.reserved
  {
    hide Run, GraphOk, Step;
    ReserveHolds(acts);
    StepReserved(Run(NEW_GRAPH, acts), FinishClose(d));
    FinishRoom(Run(NEW_GRAPH, acts), d);
  }

  lemma FinishRoom(g: Graph, d: nat)
    requires Reserved(g) && d in g.closing
    ensures |g.graveyard| < g.reserved
  {
  }

  /**
   * Why runs must be serialized: opened while a close runs, two Devices share one reserved place and both have
   * to be parked. The API already forbids this input (include/aoahid.h:783-784 and 804-805 ask callers to
   * serialize opening and closing on one Context), so it is the reason for `Serialized`, not a defect.
   */
  function Overlapping(): seq<Act> {
    [Open, SendReport(0), BeginClose(0), Cancel(0), Open, SendReport(1), BeginClose(1), Cancel(1), FinishClose(0)]
  }

  const FIRST_CLOSING := Graph([], [0], [], [], [], {0}, 1, [Traffic(1, [])])

  const BOTH_CLOSING := Graph([], [0, 1], [], [], [], {0, 1}, 1, [Traffic(1, []), Traffic(1, [])])

  lemma FirstCloses(a: seq<Act>)
    requires a == Overlapping()
    ensures Step(Step(Step(Step(NEW_GRAPH, a[0]), a[1]), a[2]), a[3]) == FIRST_CLOSING
  {
    assert Step(NEW_GRAPH, a[0]) == Graph([0], [], [], [], [], {}, 1, [Traffic(0, [])]);
    assert Step(Step(NEW_GRAPH, a[0]), a[1]) == Graph([0], [], [], [], [], {}, 1, [Traffic(1, [])]);
  }

  lemma SecondCloses(a: seq<Act>)
    requires a == Overlapping()
    ensures Step(Step(Step(Step(FIRST_CLOSING, a[4]), a[5]), a[6]), a[7]) == BOTH_CLOSING
  {
    var second := Step(FIRST_CLOSING, a[4]);
    assert second == Graph([1], [0], [], [], [], {0}, 1, [Traffic(1, []), Traffic(0, [])]);
    var sent := Step(second, a[5]);
    assert sent == Graph([1], [0], [], [], [], {0}, 1, [Traffic(1, []), Traffic(1, [])]);
  }

  /** In the run the API forbids, the second parking needs more than the reserve. */
  lemma OverlappingParks()
    ensures var g := Run(NEW_GRAPH, Overlapping());
            && 1 in g.closing && |g.graveyard| == g.reserved == 1
            && Step(g, FinishClose(1)).graveyard == [0, 1] && Step(g, FinishClose(1)).reserved == 2
  {
    hide Run;
    var a := Overlapping();
    RunSplit(NEW_GRAPH, a);
    FirstCloses(a);
    SecondCloses(a);
  }

  lemma RunSplit(g: Graph, a: seq<Act>)
    requires |a| == 9
    ensures Run(g, a) == Step(Step(Step(Step(Step(Step(Step(Step(Step(g, a[0]), a[1]), a[2]), a[3]), a[4]), a[5]),
                                        a[6]), a[7]), a[8])
  {
    hide Step;
    assert a[..8][..7] == a[..7] && a[..7][..6] == a[..6] && a[..6][..5] == a[..5] && a[..5][..4] == a[..4];
    assert a[..4][..3] == a[..3] && a[..3][..2] == a[..2] && a[..2][..1] == a[..1] && a[..1][..0] == [];
    assert Run(g, a[..1]) == Step(g, a[0]);
    assert Run(g, a[..2]) == Step(Run(g, a[..1]), a[1]);
    assert Run(g, a[..3]) == Step(Run(g, a[..2]), a[2]);
    assert Run(g, a[..4]) == Step(Run(g, a[..3]), a[3]);
    assert Run(g, a[..5]) == Step(Run(g, a[..4]), a[4]);
    assert Run(g, a[..6]) == Step(Run(g, a[..5]), a[5]);
    assert Run(g, a[..7]) == Step(Run(g, a[..6]), a[6]);
    assert Run(g, a[..8]) == Step(Run(g, a[..7]), a[7]);
  }

  // ----- The object ------------------------------------------------------------------------------

  lemma RunSnoc(acts: seq<Act>, a: Act)
    ensures Run(NEW_GRAPH, acts + [a]) == Step(Run(NEW_GRAPH, acts), a)
  {
    assert (acts + [a])[..|acts|] == acts;
  }

  class Context {
    var devices: seq<nat>
    var graveyard: seq<nat>
    var closing: seq<nat>
    var reaping: seq<nat>
    var cancelled: set<nat>
    var reserved: nat
    var traffic: seq<Traffic>
    ghost var freed: seq<nat>
    ghost var history: seq<Act>

    ghost function Value(): Graph
      reads this
    {
      Graph(devices, closing, graveyard, reaping, freed, cancelled, reserved, traffic)
    }

    /** The Context is where the run of its history ends. */
    ghost predicate Valid()
      reads this
    {
      Value() == Run(NEW_GRAPH, history)
    }

    constructor ()
      ensures Valid() && history == []
    {
      devices, graveyard, closing, reaping, cancelled, reserved, traffic, freed, history := [], [], [], [], {}, 0, [],
          [], [];
    }

    lemma Next(a: Act)
      requires Valid()
      ensures Run(NEW_GRAPH, history + [a]) == Step(Value(), a) && GraphOk(Value())
    {
      hide Step, GraphOk, Run;
      RunSnoc(history, a);
      NothingReserved();
      RunKeeps(NEW_GRAPH, history);
    }

    /** `aoahid_device_open`, from the critical section on. */
    method OpenDevice() returns (device: nat)
      requires Valid()
      modifies this
      ensures Valid() && history == old(history) + [Open] && device in devices
    {
      hide Run, GraphOk;
      Next(Open);
      history := history + [Open];
      var liveCapacity := |devices| + |graveyard| + 1;
      reserved := Max(reserved, liveCapacity);
      device := |traffic|;
      devices := devices + [device];
      traffic := traffic + [Traffic(0, [])];
    }

    /** The handle of an open Device is consumed; a second close is refused. */
    method ConsumeDevice(device: nat) returns (consumed: bool)
      requires Valid()
      modifies this
      ensures Valid() && history == old(history) + [BeginClose(device)]
      ensures consumed <==> device in old(devices)
      ensures consumed ==> device !in devices && device in closing
    {
      hide Run, Without, Drained, Owned;
      Next(BeginClose(device));
      OwnedOnce(Value(), device);
      history := history + [BeginClose(device)];
      if device !in devices {
        return false;
      }
      GoneOnce(devices, device);
      devices := Without(devices, device);
      closing := closing + [device];
      return true;
    }

    /** The Channels are lost and the transfers cancelled: nothing new is sent. */
    method CancelTransfers(device: nat)
      requires Valid() && device in closing
      modifies this
      ensures Valid() && history == old(history) + [Cancel(device)] && device in cancelled && closing == old(closing)
    {
      hide Run, GraphOk;
      Next(Cancel(device));
      history := history + [Cancel(device)];
      cancelled := cancelled + {device};
    }

    /** `graph_drained`. */
    method GraphDrained(device: nat) returns (drained: bool)
      ensures drained == Drained(Value(), device)
    {
      if device >= |traffic| || traffic[device].own != 0 {
        return false;
      }
      var k := 0;
      while k < |traffic[device].channels|
        invariant k <= |traffic[device].channels| && forall j :: 0 <= j < k ==> traffic[device].channels[j] == 0
      {
        if traffic[device].channels[k] != 0 {
          return false;
        }
        k := k + 1;
      }
      return true;
    }

    /** The end of `device_close_impl`: a drained graph is freed, any other goes to the graveyard. */
    method FinishDevice(device: nat) returns (result: ResultCode)
      requires Valid() && device in closing && device in cancelled
      modifies this
      ensures Valid() && history == old(history) + [FinishClose(device)]
      ensures result == if Drained(old(Value()), device) then Ok else ClosePending
      ensures if result == Ok then freed == old(freed) + [device]
              else freed == old(freed) && graveyard == old(graveyard) + [device]
      ensures Serialized(old(history)) && result == ClosePending ==> old(|graveyard|) < old(reserved) == reserved
    {
      hide Run, Without, Drained, GraphOk, Serialized;
      Next(FinishClose(device));
      if Serialized(history) {
        ParkingNeverAllocates(history, device);
      }
      var drained := GraphDrained(device);
      history := history + [FinishClose(device)];
      closing := Without(closing, device);
      if drained {
        freed := freed + [device];
        return Ok;
      }
      reserved := Max(reserved, |graveyard| + 1);
      graveyard := graveyard + [device];
      return ClosePending;
    }

    /** The oldest parked graph that has drained, if there is one. */
    method FindDrained() returns (found: Option<nat>)
      ensures found.Some? ==> found.value in graveyard && Drained(Value(), found.value)
      ensures found.None? ==> forall d :: d in graveyard ==> !Drained(Value(), d)
    {
      hide Drained;
      var k := 0;
      while k < |graveyard|
        invariant k <= |graveyard| && forall j :: 0 <= j < k ==> !Drained(Value(), graveyard[j])
      {
        var drained := GraphDrained(graveyard[k]);
        if drained {
          return Some(graveyard[k]);
        }
        k := k + 1;
      }
      return None;
    }

    /** `reap_graveyard`: afterwards every parked graph still waits for a callback. */
    method ReapGraveyard()
      requires Valid()
      modifies this
      ensures Valid() && old(history) <= history && old(freed) <= freed
      ensures forall d :: d in graveyard ==> !Drained(Value(), d)
      ensures traffic == old(traffic) && devices == old(devices) && closing == old(closing)
    {
      hide Run, Without, Drained, Owned;
      while true
        invariant Valid() && old(history) <= history && old(freed) <= freed
        invariant traffic == old(traffic) && devices == old(devices) && closing == old(closing)
        decreases |graveyard|
      {
        var ready := FindDrained();
        if ready.None? {
          return;
        }
        ghost var was := Value();
        Next(Reap(ready.value));
        OwnedOnce(Value(), ready.value);
        WithoutCounts(graveyard, ready.value);
        history := history + [Reap(ready.value)];
        graveyard, reaping := Without(graveyard, ready.value), reaping + [ready.value];
        SameDrained(was, Value());
        DestroyDrained(ready.value);
      }
    }

    /** `destroy_drained_device`: refuses a graph that has not drained. */
    method DestroyDrained(device: nat)
      requires Valid() && device in reaping && Drained(Value(), device)
      modifies `reaping, `freed, `history
      ensures Valid() && history == old(history) + [Destroy(device)] && freed == old(freed) + [device]
    {
      hide Run, Without, Drained, GraphOk;
      Next(Destroy(device));
      history := history + [Destroy(device)];
      reaping := Without(reaping, device);
      freed := freed + [device];
    }
  }

  lemma GoneOnce(s: seq<nat>, d: nat)
    requires d in s && multiset(s)[d] <= 1
    ensures d !in Without(s, d)
  {
    WithoutCounts(s, d);
    assert d !in multiset(Without(s, d));
  }
}
