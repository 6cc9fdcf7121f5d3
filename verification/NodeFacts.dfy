/** What every reachable Node state satisfies: shapes, ranges and counts that follow from its Spec. */
module NodeFacts {
  import opened Common
  import opened Factories
  import opened NodeModel

  // ----- The invariant of each profile -----------------------------------------------------------

  function CountPressed(keys: seq<bool>): nat {
    if |keys| == 0 then 0 else CountPressed(keys[..|keys| - 1]) + if keys[|keys| - 1] then 1 else 0
  }

  predicate SamplePlaces(o: Options, c: TouchSample)
    requires o.Touch?
  {
    && Within(c.id, o.contactIdentifier) && Within(c.x, o.x) && Within(c.y, o.y)
    && (o.pressure.Some? ==> Within(c.pressure, o.pressure.value))
    && (o.width.Some? ==> Within(c.width, o.width.value)) && (o.height.Some? ==> Within(c.height, o.height.value))
    && (o.azimuth.Some? ==> Within(c.azimuth, o.azimuth.value))
  }

  /** Live contacts carry distinct IDs. */
  predicate DistinctIds(contacts: seq<Contact>) {
    forall j, k :: 0 <= j < k < |contacts| && !contacts[j].phase.Absent? && !contacts[k].phase.Absent? ==>
      contacts[j].sample.id != contacts[k].sample.id
  }

  predicate SamplesPlaced(o: Options, contacts: seq<Contact>)
    requires o.Touch?
  {
    forall k :: 0 <= k < |contacts| && !contacts[k].phase.Absent? ==> SamplePlaces(o, contacts[k].sample)
  }

  predicate TouchOk(o: Options, s: NodeState)
    requires o.Touch? && s.TouchState?
  {
    && |s.contacts| == CONTACT_SLOTS && |s.buttons| == o.buttonCount == |s.buttonsPending|
    && SamplesPlaced(o, s.contacts) && DistinctIds(s.contacts)
    && |Active(s.contacts)| <= o.maximumContacts
    && (s.cursor == 0 || s.cursor < |Active(s.contacts)|)
    && (o.scanTime.Some? ==> s.scanTime <= o.scanTime.value.maximum)
  }

  predicate PenPlaces(o: Options, p: PenSample)
    requires o.Pen?
  {
    && Within(p.x, o.x) && Within(p.y, o.y) && (o.pressure.Some? ==> Within(p.pressure, o.pressure.value))
    && (o.tilt.Some? ==> Within(p.tiltX, o.tilt.value.0) && Within(p.tiltY, o.tilt.value.1))
    && (o.twist.Some? ==> Within(p.twist, o.twist.value)) && (p.tip ==> p.inRange)
  }

  predicate StateOk(o: Options, s: NodeState) {
    match o
    case Keyboard(_, low, high) =>
      && s.KeyboardState? && |s.keys| == |s.keysPending| == high - low + 1
      && s.pressedCount == CountPressed(s.keys) && forall k :: k in s.modifiers ==> k < 8
    case Mouse(_, _, _, count, wheel, pan) =>
      && s.MouseState? && |s.buttons| == |s.buttonsPending| == count
      && INT64_MIN <= s.dx <= INT64_MAX && INT64_MIN <= s.dy <= INT64_MAX
      && INT64_MIN <= s.wheel <= INT64_MAX && INT64_MIN <= s.pan <= INT64_MAX
      && (wheel.None? ==> s.wheel == 0) && (pan.None? ==> s.pan == 0)
    case Toggle(_, _, _, _, controls) => s.ToggleState? && (s.usage == 0 || AllowedUsage(o, s.usage))
    case Gamepad(_, axes, _, count, dpad) =>
      && s.GamepadState? && |s.buttons| == |s.buttonsPending| == count && |s.axes| == |axes|
      && (forall k :: 0 <= k < |axes| ==> Within(s.axes[k], axes[k].value))
      && (dpad.HatDPad? ==> s.hat <= 7) && (dpad.ButtonDPad? ==> s.hat < 16 && (s.hasDirection <==> s.hat != 0))
      && (!s.hasDirection ==> s.hat == 0)
    case Touch(_, _, _, _, _, _, _, _, _, _, _, _, _, _, _, _) => s.TouchState? && TouchOk(o, s)
    case Pen(_, _, _, _, _, _, _, _, _, _) => s.PenState? && PenPlaces(o, s.desired) && PenPlaces(o, s.emitted)
    case Battery(_, strength, unknown) => s.BatteryState? && (s.hasValue ==> Within(s.strength, strength))
  }

  /** A battery report is due only once there is something it can say. */
  predicate Sendable(o: Options, s: NodeState) {
    o.Battery? && s.BatteryState? ==> s.hasValue || o.unknownState
  }

  /** The remembered fragments belong to the report in flight. */
  predicate FlightOk(o: Options, n: Node) {
    if n.inflight then n.dirty && n.submitted == Remembered(o, n.state) else n.submitted == NOTHING_SUBMITTED
  }

  predicate NodeOk(o: Options, n: Node) {
    StateOk(o, n.state) && FlightOk(o, n) && (n.dirty ==> Sendable(o, n.state))
  }

  // ----- Counting pressed keys -------------------------------------------------------------------

  lemma {:induction false} CountUpdate(keys: seq<bool>, k: nat, down: bool)
    requires k < |keys| && keys[k] != down
    ensures CountPressed(keys[k := down]) == CountPressed(keys) + if down then 1 else -1
    ensures CountPressed(keys) <= |keys|
    ensures down ==> CountPressed(keys) < |keys|
    ensures !down ==> CountPressed(keys) > 0
  {
    var n := |keys| - 1;
    if k < n {
      CountUpdate(keys[..n], k, down);
      assert keys[k := down][..n] == keys[..n][k := down];
    } else {
      assert keys[k := down][..n] == keys[..n];
      CountBound(keys[..n]);
    }
  }

  lemma {:induction false} CountBound(keys: seq<bool>)
    ensures CountPressed(keys) <= |keys|
  {
    if |keys| == 0 {
    } else {
      CountBound(keys[..|keys| - 1]);
    }
  }

  lemma {:induction false} CountZero(keys: seq<bool>)
    ensures CountPressed(keys) == 0 <==> !AnyPressed(keys)
  {
    if |keys| == 0 {
    } else {
      CountZero(keys[..|keys| - 1]);
      assert keys == keys[..|keys| - 1] + [keys[|keys| - 1]];
    }
  }

  lemma NonePressed(n: nat)
    ensures !AnyPressed(Repeat(n, false)) && CountPressed(Repeat(n, false)) == 0
  {
    CountZero(Repeat(n, false));
  }

  // ----- Active contacts -------------------------------------------------------------------------

  lemma {:induction false} ActiveUpdateInPlace(contacts: seq<Contact>, k: nat, c: Contact)
    requires k < |contacts| && !contacts[k].phase.Absent? && !c.phase.Absent?
    ensures |Active(contacts[k := c])| == |Active(contacts)|
  {
    var n := |contacts| - 1;
    if k < n {
      ActiveUpdateInPlace(contacts[..n], k, c);
      assert contacts[k := c][..n] == contacts[..n][k := c];
    } else {
      assert contacts[k := c][..n] == contacts[..n];
    }
  }

  lemma {:induction false} ActiveAdd(contacts: seq<Contact>, k: nat, c: Contact)
    requires k < |contacts| && contacts[k].phase.Absent? && !c.phase.Absent?
    ensures |Active(contacts[k := c])| == |Active(contacts)| + 1
  {
    var n := |contacts| - 1;
    if k < n {
      ActiveAdd(contacts[..n], k, c);
      assert contacts[k := c][..n] == contacts[..n][k := c];
    } else {
      assert contacts[k := c][..n] == contacts[..n];
    }
  }

  lemma {:induction false} ActiveMembers(contacts: seq<Contact>, i: nat)
    requires i < |Active(contacts)|
    ensures !Active(contacts)[i].phase.Absent? && Active(contacts)[i] in contacts
  {
    var n := |contacts| - 1;
    if i < |Active(contacts[..n])| {
      ActiveMembers(contacts[..n], i);
      assert contacts == contacts[..n] + [contacts[n]];
    }
  }

  lemma {:induction false} ActiveBound(contacts: seq<Contact>)
    ensures |Active(contacts)| <= |contacts|
  {
    if |contacts| == 0 {
    } else {
      ActiveBound(contacts[..|contacts| - 1]);
    }
  }

  lemma {:induction false} ActiveNone(contacts: seq<Contact>)
    requires forall k :: 0 <= k < |contacts| ==> contacts[k].phase.Absent?
    ensures Active(contacts) == []
  {
    if |contacts| == 0 {
    } else {
      ActiveNone(contacts[..|contacts| - 1]);
    }
  }

  /** Changing contacts without changing who is in use keeps their number. */
  lemma {:induction false} ActiveSamePlaces(a: seq<Contact>, b: seq<Contact>)
    requires |a| == |b| && forall k :: 0 <= k < |a| ==> a[k].phase.Absent? == b[k].phase.Absent?
    ensures |Active(a)| == |Active(b)|
  {
    if |a| == 0 {
    } else {
      ActiveSamePlaces(a[..|a| - 1], b[..|b| - 1]);
    }
  }

  lemma {:induction false} ActiveFewer(a: seq<Contact>, b: seq<Contact>)
    requires |a| == |b| && forall k :: 0 <= k < |a| ==> a[k].phase.Absent? ==> b[k].phase.Absent?
    ensures |Active(b)| <= |Active(a)|
  {
    if |a| == 0 {
    } else {
      ActiveFewer(a[..|a| - 1], b[..|b| - 1]);
    }
  }

  // ----- Mutators keep the invariant -------------------------------------------------------------

  lemma InitialOk(o: Options)
    requires Accepted(o)
    ensures NodeOk(o, NewNode(o))
  {
    hide ValidField;
    match o
    case Keyboard(_, low, high) => NonePressed(high - low + 1);
    case Touch(_, _, _, _, _, _, _, _, _, _, _, _, _, _, _, _) => ActiveNone(InitialState(o).contacts);
    case _ =>
  }

  lemma KeyKeeps(o: Options, s: NodeState, usage: Uint16, down: bool)
    requires o.Keyboard? && StateOk(o, s)
    ensures StateOk(o, EditKey(o, s, usage, down).state) && EditKey(o, s, usage, down).result != ErrInternal
  {
    if o.usageMinimum <= usage <= o.usageMaximum && s.keys[usage - o.usageMinimum] != down {
      CountUpdate(s.keys, usage - o.usageMinimum, down);
    }
  }

  lemma MouseKeeps(o: Options, s: NodeState, a: Int32, b: Int32)
    requires o.Mouse? && StateOk(o, s)
    ensures StateOk(o, EditMove(o, s, a, b).state) && StateOk(o, EditScroll(o, s, a, b).state)
  {
  }

  lemma ButtonKeeps(o: Options, s: NodeState, button: nat, pressed: bool)
    requires StateOk(o, s)
    ensures StateOk(o, EditButton(o, s, button, pressed).state)
    ensures o.Mouse? || o.Gamepad? || o.Touch? ==> EditButton(o, s, button, pressed).result != ErrInternal
  {
  }

  lemma GamepadKeeps(o: Options, s: NodeState, index: nat, value: Int32, up: bool, down: bool, right: bool, left: bool)
    requires o.Gamepad? && StateOk(o, s)
    ensures StateOk(o, EditAxis(o, s, index, value).state)
    ensures StateOk(o, EditDPad(o, s, up, down, right, left).state)
  {
  }

  lemma ContactKeeps(o: Options, s: NodeState, down: bool, sample: TouchSample)
    requires o.Touch? && Accepted(o) && StateOk(o, s)
    ensures StateOk(o, EditContact(o, s, down, sample).state)
  {
    hide ValidField, Active;
    var k := FindSlot(s.contacts, 0, Down, sample.id);
    if k < |s.contacts| {
      ActiveUpdateInPlace(s.contacts, k, s.contacts[k].(sample := sample));
      ActiveUpdateInPlace(s.contacts, k, Contact(Up,
                                                 s.contacts[k].sample.(x := sample.x, y := sample.y, pressure := 0),
                                                     true));
    }
    var free := FindSlot(s.contacts, 0, Absent, 0);
    if free < |s.contacts| {
      ActiveAdd(s.contacts, free, Contact(Down, sample, true));
    }
  }

  lemma PenKeeps(o: Options, s: NodeState, p: PenSample)
    requires o.Pen? && Accepted(o) && StateOk(o, s)
    ensures StateOk(o, EditPen(o, s, p).state) && StateOk(o, EditDepart(o, s).state)
  {
    hide ValidField;
  }

  lemma BatteryKeeps(o: Options, s: NodeState, hasValue: bool, strength: Int32)
    requires o.Battery? && StateOk(o, s)
    ensures StateOk(o, EditBattery(o, s, hasValue, strength).state)
    ensures EditBattery(o, s, hasValue, strength).result == Ok ==>
            Sendable(o, EditBattery(o, s, hasValue, strength).state)
  {
  }

  lemma UsageKeeps(o: Options, s: NodeState, usage: Uint16, down: bool)
    requires o.Toggle? && StateOk(o, s)
    ensures StateOk(o, EditUsage(o, s, usage, down).state)
  {
  }

  /** Every mutator keeps the state's shape and ranges, and leaves it alone when it refuses. */
  lemma EditKeeps(o: Options, s: NodeState, m: Mutation)
    requires Accepted(o) && StateOk(o, s) && RightProfile(o, m)
    ensures StateOk(o, EditOf(o, s, m).state)
    ensures o.Battery? && EditOf(o, s, m).result == Ok ==> Sendable(o, EditOf(o, s, m).state)
    ensures EditOf(o, s, m).result != Ok ==> EditOf(o, s, m).state == s && !EditOf(o, s, m).touched
  {
    hide Accepted, StateOk, Sendable, EditKey, EditMove, EditScroll, EditButton, EditUsage, EditAxis, EditDPad,
         EditContact,
         EditPen, EditDepart, EditBattery;
    RefusalChangesNothing(o, s, m);
    match m
    case Key(usage, down) => KeyKeeps(o, s, usage, down);
    case Move(dx, dy) => MouseKeeps(o, s, dx, dy);
    case Scroll(wheel, pan) => MouseKeeps(o, s, wheel, pan);
    case Button(button, pressed) => ButtonKeeps(o, s, button, pressed);
    case SetUsage(usage, down) => UsageKeeps(o, s, usage, down);
    case SetAxis(index, value) => GamepadKeeps(o, s, index, value, false, false, false, false);
    case SetDPad(up, down, right, left) => GamepadKeeps(o, s, 0, 0, up, down, right, left);
    case SetContact(down, sample) => ContactKeeps(o, s, down, sample);
    case UpdatePen(pen) => PenKeeps(o, s, pen);
    case DepartPen => PenKeeps(o, s, NO_PEN);
    case UpdateBattery(hasValue, strength) => BatteryKeeps(o, s, hasValue, strength);
  }

  lemma RefusalChangesNothing(o: Options, s: NodeState, m: Mutation)
    ensures EditOf(o, s, m).result != Ok ==> EditOf(o, s, m).state == s && !EditOf(o, s, m).touched
  {
    hide AllowedUsage, EncodeDPad, AddChecked, EditContact, EditPen, EditDepart;
    match m
    case SetContact(down, sample) => ContactRefusal(o, s, down, sample);
    case UpdatePen(pen) => PenRefusal(o, s, pen);
    case DepartPen => PenRefusal(o, s, NO_PEN);
    case _ =>
  }

  lemma ContactRefusal(o: Options, s: NodeState, down: bool, sample: TouchSample)
    ensures EditContact(o, s, down, sample).result != Ok ==>
              EditContact(o, s, down, sample).state == s && !EditContact(o, s, down, sample).touched
  {
    hide ValidContact, FindSlot, Active;
  }

  lemma PenRefusal(o: Options, s: NodeState, p: PenSample)
    ensures EditPen(o, s, p).result != Ok ==> EditPen(o, s, p).state == s && !EditPen(o, s, p).touched
    ensures EditDepart(o, s).result != Ok ==> EditDepart(o, s).state == s && !EditDepart(o, s).touched
  {
    hide ValidPen, PenConflicts, RecordPen;
  }

  // ----- Steps keep the invariant ----------------------------------------------------------------

  lemma MutateKeeps(o: Options, n: Node, m: Mutation)
    requires Accepted(o) && NodeOk(o, n)
    ensures NodeOk(o, Mutate(o, n, m).1)
  {
    hide Accepted, StateOk, EditOf;
    if RightProfile(o, m) && n.present && !n.inflight {
      EditKeeps(o, n.state, m);
    }
  }

  lemma StampedKeeps(o: Options, s: NodeState, ticks: nat)
    requires Accepted(o) && StateOk(o, s)
    ensures StateOk(o, Stamped(o, s, ticks))
  {
    hide ValidField, Active;
  }

  lemma LaunchedKeeps(o: Options, n: Node, ticks: nat)
    requires Accepted(o) && NodeOk(o, n) && !n.inflight && n.dirty
    ensures NodeOk(o, Launched(o, n, ticks))
  {
    hide Accepted, StateOk, Remembered;
    StampedKeeps(o, n.state, ticks);
  }

  lemma EdgesKeep(o: Options, s: NodeState)
    requires StateOk(o, s)
    ensures StateOk(o, ConsumeEdges(s)) && (Sendable(o, s) ==> Sendable(o, ConsumeEdges(s)))
  {
    if s.TouchState? {
      ActiveSamePlaces(s.contacts, ConsumeEdges(s).contacts);
    }
  }

  lemma MouseRestKeeps(o: Options, s: NodeState, sent: Submitted)
    requires o.Mouse? && Accepted(o) && StateOk(o, s) && sent == Remembered(o, s)
    ensures StateOk(o, s.(dx := s.dx - sent.dx, dy := s.dy - sent.dy, wheel := s.wheel - sent.wheel,
                          pan := s.pan - sent.pan))
  {
    hide ValidField;
  }

  lemma AppliedKeeps(o: Options, s: NodeState, sent: Submitted)
    requires Accepted(o) && StateOk(o, s) && sent == Remembered(o, s)
    ensures StateOk(o, Applied(s, sent).0)
  {
    hide ValidField, Active;
    if s.TouchState? {
      ActiveFewer(s.contacts, FreeLifted(s.contacts));
    }
  }

  lemma FrameResetKeeps(o: Options, s: NodeState)
    requires StateOk(o, s) && s.TouchState?
    ensures StateOk(o, s.(cursor := 0))
  {
  }

  lemma MouseStateOk(o: Options, s: NodeState)
    requires StateOk(o, s) && s.MouseState?
    ensures o.Mouse?
  {
  }

  lemma CompletedKeeps(o: Options, n: Node, c: Outcome)
    requires Accepted(o) && NodeOk(o, n) && n.inflight
    ensures NodeOk(o, Completed(n, c))
  {
    hide Accepted, StateOk, Remembered, Applied, ConsumeEdges, Sendable;
    if MayHaveApplied(c) {
      BatterySame(o, n.state, n.submitted);
      if n.state.MouseState? {
        MouseStateOk(o, n.state);
        MouseRestKeeps(o, n.state, n.submitted);
        EdgesKeep(o, n.state.(dx := n.state.dx - n.submitted.dx, dy := n.state.dy - n.submitted.dy,
                              wheel := n.state.wheel - n.submitted.wheel, pan := n.state.pan - n.submitted.pan));
        NotBattery(o, Completed(n, c).state);
      } else if c.result == Ok {
        AppliedKeeps(o, n.state, n.submitted);
        EdgesKeep(o, Applied(n.state, n.submitted).0);
      } else {
        if n.state.TouchState? {
          FrameResetKeeps(o, n.state);
        }
        EdgesKeep(o, if n.state.TouchState? then n.state.(cursor := 0) else n.state);
      }
    }
  }

  lemma NotBattery(o: Options, s: NodeState)
    requires !s.BatteryState?
    ensures Sendable(o, s)
  {
  }

  lemma BatterySame(o: Options, s: NodeState, sent: Submitted)
    ensures Sendable(o, s) ==> Sendable(o, Applied(s, sent).0)
  {
  }

  lemma NeutralKeeps(o: Options, n: Node)
    requires Accepted(o) && NodeOk(o, n) && !n.inflight
    ensures NodeOk(o, MakeNeutral(o, n))
  {
    hide ValidField, Active, AnyPhase, AnyPressed, AxesNeutral;
    match n.state
    case KeyboardState(keys, _, _, _, _) => NonePressed(|keys|);
    case TouchState(contacts, _, _, _, _, _) => ActiveSamePlaces(contacts, LiftAll(contacts));
    case _ =>
  }

  lemma ImageExists(o: Options, s: NodeState)
    requires StateOk(o, s)
    ensures ImageOf(o, s).Some?
  {
    hide TouchOk, PenPlaces;
  }
}
