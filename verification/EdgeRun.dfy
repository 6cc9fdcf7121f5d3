/**
 * No input edge is lost: for every key, button (mouse, gamepad or touchpad), D-pad and toggle Usage, the changes that
 * consumed reports carried are the changes that the caller's arguments asked for, save at most the last one.
 */
module EdgeRun {
  import opened Common
  import opened BitMath
  import opened Factories
  import opened NodeModel
  import opened NodeFacts
  import opened NodeRun
  import opened CallEffects

  /** A key by its Usage, a button by its number. */
  datatype Control = KeyControl(usage: nat) | ButtonControl(button: nat) | DPadControl | UsageControl

  function Number(b: bool): int {
    if b then 1 else 0
  }

  /** D-pad directions as one number. */
  function WayNumber(directions: set<nat>): int {
    Number(D_UP in directions) + 2 * Number(D_DOWN in directions) + 4 * Number(D_RIGHT in directions)
    + 8 * Number(D_LEFT in directions)
  }

  /** What a call says about a control, if it is about that control. */
  function Argument(m: Mutation, c: Control): Option<int> {
    match m
    case Key(usage, down) => if c == KeyControl(usage) then Some(Number(down)) else None
    case Button(button, pressed) => if c == ButtonControl(button) then Some(Number(pressed)) else None
    case SetUsage(usage, down) => if c.UsageControl? then Some(if down then usage else 0) else None
    case SetDPad(up, down, right, left) =>
      if c.DPadControl? then Some(WayNumber(DirectionSet(up, down, right, left))) else None
    case _ => None
  }

  /** The value of a control in the Node's state. */
  function ValueOf(o: Options, s: NodeState, c: Control): int {
    match s
    case KeyboardState(keys, _, _, modifiers, _) =>
      if c.KeyControl? && o.Keyboard? then Number(KeyIn(o, keys, modifiers, c.usage)) else 0
    case MouseState(buttons, _, _, _, _, _) => if c.ButtonControl? then Number(IsPressed(buttons, c.button)) else 0
    case ToggleState(usage, _) => if c.UsageControl? then usage else 0
    case GamepadState(_, buttons, _, hasDirection, hat, _) =>
      if c.ButtonControl? then Number(IsPressed(buttons, c.button))
      else if c.DPadControl? && o.Gamepad? then WayNumber(DirectionsOf(o.dpad, hasDirection, hat)) else 0
    case TouchState(_, buttons, _, _, _, _) => if c.ButtonControl? then Number(IsPressed(buttons, c.button)) else 0
    case _ => 0
  }

  /**
   * The control has changed since the last report that may have arrived. A touchpad keeps its marks until the
   * frame ends, but the frame's first packet has carried its buttons.
   */
  predicate EdgePending(o: Options, s: NodeState, c: Control) {
    match s
    case KeyboardState(_, pending, _, _, modifiersPending) =>
      c.KeyControl? && o.Keyboard? && KeyIn(o, pending, modifiersPending, c.usage)
    case MouseState(_, pending, _, _, _, _) => c.ButtonControl? && IsPressed(pending, c.button)
    case ToggleState(_, pending) => c.UsageControl? && pending
    case GamepadState(_, _, pending, _, _, hatPending) =>
      (c.ButtonControl? && IsPressed(pending, c.button)) || (c.DPadControl? && hatPending)
    case TouchState(_, _, pending, _, cursor, _) => c.ButtonControl? && cursor == 0 && IsPressed(pending, c.button)
    case _ => false
  }

  /** The value a report carries for a control. */
  function ReportedValue(o: Options, image: Image, c: Control): int {
    match image
    case KeyboardImage(keys, modifiers) =>
      if c.KeyControl? && o.Keyboard? then Number(KeyIn(o, keys, modifiers, c.usage)) else 0
    case MouseImage(buttons, _, _, _, _) => if c.ButtonControl? then Number(IsPressed(buttons, c.button)) else 0
    case ToggleImage(usage) => if c.UsageControl? then usage else 0
    case GamepadImage(_, buttons, hasDirection, hat) =>
      if c.ButtonControl? then Number(IsPressed(buttons, c.button))
      else if c.DPadControl? && o.Gamepad? then WayNumber(DirectionsOf(o.dpad, hasDirection, hat)) else 0
    case TouchImage(_, buttons, _, _) => if c.ButtonControl? then Number(IsPressed(buttons, c.button)) else 0
    case _ => 0
  }

  // ----- Histories -------------------------------------------------------------------------------

  /** A history with its repetitions removed. */
  function Collapse(history: seq<int>): (r: seq<int>)
    ensures |history| > 0 ==> |r| > 0 && r[|r| - 1] == history[|history| - 1]
  {
    if |history| <= 1 then history
    else
      var shorter := Collapse(history[..|history| - 1]);
      if shorter[|shorter| - 1] == history[|history| - 1] then shorter else shorter + [history[|history| - 1]]
  }

  lemma CollapseSnoc(history: seq<int>, v: int)
    requires |history| > 0
    ensures Collapse(history + [v])
            == if history[|history| - 1] == v then Collapse(history) else Collapse(history) + [v]
  {
    assert (history + [v])[..|history|] == history;
  }

  /** What accepted calls asked of the control, one after the other, from rest. */
  function AcceptedValues(o: Options, events: seq<Event>, c: Control): (values: seq<int>)
    requires Accepted(o)
    ensures |values| > 0
  {
    if |events| == 0 then [0]
    else
      var prefix, e := events[..|events| - 1], events[|events| - 1];
      AcceptedValues(o, prefix, c)
      + if e.Call? && Mutate(o, RunAll(o, NewWorld(o), prefix).node, e.m).0 == Ok && Argument(e.m, c).Some?
        then [Argument(e.m, c).value] else []
  }

  /** The value in every report the target may have applied, from rest. */
  function ConsumedValues(o: Options, events: seq<Event>, c: Control): (values: seq<int>)
    requires Accepted(o)
    ensures |values| > 0
  {
    if |events| == 0 then [0]
    else
      var prefix, e := events[..|events| - 1], events[|events| - 1];
      var before := RunAll(o, NewWorld(o), prefix);
      ConsumedValues(o, prefix, c)
      + if Enabled(before, e) && e.Complete? && MayHaveApplied(e.outcome)
        then [ReportedValue(o, before.sent.value, c)] else []
  }

  // ----- One call, one completion ----------------------------------------------------------------

  predicate Tracked(o: Options) {
    o.Keyboard? || o.Mouse? || o.Toggle? || o.Gamepad? || o.Touch?
  }

  /**
   * A call about the control gives it the value that it asks for, and no other call touches it; a change is from a
   * settled value to an unreported one.
   */
  predicate EdgeRule(o: Options, s: NodeState, r: NodeState, c: Control, asked: Option<int>) {
    && ValueOf(o, r, c) == (if asked.Some? then asked.value else ValueOf(o, s, c))
    && if ValueOf(o, r, c) == ValueOf(o, s, c) then EdgePending(o, r, c) == EdgePending(o, s, c)
       else !EdgePending(o, s, c) && EdgePending(o, r, c)
  }

  lemma KeyEdges(o: Options, s: NodeState, usage: Uint16, down: bool, c: Control)
    requires o.Keyboard? && Accepted(o) && StateOk(o, s) && EditKey(o, s, usage, down).result == Ok
    ensures EdgeRule(o, s, EditKey(o, s, usage, down).state, c, Argument(Key(usage, down), c))
  {
    hide CountPressed;
  }

  lemma ButtonEdges(o: Options, s: NodeState, button: nat, pressed: bool, c: Control)
    requires o.Mouse? || o.Gamepad? || o.Touch?
    requires StateOk(o, s) && EditButton(o, s, button, pressed).result == Ok
    ensures EdgeRule(o, s, EditButton(o, s, button, pressed).state, c, Argument(Button(button, pressed), c))
  {
    hide DirectionsOf, WayNumber, TouchOk;
  }

  lemma DPadEdges(o: Options, s: NodeState, up: bool, down: bool, right: bool, left: bool, c: Control)
    requires o.Gamepad? && StateOk(o, s) && EditDPad(o, s, up, down, right, left).result == Ok
    ensures EdgeRule(o, s, EditDPad(o, s, up, down, right, left).state, c,
                     Argument(SetDPad(up, down, right, left), c))
  {
    hide EncodeDPad, DirectionsOf, WayNumber, DirectionSet, StateOk;
    DPadEffect(o, s, up, down, right, left);
    if WayNumber(Directions(o, s)) == WayNumber(DirectionSet(up, down, right, left)) {
      SameWayStored(o, s, up, down, right, left);
    }
  }

  lemma BitsNumber(bits: nat)
    requires bits < 16
    ensures WayNumber(BitDirections(bits)) == bits
  {
    hide Bit;
    var a, b, c, d := bits % 2 == 1, bits / 2 % 2 == 1, bits / 4 % 2 == 1, bits / 8 == 1;
    assert bits == Digit(a) + 2 * (Digit(b) + 2 * (Digit(c) + 2 * (Digit(d) + 2 * 0)));
    BitsOfFour(a, b, c, d);
    assert PointsTo(bits, D_UP) == a && PointsTo(bits, D_DOWN) == b && PointsTo(bits, D_RIGHT) == c
           && PointsTo(bits, D_LEFT) == d;
  }

  lemma EighthsNumber(a: nat, b: nat)
    requires a < 8 && b < 8
    ensures WayNumber(Compass(a)) > 0
    ensures WayNumber(Compass(a)) == WayNumber(Compass(b)) ==> a == b
  {
  }

  /** Equal directions are stored equally, so a change of the stored value is a change of direction. */
  lemma SameWayStored(o: Options, s: NodeState, up: bool, down: bool, right: bool, left: bool)
    requires o.Gamepad? && StateOk(o, s) && !o.dpad.NoDPad?
    requires o.dpad.HatDPad? ==> !(up && down) && !(right && left)
    requires s.GamepadState? && WayNumber(Directions(o, s)) == WayNumber(DirectionSet(up, down, right, left))
    ensures s.hasDirection == (up || down || right || left) && s.hat == EncodeDPad(o.dpad, up, down, right, left)
  {
    hide BitDirections, Compass, StateOk, DirectionSet, EncodeDPad;
    DPadState(o, s);
    var any, hat := up || down || right || left, EncodeDPad(o.dpad, up, down, right, left);
    StoredWay(o.dpad, up, down, right, left);
    assert WayNumber({}) == 0;
    if o.dpad.ButtonDPad? {
      BitsNumber(s.hat);
      BitsNumber(hat);
    } else {
      EighthsNumber(s.hat, hat);
      EighthsNumber(hat, s.hat);
    }
  }

  lemma StoredWay(dpad: DPad, up: bool, down: bool, right: bool, left: bool)
    requires !dpad.NoDPad? && (dpad.HatDPad? ==> !(up && down) && !(right && left))
    ensures var any, hat := up || down || right || left, EncodeDPad(dpad, up, down, right, left);
            && DirectionsOf(dpad, any, hat) == DirectionSet(up, down, right, left)
            && (if dpad.ButtonDPad? then hat < 16 && (any <==> hat != 0) else hat < 8) && (!any ==> hat == 0)
  {
    hide BitDirections, Compass, DirectionSet;
    if !(up || down || right || left) {
      NoDirections();
    } else if dpad.ButtonDPad? {
      BitsPoint(up, down, right, left);
    } else {
      EighthsPoint(up, down, right, left);
    }
  }

  lemma DPadState(o: Options, s: NodeState)
    requires o.Gamepad? && StateOk(o, s) && !o.dpad.NoDPad?
    ensures s.GamepadState? && (if o.dpad.HatDPad? then s.hat < 8 else s.hat < 16 && (s.hasDirection <==> s.hat != 0))
    ensures !s.hasDirection ==> s.hat == 0
  {
  }

  lemma ContactEdges(o: Options, s: NodeState, down: bool, sample: TouchSample, c: Control)
    requires o.Touch? && StateOk(o, s) && EditContact(o, s, down, sample).result == Ok
    ensures EdgeRule(o, s, EditContact(o, s, down, sample).state, c, None)
  {
    hide FindSlot, ValidContact, Active, TouchOk;
  }

  lemma OtherEdges(o: Options, s: NodeState, m: Mutation, c: Control)
    requires Tracked(o) && StateOk(o, s) && RightProfile(o, m) && !m.Key? && !m.Button? && !m.SetDPad? && !m.SetContact?
    requires EditOf(o, s, m).result == Ok
    ensures EdgeRule(o, s, EditOf(o, s, m).state, c, Argument(m, c))
  {
    hide AllowedUsage, AddChecked, EditKey, EditButton, EditDPad, EditContact, EditPen, EditDepart, EditBattery,
         DirectionsOf, WayNumber, KeyIn;
  }

  lemma EditEdges(o: Options, s: NodeState, m: Mutation, c: Control)
    requires Tracked(o) && Accepted(o) && StateOk(o, s) && RightProfile(o, m) && EditOf(o, s, m).result == Ok
    ensures EdgeRule(o, s, EditOf(o, s, m).state, c, Argument(m, c))
  {
    hide Accepted, StateOk, EdgeRule, EditKey, EditMove, EditScroll, EditButton, EditUsage, EditAxis, EditDPad,
         EditContact, EditPen, EditDepart, EditBattery;
    match m
    case Key(usage, down) => KeyEdges(o, s, usage, down, c);
    case Button(button, pressed) => ButtonEdges(o, s, button, pressed, c);
    case SetDPad(up, down, right, left) => DPadEdges(o, s, up, down, right, left, c);
    case SetContact(down, sample) => ContactEdges(o, s, down, sample, c);
    case _ => OtherEdges(o, s, m, c);
  }

  /** The profile has what the call is about. */
  predicate Possible(o: Options, s: NodeState, m: Mutation)
    requires RightProfile(o, m) && Paired(o, s)
  {
    match m
    case Key(usage, _) => 0xE0 <= usage <= 0xE7 || o.usageMinimum <= usage <= o.usageMaximum
    case Button(button, _) => 1 <= button <= o.buttonCount
    case SetUsage(usage, down) => if down then AllowedUsage(o, usage) else usage == 0 || usage == s.usage
    case SetDPad(up, down, right, left) => !o.dpad.NoDPad? && (o.dpad.HatDPad? ==> !(up && down) && !(right && left))
    case _ => true
  }

  /**
   * A call about a control is refused exactly when the profile has no such thing, inside a touch frame, or when it
   * would change the control a second time before the first change was reported.
   */
  lemma RefusalIsExact(o: Options, s: NodeState, m: Mutation, c: Control)
    requires Tracked(o) && Accepted(o) && StateOk(o, s) && RightProfile(o, m) && Paired(o, s) && Argument(m, c).Some?
    ensures EditOf(o, s, m).result
            == if s.TouchState? && s.cursor != 0 then ErrBusy
               else if !Possible(o, s, m) then ErrParam
               else if Argument(m, c).value != ValueOf(o, s, c) && EdgePending(o, s, c) then ErrBusy
               else Ok
  {
    hide Accepted, EditKey, EditButton, EditDPad, EditUsage, ValueOf, EdgePending, StateOk, WayNumber, DirectionSet,
         AllowedUsage;
    ArgumentControl(m, c);
    match m
    case Key(usage, down) => KeyRefusal(o, s, usage, down);
    case Button(button, pressed) => ButtonRefusal(o, s, button, pressed);
    case SetUsage(usage, down) => UsageRefusal(o, s, usage, down);
    case SetDPad(up, down, right, left) => DPadRefusal(o, s, up, down, right, left);
    case _ =>
  }

  /** The control that a call is about. */
  function ControlOf(m: Mutation): Control {
    match m
    case Key(usage, _) => KeyControl(usage)
    case Button(button, _) => ButtonControl(button)
    case SetUsage(_, _) => UsageControl
    case _ => DPadControl
  }

  lemma ArgumentControl(m: Mutation, c: Control)
    requires Argument(m, c).Some?
    ensures c == ControlOf(m) && (m.Key? || m.Button? || m.SetUsage? || m.SetDPad?)
  {
    hide WayNumber, DirectionSet;
  }

  lemma KeyRefusal(o: Options, s: NodeState, usage: Uint16, down: bool)
    requires o.Keyboard? && Accepted(o) && StateOk(o, s)
    ensures var c := KeyControl(usage);
            EditKey(o, s, usage, down).result
            == if !(0xE0 <= usage <= 0xE7 || o.usageMinimum <= usage <= o.usageMaximum) then ErrParam
               else if Number(down) != ValueOf(o, s, c) && EdgePending(o, s, c) then ErrBusy else Ok
  {
    hide CountPressed;
    var k := usage - o.usageMinimum;
    if o.usageMinimum <= usage <= o.usageMaximum && s.keys[k] != down {
      CountUpdate(s.keys, k, down);
    }
  }

  lemma ButtonRefusal(o: Options, s: NodeState, button: nat, pressed: bool)
    requires (o.Mouse? || o.Gamepad? || o.Touch?) && Accepted(o) && StateOk(o, s)
    ensures EditButton(o, s, button, pressed).result
            == if s.TouchState? && s.cursor != 0 then ErrBusy
               else if !(1 <= button <= o.buttonCount) then ErrParam
               else if Number(pressed) != ValueOf(o, s, ButtonControl(button))
                       && EdgePending(o, s, ButtonControl(button)) then ErrBusy else Ok
  {
    hide DirectionsOf, WayNumber, Accepted;
  }

  lemma UsageRefusal(o: Options, s: NodeState, usage: Uint16, down: bool)
    requires o.Toggle? && StateOk(o, s)
    ensures s.ToggleState?
    ensures EditUsage(o, s, usage, down).result
            == if !(if down then AllowedUsage(o, usage) else usage == 0 || usage == s.usage) then ErrParam
               else if (if down then usage else 0) != ValueOf(o, s, UsageControl)
                       && EdgePending(o, s, UsageControl) then ErrBusy else Ok
  {
    hide AllowedUsage;
  }

  lemma DPadRefusal(o: Options, s: NodeState, up: bool, down: bool, right: bool, left: bool)
    requires o.Gamepad? && Accepted(o) && StateOk(o, s)
    ensures EditDPad(o, s, up, down, right, left).result
            == if o.dpad.NoDPad? || (o.dpad.HatDPad? && ((up && down) || (right && left))) then ErrParam
               else if WayNumber(DirectionSet(up, down, right, left)) != ValueOf(o, s, DPadControl)
                       && EdgePending(o, s, DPadControl) then ErrBusy else Ok
  {
    hide EncodeDPad, DirectionsOf, WayNumber, DirectionSet, StateOk, Accepted;
    assert s.GamepadState? by { GamepadOnly(o, s); }
    var any, hat := up || down || right || left, EncodeDPad(o.dpad, up, down, right, left);
    if !o.dpad.NoDPad? && !(o.dpad.HatDPad? && ((up && down) || (right && left))) {
      if s.hasDirection == any && s.hat == hat {
        DPadEffect(o, s, up, down, right, left);
      } else if WayNumber(DirectionSet(up, down, right, left)) == ValueOf(o, s, DPadControl) {
        SameWayStored(o, s, up, down, right, left);
      }
    }
  }

  lemma GamepadOnly(o: Options, s: NodeState)
    requires o.Gamepad? && StateOk(o, s)
    ensures s.GamepadState?
  {
  }

  lemma TrackedState(o: Options, s: NodeState)
    requires Tracked(o) && StateOk(o, s)
    ensures s.KeyboardState? || s.MouseState? || s.ToggleState? || s.GamepadState? || s.TouchState?
    ensures ImageOf(o, s).Some? && forall c :: ReportedValue(o, ImageOf(o, s).value, c) == ValueOf(o, s, c)
  {
    hide CountPressed, TouchOk, PacketEntries, Active;
  }

  lemma CompletionEdges(o: Options, n: Node, c: Outcome, control: Control)
    requires Tracked(o) && Accepted(o) && NodeOk(o, n) && n.inflight
    ensures var r := Completed(n, c);
            && ValueOf(o, r.state, control) == ValueOf(o, n.state, control)
            && (EdgePending(o, r.state, control) <==> EdgePending(o, n.state, control) && !MayHaveApplied(c))
  {
    hide Accepted, StateOk, TouchOk, Active;
    TrackedState(o, n.state);
    if n.state.TouchState? {
      TouchCompletionEdges(o, n, c, control);
    }
  }

  /** A packet that does not end its frame moves the cursor, so the buttons it carried are not pending. */
  lemma TouchCompletionEdges(o: Options, n: Node, c: Outcome, control: Control)
    requires o.Touch? && Accepted(o) && NodeOk(o, n) && n.inflight && n.state.TouchState?
    ensures var r := Completed(n, c);
            && ValueOf(o, r.state, control) == ValueOf(o, n.state, control)
            && (EdgePending(o, r.state, control) <==> EdgePending(o, n.state, control) && !MayHaveApplied(c))
  {
    hide Accepted, StateOk, Active, AnyPhase, AnyPressed, HasNonNeutral;
    AcceptedPlaces(o);
  }

  lemma AcceptedPlaces(o: Options)
    requires o.Touch? && Accepted(o)
    ensures o.contactsPerReport > 0
  {
    hide ValidField;
  }

  lemma StampEdges(o: Options, s: NodeState, ticks: nat, c: Control)
    ensures ValueOf(o, Stamped(o, s, ticks), c) == ValueOf(o, s, c)
            && EdgePending(o, Stamped(o, s, ticks), c) == EdgePending(o, s, c)
  {
  }

  // ----- The invariant ---------------------------------------------------------------------------

  /** `accepted` and `consumed` are histories that end in the state, but for one pending edge. */
  predicate InStep(o: Options, s: NodeState, c: Control, accepted: seq<int>, consumed: seq<int>) {
    && |accepted| > 0 && |consumed| > 0 && accepted[|accepted| - 1] == ValueOf(o, s, c)
    && (EdgePending(o, s, c) <==> consumed[|consumed| - 1] != ValueOf(o, s, c))
    && Collapse(accepted) == Collapse(consumed) + if EdgePending(o, s, c) then [ValueOf(o, s, c)] else []
  }

  /** The history grows by what the call asked for, if it was about the control. */
  function Extended(history: seq<int>, asked: Option<int>): seq<int> {
    history + if asked.Some? then [asked.value] else []
  }

  lemma CallInStep(o: Options, s: NodeState, r: NodeState, c: Control, asked: Option<int>, accepted: seq<int>,
                   consumed: seq<int>)
    requires InStep(o, s, c, accepted, consumed) && EdgeRule(o, s, r, c, asked)
    ensures InStep(o, r, c, Extended(accepted, asked), consumed)
  {
    hide ValueOf, EdgePending, Collapse;
    CollapseSnoc(accepted, ValueOf(o, r, c));
    CollapseLast(accepted);
    CollapseLast(consumed);
    assert accepted + [] == accepted;
  }

  lemma CollapseLast(history: seq<int>)
    requires |history| > 0
    ensures |Collapse(history)| > 0 && Collapse(history)[|Collapse(history)| - 1] == history[|history| - 1]
  {
  }

  lemma ConsumeInStep(o: Options, s: NodeState, r: NodeState, c: Control, accepted: seq<int>, consumed: seq<int>)
    requires InStep(o, s, c, accepted, consumed) && ValueOf(o, r, c) == ValueOf(o, s, c) && !EdgePending(o, r, c)
    ensures InStep(o, r, c, accepted, consumed + [ValueOf(o, s, c)])
  {
    hide ValueOf, EdgePending, Collapse;
    CollapseSnoc(consumed, ValueOf(o, s, c));
  }

  /** Histories before and after one event. */
  lemma StepInStep(o: Options, w: World, e: Event, c: Control, accepted: seq<int>, consumed: seq<int>)
    requires Tracked(o) && Accepted(o) && Steady(o, w) && !e.Neutralize?
             && InStep(o, w.node.state, c, accepted, consumed)
    ensures var r := Step(o, w, e).node.state;
            InStep(o, r, c,
                   accepted + (if e.Call? && Mutate(o, w.node, e.m).0 == Ok && Argument(e.m, c).Some?
                               then [Argument(e.m, c).value] else []),
                   consumed + (if Enabled(w, e) && e.Complete? && MayHaveApplied(e.outcome)
                               then [ReportedValue(o, w.sent.value, c)] else []))
  {
    hide Accepted, StateOk, ValueOf, EdgePending, InStep, EditOf, Completed, Refused, Remembered, Sendable,
         ReportedValue,
         ImageOf, Receive, Stamped;
    assert accepted + [] == accepted && consumed + [] == consumed;
    TrackedState(o, w.node.state);
    match e
    case Call(m) =>
      if Mutate(o, w.node, m).0 == Ok {
        EditEdges(o, w.node.state, m, c);
        CallInStep(o, w.node.state, EditOf(o, w.node.state, m).state, c, Argument(m, c), accepted, consumed);
      }
    case Complete(outcome, _) =>
      if Enabled(w, e) {
        CompletionEdges(o, w.node, outcome, c);
        if MayHaveApplied(outcome) {
          ConsumeInStep(o, w.node.state, Completed(w.node, outcome).state, c, accepted, consumed);
        } else {
          SameInStep(o, w.node.state, Completed(w.node, outcome).state, c, accepted, consumed);
        }
      }
    case Reject(ticks, outcome) =>
      if Enabled(w, e) {
        RejectKeeps(o, w, ticks, outcome);
      }
    case Submit(ticks) =>
      StampEdges(o, w.node.state, ticks, c);
      SameInStep(o, w.node.state, Stamped(o, w.node.state, ticks), c, accepted, consumed);
    case _ =>
  }

  lemma SameInStep(o: Options, s: NodeState, r: NodeState, c: Control, accepted: seq<int>, consumed: seq<int>)
    requires InStep(o, s, c, accepted, consumed) && ValueOf(o, r, c) == ValueOf(o, s, c)
             && EdgePending(o, r, c) == EdgePending(o, s, c)
    ensures InStep(o, r, c, accepted, consumed)
  {
  }

  lemma BlankFlags(n: nat, button: nat)
    ensures !IsPressed(Repeat(n, false), button)
  {
  }

  lemma BlankKeys(o: Options, usage: nat)
    requires o.Keyboard? && o.usageMinimum <= o.usageMaximum
    ensures !KeyIn(o, Repeat(o.usageMaximum - o.usageMinimum + 1, false), {}, usage)
  {
  }

  lemma RestingControl(o: Options, c: Control)
    requires Tracked(o) && Accepted(o)
    ensures !EdgePending(o, NewNode(o).state, c) && ValueOf(o, NewNode(o).state, c) == 0
  {
    hide ValidReportId, AcceptedMouse, AcceptedGamepad, AcceptedToggle, AcceptedTouch, Repeat, IsPressed;
    var button: nat := if c.ButtonControl? then c.button else 0;
    match o
    case Keyboard(_, low, high) => BlankKeys(o, if c.KeyControl? then c.usage else 0);
    case Mouse(_, _, _, count, _, _) => BlankFlags(count, button);
    case Gamepad(_, _, _, count, _) => BlankFlags(count, button);
    case Touch(_, _, _, _, _, _, _, _, _, _, _, _, _, _, _, count) => BlankFlags(count, button);
    case _ =>
  }

  lemma StartInStep(o: Options, c: Control)
    requires Tracked(o) && Accepted(o)
    ensures InStep(o, NewNode(o).state, c, [0], [0])
  {
    hide Accepted;
    RestingControl(o, c);
    assert Collapse([0]) + [] == Collapse([0]);
  }

  lemma {:induction false} HistoriesInStep(o: Options, events: seq<Event>, c: Control)
    requires Tracked(o) && Accepted(o) && NoNeutralize(events)
    ensures var w := NewWorld(o);
            InStep(o, RunAll(o, w, events).node.state, c, AcceptedValues(o, events, c), ConsumedValues(o, events, c))
  {
    hide Accepted, Step, Enabled, Mutate, InStep, ValueOf, ReportedValue, NewNode, Steady, MayHaveApplied;
    if |events| == 0 {
      StartInStep(o, c);
    } else {
      var prefix, e := events[..|events| - 1], events[|events| - 1];
      RunSteady(o, prefix);
      HistoriesInStep(o, prefix, c);
      StepInStep(o, RunAll(o, NewWorld(o), prefix), e, c, AcceptedValues(o, prefix, c),
                 ConsumedValues(o, prefix, c));
    }
  }

  /**
   * No input edge is lost: the changes in consumed reports are the changes the caller made, in order,
   * except possibly the very last one, which is then still marked pending.
   */
  lemma NoEdgeIsLost(o: Options, events: seq<Event>, c: Control)
    requires Tracked(o) && Accepted(o) && NoNeutralize(events)
    ensures var w := NewWorld(o);
            var accepted, consumed := Collapse(AcceptedValues(o, events, c)),
                Collapse(ConsumedValues(o, events, c));
            accepted == consumed || (|accepted| > 0 && accepted[..|accepted| - 1] == consumed)
    ensures EdgePending(o, RunAll(o, NewWorld(o), events).node.state, c) <==>
            Collapse(AcceptedValues(o, events, c)) != Collapse(ConsumedValues(o, events, c))
  {
    hide Accepted, ValueOf, EdgePending, Collapse, AcceptedValues, ConsumedValues, RunAll, NewNode;
    HistoriesInStep(o, events, c);
  }

  // ----- A clean Node is in sync -----------------------------------------------------------------

  /** What the target shows; before the first report, the profile at rest. */
  function TargetImage(o: Options, t: Target): Option<Image>
    requires Accepted(o)
  {
    if t.last.Some? then t.last else ImageOf(o, InitialState(o))
  }

  /** The same lasting content: relative movement does not last. */
  predicate SameContent(a: Option<Image>, b: Option<Image>) {
    && a.Some? && b.Some?
    && if a.value.MouseImage? && b.value.MouseImage? then a.value.buttons == b.value.buttons else a == b
  }

  predicate InSync(o: Options, w: World)
    requires Accepted(o)
  {
    w.node.dirty
    || (&& SameContent(TargetImage(o, w.target), ImageOf(o, w.node.state))
        && (w.node.state.PenState? ==> w.node.state.desired == w.node.state.emitted && !w.node.state.departing))
  }

  /** An accepted call that brings nothing new leaves everything a report carries as it was. */
  lemma UntouchedPen(o: Options, s: NodeState, m: Mutation)
    requires o.Pen? && s.PenState? && RightProfile(o, m) && EditOf(o, s, m).result == Ok && !EditOf(o, s, m).touched
    requires s.desired == s.emitted && !s.departing
    ensures EditOf(o, s, m).state.PenState?
    ensures var r := EditOf(o, s, m).state; r.desired == s.desired && r.emitted == s.emitted && !r.departing
  {
    hide ValidPen, PenConflicts, Differing;
  }

  lemma UntouchedAxis(o: Options, s: NodeState, index: nat, value: Int32)
    requires EditAxis(o, s, index, value).result == Ok && !EditAxis(o, s, index, value).touched
    ensures EditAxis(o, s, index, value).state == s
  {
    assert s.axes[index := s.axes[index]] == s.axes;
  }

  lemma UntouchedOther(o: Options, s: NodeState, m: Mutation)
    requires RightProfile(o, m) && !o.Touch? && !o.Pen? && !o.Battery? && !m.SetAxis?
    requires EditOf(o, s, m).result == Ok && !EditOf(o, s, m).touched
    ensures EditOf(o, s, m).state == s
  {
    hide AllowedUsage, EncodeDPad, EditAxis, EditContact, EditPen, EditDepart, EditBattery;
  }

  lemma UntouchedBattery(o: Options, s: NodeState, hasValue: bool, strength: Int32)
    requires EditBattery(o, s, hasValue, strength).result == Ok && !EditBattery(o, s, hasValue, strength).touched
    ensures EditBattery(o, s, hasValue, strength).state == s
  {
  }

  lemma PenSame(o: Options, s: NodeState, r: NodeState)
    requires o.Pen? && s.PenState? && r.PenState?
    requires s.desired == r.desired && s.emitted == r.emitted && s.departing == r.departing
    ensures ImageOf(o, s) == ImageOf(o, r)
  {
  }

  lemma UntouchedSame(o: Options, s: NodeState, m: Mutation)
    requires Accepted(o) && StateOk(o, s) && RightProfile(o, m) && !o.Touch?
    requires EditOf(o, s, m).result == Ok && !EditOf(o, s, m).touched
    requires s.PenState? ==> s.desired == s.emitted && !s.departing
    ensures SameContent(ImageOf(o, s), ImageOf(o, EditOf(o, s, m).state))
    ensures var r := EditOf(o, s, m).state; r.PenState? ==> r.desired == r.emitted && !r.departing
  {
    hide Accepted, StateOk, ImageOf, EditKey, EditMove, EditScroll, EditButton, EditUsage, EditAxis, EditDPad,
         EditContact,
         EditPen, EditDepart, EditBattery;
    ImageExists(o, s);
    if o.Pen? {
      PenOnly(o, s);
      UntouchedPen(o, s, m);
      PenSame(o, s, EditOf(o, s, m).state);
    } else if o.Battery? {
      UntouchedBattery(o, s, m.hasValue, m.strength);
    } else if m.SetAxis? {
      UntouchedAxis(o, s, m.index, m.value);
    } else {
      UntouchedOther(o, s, m);
    }
  }

  lemma PenOnly(o: Options, s: NodeState)
    requires o.Pen? && StateOk(o, s)
    ensures s.PenState?
  {
  }

  lemma AppliedSync(o: Options, n: Node)
    requires StateOk(o, n.state) && !o.Touch?
    ensures var r := Completed(n, Outcome(Ok, 0));
            r.dirty
            || (&& SameContent(ImageOf(o, n.state), ImageOf(o, r.state))
                && (r.state.PenState? ==> r.state.desired == r.state.emitted && !r.state.departing))
  {
    hide CountPressed, AllowedUsage;
  }

  lemma SuccessIsSuccess(n: Node, c: Outcome)
    requires c.result == Ok && c.native >= 0
    ensures Completed(n, c) == Completed(n, Outcome(Ok, 0))
  {
    hide ConsumeEdges, Applied;
  }

  lemma RefusedIsDirty(n: Node, c: Outcome)
    requires !MayHaveApplied(c)
    ensures Completed(n, c).dirty
  {
  }

  lemma StepSync(o: Options, w: World, e: Event)
    requires Accepted(o) && !o.Touch? && Steady(o, w) && InSync(o, w) && !e.Neutralize? && CertainEvent(e)
    ensures InSync(o, Step(o, w, e))
  {
    hide Accepted, StateOk, EditOf, ImageOf, Completed, Refused, Remembered, Sendable, SameContent, InitialState;
    match e
    case Call(m) =>
      if RightProfile(o, m) && w.node.present && !w.node.inflight && EditOf(o, w.node.state, m).result == Ok
         && !w.node.dirty && !EditOf(o, w.node.state, m).touched
      {
        UntouchedSame(o, w.node.state, m);
        SameTransitive(TargetImage(o, w.target), ImageOf(o, w.node.state),
                       ImageOf(o, EditOf(o, w.node.state, m).state));
      }
    case Complete(outcome, applied) =>
      if Enabled(w, e) {
        if outcome.result == Ok {
          SuccessIsSuccess(w.node, outcome);
          AppliedSync(o, w.node);
        } else {
          RefusedIsDirty(w.node, outcome);
        }
      }
    case Submit(_) => TouchlessStamp(o, w.node.state);
    case Reject(ticks, outcome) =>
      if Enabled(w, e) {
        RejectKeeps(o, w, ticks, outcome);
      }
    case _ =>
  }

  lemma SameTransitive(a: Option<Image>, b: Option<Image>, c: Option<Image>)
    ensures SameContent(a, b) && SameContent(b, c) ==> SameContent(a, c)
  {
  }

  lemma TouchlessStamp(o: Options, s: NodeState)
    requires StateOk(o, s) && !o.Touch?
    ensures forall ticks :: Stamped(o, s, ticks) == s
  {
  }

  /** Without uncertain completions, a Node that is clean and idle is what the target shows. */
  lemma {:induction false} CleanMeansInSync(o: Options, events: seq<Event>)
    requires Accepted(o) && !o.Touch? && NoNeutralize(events) && Certain(events)
    ensures InSync(o, RunAll(o, NewWorld(o), events))
  {
    hide Accepted, Step, Steady, InSync, CertainEvent;
    if |events| == 0 {
      StartInSync(o);
    } else {
      var prefix, e := events[..|events| - 1], events[|events| - 1];
      RunSteady(o, prefix);
      CleanMeansInSync(o, prefix);
      StepSync(o, RunAll(o, NewWorld(o), prefix), e);
    }
  }

  lemma StartInSync(o: Options)
    requires Accepted(o)
    ensures InSync(o, NewWorld(o))
  {
    hide Accepted, InitialState;
    InitialOk(o);
    ImageExists(o, InitialState(o));
    FreshPen(o);
  }

  lemma FreshPen(o: Options)
    requires Accepted(o)
    ensures var s := InitialState(o); s.PenState? ==> s.desired == s.emitted && !s.departing
  {
  }
}
