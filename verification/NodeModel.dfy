/**
 * A Node as values: the state of each profile, what every mutator does to it, what a report carries,
 * and what a completion and the close-time neutralization do (src/profiles/state.cpp, src/api/c_api.cpp).
 */
module NodeModel {
  import opened Common
  import opened Factories

  const CONTACT_SLOTS := 16

  // ----- State -----------------------------------------------------------------------------------

  datatype Phase = Absent | Down | Up

  datatype TouchSample = TouchSample(id: nat, x: int, y: int, pressure: int, width: int, height: int, azimuth: int)

  const NO_TOUCH := TouchSample(0, 0, 0, 0, 0, 0, 0)

  datatype Contact = Contact(phase: Phase, sample: TouchSample, pending: bool)

  /** `barrels` holds the indices of the pressed barrel switches. */
  datatype PenSample = PenSample(
    inRange: bool, tip: bool, eraser: bool, barrels: set<nat>, x: int, y: int, pressure: int, tiltX: int, tiltY: int,
        twist: int)

  const NO_PEN := PenSample(false, false, false, {}, 0, 0, 0, 0, 0, 0)

  /** `modifiers` holds the indices of the pressed modifier keys; `pending` flags mark unreported edges. */
  datatype NodeState =
    | KeyboardState(keys: seq<bool>, keysPending: seq<bool>, pressedCount: nat, modifiers: set<nat>,
                    modifiersPending: set<nat>)
    | MouseState(buttons: seq<bool>, buttonsPending: seq<bool>, dx: int, dy: int, wheel: int, pan: int)
    | ToggleState(usage: nat, pending: bool)
    | GamepadState(axes: seq<int>, buttons: seq<bool>, buttonsPending: seq<bool>, hasDirection: bool, hat: nat,
                   hatPending: bool)
    | TouchState(contacts: seq<Contact>, buttons: seq<bool>, buttonsPending: seq<bool>, scanTime: nat, cursor: nat,
                 epochActive: bool)
    | PenState(desired: PenSample, emitted: PenSample, barrelsPending: set<nat>, departing: bool, rangePending: bool,
               tipPending: bool, eraserPending: bool)
    | BatteryState(hasValue: bool, strength: int)

  /** Numbers remembered from the report in flight. */
  datatype Submitted = Submitted(dx: int, dy: int, wheel: int, pan: int, touchCount: nat, finalPacket: bool,
                                 nonNeutral: bool)

  const NOTHING_SUBMITTED := Submitted(0, 0, 0, 0, 0, false, false)

  datatype Node = Node(
    state: NodeState, dirty: bool, inflight: bool, present: bool, completion: ResultCode, submitted: Submitted,
    emittedNonNeutral: bool)

  function Repeat<T>(n: nat, value: T): seq<T> {
    seq(n, _ => value)
  }

  /** `initialize_node_state`. */
  function InitialState(o: Options): NodeState
    requires Accepted(o)
  {
    match o
    case Keyboard(_, low, high) => KeyboardState(Repeat(high - low + 1, false), Repeat(high - low + 1, false), 0, {},
                                                 {})
    case Mouse(_, _, _, count, _, _) => MouseState(Repeat(count, false), Repeat(count, false), 0, 0, 0, 0)
    case Toggle(_, _, _, _, _) => ToggleState(0, false)
    case Gamepad(_, axes, _, count, _) =>
      GamepadState(seq(|axes|, k requires 0 <= k < |axes| => axes[k].neutral), Repeat(count, false),
                   Repeat(count, false), false, 0, false)
    case Touch(_, _, _, _, _, _, _, _, _, _, _, _, _, _, _, count) =>
      TouchState(Repeat(CONTACT_SLOTS, Contact(Absent, NO_TOUCH, false)), Repeat(count, false), Repeat(count, false),
                 0, 0, false)
    case Pen(_, _, _, _, _, _, _, _, _, _) => PenState(NO_PEN, NO_PEN, {}, false, false, false, false)
    case Battery(_, _, _) => BatteryState(false, 0)
  }

  function NewNode(o: Options): Node
    requires Accepted(o)
  {
    Node(InitialState(o), false, false, true, Ok, NOTHING_SUBMITTED, false)
  }

  // ----- Mutators --------------------------------------------------------------------------------

  datatype Mutation =
    | Key(usage: Uint16, down: bool)
    | Move(dx: Int32, dy: Int32)
    | Scroll(wheel: Int32, pan: Int32)
    | Button(button: nat, pressed: bool)
    | SetUsage(usage: Uint16, down: bool)
    | SetAxis(index: nat, value: Int32)
    | SetDPad(up: bool, down: bool, right: bool, left: bool)
    | SetContact(down: bool, sample: TouchSample)
    | UpdatePen(pen: PenSample)
    | DepartPen
    | UpdateBattery(hasValue: bool, strength: Int32)

  /** What a mutator does: its result, the new state, and whether there is something new to send. */
  datatype Edit = Edit(result: ResultCode, state: NodeState, touched: bool)

  function Denied(result: ResultCode, s: NodeState): Edit {
    Edit(result, s, false)
  }

  predicate Within(value: int, f: IntegerField) {
    f.minimum <= value <= f.maximum
  }

  /** Disabled optional fields accept zero only. */
  predicate WithinOptional(value: int, f: Option<IntegerField>) {
    if f.Some? then Within(value, f.value) else value == 0
  }

  const LEFT_CONTROL := 0xE0
  const RIGHT_GUI := 0xE7

  /** `aoahid_kbd`. */
  function EditKey(o: Options, s: NodeState, usage: Uint16, down: bool): Edit {
    if !o.Keyboard? || !s.KeyboardState? then Denied(ErrParam, s)
    else if LEFT_CONTROL <= usage <= RIGHT_GUI then
      var k: nat := usage - LEFT_CONTROL;
      if (k in s.modifiers) == down then Edit(Ok, s, false)
      else if k in s.modifiersPending then Denied(ErrBusy, s)
      else Edit(Ok, s.(modifiers := if down then s.modifiers + {k} else s.modifiers - {k},
                       modifiersPending := s.modifiersPending + {k}), true)
    else if usage < o.usageMinimum || usage > o.usageMaximum then Denied(ErrParam, s)
    else
      var k: nat := usage - o.usageMinimum;
      if k >= |s.keysPending| || k >= |s.keys| then Denied(ErrInternal, s)
      else if s.keys[k] == down then Edit(Ok, s, false)
      else if s.keysPending[k] then Denied(ErrBusy, s)
      else if (if down then s.pressedCount >= |s.keys| else s.pressedCount == 0) then Denied(ErrInternal, s)
      else Edit(Ok, s.(keys := s.keys[k := down], keysPending := s.keysPending[k := true],
                       pressedCount := if down then s.pressedCount + 1 else s.pressedCount - 1), true)
  }

  /** `add_checked`: the sum, unless it leaves 64 bits. */
  function AddChecked(target: int, value: Int32): Option<int> {
    if (value > 0 && target > INT64_MAX - value) || (value < 0 && target < INT64_MIN - value) then None
    else Some(target + value)
  }

  /** `aoahid_mouse_move`. */
  function EditMove(o: Options, s: NodeState, dx: Int32, dy: Int32): Edit {
    if !o.Mouse? || !s.MouseState? then Denied(ErrParam, s)
    else if AddChecked(s.dx, dx).None? || AddChecked(s.dy, dy).None? then Denied(ErrOverflow, s)
    else Edit(Ok, s.(dx := AddChecked(s.dx, dx).value, dy := AddChecked(s.dy, dy).value), dx != 0 || dy != 0)
  }

  /** `aoahid_mouse_scroll`. */
  function EditScroll(o: Options, s: NodeState, wheel: Int32, pan: Int32): Edit {
    if !o.Mouse? || !s.MouseState? then Denied(ErrParam, s)
    else if (wheel != 0 && o.wheel.None?) || (pan != 0 && o.pan.None?) then Denied(ErrUnsupported, s)
    else if AddChecked(s.wheel, wheel).None? || AddChecked(s.pan, pan).None? then Denied(ErrOverflow, s)
    else Edit(Ok, s.(wheel := AddChecked(s.wheel, wheel).value, pan := AddChecked(s.pan, pan).value), wheel != 0
              || pan != 0)
  }

  /** `aoahid_mouse_button`, `aoahid_gamepad_button` and `aoahid_touchpad_button`. */
  function EditButton(o: Options, s: NodeState, button: nat, pressed: bool): Edit {
    if !(o.Mouse? && s.MouseState?) && !(o.Gamepad? && s.GamepadState?) && !(o.Touch? && s.TouchState?) then
        Denied(ErrParam, s)
    else if s.TouchState? && s.cursor != 0 then Denied(ErrBusy, s)
    else if button == 0 || button > |s.buttons| then Denied(ErrParam, s)
    else if |s.buttons| != |s.buttonsPending| then Denied(ErrInternal, s)
    else if s.buttons[button - 1] == pressed then Edit(Ok, s, false)
    else if s.buttonsPending[button - 1] then Denied(ErrBusy, s)
    else
      var buttons, pending := s.buttons[button - 1 := pressed], s.buttonsPending[button - 1 := true];
      Edit(Ok,
           match s
           case MouseState(_, _, dx, dy, wheel, pan) => MouseState(buttons, pending, dx, dy, wheel, pan)
           case GamepadState(axes, _, _, any, hat, hatPending) =>
               GamepadState(axes, buttons, pending, any, hat, hatPending)
           case TouchState(contacts, _, _, scan, cursor, epoch) =>
               TouchState(contacts, buttons, pending, scan, cursor, epoch)
           case _ => s,
           true)
  }

  predicate AllowedUsage(o: Options, usage: nat)
    requires o.Toggle?
  {
    exists k :: 0 <= k < |o.controls| && o.controls[k].usage == usage
  }

  /** `aoahid_toggle`: a press names an allowed Usage, a release names zero or the pressed one. */
  function EditUsage(o: Options, s: NodeState, usage: Uint16, down: bool): Edit {
    if !o.Toggle? || !s.ToggleState? then Denied(ErrParam, s)
    else if (if down then !AllowedUsage(o, usage) else usage != 0 && usage != s.usage) then Denied(ErrParam, s)
    else
      var next := if down then usage else 0;
      if s.usage == next then Edit(Ok, s, false)
      else if s.pending then Denied(ErrBusy, s)
      else Edit(Ok, s.(usage := next, pending := true), true)
  }

  /** `aoahid_gamepad_set_axis`. */
  function EditAxis(o: Options, s: NodeState, index: nat, value: Int32): Edit {
    if !o.Gamepad? || !s.GamepadState? then Denied(ErrParam, s)
    else if index >= |s.axes| || index >= |o.axes| || !Within(value, o.axes[index].value) then Denied(ErrParam, s)
    else Edit(Ok, s.(axes := s.axes[index := value]), s.axes[index] != value)
  }

  /** The four directions as bits, or clockwise eighths of a turn from the top. */
  function EncodeDPad(dpad: DPad, up: bool, down: bool, right: bool, left: bool): nat {
    if dpad.ButtonDPad? || !(up || down || right || left) then
      (if up then 1 else 0) + (if down then 2 else 0) + (if right then 4 else 0) + (if left then 8 else 0)
    else if up then if right then 1 else if left then 7 else 0
    else if down then if right then 3 else if left then 5 else 4
    else if right then 2 else 6
  }

  /** `aoahid_dpad`. */
  function EditDPad(o: Options, s: NodeState, up: bool, down: bool, right: bool, left: bool): Edit {
    if !o.Gamepad? || !s.GamepadState? || o.dpad.NoDPad? then Denied(ErrParam, s)
    else if o.dpad.HatDPad? && ((up && down) || (right && left)) then Denied(ErrParam, s)
    else
      var any, hat := up || down || right || left, EncodeDPad(o.dpad, up, down, right, left);
      if s.hasDirection == any && s.hat == hat then Edit(Ok, s, false)
      else if s.hatPending then Denied(ErrBusy, s)
      else Edit(Ok, s.(hasDirection := any, hat := hat, hatPending := true), true)
  }

  /** `validate_contact`: an Azimuth of one full turn is not a sample. */
  predicate ValidContact(o: Options, c: TouchSample)
    requires o.Touch?
  {
    && Within(c.id, o.contactIdentifier) && Within(c.x, o.x) && Within(c.y, o.y)
    && WithinOptional(c.pressure, o.pressure) && WithinOptional(c.width, o.width) && WithinOptional(c.height, o.height)
    && (if o.azimuth.Some? then 0 <= c.azimuth < o.azimuth.value.maximum else c.azimuth == 0)
  }

  /** The first slot from `from` on whose phase is `phase` (and, for a phase in use, whose ID is `id`). */
  function FindSlot(contacts: seq<Contact>, from: nat, phase: Phase, id: nat): (k: nat)
    requires from <= |contacts|
    ensures from <= k <= |contacts|
    ensures k < |contacts| ==> contacts[k].phase == phase && (phase.Absent? || contacts[k].sample.id == id)
    ensures forall j :: from <= j < k ==> !(contacts[j].phase == phase
                                            && (phase.Absent? || contacts[j].sample.id == id))
    decreases |contacts| - from
  {
    if from == |contacts| || (contacts[from].phase == phase && (phase.Absent? || contacts[from].sample.id == id)) then
        from
    else FindSlot(contacts, from + 1, phase, id)
  }

  /** The contacts in use, in slot order (`collect_touch`). */
  function Active(contacts: seq<Contact>): seq<Contact> {
    if |contacts| == 0 then []
    else
      var last := contacts[|contacts| - 1];
      Active(contacts[..|contacts| - 1]) + if last.phase.Absent? then [] else [last]
  }

  /** `aoahid_touch`. */
  function EditContact(o: Options, s: NodeState, down: bool, sample: TouchSample): Edit {
    if !o.Touch? || !s.TouchState? then Denied(ErrParam, s)
    else if s.cursor != 0 then Denied(ErrBusy, s)
    else
      var k := FindSlot(s.contacts, 0, Down, sample.id);
      if !down then
        if k == |s.contacts| || !Within(sample.x, o.x) || !Within(sample.y, o.y) then Denied(ErrParam, s)
        else if s.contacts[k].pending then Denied(ErrBusy, s)
        else
          var lifted := s.contacts[k].sample.(x := sample.x, y := sample.y, pressure := 0);
          Edit(Ok, s.(contacts := s.contacts[k := Contact(Up, lifted, true)]), true)
      else if !ValidContact(o, sample) then Denied(ErrParam, s)
      else if k < |s.contacts| then
        Edit(Ok, s.(contacts := s.contacts[k := s.contacts[k].(sample := sample)]), s.contacts[k].sample != sample)
      else if FindSlot(s.contacts, 0, Up, sample.id) < |s.contacts| then Denied(ErrBusy, s)
      else
        var free := FindSlot(s.contacts, 0, Absent, 0);
        if free == |s.contacts| || |Active(s.contacts)| >= o.maximumContacts then Denied(ErrOverflow, s)
        else Edit(Ok, s.(contacts := s.contacts[free := Contact(Down, sample, true)]), true)
  }

  /** Symmetric difference: the bits that differ. */
  function Differing(a: set<nat>, b: set<nat>): set<nat> {
    (a - b) + (b - a)
  }

  /** `pen_transition_conflicts`. */
  predicate PenConflicts(s: NodeState, next: PenSample)
    requires s.PenState?
  {
    && (s.desired.inRange != next.inRange || s.desired.tip != next.tip || s.desired.eraser != next.eraser
        || Differing(s.desired.barrels, next.barrels) != {})
    && (s.rangePending || s.tipPending || s.eraserPending || s.barrelsPending != {})
  }

  /** `record_pen_transitions`, and the sample that caused them. */
  function RecordPen(s: NodeState, next: PenSample): (r: NodeState)
    requires s.PenState?
    ensures r.PenState? && r.emitted == s.emitted && r.desired == next
  {
    s.(rangePending := s.rangePending || s.desired.inRange != next.inRange,
       tipPending := s.tipPending || s.desired.tip != next.tip,
       eraserPending := s.eraserPending || s.desired.eraser != next.eraser,
       barrelsPending := s.barrelsPending + Differing(s.desired.barrels, next.barrels),
       desired := next)
  }

  predicate ValidPen(o: Options, p: PenSample)
    requires o.Pen?
  {
    && (!o.hover ==> p.inRange == p.tip) && (p.tip ==> p.inRange) && (p.eraser ==> o.eraser)
    && (forall k :: k in p.barrels ==> k < |o.barrels|)
    && Within(p.x, o.x) && Within(p.y, o.y) && WithinOptional(p.pressure, o.pressure)
    && (if o.tilt.Some? then Within(p.tiltX, o.tilt.value.0) && Within(p.tiltY, o.tilt.value.1)
        else p.tiltX == 0 && p.tiltY == 0)
    && WithinOptional(p.twist, o.twist)
  }

  /** `aoahid_pen_update`. */
  function EditPen(o: Options, s: NodeState, sample: PenSample): Edit {
    if !o.Pen? || !s.PenState? then Denied(ErrParam, s)
    else if !ValidPen(o, sample) then Denied(ErrParam, s)
    else if PenConflicts(s, sample) then Denied(ErrBusy, s)
    else
      var recorded := RecordPen(s, sample);
      Edit(Ok, recorded.(departing := s.emitted.inRange && s.emitted.eraser != sample.eraser), s.desired != sample)
  }

  function Departed(p: PenSample): PenSample {
    p.(inRange := false, tip := false, barrels := {}, pressure := 0)
  }

  /** `aoahid_pen_depart`. */
  function EditDepart(o: Options, s: NodeState): Edit {
    if !o.Pen? || !s.PenState? then Denied(ErrParam, s)
    else if PenConflicts(s, Departed(s.desired)) then Denied(ErrBusy, s)
    else
      var recorded := RecordPen(s, Departed(s.desired));
      Edit(Ok, recorded.(departing := false), s.desired != Departed(s.desired))
  }

  /** `aoahid_battery_update`. */
  function EditBattery(o: Options, s: NodeState, hasValue: bool, strength: Int32): Edit {
    if !o.Battery? || !s.BatteryState? then Denied(ErrParam, s)
    else if (if hasValue then !Within(strength, o.strength) else strength != 0 || !o.unknownState) then
        Denied(ErrParam, s)
    else Edit(Ok, BatteryState(hasValue, strength), s.hasValue != hasValue || s.strength != strength)
  }

  function EditOf(o: Options, s: NodeState, m: Mutation): Edit {
    match m
    case Key(usage, down) => EditKey(o, s, usage, down)
    case Move(dx, dy) => EditMove(o, s, dx, dy)
    case Scroll(wheel, pan) => EditScroll(o, s, wheel, pan)
    case Button(button, pressed) => EditButton(o, s, button, pressed)
    case SetUsage(usage, down) => EditUsage(o, s, usage, down)
    case SetAxis(index, value) => EditAxis(o, s, index, value)
    case SetDPad(up, down, right, left) => EditDPad(o, s, up, down, right, left)
    case SetContact(down, sample) => EditContact(o, s, down, sample)
    case UpdatePen(pen) => EditPen(o, s, pen)
    case DepartPen => EditDepart(o, s)
    case UpdateBattery(hasValue, strength) => EditBattery(o, s, hasValue, strength)
  }

  /** The profile a mutator belongs to. */
  predicate RightProfile(o: Options, m: Mutation) {
    match m
    case Key(_, _) => o.Keyboard?
    case Move(_, _) => o.Mouse?
    case Scroll(_, _) => o.Mouse?
    case Button(_, _) => o.Mouse? || o.Gamepad? || o.Touch?
    case SetUsage(_, _) => o.Toggle?
    case SetAxis(_, _) => o.Gamepad?
    case SetDPad(_, _, _, _) => o.Gamepad?
    case SetContact(_, _) => o.Touch?
    case UpdatePen(_) => o.Pen?
    case DepartPen => o.Pen?
    case UpdateBattery(_, _) => o.Battery?
  }

  /** `usable`, then the mutator: a lost link freezes the state, a report in flight defers the call. */
  function Mutate(o: Options, n: Node, m: Mutation): (ResultCode, Node) {
    if !RightProfile(o, m) then (ErrParam, n)
    else if !n.present then (ErrNoDevice, n)
    else if n.inflight then (ErrBusy, n)
    else
      var e := EditOf(o, n.state, m);
      (e.result, if e.result == Ok then n.(state := e.state, dirty := n.dirty || e.touched) else n)
  }

  // ----- What a report carries -------------------------------------------------------------------

  /** One contact's place in a touch packet; places without a contact are all zero. */
  datatype Entry = Entry(id: nat, tip: bool, x: int, y: int, pressure: int, width: int, height: int, azimuth: int)

  const NO_ENTRY := Entry(0, false, 0, 0, 0, 0, 0, 0)

  datatype Image =
    | KeyboardImage(keys: seq<bool>, modifiers: set<nat>)
    | MouseImage(buttons: seq<bool>, dx: int, dy: int, wheel: int, pan: int)
    | ToggleImage(usage: nat)
    | GamepadImage(axes: seq<int>, buttons: seq<bool>, hasDirection: bool, hat: nat)
    | TouchImage(entries: seq<Entry>, buttons: seq<bool>, scanTime: nat, count: nat)
    | PenImage(sample: PenSample)
    | BatteryImage(hasValue: bool, strength: int)

  function Clamp(value: int, f: IntegerField): int {
    if value < f.minimum then f.minimum else if value > f.maximum then f.maximum else value
  }

  function ClampOptional(value: int, f: Option<IntegerField>): int {
    if f.Some? then Clamp(value, f.value) else 0
  }

  /** Pressure while touching is at least one. */
  function EntryOf(o: Options, c: Contact): Entry
    requires o.Touch?
  {
    Entry(c.sample.id, c.phase.Down?, c.sample.x, c.sample.y,
          if c.phase.Down? && o.pressure.Some? then Max(c.sample.pressure, 1) else 0,
          c.sample.width, c.sample.height, c.sample.azimuth)
  }

  /** The contacts of the packet that starts at the cursor, padded to the packet's places. */
  function PacketEntries(o: Options, active: seq<Contact>, cursor: nat): (entries: seq<Entry>)
    requires o.Touch?
    ensures |entries| == o.contactsPerReport
  {
    seq(o.contactsPerReport, k requires 0 <= k =>
      if cursor + k < |active| then EntryOf(o, active[cursor + k]) else NO_ENTRY)
  }

  /** The sample a pen report carries: a pending tool change first leaves range where the pen was. */
  function PenReport(o: Options, s: NodeState): PenSample
    requires o.Pen? && s.PenState?
  {
    if s.departing then Departed(s.emitted).(eraser := false)
    else
      s.desired.(eraser := s.desired.inRange && s.desired.eraser,
                 barrels := if s.desired.inRange then s.desired.barrels else {},
                 pressure := if s.desired.tip && o.pressure.Some? then Max(s.desired.pressure, 1) else 0)
  }

  /** The content of the report that `serialize_node` makes of a state. */
  function ImageOf(o: Options, s: NodeState): Option<Image> {
    match s
    case KeyboardState(keys, _, _, modifiers, _) => if o.Keyboard? then Some(KeyboardImage(keys, modifiers)) else None
    case MouseState(buttons, _, dx, dy, wheel, pan) =>
      if o.Mouse? then
        Some(MouseImage(buttons, Clamp(dx, o.x), Clamp(dy, o.y), ClampOptional(wheel, o.wheel),
                        ClampOptional(pan, o.pan)))
      else None
    case ToggleState(usage, _) => if o.Toggle? then Some(ToggleImage(usage)) else None
    case GamepadState(axes, buttons, _, hasDirection, hat, _) =>
      if o.Gamepad? then Some(GamepadImage(axes, buttons, hasDirection, hat)) else None
    case TouchState(contacts, buttons, _, scanTime, cursor, _) =>
      if o.Touch? then
        Some(TouchImage(PacketEntries(o, Active(contacts), cursor), buttons, scanTime,
                        if cursor == 0 then |Active(contacts)| else 0))
      else None
    case PenState(_, _, _, _, _, _, _) => if o.Pen? then Some(PenImage(PenReport(o, s))) else None
    case BatteryState(hasValue, strength) => if o.Battery? then Some(BatteryImage(hasValue, strength)) else None
  }

  // ----- Neutral ---------------------------------------------------------------------------------

  predicate AnyPressed(buttons: seq<bool>) {
    true in buttons
  }

  predicate AxesNeutral(o: Options, axes: seq<int>) {
    o.Gamepad? ==> |axes| <= |o.axes| && forall k :: 0 <= k < |axes| ==> axes[k] == o.axes[k].neutral
  }

  predicate AnyPhase(contacts: seq<Contact>, phase: Phase) {
    exists k :: 0 <= k < |contacts| && contacts[k].phase == phase
  }

  /** `has_non_neutral_state`. */
  predicate HasNonNeutral(o: Options, s: NodeState) {
    match s
    case KeyboardState(_, _, count, modifiers, _) => modifiers != {} || count != 0
    case MouseState(buttons, _, _, _, _, _) => AnyPressed(buttons)
    case ToggleState(usage, _) => usage != 0
    case GamepadState(axes, buttons, _, hasDirection, _, _) =>
        !AxesNeutral(o, axes) || hasDirection || AnyPressed(buttons)
    case TouchState(contacts, buttons, _, _, _, _) => AnyPhase(contacts, Down) || AnyPressed(buttons)
    case PenState(desired, _, _, departing, _, _, _) =>
        departing || desired.inRange || desired.tip || desired.barrels != {}
    case BatteryState(_, _) => false
  }

  function LiftAll(contacts: seq<Contact>): seq<Contact> {
    seq(|contacts|, k requires 0 <= k < |contacts| => if contacts[k].phase.Down? then contacts[k].(phase := Up)
        else contacts[k])
  }

  /** The state after the close-time neutralization, and whether there was anything to neutralize. */
  function Neutralized(o: Options, s: NodeState): (NodeState, bool) {
    match s
    case KeyboardState(keys, _, count, modifiers, _) =>
      (s.(keys := Repeat(|keys|, false), pressedCount := 0, modifiers := {}), modifiers != {} || count != 0)
    case MouseState(buttons, _, _, _, _, _) =>
      (s.(buttons := Repeat(|buttons|, false), dx := 0, dy := 0, wheel := 0, pan := 0), AnyPressed(buttons))
    case ToggleState(usage, _) => (s.(usage := 0), usage != 0)
    case GamepadState(axes, buttons, _, hasDirection, _, _) =>
      (s.(axes := if o.Gamepad? && |axes| <= |o.axes| then
          seq(|axes|, k requires 0 <= k < |o.axes| => o.axes[k].neutral) else axes,
          buttons := Repeat(|buttons|, false), hasDirection := false, hat := 0),
       !AxesNeutral(o, axes) || hasDirection || AnyPressed(buttons))
    case TouchState(contacts, buttons, _, _, _, _) =>
      (s.(contacts := LiftAll(contacts), buttons := Repeat(|buttons|, false), cursor := 0),
       AnyPhase(contacts, Down) || AnyPhase(contacts, Up) || AnyPressed(buttons))
    case PenState(desired, emitted, _, _, _, _, _) =>
      (s.(desired := Departed(desired), departing := false),
       desired.inRange || desired.tip || desired.barrels != {} || emitted.inRange || emitted.tip
           || emitted.barrels != {})
    case BatteryState(_, _) => (s, false)
  }

  /** `make_neutral`. */
  function MakeNeutral(o: Options, n: Node): Node {
    var result := Neutralized(o, n.state);
    n.(state := result.0, dirty := (result.1 || n.emittedNonNeutral) && !o.Battery?)
  }

  // ----- Submitting ------------------------------------------------------------------------------

  /** The Scan Time update before a frame's first packet; `ticks` is the elapsed time of the environment. */
  function Stamped(o: Options, s: NodeState, ticks: nat): NodeState {
    if !s.TouchState? || !o.Touch? || s.cursor != 0 || o.scanTime.None? || o.scanTime.value.maximum < 0 then s
    else if !s.epochActive then s.(epochActive := true, scanTime := 0)
    else s.(scanTime := ticks % (o.scanTime.value.maximum + 1))
  }

  /** The contacts that still have to be sent in this frame. */
  function Unsent(o: Options, s: NodeState): nat {
    if s.TouchState? && |Active(s.contacts)| > s.cursor then |Active(s.contacts)| - s.cursor else 0
  }

  /** What `serialize_node` and `aoahid_node_submit` remember about the report they hand over. */
  function Remembered(o: Options, s: NodeState): Submitted {
    var nonNeutral := HasNonNeutral(o, s);
    if s.MouseState? && o.Mouse? then
      Submitted(Clamp(s.dx, o.x), Clamp(s.dy, o.y), ClampOptional(s.wheel, o.wheel), ClampOptional(s.pan, o.pan), 0,
                false, nonNeutral)
    else if s.TouchState? && o.Touch? then
      var count: nat := Min(o.contactsPerReport, Unsent(o, s));
      Submitted(0, 0, 0, 0, count, s.cursor + count >= |Active(s.contacts)|, nonNeutral)
    else Submitted(0, 0, 0, 0, 0, false, nonNeutral)
  }

  /** The Node once its report is with the transport. */
  function Launched(o: Options, n: Node, ticks: nat): Node {
    var stamped := Stamped(o, n.state, ticks);
    n.(state := stamped, inflight := true, submitted := Remembered(o, stamped))
  }

  // ----- Completing ------------------------------------------------------------------------------

  function Settled(contacts: seq<Contact>): seq<Contact> {
    seq(|contacts|, k requires 0 <= k < |contacts| => contacts[k].(pending := false))
  }

  /** `consume_lifecycle_transitions`: the edges a report has carried are no longer pending. */
  function ConsumeEdges(s: NodeState): NodeState {
    match s
    case KeyboardState(_, pending, _, _, _) => s.(keysPending := Repeat(|pending|, false), modifiersPending := {})
    case MouseState(buttons, pending, dx, dy, wheel, pan) =>
        MouseState(buttons, Repeat(|pending|, false), dx, dy, wheel, pan)
    case ToggleState(_, _) => s.(pending := false)
    case GamepadState(_, _, pending, _, _, _) => s.(buttonsPending := Repeat(|pending|, false), hatPending := false)
    case TouchState(contacts, buttons, pending, scan, cursor, epoch) =>
      TouchState(Settled(contacts), buttons, Repeat(|pending|, false), scan, cursor, epoch)
    case PenState(_, _, _, _, _, _, _) =>
      s.(barrelsPending := {}, rangePending := false, tipPending := false, eraserPending := false)
    case BatteryState(_, _) => s
  }

  /** How the transport ended a report. */
  datatype Outcome = Outcome(result: ResultCode, native: int)

  /** The target may have applied the report: libusb took it and the target did not stall it. */
  predicate MayHaveApplied(c: Outcome) {
    c.native >= 0 && c.result != ErrStall
  }

  function FreeLifted(contacts: seq<Contact>): seq<Contact> {
    seq(|contacts|, k requires 0 <= k < |contacts| => if contacts[k].phase.Up? then contacts[k].(phase := Absent)
        else contacts[k])
  }

  /** The profile part of `transfer_complete` for an applied report: state, dirty, and whether its edges are spent. */
  function Applied(s: NodeState, sent: Submitted): (NodeState, bool, bool) {
    match s
    case TouchState(contacts, buttons, _, _, cursor, epochActive) =>
      if sent.finalPacket then
        var freed := FreeLifted(contacts);
        (s.(contacts := freed, cursor := 0, epochActive := epochActive
            && (AnyPhase(freed, Down) || AnyPressed(buttons))), false, true)
      else (s.(cursor := cursor + sent.touchCount), true, false)
    case PenState(desired, emitted, _, departing, _, _, _) =>
      if departing then (s.(emitted := emitted.(inRange := false, tip := false), departing := false), true, false)
      else (s.(emitted := desired), false, true)
    case _ => (s, false, true)
  }

  /** `transfer_complete`. */
  function Completed(n: Node, c: Outcome): Node {
    var landed := n.(inflight := false, completion := c.result, submitted := NOTHING_SUBMITTED);
    if !MayHaveApplied(c) then landed.(dirty := true)
    else
      var emitted := if c.result == Ok then n.submitted.nonNeutral else n.emittedNonNeutral || n.submitted.nonNeutral;
      match n.state
      case MouseState(_, _, dx, dy, wheel, pan) =>
        var rest := n.state.(dx := dx - n.submitted.dx, dy := dy - n.submitted.dy, wheel := wheel - n.submitted.wheel,
                             pan := pan - n.submitted.pan);
        landed.(state := ConsumeEdges(rest), emittedNonNeutral := emitted,
                dirty := c.result == Ok && (rest.dx != 0 || rest.dy != 0 || rest.wheel != 0 || rest.pan != 0))
      case _ =>
        if c.result == Ok then
          var (next, dirty, spent) := Applied(n.state, n.submitted);
          landed.(state := if spent then ConsumeEdges(next) else next, dirty := dirty, emittedNonNeutral := emitted)
        else
          var next := if n.state.TouchState? then n.state.(cursor := 0) else n.state;
          landed.(state := ConsumeEdges(next), dirty := false, emittedNonNeutral := emitted)
  }

  /** A submit that libusb refuses: the synthetic completion is consumed at once and Scan Time rolled back. */
  function Refused(o: Options, n: Node, ticks: nat, c: Outcome): Node {
    var landed := Completed(Launched(o, n, ticks), c);
    var restored :=
      if n.state.TouchState? && landed.state.TouchState?
      then landed.state.(scanTime := n.state.scanTime, epochActive := n.state.epochActive)
      else landed.state;
    landed.(state := restored, completion := Ok)
  }

  /** A refused submit leaves the Node as it was, with its report still to be sent. */
  lemma RefusedChangesNothing(o: Options, n: Node, ticks: nat, c: Outcome)
    requires c.native < 0 && !n.inflight && n.dirty && n.completion == Ok && n.submitted == NOTHING_SUBMITTED
    ensures Refused(o, n, ticks, c) == n
  {
  }
}
