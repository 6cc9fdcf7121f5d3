/**
 * What a Node's state says in the caller's terms (the Usages held, the buttons pressed, the contacts down), and the
 * proof that every accepted call does to it what its arguments say and nothing else, over whole runs.
 */
module CallEffects {
  import opened Common
  import opened BitMath
  import opened Factories
  import opened NodeModel
  import opened NodeFacts
  import opened NodeRun

  // ----- The state in the caller's terms ---------------------------------------------------------

  /**
   * `held` are Usages of the Keyboard page, `buttons` the numbers of pressed buttons from one on, `directions` the
   * D-pad Usages 0x90 to 0x93 (up, down, right, left), `touching` and `lifting` the samples of contacts that are down
   * and that are still to be reported as lifted.
   */
  datatype View =
    | KeysView(held: set<nat>)
    | MouseView(buttons: set<nat>, dx: int, dy: int, wheel: int, pan: int)
    | SelectionView(usage: nat)
    | PadView(axes: seq<int>, buttons: set<nat>, directions: set<nat>)
    | SurfaceView(touching: set<TouchSample>, lifting: set<TouchSample>, buttons: set<nat>)
    | StylusView(sample: PenSample)
    | ChargeView(level: Option<int>)

  const D_UP := 0x90
  const D_DOWN := 0x91
  const D_RIGHT := 0x92
  const D_LEFT := 0x93

  /** The Usage among modifier flags and the flags of the declared range. */
  predicate KeyIn(o: Options, keys: seq<bool>, modifiers: set<nat>, usage: nat)
    requires o.Keyboard?
  {
    if 0xE0 <= usage <= 0xE7 then usage - 0xE0 in modifiers
    else if o.usageMinimum <= usage <= o.usageMaximum && usage - o.usageMinimum < |keys| then
      keys[usage - o.usageMinimum]
    else false
  }

  predicate KeyHeld(o: Options, s: NodeState, usage: nat)
    requires o.Keyboard? && s.KeyboardState?
  {
    KeyIn(o, s.keys, s.modifiers, usage)
  }

  function HeldKeys(o: Options, s: NodeState): set<nat>
    requires o.Keyboard? && s.KeyboardState?
  {
    set usage: nat | usage < 0x1_0000 && KeyHeld(o, s, usage)
  }

  /** Buttons count from one. */
  predicate IsPressed(buttons: seq<bool>, button: nat) {
    1 <= button <= |buttons| && buttons[button - 1]
  }

  function Pressed(buttons: seq<bool>): set<nat> {
    set b: nat | b <= |buttons| && IsPressed(buttons, b)
  }

  /** The directions of a hat that points `eighth` eighths of a turn clockwise from the top. */
  function Compass(eighth: nat): set<nat> {
    if eighth == 0 then {D_UP}
    else if eighth == 1 then {D_UP, D_RIGHT}
    else if eighth == 2 then {D_RIGHT}
    else if eighth == 3 then {D_DOWN, D_RIGHT}
    else if eighth == 4 then {D_DOWN}
    else if eighth == 5 then {D_DOWN, D_LEFT}
    else if eighth == 6 then {D_LEFT}
    else if eighth == 7 then {D_UP, D_LEFT}
    else {}
  }

  predicate PointsTo(bits: nat, direction: nat) {
    D_UP <= direction <= D_LEFT && Bit(bits, direction - D_UP)
  }

  function BitDirections(bits: nat): set<nat> {
    set d: nat | d <= D_LEFT && PointsTo(bits, d)
  }

  function DirectionsOf(dpad: DPad, hasDirection: bool, hat: nat): set<nat> {
    if !hasDirection then {} else if dpad.ButtonDPad? then BitDirections(hat) else Compass(hat)
  }

  function Directions(o: Options, s: NodeState): set<nat>
    requires o.Gamepad? && s.GamepadState?
  {
    DirectionsOf(o.dpad, s.hasDirection, s.hat)
  }

  function Samples(contacts: seq<Contact>, phase: Phase): set<TouchSample> {
    set c | c in contacts && c.phase == phase :: c.sample
  }

  predicate Paired(o: Options, s: NodeState) {
    match o
    case Keyboard(_, _, _) => s.KeyboardState?
    case Mouse(_, _, _, _, _, _) => s.MouseState?
    case Toggle(_, _, _, _, _) => s.ToggleState?
    case Gamepad(_, _, _, _, _) => s.GamepadState?
    case Touch(_, _, _, _, _, _, _, _, _, _, _, _, _, _, _, _) => s.TouchState?
    case Pen(_, _, _, _, _, _, _, _, _, _) => s.PenState?
    case Battery(_, _, _) => s.BatteryState?
  }

  function ViewOf(o: Options, s: NodeState): View
    requires Paired(o, s)
  {
    match s
    case KeyboardState(_, _, _, _, _) => KeysView(HeldKeys(o, s))
    case MouseState(buttons, _, dx, dy, wheel, pan) => MouseView(Pressed(buttons), dx, dy, wheel, pan)
    case ToggleState(usage, _) => SelectionView(usage)
    case GamepadState(axes, buttons, _, _, _, _) => PadView(axes, Pressed(buttons), Directions(o, s))
    case TouchState(contacts, buttons, _, _, _, _) =>
      SurfaceView(Samples(contacts, Down), Samples(contacts, Up), Pressed(buttons))
    case PenState(desired, _, _, _, _, _, _) => StylusView(desired)
    case BatteryState(hasValue, strength) => ChargeView(if hasValue then Some(strength) else None)
  }

  // ----- What a call asks for --------------------------------------------------------------------

  function Put(members: set<nat>, member: nat, present: bool): set<nat> {
    if present then members + {member} else members - {member}
  }

  function DirectionSet(up: bool, down: bool, right: bool, left: bool): set<nat> {
    (if up then {D_UP} else {}) + (if down then {D_DOWN} else {}) + (if right then {D_RIGHT} else {})
    + (if left then {D_LEFT} else {})
  }

  function WithId(samples: set<TouchSample>, id: int): set<TouchSample> {
    set c | c in samples && c.id == id
  }

  /** The contact leaves where the caller says, without pressure, and as large as it was. */
  function LiftedAt(samples: set<TouchSample>, at: TouchSample): set<TouchSample> {
    set c | c in samples && c.id == at.id :: c.(x := at.x, y := at.y, pressure := 0)
  }

  /** The effect of an accepted call. */
  function Asked(v: View, m: Mutation): View {
    match m
    case Key(usage, down) => if v.KeysView? then KeysView(Put(v.held, usage, down)) else v
    case Move(dx, dy) => if v.MouseView? then v.(dx := v.dx + dx, dy := v.dy + dy) else v
    case Scroll(wheel, pan) => if v.MouseView? then v.(wheel := v.wheel + wheel, pan := v.pan + pan) else v
    case Button(button, pressed) => AskedButton(v, button, pressed)
    case SetUsage(usage, down) => if v.SelectionView? then SelectionView(if down then usage else 0) else v
    case SetAxis(index, value) => if v.PadView? && index < |v.axes| then v.(axes := v.axes[index := value]) else v
    case SetDPad(up, down, right, left) =>
      if v.PadView? then v.(directions := DirectionSet(up, down, right, left)) else v
    case SetContact(down, sample) => AskedContact(v, down, sample)
    case UpdatePen(pen) => if v.StylusView? then StylusView(pen) else v
    case DepartPen =>
      if v.StylusView? then StylusView(v.sample.(inRange := false, tip := false, barrels := {}, pressure := 0)) else v
    case UpdateBattery(hasValue, strength) =>
      if v.ChargeView? then ChargeView(if hasValue then Some(strength) else None) else v
  }

  function AskedButton(v: View, button: nat, pressed: bool): View {
    match v
    case MouseView(buttons, dx, dy, wheel, pan) => MouseView(Put(buttons, button, pressed), dx, dy, wheel, pan)
    case PadView(axes, buttons, directions) => PadView(axes, Put(buttons, button, pressed), directions)
    case SurfaceView(touching, lifting, buttons) => SurfaceView(touching, lifting, Put(buttons, button, pressed))
    case _ => v
  }

  function AskedContact(v: View, down: bool, sample: TouchSample): View {
    if !v.SurfaceView? then v
    else if down then v.(touching := v.touching - WithId(v.touching, sample.id) + {sample})
    else
      v.(touching := v.touching - WithId(v.touching, sample.id),
         lifting := v.lifting + LiftedAt(v.touching, sample))
  }

  // ----- One call --------------------------------------------------------------------------------

  lemma KeyEffect(o: Options, s: NodeState, usage: Uint16, down: bool)
    requires o.Keyboard? && Accepted(o) && StateOk(o, s) && EditKey(o, s, usage, down).result == Ok
    ensures EditKey(o, s, usage, down).state.KeyboardState?
    ensures HeldKeys(o, EditKey(o, s, usage, down).state) == Put(HeldKeys(o, s), usage, down)
  {
    hide CountPressed;
    var r := EditKey(o, s, usage, down).state;
    forall u: nat
      ensures u in HeldKeys(o, r) <==> u in Put(HeldKeys(o, s), usage, down)
    {
      assert KeyHeld(o, r, u) <==> if u == usage then down else KeyHeld(o, s, u);
    }
  }

  lemma PressEffect(buttons: seq<bool>, button: nat, pressed: bool)
    requires 1 <= button <= |buttons|
    ensures Pressed(buttons[button - 1 := pressed]) == Put(Pressed(buttons), button, pressed)
    ensures buttons[button - 1] == pressed ==> Put(Pressed(buttons), button, pressed) == Pressed(buttons)
  {
  }

  lemma ButtonEffect(o: Options, s: NodeState, button: nat, pressed: bool)
    requires Accepted(o) && StateOk(o, s) && Paired(o, s) && EditButton(o, s, button, pressed).result == Ok
    ensures Paired(o, EditButton(o, s, button, pressed).state)
    ensures ViewOf(o, EditButton(o, s, button, pressed).state) == AskedButton(ViewOf(o, s), button, pressed)
  {
    hide StateOk, Accepted, Pressed, Put, Samples, BitDirections, Compass;
    PressEffect(s.buttons, button, pressed);
  }

  function Digit(b: bool): nat {
    if b then 1 else 0
  }

  lemma LowBit(b: bool, rest: nat, k: nat)
    ensures Bit(Digit(b) + 2 * rest, 0) == b
    ensures Bit(Digit(b) + 2 * rest, k + 1) == Bit(rest, k)
  {
    assert (Digit(b) + 2 * rest) / 2 == rest;
  }

  lemma BitsOfFour(a: bool, b: bool, c: bool, d: bool)
    ensures var bits := Digit(a) + 2 * (Digit(b) + 2 * (Digit(c) + 2 * (Digit(d) + 2 * 0)));
            Bit(bits, 0) == a && Bit(bits, 1) == b && Bit(bits, 2) == c && Bit(bits, 3) == d
  {
    hide Bit, Digit;
    var i3 := Digit(d) + 2 * 0;
    var i2 := Digit(c) + 2 * i3;
    var i1 := Digit(b) + 2 * i2;
    LowBit(d, 0, 0);
    LowBit(c, i3, 0);
    LowBit(b, i2, 0);
    LowBit(b, i2, 1);
    LowBit(a, i1, 0);
    LowBit(a, i1, 1);
    LowBit(a, i1, 2);
  }

  /** Directions as bits. */
  lemma BitsPoint(up: bool, down: bool, right: bool, left: bool)
    ensures BitDirections(EncodeDPad(ButtonDPad, up, down, right, left)) == DirectionSet(up, down, right, left)
  {
    hide Bit;
    BitsOfFour(up, down, right, left);
    forall d: nat
      ensures d in BitDirections(EncodeDPad(ButtonDPad, up, down, right, left))
              <==> d in DirectionSet(up, down, right, left)
    {
      if D_UP <= d <= D_LEFT {
        assert d == D_UP || d == D_DOWN || d == D_RIGHT || d == D_LEFT;
      }
    }
  }

  /** Directions as eighths of a turn; opposite ones have no place on the compass. */
  lemma EighthsPoint(up: bool, down: bool, right: bool, left: bool)
    requires (up || down || right || left) && !(up && down) && !(right && left)
    ensures Compass(EncodeDPad(HatDPad, up, down, right, left)) == DirectionSet(up, down, right, left)
  {
  }

  lemma DPadEffect(o: Options, s: NodeState, up: bool, down: bool, right: bool, left: bool)
    requires o.Gamepad? && StateOk(o, s) && EditDPad(o, s, up, down, right, left).result == Ok
    ensures var r := EditDPad(o, s, up, down, right, left).state;
            && r.GamepadState? && r.axes == s.axes && r.buttons == s.buttons
            && Directions(o, r) == DirectionSet(up, down, right, left)
  {
    hide StateOk, EncodeDPad, Compass, BitDirections, DirectionSet;
    if !(up || down || right || left) {
      assert DirectionSet(up, down, right, left) == {} by { NoDirections(); }
    } else if o.dpad.ButtonDPad? {
      BitsPoint(up, down, right, left);
    } else {
      EighthsPoint(up, down, right, left);
    }
  }

  lemma NoDirections()
    ensures DirectionSet(false, false, false, false) == {}
  {
  }

  // ----- Contacts --------------------------------------------------------------------------------

  lemma SampleThere(contacts: seq<Contact>, k: nat)
    requires k < |contacts|
    ensures contacts[k].sample in Samples(contacts, contacts[k].phase)
  {
    assert contacts[k] in contacts;
  }

  /** The samples of one phase when one slot changes; the slot had the only contact with its ID. */
  lemma SlotEffect(contacts: seq<Contact>, k: nat, c: Contact, phase: Phase)
    requires k < |contacts| && DistinctIds(contacts) && !phase.Absent?
    ensures Samples(contacts[k := c], phase)
            == (if contacts[k].phase == phase then Samples(contacts, phase) - {contacts[k].sample}
                else Samples(contacts, phase)) + if c.phase == phase then {c.sample} else {}
  {
    var after := contacts[k := c];
    forall t | t in Samples(after, phase)
      ensures t in Samples(contacts, phase) - {contacts[k].sample} || (c.phase == phase && t == c.sample)
              || (contacts[k].phase != phase && t in Samples(contacts, phase))
    {
      var d :| d in after && d.phase == phase && d.sample == t;
      var j :| 0 <= j < |after| && after[j] == d;
      if j != k {
        assert contacts[j] == d;
        SampleThere(contacts, j);
      }
    }
    forall t | t in Samples(contacts, phase) && (contacts[k].phase == phase ==> t != contacts[k].sample)
      ensures t in Samples(after, phase)
    {
      var d :| d in contacts && d.phase == phase && d.sample == t;
      var j :| 0 <= j < |contacts| && contacts[j] == d;
      assert j != k;
      assert after[j] == d;
      SampleThere(after, j);
    }
    if c.phase == phase {
      assert after[k] == c;
      SampleThere(after, k);
    }
    if contacts[k].phase == phase && !(c.phase == phase && c.sample == contacts[k].sample) {
      GoneSample(contacts, k, c, phase);
    }
  }

  lemma GoneSample(contacts: seq<Contact>, k: nat, c: Contact, phase: Phase)
    requires k < |contacts| && DistinctIds(contacts) && !phase.Absent? && contacts[k].phase == phase
    requires !(c.phase == phase && c.sample == contacts[k].sample)
    ensures contacts[k].sample !in Samples(contacts[k := c], phase)
  {
    var after := contacts[k := c];
    forall d | d in after && d.phase == phase
      ensures d.sample != contacts[k].sample
    {
      var j :| 0 <= j < |after| && after[j] == d;
      if j != k {
        assert contacts[j] == d;
        OthersDiffer(contacts, j, k);
      }
    }
  }

  lemma OthersDiffer(contacts: seq<Contact>, j: nat, k: nat)
    requires j < |contacts| && k < |contacts| && DistinctIds(contacts)
    requires !contacts[j].phase.Absent? && !contacts[k].phase.Absent?
    ensures contacts[j].sample.id == contacts[k].sample.id ==> j == k
  {
  }

  lemma OnlyOneWithId(contacts: seq<Contact>, k: nat, id: int)
    requires k < |contacts| && DistinctIds(contacts) && contacts[k].phase.Down? && contacts[k].sample.id == id
    ensures WithId(Samples(contacts, Down), id) == {contacts[k].sample}
  {
    SampleThere(contacts, k);
    forall t | t in WithId(Samples(contacts, Down), id)
      ensures t == contacts[k].sample
    {
      var d :| d in contacts && d.phase == Down && d.sample == t;
      var j :| 0 <= j < |contacts| && contacts[j] == d;
      OthersDiffer(contacts, j, k);
    }
  }

  lemma FoundId(contacts: seq<Contact>, phase: Phase, id: int)
    requires id >= 0 && !phase.Absent?
    ensures FindSlot(contacts, 0, phase, id) < |contacts| <==> WithId(Samples(contacts, phase), id) != {}
  {
    hide FindSlot;
    var k := FindSlot(contacts, 0, phase, id);
    if k < |contacts| {
      SampleThere(contacts, k);
      assert contacts[k].sample in WithId(Samples(contacts, phase), id);
    } else {
      forall d | d in contacts && d.phase == phase
        ensures d.sample.id != id
      {
        var j :| 0 <= j < |contacts| && contacts[j] == d;
      }
    }
  }

  lemma LiftEffect(contacts: seq<Contact>, k: nat, sample: TouchSample)
    requires k < |contacts| && DistinctIds(contacts) && contacts[k].phase.Down? && contacts[k].sample.id == sample.id
    ensures LiftedAt(Samples(contacts, Down), sample)
            == {contacts[k].sample.(x := sample.x, y := sample.y, pressure := 0)}
  {
    hide Samples;
    OnlyOneWithId(contacts, k, sample.id);
    assert contacts[k].sample in WithId(Samples(contacts, Down), sample.id);
    forall c | c in Samples(contacts, Down) && c.id == sample.id
      ensures c == contacts[k].sample
    {
      assert c in WithId(Samples(contacts, Down), sample.id);
    }
  }

  lemma ContactEffect(o: Options, s: NodeState, down: bool, sample: TouchSample)
    requires o.Touch? && StateOk(o, s) && EditContact(o, s, down, sample).result == Ok
    ensures EditContact(o, s, down, sample).state.TouchState?
    ensures ViewOf(o, EditContact(o, s, down, sample).state) == AskedContact(ViewOf(o, s), down, sample)
  {
    hide FindSlot, Samples, WithId, LiftedAt, ValidContact, Active, Pressed, SamplesPlaced, DistinctIds, SamplePlaces;
    var k := FindSlot(s.contacts, 0, Down, sample.id);
    if k < |s.contacts| {
      OnlyOneWithId(s.contacts, k, sample.id);
    } else {
      FoundId(s.contacts, Down, sample.id);
    }
    if !down {
      LiftEffect(s.contacts, k, sample);
      var lifted := Contact(Up, s.contacts[k].sample.(x := sample.x, y := sample.y, pressure := 0), true);
      SlotEffect(s.contacts, k, lifted, Down);
      SlotEffect(s.contacts, k, lifted, Up);
    } else if k < |s.contacts| {
      SlotEffect(s.contacts, k, s.contacts[k].(sample := sample), Down);
      SlotEffect(s.contacts, k, s.contacts[k].(sample := sample), Up);
    } else {
      var free := FindSlot(s.contacts, 0, Absent, 0);
      SlotEffect(s.contacts, free, Contact(Down, sample, true), Down);
      SlotEffect(s.contacts, free, Contact(Down, sample, true), Up);
    }
  }

  lemma {:induction false} FullSurface(contacts: seq<Contact>)
    requires forall k :: 0 <= k < |contacts| ==> !contacts[k].phase.Absent?
    ensures |Active(contacts)| == |contacts|
  {
    if |contacts| == 0 {
    } else {
      FullSurface(contacts[..|contacts| - 1]);
    }
  }

  /** The contact's last change is still to be reported. */
  predicate Unreported(contacts: seq<Contact>, id: int) {
    exists c :: c in contacts && c.phase == Down && c.sample.id == id && c.pending
  }

  lemma UnreportedAt(contacts: seq<Contact>, k: nat, id: int)
    requires k < |contacts| && DistinctIds(contacts) && contacts[k].phase.Down? && contacts[k].sample.id == id
    ensures Unreported(contacts, id) <==> contacts[k].pending
  {
    assert contacts[k] in contacts;
    forall c | c in contacts && c.phase == Down && c.sample.id == id
      ensures c == contacts[k]
    {
      var j :| 0 <= j < |contacts| && contacts[j] == c;
      OthersDiffer(contacts, j, k);
    }
  }

  /**
   * A contact call is refused exactly inside a frame, with a sample out of range, for a lift of a contact that is not
   * down or whose landing is not yet reported, for an ID whose lift is not yet reported, and beyond the declared
   * number of contacts.
   */
  lemma ContactRefusalIsExact(o: Options, s: NodeState, down: bool, sample: TouchSample)
    requires o.Touch? && Accepted(o) && StateOk(o, s)
    ensures s.TouchState?
    ensures EditContact(o, s, down, sample).result
            == var known := WithId(Samples(s.contacts, Down), sample.id) != {};
               if s.cursor != 0 then ErrBusy
               else if !down then
                 if !known || !Within(sample.x, o.x) || !Within(sample.y, o.y) then ErrParam
                 else if Unreported(s.contacts, sample.id) then ErrBusy else Ok
               else if !ValidContact(o, sample) then ErrParam
               else if known then Ok
               else if WithId(Samples(s.contacts, Up), sample.id) != {} then ErrBusy
               else if |Active(s.contacts)| >= o.maximumContacts then ErrOverflow else Ok
  {
    hide FindSlot, Samples, WithId, Unreported, ValidContact, Active, SamplesPlaced, DistinctIds, Within;
    FewSlots(o);
    FoundId(s.contacts, Down, sample.id);
    FoundId(s.contacts, Up, sample.id);
    var k := FindSlot(s.contacts, 0, Down, sample.id);
    if k < |s.contacts| {
      UnreportedAt(s.contacts, k, sample.id);
    }
    if FindSlot(s.contacts, 0, Absent, 0) == |s.contacts| {
      assert forall j :: 0 <= j < |s.contacts| ==> !s.contacts[j].phase.Absent?;
      FullSurface(s.contacts);
    }
  }

  lemma FewSlots(o: Options)
    requires o.Touch? && Accepted(o)
    ensures o.maximumContacts <= CONTACT_SLOTS
  {
    hide ValidField;
  }

  // ----- Every call ------------------------------------------------------------------------------

  lemma PlainEffect(o: Options, s: NodeState, m: Mutation)
    requires Accepted(o) && StateOk(o, s) && Paired(o, s) && RightProfile(o, m) && EditOf(o, s, m).result == Ok
    requires m.Move? || m.Scroll? || m.SetUsage? || m.SetAxis? || m.UpdatePen? || m.DepartPen? || m.UpdateBattery?
    ensures Paired(o, EditOf(o, s, m).state)
    ensures ViewOf(o, EditOf(o, s, m).state) == Asked(ViewOf(o, s), m)
  {
    hide Accepted, StateOk, HeldKeys, Pressed, Compass, BitDirections, Samples, AllowedUsage, ValidPen, PenConflicts,
         Differing;
  }

  /** An accepted call changes the view as its arguments say, and a call that is not accepted changes nothing. */
  lemma CallDoesWhatItSays(o: Options, s: NodeState, m: Mutation)
    requires Accepted(o) && StateOk(o, s) && RightProfile(o, m)
    ensures Paired(o, s) && Paired(o, EditOf(o, s, m).state)
    ensures ViewOf(o, EditOf(o, s, m).state)
            == if EditOf(o, s, m).result == Ok then Asked(ViewOf(o, s), m) else ViewOf(o, s)
  {
    hide Accepted, ViewOf, EditKey, EditMove, EditScroll, EditButton, EditUsage, EditAxis, EditDPad, EditContact,
         EditPen, EditDepart, EditBattery, Asked, CountPressed, TouchOk, PenPlaces, AllowedUsage;
    assert Paired(o, s);
    if EditOf(o, s, m).result == Ok {
      match m
      case Key(usage, down) => KeyAsked(o, s, usage, down);
      case Button(button, pressed) => ButtonAsked(o, s, button, pressed);
      case SetDPad(up, down, right, left) => DPadAsked(o, s, up, down, right, left);
      case SetContact(down, sample) => ContactAsked(o, s, down, sample);
      case _ => PlainEffect(o, s, m);
    } else {
      RefusedEdit(o, s, m);
    }
  }

  lemma RefusedEdit(o: Options, s: NodeState, m: Mutation)
    requires EditOf(o, s, m).result != Ok
    ensures EditOf(o, s, m).state == s
  {
    hide AllowedUsage, EncodeDPad, ValidContact, FindSlot, Active, ValidPen, PenConflicts;
  }

  lemma KeyAsked(o: Options, s: NodeState, usage: Uint16, down: bool)
    requires o.Keyboard? && Accepted(o) && StateOk(o, s) && EditKey(o, s, usage, down).result == Ok
    ensures s.KeyboardState? && EditKey(o, s, usage, down).state.KeyboardState?
    ensures ViewOf(o, EditKey(o, s, usage, down).state) == Asked(ViewOf(o, s), Key(usage, down))
  {
    hide Accepted, HeldKeys, EditKey, CountPressed, Put;
    KeyEffect(o, s, usage, down);
  }

  lemma ButtonAsked(o: Options, s: NodeState, button: nat, pressed: bool)
    requires Accepted(o) && StateOk(o, s) && Paired(o, s) && EditButton(o, s, button, pressed).result == Ok
    ensures Paired(o, EditButton(o, s, button, pressed).state)
    ensures ViewOf(o, EditButton(o, s, button, pressed).state) == Asked(ViewOf(o, s), Button(button, pressed))
  {
    hide Accepted, StateOk, ViewOf, EditButton;
    ButtonEffect(o, s, button, pressed);
  }

  lemma DPadAsked(o: Options, s: NodeState, up: bool, down: bool, right: bool, left: bool)
    requires o.Gamepad? && StateOk(o, s) && EditDPad(o, s, up, down, right, left).result == Ok
    ensures s.GamepadState? && EditDPad(o, s, up, down, right, left).state.GamepadState?
    ensures ViewOf(o, EditDPad(o, s, up, down, right, left).state)
            == Asked(ViewOf(o, s), SetDPad(up, down, right, left))
  {
    hide EditDPad, Directions, Pressed, DirectionSet;
    DPadEffect(o, s, up, down, right, left);
  }

  lemma ContactAsked(o: Options, s: NodeState, down: bool, sample: TouchSample)
    requires o.Touch? && StateOk(o, s) && EditContact(o, s, down, sample).result == Ok
    ensures s.TouchState? && EditContact(o, s, down, sample).state.TouchState?
    ensures ViewOf(o, EditContact(o, s, down, sample).state) == Asked(ViewOf(o, s), SetContact(down, sample))
  {
    hide EditContact, ViewOf, AskedContact, TouchOk;
    ContactEffect(o, s, down, sample);
  }

  // ----- Whole runs ------------------------------------------------------------------------------

  /** Without what reports use up: movement, and contacts that only wait to be reported as lifted. */
  function Lasting(v: View): View {
    match v
    case MouseView(buttons, _, _, _, _) => MouseView(buttons, 0, 0, 0, 0)
    case SurfaceView(touching, _, buttons) => SurfaceView(touching, {}, buttons)
    case _ => v
  }

  function AtRest(o: Options): View {
    match o
    case Keyboard(_, _, _) => KeysView({})
    case Mouse(_, _, _, _, _, _) => MouseView({}, 0, 0, 0, 0)
    case Toggle(_, _, _, _, _) => SelectionView(0)
    case Gamepad(_, axes, _, _, _) => PadView(seq(|axes|, k requires 0 <= k < |axes| => axes[k].neutral), {}, {})
    case Touch(_, _, _, _, _, _, _, _, _, _, _, _, _, _, _, _) => SurfaceView({}, {}, {})
    case Pen(_, _, _, _, _, _, _, _, _, _) => StylusView(NO_PEN)
    case Battery(_, _, _) => ChargeView(None)
  }

  /** What the caller's accepted calls amount to. */
  function Intended(o: Options, events: seq<Event>): View
    requires Accepted(o)
  {
    if |events| == 0 then AtRest(o)
    else
      var prefix, e := events[..|events| - 1], events[|events| - 1];
      if e.Call? && Mutate(o, RunAll(o, NewWorld(o), prefix).node, e.m).0 == Ok
      then Lasting(Asked(Intended(o, prefix), e.m))
      else Intended(o, prefix)
  }

  lemma LastingAsked(v: View, m: Mutation)
    ensures Lasting(Asked(Lasting(v), m)) == Lasting(Asked(v, m))
  {
    hide Put, DirectionSet, WithId, LiftedAt;
  }

  lemma DownAmong(a: seq<Contact>, b: seq<Contact>)
    requires |a| == |b|
    requires forall k :: 0 <= k < |a| && a[k].phase.Down? ==> b[k].phase.Down? && b[k].sample == a[k].sample
    ensures Samples(a, Down) <= Samples(b, Down)
  {
    forall t | t in Samples(a, Down)
      ensures t in Samples(b, Down)
    {
      var d :| d in a && d.phase == Down && d.sample == t;
      var j :| 0 <= j < |a| && a[j] == d;
      SampleThere(b, j);
    }
  }

  /** Spent marks and freed slots leave the contacts that are down. */
  lemma SameDown(contacts: seq<Contact>)
    ensures Samples(Settled(contacts), Down) == Samples(contacts, Down)
    ensures Samples(FreeLifted(contacts), Down) == Samples(contacts, Down)
  {
    hide Samples;
    DownAmong(Settled(contacts), contacts);
    DownAmong(contacts, Settled(contacts));
    DownAmong(FreeLifted(contacts), contacts);
    DownAmong(contacts, FreeLifted(contacts));
  }

  /** A completion spends marks, movement and lifts only. */
  lemma CompletionLasts(o: Options, n: Node, c: Outcome)
    requires Paired(o, n.state)
    ensures Paired(o, Completed(n, c).state)
    ensures Lasting(ViewOf(o, Completed(n, c).state)) == Lasting(ViewOf(o, n.state))
  {
    hide Samples, Settled, FreeLifted, Pressed, BitDirections, Compass, AnyPhase, AnyPressed;
    if n.state.TouchState? {
      SameDown(n.state.contacts);
      SameDown(FreeLifted(n.state.contacts));
    } else if n.state.KeyboardState? {
      var r := Completed(n, c).state;
      assert forall u: nat :: KeyHeld(o, r, u) == KeyHeld(o, n.state, u);
    }
  }

  lemma StampLasts(o: Options, s: NodeState, ticks: nat)
    requires Paired(o, s)
    ensures Paired(o, Stamped(o, s, ticks)) && ViewOf(o, Stamped(o, s, ticks)) == ViewOf(o, s)
  {
    hide Samples, Pressed, HeldKeys, BitDirections, Compass;
  }

  lemma CallLasts(o: Options, n: Node, m: Mutation)
    requires Accepted(o) && StateOk(o, n.state)
    ensures Paired(o, n.state) && Paired(o, Mutate(o, n, m).1.state)
    ensures Lasting(ViewOf(o, Mutate(o, n, m).1.state))
            == if Mutate(o, n, m).0 == Ok then Lasting(Asked(Lasting(ViewOf(o, n.state)), m))
               else Lasting(ViewOf(o, n.state))
  {
    hide Accepted, ViewOf, EditOf, Asked, Lasting, CountPressed, TouchOk, PenPlaces, AllowedUsage;
    assert Paired(o, n.state);
    if RightProfile(o, m) {
      CallDoesWhatItSays(o, n.state, m);
      LastingAsked(ViewOf(o, n.state), m);
    }
  }

  lemma StepLasts(o: Options, w: World, e: Event)
    requires Accepted(o) && Steady(o, w) && !e.Neutralize?
    ensures Paired(o, w.node.state) && Paired(o, Step(o, w, e).node.state)
    ensures Lasting(ViewOf(o, Step(o, w, e).node.state))
            == if e.Call? && Mutate(o, w.node, e.m).0 == Ok then Lasting(Asked(Lasting(ViewOf(o, w.node.state)), e.m))
               else Lasting(ViewOf(o, w.node.state))
  {
    hide Accepted, ViewOf, Mutate, Completed, Refused, Remembered, Sendable, Stamped, Receive, ImageOf, Asked, Lasting,
         StateOk, Paired;
    StatePaired(o, w.node.state);
    match e
    case Call(m) => CallLasts(o, w.node, m);
    case Submit(ticks) => StampLasts(o, w.node.state, ticks);
    case Complete(outcome, _) => CompletionLasts(o, w.node, outcome);
    case Reject(ticks, outcome) =>
      if Enabled(w, e) {
        RejectKeeps(o, w, ticks, outcome);
      }
    case _ =>
  }

  lemma StatePaired(o: Options, s: NodeState)
    requires StateOk(o, s)
    ensures Paired(o, s)
  {
  }

  lemma NoneOn(n: nat)
    ensures Pressed(Repeat(n, false)) == {}
  {
  }

  lemma StartAtRest(o: Options)
    requires Accepted(o)
    ensures Paired(o, InitialState(o)) && Lasting(ViewOf(o, InitialState(o))) == AtRest(o)
  {
    hide ValidReportId, AcceptedMouse, AcceptedToggle, AcceptedGamepad, AcceptedTouch, AcceptedPen, AcceptedBattery,
         Pressed, Repeat, Compass, BitDirections;
    match o
    case Keyboard(_, low, high) => assert HeldKeys(o, InitialState(o)) == {} by { NoKeys(o); }
    case Mouse(_, _, _, count, _, _) => NoneOn(count);
    case Gamepad(_, _, _, count, _) => NoneOn(count);
    case Touch(_, _, _, _, _, _, _, _, _, _, _, _, _, _, _, count) =>
      NoneOn(count);
      NoContacts(CONTACT_SLOTS);
    case _ =>
  }

  lemma NoKeys(o: Options)
    requires o.Keyboard? && Accepted(o)
    ensures HeldKeys(o, InitialState(o)) == {}
  {
    hide ValidReportId;
    assert forall u: nat :: !KeyHeld(o, InitialState(o), u);
  }

  lemma NoContacts(n: nat)
    ensures Samples(Repeat(n, Contact(Absent, NO_TOUCH, false)), Down) == {}
  {
  }

  /**
   * Whatever is sent, lost or refused in between, the state is what the caller's accepted calls amount to: exactly
   * the keys, buttons, directions, axes, contacts, pen sample and charge that were last asked for.
   */
  lemma {:induction false} StateIsIntended(o: Options, events: seq<Event>)
    requires Accepted(o) && NoNeutralize(events)
    ensures var s := RunAll(o, NewWorld(o), events).node.state;
            Paired(o, s) && Lasting(ViewOf(o, s)) == Intended(o, events)
  {
    hide Accepted, Step, Steady, ViewOf, Asked, Lasting, Mutate, AtRest, Paired, InitialState;
    if |events| == 0 {
      StartAtRest(o);
    } else {
      var prefix, e := events[..|events| - 1], events[|events| - 1];
      RunSteady(o, prefix);
      StateIsIntended(o, prefix);
      StepLasts(o, RunAll(o, NewWorld(o), prefix), e);
    }
  }
}
