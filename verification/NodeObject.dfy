/**
 * The Node as the library has it: an object whose fields the calls, the completions and the close update in
 * place. Every method takes a step of the run that the object has made so far, so what is proved about whole
 * runs holds of the object (src/profiles/state.cpp, src/api/c_api.cpp).
 */
module NodeObject {
  import opened Common
  import opened BitField
  import opened Factories
  import opened NodeModel
  import opened NodeFacts
  import opened Serialization
  import opened NodeRun
  import opened CloseSafety
  import opened PollRun
  import opened ReachableReports

  // ----- Steps of a run --------------------------------------------------------------------------

  /** Profile and state belong together. */
  lemma Matching(o: Options, s: NodeState)
    requires StateOk(o, s)
    ensures o.Keyboard? == s.KeyboardState? && o.Mouse? == s.MouseState? && o.Toggle? == s.ToggleState?
    ensures o.Gamepad? == s.GamepadState? && o.Touch? == s.TouchState? && o.Pen? == s.PenState?
            && o.Battery? == s.BatteryState?
    ensures o.Keyboard? ==>
              && |s.keys| == |s.keysPending| == o.usageMaximum - o.usageMinimum + 1
              && s.pressedCount == CountPressed(s.keys)
    ensures o.Mouse? || o.Gamepad? || o.Touch? ==> |s.buttons| == |s.buttonsPending|
    ensures o.Gamepad? ==> |s.axes| == |o.axes|
  {
    hide CountPressed, SamplesPlaced, DistinctIds, Active, PenPlaces, AllowedUsage;
  }

  lemma CompleteIsStep(o: Options, w: World, c: Outcome, applied: bool)
    requires Steady(o, w) && w.node.inflight && Honest(c, applied)
    ensures w.sent.Some? && Enabled(w, Complete(c, applied))
    ensures Step(o, w, Complete(c, applied))
            == World(Completed(w.node, c), None, if applied then Receive(w.target, w.sent.value) else w.target)
  {
    hide NodeOk, ImageOf, Completed, Receive;
  }

  lemma InUse(contacts: seq<Contact>)
    ensures (exists k :: 0 <= k < |contacts| && !contacts[k].phase.Absent?) <==>
            AnyPhase(contacts, Down) || AnyPhase(contacts, Up)
  {
  }

  lemma ScanTimeCounts(o: Options)
    requires Accepted(o)
    ensures o.Touch? && o.scanTime.Some? ==> o.scanTime.value.maximum >= 0
  {
    hide ValidField;
  }

  lemma SuccessIsApplied(c: Outcome, applied: bool)
    requires Honest(c, applied)
    ensures c.result == Ok ==> applied
  {
  }

  lemma CompletedCode(n: Node, c: Outcome)
    ensures Completed(n, c).completion == c.result && !Completed(n, c).inflight && Completed(n, c).present == n.present
  {
    hide ConsumeEdges, Applied;
  }

  predicate OnlyCloseEvents(events: seq<Event>) {
    forall k :: 0 <= k < |events| ==> CloseEvent(events[k])
  }

  lemma {:induction false} RunAppend(o: Options, w: World, a: seq<Event>, b: seq<Event>)
    ensures RunAll(o, w, a + b) == RunAll(o, RunAll(o, w, a), b)
  {
    hide Step;
    if |b| == 0 {
      assert a + b == a;
    } else {
      RunAppend(o, w, a, b[..|b| - 1]);
      assert (a + b)[..|a + b| - 1] == a + b[..|b| - 1];
    }
  }

  lemma OneStep(o: Options, w: World, e: Event)
    ensures RunAll(o, w, [e]) == Step(o, w, e)
  {
    hide Step;
    assert [e][..|[e]| - 1] == [];
    assert RunAll(o, w, []) == w;
  }

  /** Collecting finds a world that has nothing to collect as it was. */
  lemma CollectOnce(o: Options, w: World)
    requires !w.node.inflight
    ensures RunAll(o, w, [Collect]) == Step(o, w, Collect) == w.(node := w.node.(completion := Ok))
  {
    hide RunAll;
    OneStep(o, w, Collect);
  }

  // ----- The object ------------------------------------------------------------------------------

  class LiveNode {
    const options: Options
    const layout: ReportLayout
    const validateReports: bool
    var state: NodeState
    var inflight: bool
    var dirty: bool
    var present: bool
    var completion: ResultCode
    var submitted: Submitted
    var emittedNonNeutral: bool
    ghost var sent: Option<Image>
    ghost var target: Target
    ghost var history: seq<Event>

    ghost function Value(): Node
      reads this
    {
      Node(state, dirty, inflight, present, completion, submitted, emittedNonNeutral)
    }

    ghost function Now(): World
      reads this
    {
      World(Value(), sent, target)
    }

    /** The object is where the run of its history ends. */
    ghost predicate Valid()
      reads this
    {
      SpecOk(options, layout) && Now() == RunAll(options, NewWorld(options), history)
    }

    constructor (options: Options, layout: ReportLayout, validateReports: bool)
      requires SpecOk(options, layout)
      ensures Valid() && history == []
      ensures this.options == options && this.layout == layout && this.validateReports == validateReports
    {
      this.options, this.layout, this.validateReports := options, layout, validateReports;
      state, inflight, dirty, present := InitialState(options), false, false, true;
      completion, submitted, emittedNonNeutral := Ok, NOTHING_SUBMITTED, false;
      sent, target, history := None, NEW_TARGET, [];
    }

    lemma Sound()
      requires Valid()
      ensures Steady(options, Now()) && StateOk(options, state)
    {
      hide SpecOk, StateOk, Remembered, Sendable;
      SpecAccepted();
      RunSteady(options, history);
    }

    /** The run goes on from where the object is. */
    lemma Next(e: Event)
      requires Valid()
      ensures Accepted(options) && Steady(options, Now()) && StateOk(options, state)
      ensures RunAll(options, NewWorld(options), history + [e]) == Step(options, Now(), e)
    {
      hide SpecOk, StateOk, Steady, Step, NewWorld;
      SpecAccepted();
      Sound();
      RunSnoc(options, NewWorld(options), history, e);
    }

    lemma SpecAccepted()
      requires SpecOk(options, layout)
      ensures Accepted(options)
    {
    }

    /** `usable`. */
    function Usable(right: bool): ResultCode
      reads this
    {
      if !right then ErrParam else if !present then ErrNoDevice else if inflight then ErrBusy else Ok
    }

    // ----- Mutators ------------------------------------------------------------------------------

    method Kbd(usage: Uint16, down: bool) returns (result: ResultCode)
      requires Valid()
      modifies `state, `dirty, `history
      ensures Valid() && history == old(history) + [Call(Key(usage, down))]
      ensures (result, Value()) == Mutate(options, old(Value()), Key(usage, down))
    {
      hide SpecOk, RunAll, NewWorld, StateOk, Steady, CountPressed;
      Next(Call(Key(usage, down)));
      Matching(options, state);
      history := history + [Call(Key(usage, down))];
      var check := Usable(options.Keyboard?);
      if check != Ok {
        return check;
      }
      var changed := false;
      if LEFT_CONTROL <= usage <= RIGHT_GUI {
        var k: nat := usage - LEFT_CONTROL;
        changed := (k in state.modifiers) != down;
        if changed && k in state.modifiersPending {
          return ErrBusy;
        }
        if changed {
          state := state.(modifiers := if down then state.modifiers + {k} else state.modifiers - {k},
                          modifiersPending := state.modifiersPending + {k});
        }
      } else {
        if usage < options.usageMinimum || usage > options.usageMaximum {
          return ErrParam;
        }
        var index: nat := usage - options.usageMinimum;
        if index >= |state.keysPending| || index >= |state.keys| {
          return ErrInternal;
        }
        changed := state.keys[index] != down;
        if changed && state.keysPending[index] {
          return ErrBusy;
        }
        if changed {
          if down {
            if state.pressedCount >= |state.keys| {
              return ErrInternal;
            }
            state := state.(keys := state.keys[index := true], pressedCount := state.pressedCount + 1);
          } else {
            if state.pressedCount == 0 {
              return ErrInternal;
            }
            state := state.(keys := state.keys[index := false], pressedCount := state.pressedCount - 1);
          }
          state := state.(keysPending := state.keysPending[index := true]);
        }
      }
      dirty := dirty || changed;
      return Ok;
    }

    method MouseMove(dx: Int32, dy: Int32) returns (result: ResultCode)
      requires Valid()
      modifies `state, `dirty, `history
      ensures Valid() && history == old(history) + [Call(Move(dx, dy))]
      ensures (result, Value()) == Mutate(options, old(Value()), Move(dx, dy))
    {
      hide SpecOk, RunAll, NewWorld, StateOk, Steady, CountPressed;
      Next(Call(Move(dx, dy)));
      Matching(options, state);
      history := history + [Call(Move(dx, dy))];
      var check := Usable(options.Mouse?);
      if check != Ok {
        return check;
      }
      var nextDx, nextDy := AddChecked(state.dx, dx), AddChecked(state.dy, dy);
      if nextDx.None? || nextDy.None? {
        return ErrOverflow;
      }
      state := state.(dx := nextDx.value, dy := nextDy.value);
      dirty := dirty || dx != 0 || dy != 0;
      return Ok;
    }

    method MouseScroll(wheel: Int32, pan: Int32) returns (result: ResultCode)
      requires Valid()
      modifies `state, `dirty, `history
      ensures Valid() && history == old(history) + [Call(Scroll(wheel, pan))]
      ensures (result, Value()) == Mutate(options, old(Value()), Scroll(wheel, pan))
    {
      hide SpecOk, RunAll, NewWorld, StateOk, Steady, CountPressed;
      Next(Call(Scroll(wheel, pan)));
      Matching(options, state);
      history := history + [Call(Scroll(wheel, pan))];
      var check := Usable(options.Mouse?);
      if check != Ok {
        return check;
      }
      if (wheel != 0 && options.wheel.None?) || (pan != 0 && options.pan.None?) {
        return ErrUnsupported;
      }
      var nextWheel, nextPan := AddChecked(state.wheel, wheel), AddChecked(state.pan, pan);
      if nextWheel.None? || nextPan.None? {
        return ErrOverflow;
      }
      state := state.(wheel := nextWheel.value, pan := nextPan.value);
      dirty := dirty || wheel != 0 || pan != 0;
      return Ok;
    }

    /** `aoahid_mouse_button`, `aoahid_gamepad_button` and `aoahid_touchpad_button`. */
    method PressButton(button: nat, pressed: bool) returns (result: ResultCode)
      requires Valid()
      modifies `state, `dirty, `history
      ensures Valid() && history == old(history) + [Call(Button(button, pressed))]
      ensures (result, Value()) == Mutate(options, old(Value()), Button(button, pressed))
    {
      hide SpecOk, RunAll, NewWorld, StateOk, Steady, CountPressed;
      Next(Call(Button(button, pressed)));
      Matching(options, state);
      history := history + [Call(Button(button, pressed))];
      var check := Usable(options.Mouse? || options.Gamepad? || options.Touch?);
      if check != Ok {
        return check;
      }
      if state.TouchState? && state.cursor != 0 {
        return ErrBusy;
      }
      if button == 0 || button > |state.buttons| {
        return ErrParam;
      }
      if |state.buttons| != |state.buttonsPending| {
        return ErrInternal;
      }
      var index := button - 1;
      var changed := state.buttons[index] != pressed;
      if changed && state.buttonsPending[index] {
        return ErrBusy;
      }
      if changed {
        var buttons, pending := state.buttons[index := pressed], state.buttonsPending[index := true];
        match state {
          case MouseState(_, _, dx, dy, wheel, pan) => state := MouseState(buttons, pending, dx, dy, wheel, pan);
          case GamepadState(axes, _, _, any, hat, hatPending) =>
              state := GamepadState(axes, buttons, pending, any, hat, hatPending);
          case TouchState(contacts, _, _, scan, cursor, epoch) =>
              state := TouchState(contacts, buttons, pending, scan, cursor, epoch);
          case _ =>
        }
      }
      dirty := dirty || changed;
      return Ok;
    }

    method ToggleUsage(usage: Uint16, down: bool) returns (result: ResultCode)
      requires Valid()
      modifies `state, `dirty, `history
      ensures Valid() && history == old(history) + [Call(SetUsage(usage, down))]
      ensures (result, Value()) == Mutate(options, old(Value()), SetUsage(usage, down))
    {
      hide SpecOk, RunAll, NewWorld, StateOk, Steady, CountPressed;
      Next(Call(SetUsage(usage, down)));
      Matching(options, state);
      history := history + [Call(SetUsage(usage, down))];
      var check := Usable(options.Toggle?);
      if check != Ok {
        return check;
      }
      var nextUsage := 0;
      if down {
        if !AllowedUsage(options, usage) {
          return ErrParam;
        }
        nextUsage := usage;
      } else if usage != 0 && usage != state.usage {
        return ErrParam;
      }
      var changed := state.usage != nextUsage;
      if changed && state.pending {
        return ErrBusy;
      }
      if changed {
        state := state.(usage := nextUsage, pending := true);
      }
      dirty := dirty || changed;
      return Ok;
    }

    method GamepadSetAxis(index: nat, value: Int32) returns (result: ResultCode)
      requires Valid()
      modifies `state, `dirty, `history
      ensures Valid() && history == old(history) + [Call(SetAxis(index, value))]
      ensures (result, Value()) == Mutate(options, old(Value()), SetAxis(index, value))
    {
      hide SpecOk, RunAll, NewWorld, StateOk, Steady, CountPressed;
      Next(Call(SetAxis(index, value)));
      Matching(options, state);
      history := history + [Call(SetAxis(index, value))];
      var check := Usable(options.Gamepad?);
      if check != Ok {
        return check;
      }
      if index >= |state.axes| || !Within(value, options.axes[index].value) {
        return ErrParam;
      }
      var changed := state.axes[index] != value;
      state := state.(axes := state.axes[index := value]);
      dirty := dirty || changed;
      return Ok;
    }

    /** Four bits, or the Hat's eighths of a turn. */
    method EncodeDirections(up: bool, down: bool, right: bool, left: bool) returns (encoded: nat)
      requires options.Gamepad?
      ensures encoded == EncodeDPad(options.dpad, up, down, right, left)
    {
      encoded := (if up then 1 else 0) + (if down then 2 else 0) + (if right then 4 else 0) + (if left then 8 else 0);
      if !options.dpad.ButtonDPad? && encoded != 0 {
        if up {
          encoded := if right then 1 else if left then 7 else 0;
        } else if down {
          encoded := if right then 3 else if left then 5 else 4;
        } else {
          encoded := if right then 2 else 6;
        }
      }
    }

    method GamepadDPad(up: bool, down: bool, right: bool, left: bool) returns (result: ResultCode)
      requires Valid()
      modifies `state, `dirty, `history
      ensures Valid() && history == old(history) + [Call(SetDPad(up, down, right, left))]
      ensures (result, Value()) == Mutate(options, old(Value()), SetDPad(up, down, right, left))
    {
      hide SpecOk, RunAll, NewWorld, StateOk, Steady, CountPressed, EditKey, EditMove, EditScroll, EditButton,
           EditUsage, EditAxis,
           EditContact, EditPen, EditDepart, EditBattery, EncodeDPad;
      Next(Call(SetDPad(up, down, right, left)));
      Matching(options, state);
      history := history + [Call(SetDPad(up, down, right, left))];
      var check := Usable(options.Gamepad?);
      if check != Ok {
        return check;
      }
      if options.dpad.NoDPad? {
        return ErrParam;
      }
      var anyDirection := up || down || right || left;
      if options.dpad.HatDPad? && ((up && down) || (right && left)) {
        return ErrParam;
      }
      var encoded := EncodeDirections(up, down, right, left);
      var changed := state.hasDirection != anyDirection || state.hat != encoded;
      if changed && state.hatPending {
        return ErrBusy;
      }
      if changed {
        state := state.(hasDirection := anyDirection, hat := encoded, hatPending := true);
      }
      dirty := dirty || changed;
      return Ok;
    }

    /** The first slot with the wanted phase (and ID), or the number of slots. */
    method Search(phase: Phase, id: nat) returns (slot: nat)
      requires state.TouchState?
      ensures slot == FindSlot(state.contacts, 0, phase, id)
    {
      slot := 0;
      while slot < |state.contacts| && !(state.contacts[slot].phase == phase
                                         && (phase.Absent? || state.contacts[slot].sample.id == id))
        invariant slot <= |state.contacts|
        invariant FindSlot(state.contacts, 0, phase, id) == FindSlot(state.contacts, slot, phase, id)
      {
        slot := slot + 1;
      }
    }

    /** The number of contacts in use. */
    method CountActive() returns (count: nat)
      requires state.TouchState?
      ensures count == |Active(state.contacts)|
    {
      count := 0;
      var slot := 0;
      while slot < |state.contacts|
        invariant slot <= |state.contacts| && count == |Active(state.contacts[..slot])|
      {
        assert state.contacts[..slot + 1][..slot] == state.contacts[..slot];
        if !state.contacts[slot].phase.Absent? {
          count := count + 1;
        }
        slot := slot + 1;
      }
      assert state.contacts[..slot] == state.contacts;
    }

    method TouchContact(down: bool, sample: TouchSample) returns (result: ResultCode)
      requires Valid()
      modifies `state, `dirty, `history
      ensures Valid() && history == old(history) + [Call(SetContact(down, sample))]
      ensures (result, Value()) == Mutate(options, old(Value()), SetContact(down, sample))
    {
      hide SpecOk, RunAll, NewWorld, StateOk, Steady, CountPressed, FindSlot, Active, ValidContact;
      Next(Call(SetContact(down, sample)));
      Matching(options, state);
      history := history + [Call(SetContact(down, sample))];
      var check := Usable(options.Touch?);
      if check != Ok {
        return check;
      }
      if state.cursor != 0 {
        return ErrBusy;
      }
      var slot := Search(Down, sample.id);
      if !down {
        if slot == |state.contacts| || !Within(sample.x, options.x) || !Within(sample.y, options.y) {
          return ErrParam;
        }
        if state.contacts[slot].pending {
          return ErrBusy;
        }
        var lifted := state.contacts[slot].sample.(x := sample.x, y := sample.y, pressure := 0);
        state := state.(contacts := state.contacts[slot := Contact(Up, lifted, true)]);
        dirty := true;
        return Ok;
      }
      if !ValidContact(options, sample) {
        return ErrParam;
      }
      if slot < |state.contacts| {
        var changed := state.contacts[slot].sample != sample;
        state := state.(contacts := state.contacts[slot := state.contacts[slot].(sample := sample)]);
        dirty := dirty || changed;
        return Ok;
      }
      var lifting := Search(Up, sample.id);
      if lifting < |state.contacts| {
        return ErrBusy;
      }
      var free := Search(Absent, 0);
      var count := CountActive();
      if free == |state.contacts| || count >= options.maximumContacts {
        return ErrOverflow;
      }
      state := state.(contacts := state.contacts[free := Contact(Down, sample, true)]);
      dirty := true;
      return Ok;
    }

    method PenUpdate(sample: PenSample) returns (result: ResultCode)
      requires Valid()
      modifies `state, `dirty, `history
      ensures Valid() && history == old(history) + [Call(UpdatePen(sample))]
      ensures (result, Value()) == Mutate(options, old(Value()), UpdatePen(sample))
    {
      hide SpecOk, RunAll, NewWorld, StateOk, Steady, CountPressed, ValidPen, PenConflicts, RecordPen;
      Next(Call(UpdatePen(sample)));
      Matching(options, state);
      history := history + [Call(UpdatePen(sample))];
      var check := Usable(options.Pen?);
      if check != Ok {
        return check;
      }
      if !ValidPen(options, sample) {
        return ErrParam;
      }
      var changed := state.desired != sample;
      if PenConflicts(state, sample) {
        return ErrBusy;
      }
      state := RecordPen(state, sample);
      state := state.(departing := state.emitted.inRange && state.emitted.eraser != state.desired.eraser);
      dirty := dirty || changed;
      return Ok;
    }

    method PenDepart() returns (result: ResultCode)
      requires Valid()
      modifies `state, `dirty, `history
      ensures Valid() && history == old(history) + [Call(DepartPen)]
      ensures (result, Value()) == Mutate(options, old(Value()), DepartPen)
    {
      hide SpecOk, RunAll, NewWorld, StateOk, Steady, CountPressed, PenConflicts, RecordPen;
      Next(Call(DepartPen));
      Matching(options, state);
      history := history + [Call(DepartPen)];
      var check := Usable(options.Pen?);
      if check != Ok {
        return check;
      }
      var next := state.desired.(inRange := false, tip := false, barrels := {}, pressure := 0);
      if PenConflicts(state, next) {
        return ErrBusy;
      }
      var changed := state.desired.inRange || state.desired.tip || state.desired.barrels != {}
          || state.desired.pressure != 0;
      state := RecordPen(state, next);
      state := state.(departing := false);
      dirty := dirty || changed;
      return Ok;
    }

    method BatteryUpdate(hasValue: bool, strength: Int32) returns (result: ResultCode)
      requires Valid()
      modifies `state, `dirty, `history
      ensures Valid() && history == old(history) + [Call(UpdateBattery(hasValue, strength))]
      ensures (result, Value()) == Mutate(options, old(Value()), UpdateBattery(hasValue, strength))
    {
      hide SpecOk, RunAll, NewWorld, StateOk, Steady, CountPressed;
      Next(Call(UpdateBattery(hasValue, strength)));
      Matching(options, state);
      history := history + [Call(UpdateBattery(hasValue, strength))];
      var check := Usable(options.Battery?);
      if check != Ok {
        return check;
      }
      if (!hasValue && strength != 0) || (!hasValue && !options.unknownState)
          || (hasValue && !Within(strength, options.strength)) {
        return ErrParam;
      }
      var nextStrength := if hasValue then strength else 0;
      var changed := state.hasValue != hasValue || state.strength != nextStrength;
      state := state.(hasValue := hasValue, strength := nextStrength);
      dirty := dirty || changed;
      return Ok;
    }

    // ----- Completion ----------------------------------------------------------------------------

    /** `consume_lifecycle_transitions`. */
    method ConsumeTransitions()
      modifies `state
      ensures state == ConsumeEdges(old(state))
    {
      match state {
        case KeyboardState(_, pending, _, _, _) =>
          state := state.(keysPending := Repeat(|pending|, false));
          state := state.(modifiersPending := {});
        case MouseState(buttons, pending, dx, dy, wheel, pan) =>
          state := MouseState(buttons, Repeat(|pending|, false), dx, dy, wheel, pan);
        case ToggleState(_, _) => state := state.(pending := false);
        case GamepadState(_, _, pending, _, _, _) =>
            state := state.(buttonsPending := Repeat(|pending|, false), hatPending := false);
        case TouchState(_, buttons, pending, scan, cursor, epoch) =>
          SettleContacts();
          state := TouchState(state.contacts, buttons, Repeat(|pending|, false), scan, cursor, epoch);
        case PenState(_, _, _, _, _, _, _) =>
          state := state.(barrelsPending := {}, rangePending := false, tipPending := false, eraserPending := false);
        case _ =>
      }
    }

    method SettleContacts()
      requires state.TouchState?
      modifies `state
      ensures state.TouchState? && state == old(state).(contacts := state.contacts)
              && |state.contacts| == |old(state).contacts|
      ensures forall k :: 0 <= k < |state.contacts| ==> state.contacts[k] == old(state).contacts[k].(pending := false)
    {
      var index := 0;
      while index < |state.contacts|
        invariant state.TouchState? && state == old(state).(contacts := state.contacts)
        invariant index <= |state.contacts| == |old(state).contacts|
        invariant forall k :: 0 <= k < index ==> state.contacts[k] == old(state).contacts[k].(pending := false)
        invariant forall k :: index <= k < |state.contacts| ==> state.contacts[k] == old(state).contacts[k]
      {
        state := state.(contacts := state.contacts[index := state.contacts[index].(pending := false)]);
        index := index + 1;
      }
    }

    method FreeContacts()
      requires state.TouchState?
      modifies `state
      ensures state == old(state).(contacts := FreeLifted(old(state).contacts))
    {
      var index := 0;
      while index < |state.contacts|
        invariant state.TouchState? && state == old(state).(contacts := state.contacts)
        invariant index <= |state.contacts| == |old(state).contacts|
        invariant forall k :: 0 <= k < index ==> state.contacts[k] == FreeLifted(old(state).contacts)[k]
        invariant forall k :: index <= k < |state.contacts| ==> state.contacts[k] == old(state).contacts[k]
      {
        if state.contacts[index].phase.Up? {
          state := state.(contacts := state.contacts[index := state.contacts[index].(phase := Absent)]);
        }
        index := index + 1;
      }
    }

    /** The last packet of a frame has arrived: lifted contacts are free, and an idle surface restarts Scan Time. */
    method FinishFrame()
      requires state.TouchState?
      modifies `state
      ensures state == Applied(old(state), NOTHING_SUBMITTED.(finalPacket := true)).0
    {
      hide FreeLifted, AnyPhase, AnyPressed;
      FreeContacts();
      state := state.(cursor := 0);
      var stillActive := AnyPhase(state.contacts, Down) || AnyPressed(state.buttons);
      if !stillActive {
        state := state.(epochActive := false);
      }
    }

    /** What an applied report settles: whether something is left to send, and whether its edges are spent. */
    method ApplySuccess() returns (left: bool, lifecycleReportComplete: bool)
      requires !state.MouseState?
      modifies `state
      ensures (state, left, lifecycleReportComplete) == Applied(old(state), submitted)
    {
      hide AnyPhase, AnyPressed, FreeLifted;
      left, lifecycleReportComplete := false, true;
      if state.TouchState? {
        if submitted.finalPacket {
          FinishFrame();
        } else {
          state := state.(cursor := state.cursor + submitted.touchCount);
          left, lifecycleReportComplete := true, false;
        }
      } else if state.PenState? {
        if state.departing {
          state := state.(emitted := state.emitted.(inRange := false, tip := false), departing := false);
          left, lifecycleReportComplete := true, false;
        } else {
          state := state.(emitted := state.desired);
        }
      }
    }

    /** `transfer_complete`, as far as the library sees it. */
    method Settle(outcome: Outcome)
      modifies `state, `inflight, `dirty, `completion, `submitted, `emittedNonNeutral
      ensures Value() == Completed(old(Value()), outcome)
    {
      hide ConsumeEdges, Applied;
      var mayHaveApplied := outcome.native >= 0 && outcome.result != ErrStall;
      var lifecycleReportComplete := true;
      if !mayHaveApplied {
        dirty := true;
      } else if state.MouseState? {
        state := state.(dx := state.dx - submitted.dx, dy := state.dy - submitted.dy,
                        wheel := state.wheel - submitted.wheel,
                        pan := state.pan - submitted.pan);
        dirty := outcome.result == Ok && (state.dx != 0 || state.dy != 0 || state.wheel != 0 || state.pan != 0);
      } else if outcome.result == Ok {
        dirty, lifecycleReportComplete := ApplySuccess();
      } else {
        if state.TouchState? {
          state := state.(cursor := 0);
        }
        dirty := false;
      }
      if mayHaveApplied && (outcome.result != Ok || lifecycleReportComplete) {
        ConsumeTransitions();
      }
      if mayHaveApplied {
        if outcome.result == Ok {
          emittedNonNeutral := submitted.nonNeutral;
        } else {
          emittedNonNeutral := emittedNonNeutral || submitted.nonNeutral;
        }
      }
      submitted := NOTHING_SUBMITTED;
      completion := outcome.result;
      inflight := false;
    }

    /** `transfer_complete`; whether the target applied the report is known to the target only. */
    method TransferComplete(outcome: Outcome, ghost applied: bool)
      requires Valid() && inflight && Honest(outcome, applied)
      modifies `state, `inflight, `dirty, `completion, `submitted, `emittedNonNeutral, `sent, `target, `history
      ensures Valid() && history == old(history) + [Complete(outcome, applied)]
      ensures Value() == Completed(old(Value()), outcome)
    {
      hide SpecOk, RunAll, NewWorld, StateOk, Steady, Step, Enabled, Completed, Receive;
      Next(Complete(outcome, applied));
      CompleteIsStep(options, Now(), outcome, applied);
      history := history + [Complete(outcome, applied)];
      target, sent := if applied then Receive(target, sent.value) else target, None;
      Settle(outcome);
    }

    /** `consume_completion`. */
    method ConsumeCompletion() returns (result: ResultCode)
      requires Valid() && !inflight
      modifies `completion, `history
      ensures Valid() && history == old(history) + [Collect]
      ensures result == old(completion) && Value() == old(Value()).(completion := Ok)
    {
      hide SpecOk, RunAll, NewWorld, StateOk, Steady;
      Next(Collect);
      history := history + [Collect];
      result := completion;
      completion := Ok;
    }

    /** The link is gone for good. */
    method LinkLost()
      requires Valid()
      modifies `present, `history
      ensures Valid() && history == old(history) + [Lose] && !present
    {
      hide SpecOk, RunAll, NewWorld, StateOk, Steady;
      Next(Lose);
      history := history + [Lose];
      present := false;
    }

    // ----- Neutralizing --------------------------------------------------------------------------

    method NeutralizeGamepad() returns (hadNonNeutralState: bool)
      requires options.Gamepad? && StateOk(options, state)
      modifies `state
      ensures (state, hadNonNeutralState) == Neutralized(options, old(state))
    {
      hide CountPressed, AnyPressed, Within;
      hadNonNeutralState := false;
      ghost var axes := state.axes;
      var index := 0;
      while index < |state.axes|
        invariant state.GamepadState? && state == old(state).(axes := state.axes)
        invariant index <= |state.axes| == |axes| == |options.axes|
        invariant forall k :: 0 <= k < index ==> state.axes[k] == options.axes[k].neutral
        invariant forall k :: index <= k < |axes| ==> state.axes[k] == axes[k]
        invariant hadNonNeutralState <==> exists k :: 0 <= k < index && axes[k] != options.axes[k].neutral
      {
        hadNonNeutralState := hadNonNeutralState || state.axes[index] != options.axes[index].neutral;
        state := state.(axes := state.axes[index := options.axes[index].neutral]);
        index := index + 1;
      }
      assert state.axes == Neutralized(options, old(state)).0.axes;
      hadNonNeutralState := hadNonNeutralState || state.hasDirection || AnyPressed(state.buttons);
      state := state.(buttons := Repeat(|state.buttons|, false), hasDirection := false, hat := 0);
    }

    method NeutralizeTouch() returns (hadNonNeutralState: bool)
      requires options.Touch? && state.TouchState?
      modifies `state
      ensures (state, hadNonNeutralState) == Neutralized(options, old(state))
    {
      hide AnyPressed;
      hadNonNeutralState := false;
      ghost var contacts := state.contacts;
      var index := 0;
      while index < |state.contacts|
        invariant state.TouchState? && state == old(state).(contacts := state.contacts)
        invariant index <= |state.contacts| == |contacts|
        invariant forall k :: 0 <= k < index ==> state.contacts[k] == LiftAll(contacts)[k]
        invariant forall k :: index <= k < |contacts| ==> state.contacts[k] == contacts[k]
        invariant hadNonNeutralState <==> exists k :: 0 <= k < index && !contacts[k].phase.Absent?
      {
        hadNonNeutralState := hadNonNeutralState || !state.contacts[index].phase.Absent?;
        if state.contacts[index].phase.Down? {
          state := state.(contacts := state.contacts[index := state.contacts[index].(phase := Up)]);
        }
        index := index + 1;
      }
      InUse(contacts);
      assert state.contacts == LiftAll(contacts);
      hadNonNeutralState := hadNonNeutralState || AnyPressed(state.buttons);
      state := state.(buttons := Repeat(|state.buttons|, false), cursor := 0);
    }

    /** `make_neutral`. */
    method Neutralize()
      requires Valid() && !inflight && present && !FrameOpen(state)
      modifies `state, `dirty, `history
      ensures Valid() && history == old(history) + [Event.Neutralize]
      ensures Value() == MakeNeutral(options, old(Value()))
    {
      hide SpecOk, RunAll, NewWorld, StateOk, Steady, AnyPressed, AnyPhase, AxesNeutral, LiftAll;
      Next(Event.Neutralize);
      Matching(options, state);
      history := history + [Event.Neutralize];
      var hadNonNeutralState := false;
      match state {
        case KeyboardState(keys, _, count, modifiers, _) =>
          hadNonNeutralState := modifiers != {} || count != 0;
          state := state.(keys := Repeat(|keys|, false), pressedCount := 0, modifiers := {});
        case MouseState(buttons, _, _, _, _, _) =>
          hadNonNeutralState := AnyPressed(buttons);
          state := state.(buttons := Repeat(|buttons|, false), dx := 0, dy := 0, wheel := 0, pan := 0);
        case ToggleState(usage, _) =>
          hadNonNeutralState := usage != 0;
          state := state.(usage := 0);
        case GamepadState(_, _, _, _, _, _) => hadNonNeutralState := NeutralizeGamepad();
        case TouchState(_, _, _, _, _, _) => hadNonNeutralState := NeutralizeTouch();
        case PenState(desired, emitted, _, _, _, _, _) =>
          hadNonNeutralState := desired.inRange || desired.tip || desired.barrels != {} || emitted.inRange
              || emitted.tip
                                || emitted.barrels != {};
          state := state.(desired := Departed(desired), departing := false);
        case BatteryState(_, _) =>
      }
      dirty := (hadNonNeutralState || emittedNonNeutral) && !options.Battery?;
    }

    // ----- Submitting ----------------------------------------------------------------------------

    method StampScanTime(ticks: nat)
      requires Accepted(options) && StateOk(options, state)
      modifies `state
      ensures state == Stamped(options, old(state), ticks) && StateOk(options, state)
    {
      hide Accepted, StateOk;
      StampedKeeps(options, state, ticks);
      Matching(options, state);
      ScanTimeCounts(options);
      if state.TouchState? && state.cursor == 0 && options.scanTime.Some? {
        if !state.epochActive {
          state := state.(epochActive := true, scanTime := 0);
        } else {
          state := state.(scanTime := ticks % (options.scanTime.value.maximum + 1));
        }
      }
    }

    /** The report of the present state, serialized and, when asked for, checked: neither can fail. */
    method WriteReport(report: array<Byte>, capacity: nat) returns (length: nat)
      requires SpecOk(options, layout) && StateOk(options, state) && Sendable(options, state)
      requires layout.wireBytes <= capacity <= report.Length
      modifies report
      ensures length == layout.wireBytes && ImageOf(options, state).Some?
      ensures Carries(options, layout, ImageOf(options, state).value, report[..length])
              && ReportValid(layout, report[..length])
    {
      hide SpecOk, StateOk, Sendable, ImageOf, Carries, ReportValid, Fits, ContentOf;
      ReportsAlwaysFit(options, layout, state);
      var image := ImageOf(options, state).value;
      var serialized: ResultCode;
      serialized, length := Serialize(options, layout, image, report, capacity);
      CarriedReportIsValid(options, layout, image, report[..length]);
      if validateReports {
        var validated := ValidateReport(layout, report, length);
        assert validated == Ok;
      }
    }

    /** An idle Node remembers no report, and a dirty one has something it can send. */
    lemma Idle()
      requires Valid() && !inflight
      ensures sent == None && submitted == NOTHING_SUBMITTED && NodeOk(options, Value()) && StateOk(options, state)
      ensures dirty ==> Sendable(options, state)
    {
      hide StateOk, Sendable, Remembered, SpecOk, RunAll, NewWorld;
      Sound();
    }

    /** The second half of a submit, with a transfer acquired: stamp, serialize and hand over. */
    method Send(ticks: nat, answer: Option<Outcome>, report: array<Byte>, capacity: nat)
      returns (result: ResultCode, length: nat)
      requires Valid() && present && !inflight && dirty && completion == Ok && Plausible(true, Ok, answer)
      requires layout.wireBytes <= capacity <= report.Length
      modifies report, `state, `inflight, `submitted, `sent, `history
      ensures Valid() && history == old(history) + [if answer.Some? then Reject(ticks, answer.value) else Submit(ticks)]
      ensures (result, Value()) == SubmitResult(options, old(Value()), Ok, ticks, Ok, answer)
      ensures inflight ==>
                length <= report.Length && ImageOf(options, state).Some?
                && Carries(options, layout, ImageOf(options, state).value, report[..length])
    {
      hide SpecOk, RunAll, NewWorld, StateOk, NodeOk, Steady, ImageOf, Carries, ReportValid, Remembered, Stamped,
           Sendable;
      SpecAccepted();
      Idle();
      ghost var before := Now();
      var previous := state;
      if answer.Some? {
        Next(Reject(ticks, answer.value));
        RejectKeeps(options, before, ticks, answer.value);
      } else {
        Next(Submit(ticks));
      }
      StampedSendable(options, state, ticks);
      StampScanTime(ticks);
      length := WriteReport(report, capacity);
      if answer.Some? {
        // The synthetic completion leaves everything to be sent again; Scan Time is taken back.
        state := previous;
        history := history + [Reject(ticks, answer.value)];
        return answer.value.result, length;
      }
      submitted := Remembered(options, state);
      sent := ImageOf(options, state);
      inflight := true;
      history := history + [Submit(ticks)];
      return Ok, length;
    }

    /** `aoahid_node_submit`; the transport's answers and the elapsed time are the environment's. */
    method SubmitReport(preflight: ResultCode, ticks: nat, acquired: ResultCode, answer: Option<Outcome>,
                        report: array<Byte>,
                        capacity: nat)
      returns (result: ResultCode, length: nat)
      requires Valid() && Plausible(present, acquired, answer) && layout.wireBytes <= capacity <= report.Length
      modifies report, `state, `inflight, `dirty, `completion, `submitted, `emittedNonNeutral, `sent, `history
      ensures Valid() && history == old(history) + SubmitEvents(old(Now()), preflight, ticks, acquired, answer)
      ensures (result, Value()) == SubmitResult(options, old(Value()), preflight, ticks, acquired, answer)
      ensures !old(inflight) && inflight ==>
                length <= report.Length && ImageOf(options, state).Some?
                && Carries(options, layout, ImageOf(options, state).value, report[..length])
    {
      hide SpecOk, RunAll, NewWorld, StateOk, NodeOk, Steady, ImageOf, Carries, Remembered, Refused, Launched;
      length := 0;
      if preflight != Ok {
        return preflight, length;
      }
      if inflight {
        return ErrBusy, length;
      }
      var terminal := ConsumeCompletion();
      if terminal != Ok {
        return terminal, length;
      }
      if !dirty {
        return Ok, length;
      }
      if acquired != Ok {
        return acquired, length;
      }
      result, length := Send(ticks, answer, report, capacity);
    }

    /** Nothing but successes so far, or a failure that the next check will report. */
    ghost predicate GoesWell(start: nat)
      reads this
    {
      start <= |history| && (OnlyCloseEvents(history[start..]) || (!inflight && completion != Ok))
    }

    /** Where the object is after more of its history. */
    lemma Went(before: World, past: seq<Event>, events: seq<Event>)
      requires Valid() && history == past + events && before == RunAll(options, NewWorld(options), past)
      ensures Now() == RunAll(options, before, events)
    {
      hide SpecOk, RunAll, NewWorld;
      SpecAccepted();
      RunAppend(options, NewWorld(options), past, events);
    }

    /** The first half of a round: an idle Node reports its last completion, and sends what is left to send. */
    method SendNext(turn: Turn, report: array<Byte>, capacity: nat, ghost start: nat)
      returns (done: bool, result: ResultCode)
      requires Valid() && layout.wireBytes <= capacity <= report.Length
               && Plausible(present, turn.acquired, turn.answer)
      requires !inflight && GoesWell(start)
      modifies report, `state, `inflight, `dirty, `completion, `submitted, `emittedNonNeutral, `sent, `target, `history
      ensures Valid() && old(history) <= history && present == old(present) && (!done ==> GoesWell(start))
      ensures (if done then Some(result) else None, Now()) == SendRound(options, old(Now()), turn)
      ensures done && result == Ok ==> !inflight && !dirty && completion == Ok && OnlyCloseEvents(history[start..])
    {
      hide SpecOk, RunAll, NewWorld, StateOk, ImageOf, Carries, Remembered, Stamped, Refused, Sendable, Steady,
           Launched;
      ghost var before := Now();
      CollectOnce(options, before);
      var terminal := ConsumeCompletion();
      if terminal != Ok {
        return true, terminal;
      }
      if !dirty {
        return true, Ok;
      }
      ghost var collected := history;
      var submit, _ := SubmitReport(turn.preflight, turn.ticks, turn.acquired, turn.answer, report, capacity);
      ghost var events := SubmitEvents(before, turn.preflight, turn.ticks, turn.acquired, turn.answer);
      Went(before, collected, events);
      assert history[start..] == old(history)[start..] + [Collect] + events;
      return submit != Ok && submit != ErrBusy, submit;
    }

    /** A round of waiting. */
    method WaitRound(turn: Turn, report: array<Byte>, capacity: nat, ghost start: nat)
      returns (answer: Option<ResultCode>)
      requires Valid() && layout.wireBytes <= capacity <= report.Length && PlausibleTurn(present, turn)
      requires GoesWell(start)
      modifies report, `state, `inflight, `dirty, `completion, `submitted, `emittedNonNeutral, `sent, `target, `history
      ensures Valid() && old(history) <= history && present == old(present) && (answer.None? ==> GoesWell(start))
      ensures (answer, Now()) == Round(options, old(Now()), turn)
      ensures answer == Some(Ok) ==> !inflight && !dirty && completion == Ok && OnlyCloseEvents(history[start..])
    {
      hide SpecOk, RunAll, NewWorld, StateOk, Steady, Step, Completed, Honest, SendRound;
      if !inflight {
        var done, result := SendNext(turn, report, capacity, start);
        if done {
          return Some(result);
        }
      }
      if inflight && turn.ended.Some? {
        CompletedCode(Value(), turn.ended.value.0);
        SuccessIsApplied(turn.ended.value.0, turn.ended.value.1);
        ghost var before, past := Now(), history;
        TransferComplete(turn.ended.value.0, turn.ended.value.1);
        Went(before, past, [Complete(turn.ended.value.0, turn.ended.value.1)]);
        OneStep(options, before, Complete(turn.ended.value.0, turn.ended.value.1));
      }
      if turn.pumped != Ok && turn.pumped != ErrTimeout {
        return Some(turn.pumped);
      }
      return None;
    }

    /** `poll_until_idle`: each turn is what happens until the next check; when none is left the deadline has passed. */
    method PollUntilIdle(wait: Wait, report: array<Byte>, capacity: nat) returns (result: ResultCode)
      requires Valid() && layout.wireBytes <= capacity <= report.Length
      requires PlausibleWait(present, wait)
      modifies report, `state, `inflight, `dirty, `completion, `submitted, `emittedNonNeutral, `sent, `target, `history
      ensures Valid() && old(history) <= history && present == old(present)
      ensures (result, Now()) == Polled(options, old(Now()), wait)
      ensures result == Ok ==> !inflight && !dirty && completion == Ok && OnlyCloseEvents(history[|old(history)|..])
    {
      hide SpecOk, RunAll, NewWorld, StateOk, Round, PlausibleTurn;
      var turns := wait.turns;
      if |turns| == 0 {
        return ErrUnsetField;
      }
      if wait.preflight != Ok {
        return wait.preflight;
      }
      ghost var start := |history|;
      var index := 0;
      assert turns[0..] == turns;
      while index < |turns|
        invariant index <= |turns| && Valid() && present == old(present)
        invariant old(history) <= history && start == |old(history)| && GoesWell(start)
        invariant Rounds(options, Now(), turns[index..]) == Rounds(options, old(Now()), turns)
      {
        var turn := turns[index];
        assert turns[index..][0] == turn && turns[index..][1..] == turns[index + 1..];
        var answer := WaitRound(turn, report, capacity, start);
        if answer.Some? {
          return answer.value;
        }
        index := index + 1;
      }
      return ErrTimeout;
    }

    // ----- Closing -------------------------------------------------------------------------------

    /** A clean Node is between frames. */
    lemma CleanIsBetweenFrames()
      requires Valid() && !dirty
      ensures !FrameOpen(state)
    {
      hide SpecOk, RunAll, NewWorld, ImageNeutral, LiftsDelivered, LiveIds, Active;
      SpecAccepted();
      RunCovered(options, history);
    }

    /** The neutral reports, sent and waited for; when they are through, the target holds nothing. */
    method SendNeutral(after: Wait, report: array<Byte>, capacity: nat) returns (neutral: ResultCode)
      requires Valid() && layout.wireBytes <= capacity <= report.Length
      requires !inflight && present && !FrameOpen(state)
      requires PlausibleWait(present, after)
      modifies report, `state, `inflight, `dirty, `completion, `submitted, `emittedNonNeutral, `sent, `target, `history
      ensures Valid() && old(history) <= history && present
      ensures (neutral, Now()) == Polled(options, Step(options, old(Now()), Event.Neutralize), after)
      ensures neutral == Ok ==> !inflight && !dirty && (!options.Battery? ==> TargetNeutral(options, target))
    {
      hide SpecOk, RunAll, NewWorld, StateOk, ImageOf, Steady, TargetNeutral, Polled, MakeNeutral, Step, PlausibleWait;
      SpecAccepted();
      ghost var before, past := Now(), history;
      Neutralize();
      Went(before, past, [Event.Neutralize]);
      OneStep(options, before, Event.Neutralize);
      ghost var neutralized := history;
      neutral := PollUntilIdle(after, report, capacity);
      ghost var closing := history[|neutralized|..];
      assert history == neutralized + closing;
      RunAppend(options, NewWorld(options), neutralized, closing);
      if neutral == Ok && !options.Battery? {
        CloseLeavesNothingHeld(options, past, closing);
      }
    }

    /** The close of a Node whose report, if there was one, has landed. */
    method CloseIdle(after: Wait, unregistered: ResultCode, cleared: ResultCode, report: array<Byte>, capacity: nat)
      returns (result: ResultCode)
      requires Valid() && layout.wireBytes <= capacity <= report.Length && !inflight && !FrameOpen(state)
      requires PlausibleWait(present, after)
      modifies report, `state, `inflight, `dirty, `completion, `submitted, `emittedNonNeutral, `sent, `target, `history
      ensures Valid() && old(history) <= history && present == old(present)
      ensures (result, Now()) == ClosedIdle(options, old(Now()), after, unregistered, cleared)
      ensures result == Ok && present && !options.Battery? ==> !inflight && !dirty && TargetNeutral(options, target)
    {
      hide SpecOk, RunAll, NewWorld, StateOk, ImageOf, Steady, TargetNeutral, Polled, PlausibleWait, Step, FrameOpen,
           LiveNode.Valid;
      CollectOnce(options, Now());
      var terminal := ConsumeCompletion();
      if terminal != Ok {
        return terminal;
      }
      if present {
        var neutral := SendNeutral(after, report, capacity);
        if neutral != Ok {
          return if neutral == ErrTimeout && inflight then ClosePending else neutral;
        }
        if unregistered != Ok && unregistered != ErrNoDevice {
          return unregistered;
        }
      }
      return cleared;
    }

    /** What is in flight lands, and an open frame ends, before the close goes on. */
    method FinishFirst(before: Wait, report: array<Byte>, capacity: nat) returns (waited: ResultCode)
      requires Valid() && layout.wireBytes <= capacity <= report.Length && PlausibleWait(present, before)
      modifies report, `state, `inflight, `dirty, `completion, `submitted, `emittedNonNeutral, `sent, `target, `history
      ensures Valid() && old(history) <= history && present == old(present)
      ensures (waited, Now()) == if NeedsWait(old(Now())) then Polled(options, old(Now()), before) else (Ok, old(Now()))
      ensures waited == Ok ==> !inflight && !FrameOpen(state)
    {
      hide SpecOk, RunAll, NewWorld, Polled, PlausibleWait, FrameOpen;
      if inflight || FrameOpen(state) {
        waited := PollUntilIdle(before, report, capacity);
        if waited == Ok {
          CleanIsBetweenFrames();
        }
        return;
      }
      return Ok;
    }

    /**
     * `aoahid_node_close`. When it succeeds with the device present, no target state that fits the whole
     * history holds anything.
     */
    method Close(before: Wait, after: Wait, unregistered: ResultCode, cleared: ResultCode, report: array<Byte>,
                 capacity: nat)
      returns (result: ResultCode)
      requires Valid() && layout.wireBytes <= capacity <= report.Length
      requires PlausibleWait(present, before) && PlausibleWait(present, after)
      modifies report, `state, `inflight, `dirty, `completion, `submitted, `emittedNonNeutral, `sent, `target, `history
      ensures Valid() && old(history) <= history
      ensures (result, Now()) == Closed(options, old(Now()), before, after, unregistered, cleared)
      ensures result == Ok && present && !options.Battery? ==> !inflight && !dirty && TargetNeutral(options, target)
    {
      hide SpecOk, RunAll, NewWorld, TargetNeutral, Polled, Closed, ClosedIdle, PlausibleWait, FrameOpen, NeedsWait,
           LiveNode.Valid;
      ghost var start := Now();
      var waited := FinishFirst(before, report, capacity);
      ClosedAfter(options, start, before, after, unregistered, cleared, (waited, Now()));
      if waited != Ok {
        return if waited == ErrTimeout && inflight then ClosePending else waited;
      }
      result := CloseIdle(after, unregistered, cleared, report, capacity);
    }
  }
}
