/**
 * Whole runs of a Node against a target device: the caller's calls, the library's submits, the
 * transport's completions, and a target that applies what reaches it.
 */
module NodeRun {
  import opened Common
  import opened Factories
  import opened NodeModel
  import opened NodeFacts

  // ----- The target ------------------------------------------------------------------------------

  /**
   * What the target has: the last report it applied, and for touch the contact IDs it tracks and the
   * contacts it still expects in the current frame. A Contact Count above zero starts a frame, and a
   * packet's places beyond the expected contacts mean nothing.
   */
  datatype Target = Target(last: Option<Image>, held: set<nat>, expected: nat)

  const NEW_TARGET := Target(None, {}, 0)

  function IdsWithTip(entries: seq<Entry>, tip: bool): set<nat> {
    set k | 0 <= k < |entries| && entries[k].tip == tip :: entries[k].id
  }

  /** The places of a packet that the target reads. */
  function ReadEntries(image: Image, expected: nat): seq<Entry>
    requires image.TouchImage?
  {
    image.entries[..Min(|image.entries|, if image.count > 0 then image.count else expected)]
  }

  function Receive(t: Target, image: Image): Target {
    if image.TouchImage? then
      var read := ReadEntries(image, t.expected);
      Target(Some(image), t.held - IdsWithTip(read, false) + IdsWithTip(read, true),
             (if image.count > 0 then image.count else t.expected) - |read|)
    else t.(last := Some(image))
  }

  predicate ImageNeutral(o: Options, image: Image) {
    match image
    case KeyboardImage(keys, modifiers) => !AnyPressed(keys) && modifiers == {}
    case MouseImage(buttons, _, _, _, _) => !AnyPressed(buttons)
    case ToggleImage(usage) => usage == 0
    case GamepadImage(axes, buttons, hasDirection, _) => AxesNeutral(o, axes) && !AnyPressed(buttons) && !hasDirection
    case TouchImage(_, buttons, _, _) => !AnyPressed(buttons)
    case PenImage(sample) => !sample.inRange && !sample.tip && sample.barrels == {}
    case BatteryImage(_, _) => true
  }

  /** No key, button, usage, direction, off-neutral axis, tip or in-range pen. */
  predicate TargetNeutral(o: Options, t: Target) {
    t.held == {} && (t.last.Some? ==> ImageNeutral(o, t.last.value))
  }

  // ----- Events ----------------------------------------------------------------------------------

  /** `applied` is the target's secret: whether it applied the report that just completed. */
  datatype Event =
    | Call(m: Mutation)
    | Submit(ticks: nat)
    | Reject(ticks: nat, outcome: Outcome)
    | Complete(outcome: Outcome, applied: bool)
    | Collect
    | Neutralize
    | Lose

  datatype World = World(node: Node, sent: Option<Image>, target: Target)

  /** Success means applied, a stall or a refused submit means not applied, anything else may be either. */
  predicate Honest(c: Outcome, applied: bool) {
    && (c.result == Ok ==> c.native >= 0 && applied)
    && (!MayHaveApplied(c) ==> !applied)
  }

  predicate FrameOpen(s: NodeState) {
    s.TouchState? && s.cursor != 0
  }

  predicate Enabled(w: World, e: Event) {
    match e
    case Call(_) => true
    case Submit(_) => !w.node.inflight && w.node.dirty && w.node.present && w.node.completion == Ok
    case Reject(_, outcome) =>
      && !w.node.inflight && w.node.dirty && w.node.present && w.node.completion == Ok
      && outcome.result != Ok && outcome.native < 0
    case Complete(outcome, applied) => w.node.inflight && w.sent.Some? && Honest(outcome, applied)
    case Collect => !w.node.inflight
    case Neutralize => !w.node.inflight && w.node.present && !FrameOpen(w.node.state)
    case Lose => true
  }

  function Step(o: Options, w: World, e: Event): World {
    if !Enabled(w, e) then w
    else
      match e
      case Call(m) => w.(node := Mutate(o, w.node, m).1)
      case Submit(ticks) =>
        var launched := Launched(o, w.node, ticks);
        World(launched, ImageOf(o, launched.state), w.target)
      case Reject(ticks, outcome) => w.(node := Refused(o, w.node, ticks, outcome))
      case Complete(outcome, applied) =>
        World(Completed(w.node, outcome), None, if applied then Receive(w.target, w.sent.value) else w.target)
      case Collect => w.(node := w.node.(completion := Ok))
      case Neutralize => w.(node := MakeNeutral(o, w.node))
      case Lose => w.(node := w.node.(present := false))
  }

  function NewWorld(o: Options): World
    requires Accepted(o)
  {
    World(NewNode(o), None, NEW_TARGET)
  }

  function RunAll(o: Options, w: World, events: seq<Event>): World {
    if |events| == 0 then w else Step(o, RunAll(o, w, events[..|events| - 1]), events[|events| - 1])
  }

  lemma RunSnoc(o: Options, w: World, events: seq<Event>, e: Event)
    ensures RunAll(o, w, events + [e]) == Step(o, RunAll(o, w, events), e)
  {
    assert (events + [e])[..|events|] == events;
  }

  /** Runs before any close. */
  predicate NoNeutralize(events: seq<Event>) {
    forall e :: e in events ==> !e.Neutralize?
  }

  /** Every completion says for certain whether the report was applied. */
  predicate Certain(events: seq<Event>) {
    forall e :: e in events ==> CertainEvent(e)
  }

  predicate CertainEvent(e: Event) {
    e.Complete? ==> e.outcome.result == Ok || !MayHaveApplied(e.outcome)
  }

  // ----- The basic invariant ---------------------------------------------------------------------

  /** The Node is well formed and the report in flight is the image of its state. */
  predicate Steady(o: Options, w: World) {
    && NodeOk(o, w.node)
    && (if w.node.inflight then w.sent == ImageOf(o, w.node.state) && w.sent.Some? else w.sent == None)
  }

  lemma StepSteady(o: Options, w: World, e: Event)
    requires Accepted(o) && Steady(o, w)
    ensures Steady(o, Step(o, w, e))
  {
    hide Accepted, NodeOk, ImageOf, Mutate, Launched, Completed, MakeNeutral, Receive, Refused;
    if Enabled(w, e) {
      match e
      case Call(m) =>
        MutateKeeps(o, w.node, m);
        MutateFlight(o, w.node, m);
      case Submit(ticks) =>
        LaunchedKeeps(o, w.node, ticks);
        LaunchedImage(o, w.node, ticks);
      case Complete(outcome, _) =>
        CompletedKeeps(o, w.node, outcome);
        CompletedLands(w.node, outcome);
      case Collect => CollectKeeps(o, w.node);
      case Neutralize =>
        NeutralKeeps(o, w.node);
        NeutralStill(o, w.node);
      case Lose => LoseKeeps(o, w.node);
      case Reject(ticks, outcome) => RejectKeeps(o, w, ticks, outcome);
    }
  }

  lemma RejectKeeps(o: Options, w: World, ticks: nat, c: Outcome)
    requires NodeOk(o, w.node) && Enabled(w, Reject(ticks, c))
    ensures Step(o, w, Reject(ticks, c)) == w
  {
    hide StateOk, Refused;
    RefusedChangesNothing(o, w.node, ticks, c);
  }

  /** A report in flight freezes the state. */
  lemma MutateFlight(o: Options, n: Node, m: Mutation)
    ensures Mutate(o, n, m).1.inflight == n.inflight
    ensures n.inflight ==> Mutate(o, n, m).1 == n
  {
    hide EditOf;
  }

  lemma LaunchedImage(o: Options, n: Node, ticks: nat)
    requires Accepted(o) && NodeOk(o, n)
    ensures Launched(o, n, ticks).inflight && ImageOf(o, Launched(o, n, ticks).state).Some?
  {
    hide Accepted, StateOk, ImageOf, Remembered;
    StampedKeeps(o, n.state, ticks);
    ImageExists(o, Launched(o, n, ticks).state);
  }

  lemma CompletedLands(n: Node, c: Outcome)
    ensures !Completed(n, c).inflight
  {
    hide ConsumeEdges, Applied;
  }

  lemma CollectKeeps(o: Options, n: Node)
    requires NodeOk(o, n)
    ensures NodeOk(o, n.(completion := Ok))
  {
    hide StateOk, Remembered;
  }

  lemma LoseKeeps(o: Options, n: Node)
    requires NodeOk(o, n)
    ensures NodeOk(o, n.(present := false))
  {
    hide StateOk, Remembered;
  }

  lemma NeutralStill(o: Options, n: Node)
    ensures MakeNeutral(o, n).inflight == n.inflight
  {
    hide Neutralized;
  }

  lemma NewSteady(o: Options)
    requires Accepted(o)
    ensures Steady(o, NewWorld(o))
  {
    hide Accepted, InitialState;
    InitialOk(o);
  }

  lemma {:induction false} RunSteady(o: Options, events: seq<Event>)
    requires Accepted(o)
    ensures Steady(o, RunAll(o, NewWorld(o), events))
  {
    hide Accepted, Steady, Step, NewWorld;
    if |events| == 0 {
      NewSteady(o);
    } else {
      RunSteady(o, events[..|events| - 1]);
      StepSteady(o, RunAll(o, NewWorld(o), events[..|events| - 1]), events[|events| - 1]);
    }
  }
}
