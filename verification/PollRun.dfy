/**
 * Waiting until a Node is idle, and closing it, as functions of what the environment does in every round; and the
 * exact number of rounds that a wait takes before it succeeds (src/api/c_api.cpp).
 */
module PollRun {
  import opened Common
  import opened Factories
  import opened NodeModel
  import opened NodeFacts
  import opened NodeRun
  import opened CloseSafety
  import MouseRun
  import TouchRun

  // ----- The environment -------------------------------------------------------------------------

  /** What `aoahid_node_submit` answers and leaves behind; `answer` is a refusal by libusb. */
  function SubmitResult(o: Options, n: Node, preflight: ResultCode, ticks: nat, acquired: ResultCode,
                        answer: Option<Outcome>)
    : (ResultCode, Node)
  {
    if preflight != Ok then (preflight, n)
    else if n.inflight then (ErrBusy, n)
    else if n.completion != Ok then (n.completion, n.(completion := Ok))
    else if !n.dirty then (Ok, n)
    else if acquired != Ok then (acquired, n)
    else if answer.Some? then (answer.value.result, Refused(o, n, ticks, answer.value))
    else (Ok, Launched(o, n, ticks))
  }

  /** The events of a run that a call to submit amounts to. */
  function SubmitEvents(w: World, preflight: ResultCode, ticks: nat, acquired: ResultCode,
                        answer: Option<Outcome>): seq<Event> {
    if preflight != Ok || w.node.inflight then []
    else if w.node.completion != Ok || !w.node.dirty || acquired != Ok then [Collect]
    else if answer.Some? then [Collect, Reject(ticks, answer.value)]
    else [Collect, Submit(ticks)]
  }

  /** A lost link shows in the acquisition; a refusal by libusb is negative and never a success. */
  predicate Plausible(present: bool, acquired: ResultCode, answer: Option<Outcome>) {
    && (!present ==> acquired != Ok)
    && (answer.Some? ==> answer.value.result != Ok && answer.value.native < 0)
  }

  /**
   * One round of waiting: how a submit would go, whether the report in flight ends, and what the event pump or
   * the Context says at its end.
   */
  datatype Turn = Turn(preflight: ResultCode, ticks: nat, acquired: ResultCode, answer: Option<Outcome>,
                       ended: Option<(Outcome, bool)>, pumped: ResultCode)

  /** A wait until the deadline: what the Context says first, and the rounds there are time for. */
  datatype Wait = Wait(preflight: ResultCode, turns: seq<Turn>)

  predicate PlausibleTurn(present: bool, t: Turn) {
    Plausible(present, t.acquired, t.answer) && (t.ended.Some? ==> Honest(t.ended.value.0, t.ended.value.1))
  }

  predicate PlausibleWait(present: bool, wait: Wait) {
    forall t :: t in wait.turns ==> PlausibleTurn(present, t)
  }

  // ----- Waiting ---------------------------------------------------------------------------------

  /** An idle Node reports its last completion, or that nothing is left, or sends what is left. */
  function SendRound(o: Options, w: World, t: Turn): (Option<ResultCode>, World) {
    if w.node.completion != Ok then (Some(w.node.completion), Step(o, w, Collect))
    else if !w.node.dirty then (Some(Ok), w)
    else
      var code := SubmitResult(o, w.node, t.preflight, t.ticks, t.acquired, t.answer).0;
      var sent := RunAll(o, w, SubmitEvents(w, t.preflight, t.ticks, t.acquired, t.answer));
      (if code == Ok || code == ErrBusy then None else Some(code), sent)
  }

  function Ended(o: Options, w: World, t: Turn): World {
    if w.node.inflight && t.ended.Some? then Step(o, w, Complete(t.ended.value.0, t.ended.value.1)) else w
  }

  /** A round, and its answer if the wait ends with it. */
  function Round(o: Options, w: World, t: Turn): (Option<ResultCode>, World) {
    var (answer, sent) := if w.node.inflight then (None, w) else SendRound(o, w, t);
    if answer.Some? then (answer, sent)
    else (if t.pumped != Ok && t.pumped != ErrTimeout then Some(t.pumped) else None, Ended(o, sent, t))
  }

  function Rounds(o: Options, w: World, turns: seq<Turn>): (ResultCode, World)
    decreases |turns|
  {
    if |turns| == 0 then (ErrTimeout, w)
    else
      var (answer, next) := Round(o, w, turns[0]);
      if answer.Some? then (answer.value, next) else Rounds(o, next, turns[1..])
  }

  /** `poll_until_idle`: a wait without rounds is a deadline of zero. */
  function Polled(o: Options, w: World, wait: Wait): (ResultCode, World) {
    if |wait.turns| == 0 then (ErrUnsetField, w)
    else if wait.preflight != Ok then (wait.preflight, w)
    else Rounds(o, w, wait.turns)
  }

  // ----- Closing ---------------------------------------------------------------------------------

  /** A timeout with a report still in flight leaves the close pending. */
  function WaitAnswer(r: (ResultCode, World)): ResultCode {
    if r.0 == ErrTimeout && r.1.node.inflight then ClosePending else r.0
  }

  function NeedsWait(w: World): bool {
    w.node.inflight || FrameOpen(w.node.state)
  }

  /** The close of a Node whose report, if there was one, has landed. */
  function ClosedIdle(o: Options, w: World, after: Wait, unregistered: ResultCode, cleared: ResultCode)
    : (ResultCode, World)
  {
    if w.node.completion != Ok then (w.node.completion, Step(o, w, Collect))
    else if !w.node.present then (cleared, w)
    else
      var neutral := Polled(o, Step(o, w, Neutralize), after);
      if neutral.0 != Ok then (WaitAnswer(neutral), neutral.1)
      else if unregistered != Ok && unregistered != ErrNoDevice then (unregistered, neutral.1)
      else (cleared, neutral.1)
  }

  /** `aoahid_node_close`. */
  function Closed(o: Options, w: World, before: Wait, after: Wait, unregistered: ResultCode, cleared: ResultCode)
    : (ResultCode, World)
  {
    if NeedsWait(w) then
      var waited := Polled(o, w, before);
      if waited.0 != Ok then (WaitAnswer(waited), waited.1)
      else ClosedIdle(o, waited.1, after, unregistered, cleared)
    else ClosedIdle(o, w, after, unregistered, cleared)
  }

  /** The close, step by step. */
  lemma ClosedAfter(o: Options, w: World, before: Wait, after: Wait, unregistered: ResultCode, cleared: ResultCode,
                    waited: (ResultCode, World))
    requires waited == if NeedsWait(w) then Polled(o, w, before) else (Ok, w)
    ensures Closed(o, w, before, after, unregistered, cleared)
            == if waited.0 != Ok then (WaitAnswer(waited), waited.1)
               else ClosedIdle(o, waited.1, after, unregistered, cleared)
  {
    hide Polled, ClosedIdle, WaitAnswer, NeedsWait;
  }

  // ----- How many reports a Node still has to send -----------------------------------------------

  /** Reports that a dirty state still needs, the one in flight included. */
  function StillToSend(o: Options, s: NodeState): nat
    requires Accepted(o) && StateOk(o, s)
  {
    match s
    case MouseState(_, _, _, _, _, _) => Max(1, MouseRun.ReportsNeeded(o, s))
    case TouchState(contacts, _, _, _, cursor, _) => PacketsLeft(o, |Active(contacts)| - cursor)
    case PenState(_, _, _, departing, _, _, _) => if departing then 2 else 1
    case _ => 1
  }

  /** Packets for the contacts that a frame still has to carry; a frame without contacts takes one. */
  function PacketsLeft(o: Options, contacts: int): nat
    requires Accepted(o) && o.Touch?
  {
    TouchRun.AcceptedPackets(o);
    Max(1, CeilDiv(Max(0, contacts), o.contactsPerReport))
  }

  function Needed(o: Options, n: Node): nat
    requires Accepted(o) && StateOk(o, n.state)
  {
    if n.dirty then StillToSend(o, n.state) else 0
  }

  // ----- One report ------------------------------------------------------------------------------

  lemma MouseReport(o: Options, w: World, c: Outcome)
    requires o.Mouse? && Accepted(o) && Steady(o, w) && w.node.inflight && c.result == Ok && c.native >= 0
    ensures var r := Step(o, w, Complete(c, true));
            Steady(o, r) && Needed(o, r.node) == Needed(o, w.node) - 1
  {
    hide Accepted, StateOk, Remembered, Sendable, Completed, ImageOf, Receive, MouseRun.ReportsFor;
    var done := Complete(c, true);
    StepSteady(o, w, done);
    MouseRun.MouseOnly(o, w.node.state);
    SuccessAs(w.node, c);
    MouseRun.CompletedMouse(w.node, Outcome(Ok, 0));
    var r := Step(o, w, done).node;
    forall d
      ensures MouseRun.ReportsFor(o, r.state, d) == Max(0, MouseRun.ReportsFor(o, w.node.state, d) - 1)
      ensures MouseRun.ReportsFor(o, r.state, d) == 0 <==> MouseRun.Pending(r.state, d) == 0
    {
      MouseRun.ReportSavesOne(o, w, c, true, d);
      MouseRun.NeedIffPending(o, r.state, d);
    }
    assert MouseRun.ReportsFor(o, r.state, MouseRun.AlongX) == 0 <==> MouseRun.Pending(r.state, MouseRun.AlongX) == 0;
    assert MouseRun.ReportsFor(o, r.state, MouseRun.AlongY) == 0 <==> MouseRun.Pending(r.state, MouseRun.AlongY) == 0;
    assert MouseRun.ReportsFor(o, r.state, MouseRun.AlongWheel) == 0
      <==> MouseRun.Pending(r.state, MouseRun.AlongWheel) == 0;
    assert MouseRun.ReportsFor(o, r.state, MouseRun.AlongPan) == 0
      <==> MouseRun.Pending(r.state, MouseRun.AlongPan) == 0;
  }

  lemma SuccessAs(n: Node, c: Outcome)
    requires c.result == Ok && c.native >= 0
    ensures Completed(n, c) == Completed(n, Outcome(Ok, 0))
  {
    hide ConsumeEdges, Applied;
  }

  lemma TouchReport(o: Options, n: Node, c: Outcome)
    requires o.Touch? && Accepted(o) && NodeOk(o, n) && n.inflight && c.result == Ok && c.native >= 0
    requires StateOk(o, Completed(n, c).state)
    ensures Needed(o, Completed(n, c)) == Needed(o, n) - 1
  {
    hide Accepted, SamplesPlaced, DistinctIds, AnyPhase, AnyPressed, HasNonNeutral, CeilDiv, Active;
    TouchRun.AcceptedPackets(o);
    var m: nat := Max(0, |Active(n.state.contacts)| - n.state.cursor);
    ZeroCeiling(o.contactsPerReport);
    if m > 0 {
      CeilingStep(m, o.contactsPerReport);
      CeilingBound(Max(0, m - o.contactsPerReport), o.contactsPerReport, 0);
    }
  }

  lemma OtherReport(o: Options, n: Node, c: Outcome)
    requires !o.Mouse? && !o.Touch? && Accepted(o) && NodeOk(o, n) && n.inflight && c.result == Ok && c.native >= 0
    requires StateOk(o, Completed(n, c).state)
    ensures Needed(o, Completed(n, c)) == Needed(o, n) - 1
  {
    hide Accepted, CountPressed, AllowedUsage;
  }

  /** The target's answer brings the Node one report nearer to being clean. */
  lemma ReportLands(o: Options, w: World, c: Outcome)
    requires Accepted(o) && Steady(o, w) && w.node.inflight && c.result == Ok && c.native >= 0
    ensures var r := Step(o, w, Complete(c, true));
            && Steady(o, r) && !r.node.inflight && r.node.completion == Ok && r.node.present == w.node.present
            && Needed(o, r.node) == Needed(o, w.node) - 1 && (!r.node.dirty ==> !FrameOpen(r.node.state))
  {
    hide Accepted, StateOk, Remembered, Sendable, Completed, ImageOf, Receive, Needed, FrameOpen;
    StepSteady(o, w, Complete(c, true));
    Landed(w.node, c);
    FrameEnds(o, w.node, c);
    if o.Mouse? {
      MouseReport(o, w, c);
    } else if o.Touch? {
      TouchReport(o, w.node, c);
    } else {
      OtherReport(o, w.node, c);
    }
  }

  lemma FrameEnds(o: Options, n: Node, c: Outcome)
    requires NodeOk(o, n) && n.inflight && c.result == Ok && c.native >= 0
    ensures !Completed(n, c).dirty ==> !FrameOpen(Completed(n, c).state)
  {
    hide StateOk, Remembered, HasNonNeutral, FreeLifted, Settled, AnyPhase, AnyPressed;
  }

  lemma Landed(n: Node, c: Outcome)
    ensures !Completed(n, c).inflight && Completed(n, c).completion == c.result && Completed(n, c).present == n.present
  {
    hide ConsumeEdges, Applied;
  }

  lemma SubmitNeeds(o: Options, w: World, ticks: nat)
    requires Accepted(o) && Steady(o, w) && Enabled(w, Submit(ticks))
    ensures var r := Step(o, w, Submit(ticks));
            Steady(o, r) && r.node.inflight && r.node.present && Needed(o, r.node) == Needed(o, w.node)
  {
    hide Accepted, StateOk, Remembered, Sendable, ImageOf, StillToSend;
    StepSteady(o, w, Submit(ticks));
    StampNeeds(o, w.node.state, ticks);
  }

  lemma StampNeeds(o: Options, s: NodeState, ticks: nat)
    requires Accepted(o) && StateOk(o, s)
    ensures StateOk(o, Stamped(o, s, ticks)) && StillToSend(o, Stamped(o, s, ticks)) == StillToSend(o, s)
  {
    hide Accepted, StateOk, MouseRun.ReportsNeeded, CeilDiv, Active;
    StampedKeeps(o, s, ticks);
  }

  // ----- Rounds ----------------------------------------------------------------------------------

  /**
   * Nothing goes wrong in the round: a transfer is granted or all are in use, and a report that ends is one that the
   * target took.
   */
  predicate Fair(t: Turn) {
    && t.preflight == Ok && (t.acquired == Ok || t.acquired == ErrBusy) && t.answer.None?
    && (t.pumped == Ok || t.pumped == ErrTimeout)
    && (t.ended.Some? ==> t.ended.value.0.result == Ok && t.ended.value.0.native >= 0 && t.ended.value.1)
  }

  /** A report is in flight in the round, whether it was before or goes out in it. */
  predicate Flying(inflight: bool, t: Turn) {
    inflight || t.acquired == Ok
  }

  predicate Lands(inflight: bool, t: Turn) {
    Flying(inflight, t) && t.ended.Some?
  }

  /** Reports that land in the rounds of a Node that always has one to send. */
  function Landings(inflight: bool, turns: seq<Turn>): nat
    decreases |turns|
  {
    if |turns| == 0 then 0
    else if Lands(inflight, turns[0]) then 1 + Landings(false, turns[1..])
    else Landings(Flying(inflight, turns[0]), turns[1..])
  }

  /** Whether a report is in flight after those rounds. */
  predicate FlyingAfter(inflight: bool, turns: seq<Turn>)
    decreases |turns|
  {
    if |turns| == 0 then inflight
    else FlyingAfter(Flying(inflight, turns[0]) && !Lands(inflight, turns[0]), turns[1..])
  }

  /** In the middle of a wait: an idle Node has no error to report, and a clean one is between frames. */
  predicate Waiting(o: Options, w: World) {
    && Steady(o, w) && w.node.present && (w.node.inflight || w.node.completion == Ok)
    && (!w.node.dirty ==> !FrameOpen(w.node.state))
  }

  lemma Sent(o: Options, w: World, t: Turn)
    requires !w.node.inflight && w.node.completion == Ok && w.node.dirty && w.node.present && Fair(t)
             && t.acquired == Ok
    ensures SendRound(o, w, t) == (None, Step(o, w, Submit(t.ticks))) && Enabled(w, Submit(t.ticks))
  {
    hide Launched, ImageOf;
    var events := SubmitEvents(w, t.preflight, t.ticks, t.acquired, t.answer);
    assert Step(o, w, Collect) == w;
    assert events[..1] == [Collect] && events[..1][..0] == [];
    assert RunAll(o, w, events[..1]) == w;
    assert RunAll(o, w, events) == Step(o, RunAll(o, w, events[..1]), Submit(t.ticks));
  }

  lemma NotSent(o: Options, w: World, t: Turn)
    requires !w.node.inflight && w.node.completion == Ok && w.node.dirty && Fair(t) && t.acquired == ErrBusy
    ensures SendRound(o, w, t) == (None, w)
  {
    var events := SubmitEvents(w, t.preflight, t.ticks, t.acquired, t.answer);
    assert Step(o, w, Collect) == w;
    assert events[..0] == [] && events == [Collect];
    assert RunAll(o, w, events) == Step(o, RunAll(o, w, events[..0]), Collect);
  }

  /** What a fair round has in flight before anything ends in it. */
  lemma FlightOfRound(o: Options, w: World, t: Turn)
    requires Accepted(o) && Waiting(o, w) && w.node.dirty && Fair(t)
    ensures var sent := if w.node.inflight then w else SendRound(o, w, t).1;
            && (!w.node.inflight ==> SendRound(o, w, t).0 == None)
            && Waiting(o, sent) && sent.node.inflight == Flying(w.node.inflight, t) && sent.node.dirty
            && Needed(o, sent.node) == Needed(o, w.node)
  {
    hide Accepted, StateOk, FlightOk, Sendable, Step, SendRound, Needed, ImageOf, Enabled, FrameOpen;
    if !w.node.inflight {
      if t.acquired == Ok {
        Sent(o, w, t);
        SubmitNeeds(o, w, t.ticks);
        CleanIsIdle(o, Step(o, w, Submit(t.ticks)));
      } else {
        NotSent(o, w, t);
      }
    }
  }

  /** A round in which a report lands brings the Node one report nearer to being clean; no other changes that. */
  lemma RoundGoes(o: Options, w: World, t: Turn)
    requires Accepted(o) && Waiting(o, w) && w.node.dirty && Fair(t)
    ensures var r := Round(o, w, t);
            && r.0 == None && Waiting(o, r.1)
            && Needed(o, r.1.node) == Needed(o, w.node) - (if Lands(w.node.inflight, t) then 1 else 0)
            && r.1.node.inflight == (Flying(w.node.inflight, t) && !Lands(w.node.inflight, t))
  {
    hide Accepted, StateOk, FlightOk, Sendable, Step, SendRound, Needed, ImageOf, Enabled, FrameOpen;
    FlightOfRound(o, w, t);
    if Lands(w.node.inflight, t) {
      ReportLands(o, if w.node.inflight then w else SendRound(o, w, t).1, t.ended.value.0);
    }
  }

  lemma CleanIsIdle(o: Options, w: World)
    requires Accepted(o) && Steady(o, w)
    ensures w.node.inflight ==> w.node.dirty
    ensures Needed(o, w.node) == 0 <==> !w.node.dirty
  {
    hide Accepted, StateOk, Remembered, Sendable, MouseRun.ReportsNeeded, CeilDiv, Active;
  }

  /** In the rounds before the last one land at least `need` reports; the last one only looks. */
  predicate Enough(inflight: bool, turns: seq<Turn>, need: nat) {
    |turns| > 0 && Landings(inflight, turns[..|turns| - 1]) >= need
  }

  lemma EnoughNext(inflight: bool, turns: seq<Turn>, need: nat)
    requires |turns| > 0 && need > 0
    ensures Enough(inflight, turns, need) <==>
            Enough(Flying(inflight, turns[0]) && !Lands(inflight, turns[0]), turns[1..],
                   need - if Lands(inflight, turns[0]) then 1 else 0)
  {
    hide Lands, Flying;
    if |turns| == 1 {
      assert Landings(inflight, turns[..0]) == 0;
    } else {
      assert turns[1..][..|turns| - 2] == turns[..|turns| - 1][1..];
      assert turns[..|turns| - 1][0] == turns[0];
      assert Lands(inflight, turns[0]) ==> Flying(inflight, turns[0]) by { LandsFlying(inflight, turns[0]); }
    }
  }

  lemma LandsFlying(inflight: bool, t: Turn)
    ensures Lands(inflight, t) ==> Flying(inflight, t)
  {
  }

  /**
   * A wait in which nothing goes wrong succeeds exactly when as many reports land as the state needs, with one more
   * round to see it. Otherwise every round was used, and the wait times out with what was still missing.
   */
  lemma {:induction false} WaitIsExact(o: Options, w: World, turns: seq<Turn>)
    requires Accepted(o) && Waiting(o, w) && forall t :: t in turns ==> Fair(t)
    ensures var r := Rounds(o, w, turns);
            && Waiting(o, r.1)
            && r.0 == (if Enough(w.node.inflight, turns, Needed(o, w.node)) then Ok else ErrTimeout)
            && (r.0 == Ok ==> !r.1.node.dirty && !r.1.node.inflight)
            && (r.0 == ErrTimeout ==>
                  && Needed(o, r.1.node) == Needed(o, w.node) - Landings(w.node.inflight, turns)
                  && r.1.node.inflight == FlyingAfter(w.node.inflight, turns))
    decreases |turns|
  {
    hide Accepted, Round, Needed, Enough, StateOk, FlightOk, Sendable, ImageOf, Fair, Lands, Flying, FrameOpen;
    if |turns| == 0 {
      NeverEnough(w.node.inflight, turns, Needed(o, w.node));
    } else {
      CleanIsIdle(o, w);
      assert turns[0] in turns;
      if w.node.dirty {
        RoundGoes(o, w, turns[0]);
        LandsFlying(w.node.inflight, turns[0]);
        EnoughNext(w.node.inflight, turns, Needed(o, w.node));
        WaitIsExact(o, Round(o, w, turns[0]).1, turns[1..]);
      } else {
        CleanRound(o, w, turns[0]);
        AlwaysEnough(w.node.inflight, turns);
      }
    }
  }

  lemma NeverEnough(inflight: bool, turns: seq<Turn>, need: nat)
    ensures |turns| == 0 ==> !Enough(inflight, turns, need)
  {
  }

  lemma AlwaysEnough(inflight: bool, turns: seq<Turn>)
    ensures |turns| > 0 ==> Enough(inflight, turns, 0)
  {
  }

  /** A clean, idle Node is done at once, whatever the round would have brought. */
  lemma CleanRound(o: Options, w: World, t: Turn)
    requires !w.node.dirty && !w.node.inflight && w.node.completion == Ok
    ensures Round(o, w, t) == (Some(Ok), w)
  {
  }

  // ----- The close -------------------------------------------------------------------------------

  /** The reports that a close sends after its neutralization: none, one, or all packets of the lifted contacts. */
  function FinalReports(o: Options, n: Node): nat
    requires Accepted(o) && StateOk(o, n.state)
  {
    if !MakeNeutral(o, n).dirty then 0
    else if o.Touch? && n.state.TouchState? then PacketsLeft(o, |Active(n.state.contacts)|)
    else 1
  }

  lemma NeutralNeeds(o: Options, w: World)
    requires Accepted(o) && Waiting(o, w) && !w.node.inflight && !FrameOpen(w.node.state)
    ensures var r := Step(o, w, Neutralize);
            Enabled(w, Neutralize) && Waiting(o, r) && !r.node.inflight && Needed(o, r.node) == FinalReports(o, w.node)
  {
    hide Accepted, StateOk, Remembered, Sendable, Neutralized, Needed, FinalReports;
    StepSteady(o, w, Neutralize);
    NeutralState(o, w.node);
  }

  lemma NeutralState(o: Options, n: Node)
    requires Accepted(o) && StateOk(o, n.state) && StateOk(o, MakeNeutral(o, n).state)
    ensures Needed(o, MakeNeutral(o, n)) == FinalReports(o, n) && !FrameOpen(MakeNeutral(o, n).state)
    ensures MakeNeutral(o, n).completion == n.completion && MakeNeutral(o, n).present == n.present
  {
    hide Accepted, SamplesPlaced, DistinctIds, CeilDiv, Active, CountPressed, AnyPressed, AnyPhase, AxesNeutral,
         LiftAll,
         AllowedUsage;
    if n.state.TouchState? {
      LiftedActive(n.state.contacts);
    }
  }

  lemma LiftedActive(contacts: seq<Contact>)
    ensures |Active(LiftAll(contacts))| == |Active(contacts)|
  {
    ActiveSamePlaces(contacts, LiftAll(contacts));
  }

  /** What a wait that nothing goes wrong in answers to a close. */
  function WaitResult(inflight: bool, turns: seq<Turn>, need: nat): ResultCode {
    if Enough(inflight, turns, need) then Ok else if FlyingAfter(inflight, turns) then ClosePending else ErrTimeout
  }

  predicate FairWait(wait: Wait) {
    wait.preflight == Ok && |wait.turns| > 0 && forall t :: t in wait.turns ==> Fair(t)
  }

  lemma FairPoll(o: Options, w: World, wait: Wait)
    requires Accepted(o) && Waiting(o, w) && FairWait(wait)
    ensures var r := Polled(o, w, wait);
            && Waiting(o, r.1) && WaitAnswer(r) == WaitResult(w.node.inflight, wait.turns, Needed(o, w.node))
            && (r.0 == Ok <==> WaitResult(w.node.inflight, wait.turns, Needed(o, w.node)) == Ok)
            && (r.0 == Ok ==> !r.1.node.dirty && !r.1.node.inflight)
  {
    hide Accepted, Waiting, Rounds, Needed, Enough, FlyingAfter;
    WaitIsExact(o, w, wait.turns);
  }

  /**
   * Closing a present Node while nothing goes wrong: it succeeds exactly when the reports in flight and of an open
   * frame land in the first wait, and the neutral ones in the second. Otherwise it says whether a report is pending.
   */
  lemma CloseIsExact(o: Options, w: World, before: Wait, after: Wait, unregistered: ResultCode)
    requires Accepted(o) && Waiting(o, w) && FairWait(before) && FairWait(after)
    requires unregistered == Ok || unregistered == ErrNoDevice
    ensures var landed := if NeedsWait(w) then Polled(o, w, before).1 else w;
            && Waiting(o, landed)
            && Closed(o, w, before, after, unregistered, Ok).0
               == if NeedsWait(w) && !Enough(w.node.inflight, before.turns, Needed(o, w.node))
                  then WaitResult(w.node.inflight, before.turns, Needed(o, w.node))
                  else WaitResult(false, after.turns, FinalReports(o, landed.node))
  {
    hide Accepted, StateOk, FlightOk, Sendable, ImageOf, Polled, Needed, Enough, FlyingAfter, FairWait, FinalReports,
         Step;
    if NeedsWait(w) {
      FairPoll(o, w, before);
    }
    if !NeedsWait(w) || Enough(w.node.inflight, before.turns, Needed(o, w.node)) {
      var landed := if NeedsWait(w) then Polled(o, w, before).1 else w;
      NeutralNeeds(o, landed);
      FairPoll(o, Step(o, landed, Neutralize), after);
    }
  }

  /** Every reachable Node with its device present, and without an uncollected error, is one these results are about. */
  lemma ReachableWaits(o: Options, events: seq<Event>)
    requires Accepted(o)
    ensures var w := RunAll(o, NewWorld(o), events);
            Waiting(o, w) <==> w.node.present && (w.node.inflight || w.node.completion == Ok)
  {
    hide Accepted, Steady, RunAll, NewWorld, ImageNeutral, LiftsDelivered, LiveIds, Active;
    RunSteady(o, events);
    RunCovered(o, events);
  }
}
