/**
 * From options to bytes: a Spec that a factory has made, and any run of a Node over it, never come to a
 * report that cannot be serialized.
 */
module ReachableReports {
  import opened Common
  import opened Factories
  import opened GeneratedSpec
  import opened NodeModel
  import opened NodeFacts
  import opened NodeRun
  import opened Serialization
  import opened SpecFields

  lemma StampedSendable(o: Options, s: NodeState, ticks: nat)
    requires Sendable(o, s)
    ensures Sendable(o, Stamped(o, s, ticks))
  {
  }

  /**
   * Whatever the caller did and however the completions went, neutralization and uncertain ones included:
   * when a Node over a made Spec is to send, its report has a place for every field, every content fits
   * its field, and any bytes that carry it pass the check before the submit.
   */
  lemma EveryReportGoesOut(o: Options, events: seq<Event>, ticks: nat, report: seq<Byte>)
    requires Accepted(o) && SpecVerdict(CallsOf(o)).Built?
    requires Enabled(RunAll(o, NewWorld(o), events), Submit(ticks))
    ensures var layout := SpecVerdict(CallsOf(o)).layout;
            var image := ImageOf(o, Stamped(o, RunAll(o, NewWorld(o), events).node.state, ticks));
            && SpecOk(o, layout) && image.Some?
            && (forall k :: 0 <= k < |layout.fields| ==>
                Fits(ContentOf(o, image.value, layout.fields[k]), layout.fields[k]))
            && (Carries(o, layout, image.value, report) ==> ReportValid(layout, report))
  {
    hide Accepted, SpecVerdict, SpecOk, StateOk, Sendable, Stamped, ImageOf, ContentOf, Fits, Carries, ReportValid,
         Step;
    var layout := SpecVerdict(CallsOf(o)).layout;
    var s := RunAll(o, NewWorld(o), events).node.state;
    MadeSpecOk(o);
    RunSteady(o, events);
    StampedKeeps(o, s, ticks);
    StampedSendable(o, s, ticks);
    ReportsAlwaysFit(o, layout, Stamped(o, s, ticks));
    if Carries(o, layout, ImageOf(o, Stamped(o, s, ticks)).value, report) {
      CarriedReportIsValid(o, layout, ImageOf(o, Stamped(o, s, ticks)).value, report);
    }
  }
}
