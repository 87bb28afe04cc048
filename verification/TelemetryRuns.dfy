/** The controller's telemetry over whole runs of all its calls. */
module TelemetryRuns {
  import opened Registry
  import opened Operations
  import opened ControllerSystem
  import opened Telemetry
  import Invariants

  /** A report counts from the moment its write has gone through. */
  ghost predicate Records(sys: System, step: ControllerSystem.Step) {
    && step.Call? && step.request.ReportTelemetry?
    && Handle(sys.state, step.request, step.now).Commit?
    && CanWrite(sys.store, Handle(sys.state, step.request, step.now).state, step.ioOk)
  }

  function BatchOf(r: Request): Batch
    requires r.ReportTelemetry?
  {
    Batch(r.reporter, r.samples, r.events, r.evicted)
  }

  ghost function Heard(sys: System, step: ControllerSystem.Step, h: History): History {
    if Records(sys, step) then Remember(h, BatchOf(step.request)) else h
  }

  ghost function HeardAll(sys: System, steps: seq<ControllerSystem.Step>, h: History): History
    requires LegalRun(sys, steps)
    decreases |steps|
  {
    if steps == [] then h else HeardAll(Next(sys, steps[0]), steps[1..], Heard(sys, steps[0], h))
  }

  lemma SameStockSummarizes(s: State, t: State, h: History)
    requires Invariants.SameStock(s, t) && Summarizes(s, h)
    ensures Summarizes(t, h) == true
  {
  }

  lemma RecordedReportSummarizes(s: State, r: Request, now: int, h: History)
    requires Summarizes(s, h) && r.ReportTelemetry? && Handle(s, r, now).Commit?
    ensures Summarizes(Handle(s, r, now).state, Remember(h, BatchOf(r))) == true
  {
    ReportIsHandled(s, r, now);
    ReportSummarizes(s, h, BatchOf(r));
  }

  lemma StepSummarizes(sys: System, step: ControllerSystem.Step, h: History)
    requires KeysMatch(sys.state) && step.Call? && ControllerSystem.Legal(sys, step) && Summarizes(sys.state, h)
    ensures Summarizes(Next(sys, step).state, Heard(sys, step, h)) == true
  {
    var r, now := step.request, step.now;
    if Handle(sys.state, r, now).Commit? {
      var t := Handle(sys.state, r, now).state;
      if r.ReportTelemetry? {
        RecordedReportSummarizes(sys.state, r, now, h);
      } else if r.ReportArtifacts? {
        assert t.metrics == sys.state.metrics && t.events == sys.state.events;
      } else {
        Invariants.OnlyReportsRestock(sys.state, r, now);
        SameStockSummarizes(sys.state, t, h);
      }
    }
  }

  lemma SoundIsWithinLimits(s: State)
    requires Sound(s)
    ensures |s.metrics| <= MAX_STORED_METRICS && |s.events| <= MAX_STORED_EVENTS
  {
  }

  /** Between restarts, whatever else is called and whichever writes fail: the event log is the
      longest allowed suffix of the redacted stream of recorded reports, each metric bucket
      aggregates exactly the samples recorded since it appeared, and both stay within their limits. */
  lemma {:induction false} RunSummarizes(sys: System, steps: seq<ControllerSystem.Step>, h: History)
    requires SystemInv(sys) == true && LegalRun(sys, steps) && Summarizes(sys.state, h)
    requires forall i :: 0 <= i < |steps| ==> steps[i].Call?
    ensures Summarizes(Run(sys, steps).state, HeardAll(sys, steps, h)) == true
    ensures |Run(sys, steps).state.metrics| <= MAX_STORED_METRICS && |Run(sys, steps).state.events| <= MAX_STORED_EVENTS
    decreases |steps|
  {
    if steps == [] {
      SoundIsWithinLimits(sys.state);
    } else {
      StepSummarizes(sys, steps[0], h);
      StepKeepsSystemInv(sys, steps[0]);
      RunSummarizes(Next(sys, steps[0]), steps[1..], Heard(sys, steps[0], h));
    }
  }
}
