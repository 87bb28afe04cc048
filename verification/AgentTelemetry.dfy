/** The agent's telemetry buffer and its reporter: what is recorded, sent, put back and lost. */
module AgentTelemetry {
  import opened Options
  import opened Messages
  import opened Strings
  import opened Operations
  import opened ControllerSystem
  import Persistence
  import Registry
  import Telemetry

  /** Bounds each kind of telemetry, but only when a batch is put back. */
  const MAX_PENDING_TELEMETRY := 5000

  datatype FleetTelemetry = FleetTelemetry(samples: seq<MetricSample>, events: seq<Event>)

  const NOTHING := FleetTelemetry([], [])

  function Append(older: FleetTelemetry, newer: FleetTelemetry): FleetTelemetry {
    FleetTelemetry(older.samples + newer.samples, older.events + newer.events)
  }

  /** The oldest entries stay; what exceeds the bound is the newest. */
  function Truncated<T>(items: seq<T>): seq<T> {
    if |items| > MAX_PENDING_TELEMETRY then items[..MAX_PENDING_TELEMETRY] else items
  }

  function Requeued(batch: FleetTelemetry, pending: FleetTelemetry): FleetTelemetry {
    FleetTelemetry(Truncated(batch.samples + pending.samples), Truncated(batch.events + pending.events))
  }

  function EventId(machineId: string, profileId: string, now: int): string {
    machineId + ":" + profileId + ":" + Decimal(now)
  }

  function EventAt(machineId: string, eventType: string, severity: int, profileId: string, now: int,
                   message: seq<byte>, attributes: map<string, string>): Event {
    Event(EventId(machineId, profileId, now), eventType, severity, now, machineId, profileId,
          PLATFORM_UNSPECIFIED, message, attributes)
  }

  class BrowserFleetManager {
    const machineId: string
    var pending: FleetTelemetry

    constructor (machineId: string)
      ensures this.machineId == machineId && pending == NOTHING
    {
      this.machineId, pending := machineId, NOTHING;
    }

    method RecordEvent(eventType: string, severity: int, profileId: string, now: int, message: seq<byte>,
                       attributes: map<string, string>)
      modifies this
      ensures var event := EventAt(machineId, eventType, severity, profileId, now, message, attributes);
              && pending == Append(old(pending), FleetTelemetry([], [event]))
              && event.eventId == machineId + ":" + profileId + ":" + Decimal(now)
              && event.eventType == eventType && event.severity == severity && event.observedAt == now
              && event.machineId == machineId && event.profileId == profileId
              && event.message == message && event.attributes == attributes
    {
      var id := machineId + ":" + profileId + ":" + Decimal(now);
      var event := Event(id, eventType, severity, now, machineId, profileId, PLATFORM_UNSPECIFIED, message, attributes);
      pending := pending.(events := pending.events + [event]);
    }

    method PushSample(sample: MetricSample)
      modifies this
      ensures pending == Append(old(pending), FleetTelemetry([sample], []))
    {
      pending := pending.(samples := pending.samples + [sample]);
    }

    method DrainTelemetry() returns (telemetry: FleetTelemetry)
      modifies this
      ensures telemetry == old(pending) && pending == NOTHING
    {
      telemetry := pending;
      pending := NOTHING;
    }

    method RequeueTelemetry(telemetry: FleetTelemetry)
      modifies this
      ensures pending == Requeued(telemetry, old(pending))
    {
      var events := telemetry.events + pending.events;
      if |events| > MAX_PENDING_TELEMETRY {
        events := events[..MAX_PENDING_TELEMETRY];
      }
      var samples := telemetry.samples + pending.samples;
      if |samples| > MAX_PENDING_TELEMETRY {
        samples := samples[..MAX_PENDING_TELEMETRY];
      }
      pending := FleetTelemetry(samples, events);
    }
  }

  // ---------- runs of one agent ----------

  /** An agent's telemetry over its whole life. `delivered` is what was acknowledged, and the
      counts say how many entries were dropped. */
  datatype Life = Life(
    recorded: FleetTelemetry, delivered: FleetTelemetry, inFlight: Option<FleetTelemetry>, pending: FleetTelemetry,
    lostSamples: nat, lostEvents: nat)

  const BIRTH := Life(NOTHING, NOTHING, None, NOTHING, 0, 0)

  datatype Step =
    | RecordEvent(event: Event)
    | PushSample(sample: MetricSample)
    | Tick
    | Acknowledged
    | Unsent
    | Restart

  function InFlight(w: Life): FleetTelemetry {
    if w.inFlight.Some? then w.inFlight.value else NOTHING
  }

  function Requeue(w: Life): Life
    requires w.inFlight.Some?
  {
    var all, kept := Append(w.inFlight.value, w.pending), Requeued(w.inFlight.value, w.pending);
    w.(pending := kept, inFlight := None,
       lostSamples := w.lostSamples + (|all.samples| - |kept.samples|),
       lostEvents := w.lostEvents + (|all.events| - |kept.events|))
  }

  /** The reporter holds at most one batch, and skips a tick on which there is nothing to send.
      A step that the reporter cannot take leaves everything as it is. */
  function Next(w: Life, step: Step): Life {
    match step
    case RecordEvent(e) =>
      var one := FleetTelemetry([], [e]);
      w.(recorded := Append(w.recorded, one), pending := Append(w.pending, one))
    case PushSample(s) =>
      var one := FleetTelemetry([s], []);
      w.(recorded := Append(w.recorded, one), pending := Append(w.pending, one))
    case Tick => if w.inFlight.Some? || w.pending == NOTHING then w
      else w.(inFlight := Some(w.pending), pending := NOTHING)
    case Acknowledged =>
      if w.inFlight.None? then w else w.(delivered := Append(w.delivered, w.inFlight.value), inFlight := None)
    case Unsent => if w.inFlight.None? then w else Requeue(w)
    case Restart =>
      var gone := Append(InFlight(w), w.pending);
      w.(inFlight := None, pending := NOTHING,
         lostSamples := w.lostSamples + |gone.samples|, lostEvents := w.lostEvents + |gone.events|)
  }

  function Run(w: Life, steps: seq<Step>): Life
    decreases |steps|
  {
    if steps == [] then w else Run(Next(w, steps[0]), steps[1..])
  }

  /** Everything not lost, in sending order. */
  function Kept(w: Life): FleetTelemetry {
    Append(Append(w.delivered, InFlight(w)), w.pending)
  }

  /** `at` picks `kept` out of `recorded` from left to right, no position twice. */
  ghost predicate Picks<T>(at: seq<nat>, kept: seq<T>, recorded: seq<T>) {
    && |at| == |kept|
    && (forall i :: 0 <= i < |at| ==> at[i] < |recorded| && recorded[at[i]] == kept[i])
    && forall i, j :: 0 <= i < j < |at| ==> at[i] < at[j]
  }

  ghost predicate Tracks<T>(kept: seq<T>, recorded: seq<T>, lost: nat) {
    && (exists at: seq<nat> :: Picks(at, kept, recorded))
    && |kept| + lost == |recorded|
    && (lost == 0 ==> kept == recorded)
  }

  ghost predicate Conserves(w: Life) {
    && Tracks(Kept(w).samples, w.recorded.samples, w.lostSamples)
    && Tracks(Kept(w).events, w.recorded.events, w.lostEvents)
  }

  lemma TracksOneMore<T>(kept: seq<T>, recorded: seq<T>, lost: nat, x: T)
    requires Tracks(kept, recorded, lost)
    ensures Tracks(kept + [x], recorded + [x], lost)
  {
    var at: seq<nat> :| Picks(at, kept, recorded);
    assert Picks(at + [|recorded|], kept + [x], recorded + [x]);
  }

  lemma TracksPrefix<T>(kept: seq<T>, recorded: seq<T>, lost: nat, prefix: seq<T>)
    requires Tracks(kept, recorded, lost) && prefix <= kept
    ensures Tracks(prefix, recorded, lost + (|kept| - |prefix|))
  {
    var at: seq<nat> :| Picks(at, kept, recorded);
    assert Picks(at[..|prefix|], prefix, recorded);
  }

  lemma RequeueKeepsPrefix<T>(delivered: seq<T>, batch: seq<T>, pending: seq<T>)
    ensures delivered + Truncated(batch + pending) <= delivered + batch + pending
  {
    assert delivered + batch + pending == delivered + (batch + pending);
  }

  lemma RecordConserves(w: Life, step: Step)
    requires Conserves(w) && (step.RecordEvent? || step.PushSample?)
    ensures Conserves(Next(w, step)) == true
  {
    var w' := Next(w, step);
    match step
    case RecordEvent(e) =>
      TracksOneMore(Kept(w).events, w.recorded.events, w.lostEvents, e);
      assert Kept(w').events == Kept(w).events + [e] && Kept(w').samples == Kept(w).samples;
      assert w'.recorded.samples == w.recorded.samples;
    case PushSample(s) =>
      TracksOneMore(Kept(w).samples, w.recorded.samples, w.lostSamples, s);
      assert Kept(w').samples == Kept(w).samples + [s] && Kept(w').events == Kept(w).events;
      assert w'.recorded.events == w.recorded.events;
  }

  /** Entries are only ever dropped from the end of what is kept. */
  lemma DropConserves(w: Life, w': Life)
    requires Conserves(w) && w'.recorded == w.recorded
    requires Kept(w').samples <= Kept(w).samples && Kept(w').events <= Kept(w).events
    requires w'.lostSamples == w.lostSamples + (|Kept(w).samples| - |Kept(w').samples|)
    requires w'.lostEvents == w.lostEvents + (|Kept(w).events| - |Kept(w').events|)
    ensures Conserves(w') == true
  {
    TracksPrefix(Kept(w).samples, w.recorded.samples, w.lostSamples, Kept(w').samples);
    TracksPrefix(Kept(w).events, w.recorded.events, w.lostEvents, Kept(w').events);
  }

  lemma RequeueConserves(w: Life)
    requires Conserves(w) && w.inFlight.Some?
    ensures Conserves(Requeue(w)) == true
  {
    var w' := Requeue(w);
    RequeueKeepsPrefix(w.delivered.samples, w.inFlight.value.samples, w.pending.samples);
    RequeueKeepsPrefix(w.delivered.events, w.inFlight.value.events, w.pending.events);
    assert Kept(w').samples == w.delivered.samples + Truncated(w.inFlight.value.samples + w.pending.samples);
    assert Kept(w').events == w.delivered.events + Truncated(w.inFlight.value.events + w.pending.events);
    DropConserves(w, w');
  }

  lemma OtherStepsConserve(w: Life, step: Step)
    requires Conserves(w) && !step.RecordEvent? && !step.PushSample? && !step.Unsent?
    ensures Conserves(Next(w, step)) == true
  {
    var w' := Next(w, step);
    assert step.Restart? ==> Kept(w').samples == w.delivered.samples && Kept(w').events == w.delivered.events;
    assert !step.Restart? ==> Kept(w').samples == Kept(w).samples && Kept(w').events == Kept(w).events;
    DropConserves(w, w');
  }

  lemma StepConserves(w: Life, step: Step)
    requires Conserves(w)
    ensures Conserves(Next(w, step)) == true
  {
    if step.RecordEvent? || step.PushSample? {
      RecordConserves(w, step);
    } else if step.Unsent? && w.inFlight.Some? {
      RequeueConserves(w);
    } else if !step.Unsent? {
      OtherStepsConserve(w, step);
    }
  }

  /** Over any run, delivered, in-flight and pending telemetry together are an order-preserving
      selection of what was recorded; every other entry is counted as lost. */
  lemma {:induction false} RunConserves(w: Life, steps: seq<Step>)
    requires Conserves(w)
    ensures Conserves(Run(w, steps))
    decreases |steps|
  {
    if steps != [] {
      StepConserves(w, steps[0]);
      RunConserves(Next(w, steps[0]), steps[1..]);
    }
  }

  lemma NothingTracks<T>()
    ensures Tracks<T>([], [], 0)
  {
    assert Picks<T>([], [], []);
  }

  lemma BirthConserves()
    ensures Conserves(BIRTH)
  {
    NothingTracks<MetricSample>();
    NothingTracks<Event>();
  }

  /** The step drops nothing: a batch put back fits with what has come since, and a restart
      finds nothing buffered. */
  predicate StepFits(w: Life, step: Step) {
    match step
    case Unsent =>
      w.inFlight.Some? ==>
        && |w.inFlight.value.events| + |w.pending.events| <= MAX_PENDING_TELEMETRY
        && |w.inFlight.value.samples| + |w.pending.samples| <= MAX_PENDING_TELEMETRY
    case Restart => InFlight(w) == NOTHING && w.pending == NOTHING
    case _ => true
  }

  predicate Fits(w: Life, steps: seq<Step>)
    decreases |steps|
  {
    steps != [] ==> StepFits(w, steps[0]) && Fits(Next(w, steps[0]), steps[1..])
  }

  predicate LosesNothing(before: Life, after: Life) {
    after.lostEvents == before.lostEvents && after.lostSamples == before.lostSamples
  }

  lemma StepLosesNothingIffFits(w: Life, step: Step)
    ensures LosesNothing(w, Next(w, step)) <==> StepFits(w, step)
    ensures w.lostEvents <= Next(w, step).lostEvents && w.lostSamples <= Next(w, step).lostSamples
  {
    if step.Restart? {
      var gone := Append(InFlight(w), w.pending);
      assert |gone.events| == |InFlight(w).events| + |w.pending.events|;
      assert |gone.samples| == |InFlight(w).samples| + |w.pending.samples|;
    }
  }

  /** A run loses nothing exactly when each of its steps fits. */
  lemma {:induction false} RunLosesNothingIffFits(w: Life, steps: seq<Step>)
    ensures LosesNothing(w, Run(w, steps)) <==> Fits(w, steps)
    ensures w.lostEvents <= Run(w, steps).lostEvents && w.lostSamples <= Run(w, steps).lostSamples
    decreases |steps|
  {
    if steps != [] {
      StepLosesNothingIffFits(w, steps[0]);
      RunLosesNothingIffFits(Next(w, steps[0]), steps[1..]);
    }
  }

  lemma LossShows(w: Life)
    requires Conserves(w)
    ensures Kept(w) == w.recorded <==> w.lostEvents == 0 && w.lostSamples == 0
  {
  }

  /** An agent delivers exactly what it records, each entry once and in order, exactly when no batch
      is put back beyond the bound and no restart finds anything buffered. */
  lemma EverythingIsDeliveredIffFits(steps: seq<Step>)
    ensures Kept(Run(BIRTH, steps)) == Run(BIRTH, steps).recorded <==> Fits(BIRTH, steps)
  {
    BirthConserves();
    RunConserves(BIRTH, steps);
    RunLosesNothingIffFits(BIRTH, steps);
    LossShows(Run(BIRTH, steps));
  }

  function Excess(size: nat): nat {
    if size > MAX_PENDING_TELEMETRY then size - MAX_PENDING_TELEMETRY else 0
  }

  /** Putting a batch back loses exactly what exceeds the bound, from the newest entries. */
  lemma UnsentLosesExcess(w: Life)
    requires w.inFlight.Some?
    ensures var w', batch := Next(w, Unsent), w.inFlight.value;
            && w'.lostEvents == w.lostEvents + Excess(|batch.events| + |w.pending.events|)
            && w'.lostSamples == w.lostSamples + Excess(|batch.samples| + |w.pending.samples|)
            && w'.pending.events <= batch.events + w.pending.events
            && w'.pending.samples <= batch.samples + w.pending.samples
  {
  }

  function Recording(events: seq<Event>): seq<Step> {
    seq(|events|, i requires 0 <= i < |events| => RecordEvent(events[i]))
  }

  lemma AppendsCombine(t: FleetTelemetry, events: seq<Event>)
    requires events != []
    ensures Append(Append(t, FleetTelemetry([], [events[0]])), FleetTelemetry([], events[1..])) ==
            Append(t, FleetTelemetry([], events))
  {
    assert t.events + [events[0]] + events[1..] == t.events + events;
  }

  lemma {:induction false} RecordingAppends(w: Life, events: seq<Event>, rest: seq<Step>)
    ensures var added := FleetTelemetry([], events);
            Run(w, Recording(events) + rest) ==
            Run(w.(recorded := Append(w.recorded, added), pending := Append(w.pending, added)), rest)
    decreases |events|
  {
    if events == [] {
      assert Recording(events) + rest == rest;
      assert Append(w.recorded, NOTHING) == w.recorded && Append(w.pending, NOTHING) == w.pending;
    } else {
      assert (Recording(events) + rest)[1..] == Recording(events[1..]) + rest;
      RecordingAppends(Next(w, RecordEvent(events[0])), events[1..], rest);
      AppendsCombine(w.recorded, events);
      AppendsCombine(w.pending, events);
    }
  }

  /** An outage loses events: from a fresh agent, events recorded before a send that fails and while
      it is under way are lost in exactly the number by which they exceed the bound. */
  lemma OutageLosesEvents(batch: seq<Event>, newer: seq<Event>)
    requires batch != []
    ensures var steps := Recording(batch) + ([Tick] + (Recording(newer) + [Unsent]));
            && Run(BIRTH, steps).recorded.events == batch + newer
            && Run(BIRTH, steps).lostEvents == Excess(|batch| + |newer|)
  {
    var rest := Recording(newer) + [Unsent];
    var full := BIRTH.(recorded := FleetTelemetry([], batch), pending := FleetTelemetry([], batch));
    RecordingAppends(BIRTH, batch, [Tick] + rest);
    assert Append(NOTHING, FleetTelemetry([], batch)) == FleetTelemetry([], batch);
    assert ([Tick] + rest)[1..] == rest;
    RecordingAppends(Next(full, Tick), newer, [Unsent]);
    assert [Unsent][1..] == [];
  }

  /** The first 5000 of the older entries with the newer ones behind them, or all if they fit. */
  ghost predicate LeadsWithin<T>(older: seq<T>, newer: seq<T>, kept: seq<T>) {
    && kept <= older + newer
    && |kept| == (if |older| + |newer| > 5_000 then 5_000 else |older| + |newer|)
  }

  /** After a failed send the failed batch leads the buffer, which is cut only to keep within its bound. */
  lemma UnsentBatchLeads(w: Life)
    requires w.inFlight.Some?
    ensures var w' := Next(w, Unsent);
            && w'.inFlight.None?
            && LeadsWithin(w.inFlight.value.events, w.pending.events, w'.pending.events)
            && LeadsWithin(w.inFlight.value.samples, w.pending.samples, w'.pending.samples)
  {
  }

  /** A batch under way is never empty: ticks with nothing to send are skipped. */
  lemma {:induction false} NothingEmptyIsSent(w: Life, steps: seq<Step>)
    requires w.inFlight != Some(NOTHING)
    ensures Run(w, steps).inFlight != Some(NOTHING)
    decreases |steps|
  {
    if steps != [] {
      NothingEmptyIsSent(Next(w, steps[0]), steps[1..]);
    }
  }

  /** A tick sends everything pending, unless a batch is under way already. */
  lemma TickLaw(w: Life)
    ensures var after := Next(w, Tick);
            if w.inFlight.None? && (|w.pending.samples| > 0 || |w.pending.events| > 0)
            then after == w.(inFlight := Some(w.pending), pending := FleetTelemetry([], [])) else after == w
  {
    if |w.pending.samples| == 0 && |w.pending.events| == 0 {
      assert w.pending == NOTHING;
    }
  }

  // ---------- event ids ----------

  lemma LastColonAgrees(p: string, a: string, q: string, b: string)
    requires Free(a, ':') && p + ":" + a == q + ":" + b
    ensures |p| >= |q|
  {
    var x, y := p + ":" + a, q + ":" + b;
    assert y[|q|] == ':';
    assert forall k :: |p| < k < |x| ==> x[k] == a[k - |p| - 1];
  }

  /** Two event ids are equal exactly when their times are and their machine and profile ids read
      alike once joined. */
  lemma EventIdsAreEqualIff(m: string, p: string, now: int, n: string, q: string, later: int)
    ensures EventId(m, p, now) == EventId(n, q, later) <==> now == later && m + ":" + p == n + ":" + q
  {
    var x, y, a, b := m + ":" + p, n + ":" + q, Decimal(now), Decimal(later);
    assert EventId(m, p, now) == x + ":" + a && EventId(n, q, later) == y + ":" + b;
    if EventId(m, p, now) == EventId(n, q, later) {
      DecimalIsFree(now, ':');
      DecimalIsFree(later, ':');
      LastColonAgrees(x, a, y, b);
      LastColonAgrees(y, b, x, a);
      assert (x + ":" + a)[..|x|] == x && (y + ":" + b)[..|y|] == y;
      assert (x + ":" + a)[|x| + 1..] == a && (y + ":" + b)[|y| + 1..] == b;
      DecimalIsInjective(now, later);
    }
  }

  /** On one machine, an event's id says exactly which profile it is about and when: two events
      about one profile in the same millisecond share their id. */
  lemma EventIdNamesProfileAndTime(machineId: string, p: string, now: int, q: string, later: int)
    ensures EventId(machineId, p, now) == EventId(machineId, q, later) <==> p == q && now == later
  {
    var x, y := machineId + ":" + p, machineId + ":" + q;
    EventIdsAreEqualIff(machineId, p, now, machineId, q, later);
    assert x[|machineId| + 1..] == p && y[|machineId| + 1..] == q;
  }

  /** Across machines ids clash at one time exactly where one machine id extends the other by a
      colon and text that the other's profile id takes back. */
  lemma EventIdsClashAcrossMachines(m: string, p: string, n: string, q: string, now: int)
    requires |m| < |n|
    ensures EventId(m, p, now) == EventId(n, q, now) <==>
              exists text :: n == m + ":" + text && p == text + ":" + q
  {
    EventIdsAreEqualIff(m, p, now, n, q, now);
    if m + ":" + p == n + ":" + q {
      var whole := n + ":" + q;
      var text := n[|m| + 1..];
      assert whole[..|m| + 1] == m + ":" && n == whole[..|n|];
      assert n == m + ":" + text;
      assert p == whole[|m| + 1..] == text + ":" + q;
    }
    forall text | n == m + ":" + text && p == text + ":" + q
      ensures m + ":" + p == n + ":" + q
    {
      assert m + ":" + (text + ":" + q) == m + ":" + text + ":" + q;
    }
  }

  // ---------- reports that can never be stored ----------

  /** The events that a report leaves in the controller's log share an id. */
  ghost predicate RepeatsId(events: seq<Event>) {
    exists i, j :: 0 <= i < j < |events| && events[i].eventId == events[j].eventId != ""
  }

  ghost function Report(machineId: string, batch: FleetTelemetry, evicted: set<Registry.MetricKey>): Request {
    ReportTelemetry(machineId, batch.samples, batch.events, evicted)
  }

  ghost predicate Refused(controller: System, r: Request, now: int, ioOk: bool) {
    Execute(controller, r, now, ioOk).0 == controller && Execute(controller, r, now, ioOk).1.Failed?
  }

  lemma RepeatedIdsAreNotDistinct(s: Registry.State)
    requires RepeatsId(s.events)
    ensures !Persistence.Distinct(s)
  {
    var i, j :| 0 <= i < j < |s.events| && s.events[i].eventId == s.events[j].eventId != "";
    assert Persistence.InState(s, Persistence.EventRef(i)) && Persistence.InState(s, Persistence.EventRef(j));
    assert Persistence.Names(s)[Persistence.EventRef(i)] == Persistence.Names(s)[Persistence.EventRef(j)];
  }

  /** A controller with a store refuses what would leave two records in one row. */
  lemma UnstorableIsRefused(controller: System, r: Request, now: int, ioOk: bool)
    requires controller.store.Some? && r.ReportTelemetry?
    requires !Persistence.Distinct(Telemetry.Report(controller.state, r.reporter, r.samples, r.events, r.evicted))
    ensures Refused(controller, r, now, ioOk) == true
  {
    ReportIsHandled(controller.state, r, now);
  }

  /** A controller with a store refuses a report that would leave two events with one id. */
  lemma RepeatedIdsBlockReport(controller: System, machineId: string, batch: FleetTelemetry,
                               evicted: set<Registry.MetricKey>, now: int, ioOk: bool)
    requires controller.store.Some?
    requires RepeatsId(Telemetry.Newest(controller.state.events + Telemetry.RedactAll(batch.events)))
    ensures Refused(controller, Report(machineId, batch, evicted), now, ioOk) == true
  {
    RepeatedIdsAreNotDistinct(Telemetry.Report(controller.state, machineId, batch.samples, batch.events, evicted));
    UnstorableIsRefused(controller, Report(machineId, batch, evicted), now, ioOk);
  }

  lemma RepeatInBatchRepeatsInLog(log: seq<Event>, events: seq<Event>)
    requires RepeatsId(events) && |events| <= Registry.MAX_STORED_EVENTS
    ensures RepeatsId(Telemetry.Newest(log + Telemetry.RedactAll(events))) == true
  {
    var i, j :| 0 <= i < j < |events| && events[i].eventId == events[j].eventId != "";
    var stored := Telemetry.Newest(log + Telemetry.RedactAll(events));
    var start := |stored| - |events|;
    assert stored[start + i].eventId == events[i].eventId && stored[start + j].eventId == events[j].eventId;
  }

  lemma RepeatSurvivesAppend(events: seq<Event>, newer: seq<Event>)
    requires RepeatsId(events)
    ensures RepeatsId(events + newer) == true
  {
    var i, j :| 0 <= i < j < |events| && events[i].eventId == events[j].eventId != "";
    assert (events + newer)[i] == events[i] && (events + newer)[j] == events[j];
  }

  /** One attempt to report: what was recorded since the last one, and the controller it meets. */
  datatype Attempt = Attempt(
    newer: FleetTelemetry, controller: System, evicted: set<Registry.MetricKey>, now: int, ioOk: bool)

  function EventsRecorded(attempts: seq<Attempt>): nat {
    if attempts == [] then 0 else |attempts[0].newer.events| + EventsRecorded(attempts[1..])
  }

  /** Every attempt is refused, and so its batch is put back for the next one. */
  ghost predicate AllRefused(machineId: string, pending: FleetTelemetry, attempts: seq<Attempt>)
    decreases |attempts|
  {
    attempts != [] ==>
      var a, batch := attempts[0], Append(pending, attempts[0].newer);
      && Refused(a.controller, Report(machineId, batch, a.evicted), a.now, a.ioOk)
      && AllRefused(machineId, Requeued(batch, NOTHING), attempts[1..])
  }

  /** Two buffered events with one id block the agent's telemetry: whatever storing controller
      it meets, and however often it retries, every report is refused while the buffer fits. */
  lemma {:induction false} RepeatedIdsBlockTheReporter(machineId: string, pending: FleetTelemetry,
                                                       attempts: seq<Attempt>)
    requires RepeatsId(pending.events) && |pending.events| + EventsRecorded(attempts) <= MAX_PENDING_TELEMETRY
    requires forall i :: 0 <= i < |attempts| ==> attempts[i].controller.store.Some?
    ensures AllRefused(machineId, pending, attempts)
    decreases |attempts|
  {
    if attempts != [] {
      var a, batch := attempts[0], Append(pending, attempts[0].newer);
      RepeatSurvivesAppend(pending.events, a.newer.events);
      RepeatInBatchRepeatsInLog(a.controller.state.events, batch.events);
      RepeatedIdsBlockReport(a.controller, machineId, batch, a.evicted, a.now, a.ioOk);
      assert Requeued(batch, NOTHING).events == batch.events;
      RepeatedIdsBlockTheReporter(machineId, Requeued(batch, NOTHING), attempts[1..]);
    }
  }

  lemma AcceptedReportIsLogged(controller: System, machineId: string, batch: FleetTelemetry,
                               evicted: set<Registry.MetricKey>, now: int)
    requires controller.store.Some? && !Execute(controller, Report(machineId, batch, evicted), now, true).1.Failed?
    ensures var after := Execute(controller, Report(machineId, batch, evicted), now, true).0;
            && after.store.Some?
            && after.state.events == Telemetry.Newest(controller.state.events + Telemetry.RedactAll(batch.events))
  {
    ReportIsHandled(controller.state, Report(machineId, batch, evicted), now);
  }

  lemma RedactAllSplits(a: seq<Event>, b: seq<Event>)
    ensures Telemetry.RedactAll(a + b) == Telemetry.RedactAll(a) + Telemetry.RedactAll(b)
  {
  }

  /** A log that ends with `once` takes the same events again together with newer ones: their last
      one is then there twice, unless the whole log is replaced. */
  lemma OverlapRepeatsId(log: seq<Event>, events: seq<Event>, newer: seq<Event>)
    requires 0 < |events| && |events| + |newer| < Registry.MAX_STORED_EVENTS && events[|events| - 1].eventId != ""
    ensures var once := Telemetry.Newest(log + Telemetry.RedactAll(events));
            RepeatsId(Telemetry.Newest(once + Telemetry.RedactAll(events + newer))) == true
  {
    var once := Telemetry.Newest(log + Telemetry.RedactAll(events));
    var again := Telemetry.RedactAll(events + newer);
    var twice, id := Telemetry.Newest(once + again), events[|events| - 1].eventId;
    assert once[|once| - 1].eventId == id && again[|events| - 1].eventId == id;
    var i, j := |twice| - |again| - 1, |twice| - |newer| - 1;
    assert twice[i].eventId == id && twice[j].eventId == id;
  }

  lemma LongTailIsAll(a: seq<Event>, b: seq<Event>)
    requires |b| >= Registry.MAX_STORED_EVENTS
    ensures Telemetry.Newest(a + b) == Telemetry.Newest(b)
  {
  }

  /** Without an overlap it does not matter that the older events were logged before. */
  lemma NoOverlapLogsOnce(log: seq<Event>, events: seq<Event>, newer: seq<Event>)
    requires events == [] || |events| + |newer| >= Registry.MAX_STORED_EVENTS
    ensures var once := Telemetry.Newest(log + Telemetry.RedactAll(events));
            Telemetry.Newest(once + Telemetry.RedactAll(events + newer)) ==
            Telemetry.Newest(once + Telemetry.RedactAll(newer))
  {
    if events == [] {
      assert events + newer == newer;
    } else {
      var a, b := Telemetry.RedactAll(events), Telemetry.RedactAll(newer);
      RedactAllSplits(events, newer);
      LongTailIsAll(Telemetry.Newest(log + a), a + b);
      LongTailIsAll(log, a + b);
      Telemetry.NewestOfNewest(log + a, b);
      assert log + a + b == log + (a + b);
    }
  }

  /** A log that has just taken `events` takes them again with newer ones behind: it repeats an id
      exactly when some of them are still in the log then, or when the newer ones would anyway. */
  lemma LoggedAgainRepeatsIdIff(log: seq<Event>, events: seq<Event>, newer: seq<Event>)
    requires events != [] ==> events[|events| - 1].eventId != ""
    ensures var once := Telemetry.Newest(log + Telemetry.RedactAll(events));
            RepeatsId(Telemetry.Newest(once + Telemetry.RedactAll(events + newer))) <==>
              || (0 < |events| && |events| + |newer| < Registry.MAX_STORED_EVENTS)
              || RepeatsId(Telemetry.Newest(once + Telemetry.RedactAll(newer)))
  {
    if 0 < |events| && |events| + |newer| < Registry.MAX_STORED_EVENTS {
      OverlapRepeatsId(log, events, newer);
    } else {
      NoOverlapLogsOnce(log, events, newer);
    }
  }

  /** When only the acknowledgement of a report with events is lost, its retry is refused: the
      controller already holds them. The retry carries what was recorded since behind the batch; a
      retry as large as the log would push the first copy out. */
  lemma LostAcknowledgementBlocksRetry(controller: System, machineId: string, batch: FleetTelemetry,
                                       evicted: set<Registry.MetricKey>, now: int, newer: FleetTelemetry,
                                       again: set<Registry.MetricKey>, later: int, ioOk: bool)
    requires controller.store.Some? && 0 < |batch.events|
    requires |batch.events| + |newer.events| < Registry.MAX_STORED_EVENTS
    requires batch.events[|batch.events| - 1].eventId != ""
    requires !Execute(controller, Report(machineId, batch, evicted), now, true).1.Failed?
    ensures var after := Execute(controller, Report(machineId, batch, evicted), now, true).0;
            Refused(after, Report(machineId, Append(batch, newer), again), later, ioOk)
  {
    var after := Execute(controller, Report(machineId, batch, evicted), now, true).0;
    AcceptedReportIsLogged(controller, machineId, batch, evicted, now);
    OverlapRepeatsId(controller.state.events, batch.events, newer.events);
    RepeatedIdsBlockReport(after, machineId, Append(batch, newer), again, later, ioOk);
  }

  /** The retry is what the reporter really sends: the batch is put back ahead of what came since. */
  lemma RetrySendsBatchFirst(w: Life, newer: seq<Event>)
    requires w.inFlight.Some? && w.pending == NOTHING
    requires |w.inFlight.value.events| + |newer| <= MAX_PENDING_TELEMETRY
    requires |w.inFlight.value.samples| <= MAX_PENDING_TELEMETRY && w.inFlight.value != NOTHING
    ensures var retried := Run(w, Recording(newer) + [Unsent, Tick]);
            && retried.inFlight == Some(Append(w.inFlight.value, FleetTelemetry([], newer)))
            && retried.pending == NOTHING
  {
    RecordingAppends(w, newer, [Unsent, Tick]);
    assert [Unsent, Tick][1..] == [Tick] && [Tick][1..] == [];
    assert Append(NOTHING, FleetTelemetry([], newer)) == FleetTelemetry([], newer);
  }
}
