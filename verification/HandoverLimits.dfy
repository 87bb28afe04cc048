/** What the handover's assumption on renewals is needed for: the runs in which one shortens a lease. */
module HandoverLimits {
  import opened Options
  import opened Messages
  import opened Registry
  import opened Operations
  import opened Agent
  import opened Handover
  import ControllerSystem
  import Leases
  import LazyExpiry
  import Persistence
  import RowIdentity

  // ---------- running on from a world ----------

  lemma RunCons(w: World, step: Step, rest: seq<Step>)
    requires Possible(w, step) && PossibleRun(Next(w, step), rest)
    ensures PossibleRun(w, [step] + rest) && Run(w, [step] + rest) == Run(Next(w, step), rest)
  {
    assert ([step] + rest)[1..] == rest;
  }

  lemma LeaseCallCommits(sys: ControllerSystem.System, r: Request, at: int)
    requires ControllerSystem.SystemInv(sys) == true && ControllerSystem.Writable(sys)
    requires r.Renew? || r.SweepNow? || r.Acquire?
    requires LegalRequest(sys.state, r, at) && Handle(sys.state, r, at).Commit?
    ensures ControllerSystem.CanWrite(sys.store, Handle(sys.state, r, at).state, true) == true
    ensures ControllerSystem.Execute(sys, r, at, true).0.state == Handle(sys.state, r, at).state
    ensures ControllerSystem.Writable(ControllerSystem.Execute(sys, r, at, true).0) == true
  {
    ControllerSystem.OtherCallsWriteIffWritable(sys, r, at, true);
    WrittenIsWritable(sys, r, at, true);
  }

  /** A client that knows a context can get it installed. */
  lemma InstallSteps(w: World, context: LeaseContext, machineId: string)
    requires WorldInv(w) == true && context in w.ledger.issued
    ensures var sent := Next(w, SendInstall(machineId, context));
            var deliver := Deliver(InstallMessage(machineId, context));
            && Possible(sent, deliver)
            && var next := Next(sent, deliver);
               && WorldInv(next) == true && next.sys == w.sys && next.clock == w.clock
               && machineId in next.agents && context.leaseId in next.agents[machineId]
               && next.agents[machineId][context.leaseId] == LocalOf(context)
  {
    StepKeepsWorld(w, SendInstall(machineId, context));
    DeliveryKeepsWorld(Next(w, SendInstall(machineId, context)), InstallMessage(machineId, context));
  }

  lemma AcquiredLeaseIsLive(s: State, r: Request, at: int)
    requires Core(s) && r.Acquire? && Handle(s, r, at).Commit?
    ensures var o := Handle(s, r, at);
            && o.answer.RouteTo? && o.answer.lease.leaseId == r.leaseId && at < o.answer.lease.expiresAt
            && r.leaseId in o.state.leases && o.state.leases[r.leaseId] == o.answer.lease
  {
  }

  lemma OthersShortenNothing(w: World, step: Step)
    requires Balanced(w.sys.state.leases, w.ledger, w.clock) && Possible(w, step) && !Shortens(w, step)
    ensures Next(w, step).ledger.shortened <= w.ledger.shortened
  {
    forall id | id in Next(w, step).ledger.shortened
      ensures id in w.ledger.shortened
    {
      if id !in w.ledger.shortened {
        OnlyShorteningShortens(w, step, id);
      }
    }
  }

  lemma AcquireStep(w: World, r: Request)
    requires WorldInv(w) == true && ControllerSystem.Writable(w.sys) == true
    requires r.Acquire? && Possible(w, CallController(r, w.clock, true)) && Handle(w.sys.state, r, w.clock).Commit?
    ensures Handle(w.sys.state, r, w.clock).answer.RouteTo?
    ensures var next := Next(w, CallController(r, w.clock, true));
            var lease := Handle(w.sys.state, r, w.clock).answer.lease;
            && WorldInv(next) == true && ControllerSystem.Writable(next.sys) == true
            && next.net == w.net && next.clock == w.clock && w.clock < lease.expiresAt
            && r.leaseId in next.sys.state.leases && next.sys.state.leases[r.leaseId] == lease
               && lease.leaseId == r.leaseId
            && ContextOf(lease) in next.ledger.issued && next.ledger.shortened <= w.ledger.shortened
  {
    AcquiredLeaseIsLive(w.sys.state, r, w.clock);
    LeaseCallCommits(w.sys, r, w.clock);
    CallKeepsWorld(w, r, w.clock, true);
    OthersShortenNothing(w, CallController(r, w.clock, true));
  }

  // ---------- a shortening renewal breaks the handover ----------

  lemma RenewalMovesDeadline(s: State, r: Request, at: int)
    requires KeysMatch(s) && r.Renew? && r.leaseId in s.leases && Handle(s, r, at).Commit?
    ensures s.leases[r.leaseId].fencingToken == r.fencingToken
    ensures var t := Handle(s, r, at).state;
            r.leaseId in t.leases && t.leases[r.leaseId] == s.leases[r.leaseId].(expiresAt := Deadline(at, r.ttl))
  {
  }

  lemma WrittenIsWritable(sys: ControllerSystem.System, r: Request, at: int, ioOk: bool)
    requires ControllerSystem.SystemInv(sys) && LegalRequest(sys.state, r, at) && Handle(sys.state, r, at).Commit?
    requires ControllerSystem.CanWrite(sys.store, Handle(sys.state, r, at).state, ioOk)
    ensures ControllerSystem.Execute(sys, r, at, ioOk).0.state == Handle(sys.state, r, at).state
    ensures ControllerSystem.Writable(ControllerSystem.Execute(sys, r, at, ioOk).0) == true
  {
    ControllerSystem.WritesFailOnlyOnTelemetryIds(sys, r, at, ioOk);
  }

  /** After a renewal the old context is still known, and the deadline has moved. */
  lemma RenewalStep(w: World, step: Step)
    requires WorldInv(w) == true && Possible(w, step) && step.CallController? && step.request.Renew?
    requires step.request.leaseId in w.sys.state.leases && Writes(w, step)
    ensures var id := step.request.leaseId;
            var next, held := Next(w, step), w.sys.state.leases[id];
            && WorldInv(next) == true && ControllerSystem.Writable(next.sys) == true && next.clock == w.clock
            && held.leaseId == id && held.fencingToken == step.request.fencingToken
            && ContextOf(held) in next.ledger.issued
            && id in next.sys.state.leases
            && next.sys.state.leases[id] == held.(expiresAt := Deadline(step.at, step.request.ttl))
  {
    RenewalMovesDeadline(w.sys.state, step.request, step.at);
    WrittenIsWritable(w.sys, step.request, step.at, step.ioOk);
    CallKeepsWorld(w, step.request, step.at, step.ioOk);
  }

  lemma SweepReclaims(w: World, leaseId: string, offlineAfter: int)
    requires WorldInv(w) == true && ControllerSystem.Writable(w.sys) == true
    requires leaseId in w.sys.state.leases && w.sys.state.leases[leaseId].expiresAt <= w.clock
    ensures var step := CallController(SweepNow(offlineAfter), w.clock, true);
            && Possible(w, step)
            && leaseId in Next(w, step).ledger.reclaimed
            && Next(w, step).agents == w.agents && Next(w, step).clock == w.clock
  {
    LeaseCallCommits(w.sys, SweepNow(offlineAfter), w.clock);
  }

  /** When the controller's deadline passes, a sweep reclaims the lease and agents do not notice. */
  lemma ReclaimSteps(w: World, leaseId: string, to: int, offlineAfter: int)
    requires WorldInv(w) == true && ControllerSystem.Writable(w.sys) == true
    requires leaseId in w.sys.state.leases && w.sys.state.leases[leaseId].expiresAt <= to && w.clock <= to
    ensures var ticked := Next(w, Tick(to));
            var sweep := CallController(SweepNow(offlineAfter), to, true);
            && Possible(ticked, sweep)
            && leaseId in Next(ticked, sweep).ledger.reclaimed
            && Next(ticked, sweep).agents == w.agents && Next(ticked, sweep).clock == to
  {
    StepKeepsWorld(w, Tick(to));
    SweepReclaims(Next(w, Tick(to)), leaseId, offlineAfter);
  }

  lemma InstalledIsAccepted(w: World, agents: map<string, Installed>, held: Lease, machineId: string)
    requires w.agents == agents && machineId in agents && held.leaseId in agents[machineId]
    requires agents[machineId][held.leaseId] == LocalOf(ContextOf(held)) && w.clock < held.expiresAt
    requires held.leaseId != "" && held.profileId != "" && held.fencingToken != ""
    ensures Accepts(w, machineId, held.leaseId)
  {
    assert Check(AgentMap(w, machineId), held.leaseId, held.profileId, held.fencingToken, w.clock);
  }

  /** An agent that holds the longer deadline goes on accepting after the sweep. */
  lemma ExpireUnnoticed(w: World, held: Lease, machineId: string, to: int, offlineAfter: int)
    requires WorldInv(w) == true && ControllerSystem.Writable(w.sys) == true
    requires held.leaseId in w.sys.state.leases && w.sys.state.leases[held.leaseId].expiresAt <= to
    requires w.clock <= to < held.expiresAt
    requires machineId in w.agents && held.leaseId in w.agents[machineId]
    requires w.agents[machineId][held.leaseId] == LocalOf(ContextOf(held))
    requires held.leaseId != "" && held.profileId != "" && held.fencingToken != ""
    ensures var ticked := Next(w, Tick(to));
            var sweep := CallController(SweepNow(offlineAfter), to, true);
            && Possible(ticked, sweep)
            && held.leaseId in Next(ticked, sweep).ledger.reclaimed
            && Accepts(Next(ticked, sweep), machineId, held.leaseId) == true
  {
    ReclaimSteps(w, held.leaseId, to, offlineAfter);
    InstalledIsAccepted(Next(Next(w, Tick(to)), CallController(SweepNow(offlineAfter), to, true)), w.agents, held,
                        machineId);
  }

  lemma RunOfFour(w: World, a: Step, b: Step, c: Step, d: Step)
    requires Possible(w, a) && Possible(Next(w, a), b) && Possible(Next(Next(w, a), b), c)
    requires Possible(Next(Next(Next(w, a), b), c), d)
    ensures PossibleRun(w, [a] + ([b] + ([c] + ([d] + []))))
    ensures Run(w, [a] + ([b] + ([c] + ([d] + [])))) == Next(Next(Next(Next(w, a), b), c), d)
  {
    RunCons(Next(Next(Next(w, a), b), c), d, []);
    RunCons(Next(Next(w, a), b), c, [d] + []);
    RunCons(Next(w, a), b, [c] + ([d] + []));
    RunCons(w, a, [b] + ([c] + ([d] + [])));
  }

  /** The client installs the context it held before the renewal; then the new deadline passes. */
  function Misuse(held: Lease, machineId: string, to: int, offlineAfter: int): seq<Step> {
    [SendInstall(machineId, ContextOf(held))]
    + ([Deliver(InstallMessage(machineId, ContextOf(held)))]
       + ([Tick(to)] + ([CallController(SweepNow(offlineAfter), to, true)] + [])))
  }

  lemma MisuseRun(w: World, held: Lease, machineId: string, to: int, offlineAfter: int)
    requires WorldInv(w) == true && ControllerSystem.Writable(w.sys) == true && ContextOf(held) in w.ledger.issued
    requires held.leaseId in w.sys.state.leases && w.sys.state.leases[held.leaseId].expiresAt <= to
    requires w.clock <= to < held.expiresAt
    requires held.leaseId != "" && held.profileId != "" && held.fencingToken != ""
    ensures var steps := Misuse(held, machineId, to, offlineAfter);
            PossibleRun(w, steps) == true && EndsBadly(Run(w, steps), machineId, held.leaseId) == true
  {
    var send := SendInstall(machineId, ContextOf(held));
    var deliver := Deliver(InstallMessage(machineId, ContextOf(held)));
    InstallSteps(w, ContextOf(held), machineId);
    ExpireUnnoticed(Next(Next(w, send), deliver), held, machineId, to, offlineAfter);
    RunOfFour(w, send, deliver, Tick(to), CallController(SweepNow(offlineAfter), to, true));
  }

  lemma MisuseRenewsNothing(held: Lease, machineId: string, to: int, offlineAfter: int, id: string)
    ensures forall i :: 0 <= i < 4 ==> !Renews(Misuse(held, machineId, to, offlineAfter)[i], id)
    ensures |Misuse(held, machineId, to, offlineAfter)| == 4
  {
  }

  predicate Renews(step: Step, id: string) {
    step.CallController? && step.request.Renew? && step.request.leaseId == id
  }

  /** An agent accepts a lease that the controller has reclaimed by expiry. */
  ghost predicate EndsBadly(w: World, machineId: string, id: string) {
    id in w.ledger.reclaimed && Accepts(w, machineId, id)
  }

  /** The run goes on without renewing `id`, reclaims it by expiry, and an agent still accepts it. */
  ghost predicate Outlives(w: World, steps: seq<Step>, machineId: string, id: string) {
    && PossibleRun(w, steps)
    && (forall i :: 0 <= i < |steps| ==> !Renews(steps[i], id))
    && EndsBadly(Run(w, steps), machineId, id)
  }

  lemma LeasedProfilesAreNamed(s: State, id: string)
    requires KeysMatch(s) && LeasedStatus(s) && id in s.leases
    ensures s.leases[id].profileId != ""
  {
  }

  function LaterOf(a: int, b: int): (later: int)
    ensures a <= later && b <= later && (later == a || later == b)
  {
    if a <= b then b else a
  }

  // ---------- exactly when a lease can be outlived ----------

  /** Someone knows a context of the lease that outlasts both now and the controller's deadline. */
  ghost predicate LongerContext(w: World, id: string, c: LeaseContext)
    requires id in w.sys.state.leases
  {
    && c in w.ledger.issued && c.leaseId == id && c.fencingToken != ""
    && c.expiresAt > LaterOf(w.clock, w.sys.state.leases[id].expiresAt)
  }

  lemma LongerContextOutlives(w: World, id: string, c: LeaseContext, machineId: string)
    requires WorldInv(w) == true && ControllerSystem.Writable(w.sys) == true
    requires id in w.sys.state.leases && id != "" && LongerContext(w, id, c)
    ensures var held := w.sys.state.leases[id].(expiresAt := c.expiresAt);
            var to := LaterOf(w.clock, w.sys.state.leases[id].expiresAt);
            Outlives(w, Misuse(held, machineId, to, 0), machineId, id) == true
  {
    var held := w.sys.state.leases[id].(expiresAt := c.expiresAt);
    var to := LaterOf(w.clock, w.sys.state.leases[id].expiresAt);
    assert ContextOf(held) == c;
    LeasedProfilesAreNamed(w.sys.state, id);
    MisuseRun(w, held, machineId, to, 0);
    MisuseRenewsNothing(held, machineId, to, 0, id);
  }

  /** Since `start`, the lease kept its deadline while held, got no new context, and was reclaimed
      only after that deadline. */
  ghost predicate Unmoved(start: World, w: World, id: string)
    requires id in start.sys.state.leases
  {
    var deadline := start.sys.state.leases[id].expiresAt;
    && start.clock <= w.clock && id in w.ledger.used
    && (forall c :: c in w.ledger.issued && c.leaseId == id ==> c in start.ledger.issued)
    && (id in w.sys.state.leases ==> w.sys.state.leases[id].expiresAt == deadline)
    && (id in w.ledger.reclaimed ==> deadline <= w.clock)
  }

  lemma CallLeavesLease(w: World, step: Step, id: string)
    requires WorldInv(w) && Possible(w, step) && step.CallController? && !Renews(step, id) && id in w.ledger.used
    requires id in Next(w, step).sys.state.leases
    ensures id in w.sys.state.leases && Next(w, step).sys.state.leases[id] == w.sys.state.leases[id]
  {
    if Writes(w, step) {
      Leases.EveryLeaseIsExplained(w.sys.state, step.request, step.at, id);
      assert Leases.Explained(w.sys.state, step.request, step.at, Next(w, step).sys.state, id);
    }
  }

  lemma RecordedLeavesLease(start: World, w: World, next: World, at: int, id: string)
    requires id in start.sys.state.leases && Unmoved(start, w, id) && Booked(w.sys.state.leases, w.ledger)
             && at <= w.clock
    requires next.clock == w.clock
    requires next.ledger == Recorded(w.ledger, w.sys.state.leases, next.sys.state.leases, at, w.clock)
    requires forall other :: other in next.sys.state.leases ==> next.sys.state.leases[other].leaseId == other
    requires id in next.sys.state.leases ==>
               id in w.sys.state.leases && next.sys.state.leases[id] == w.sys.state.leases[id]
    ensures Unmoved(start, next, id) == true
  {
  }

  lemma CallKeepsUnmoved(start: World, w: World, step: Step, id: string)
    requires id in start.sys.state.leases && Unmoved(start, w, id)
    requires WorldInv(w) == true && Possible(w, step) && step.CallController? && !Renews(step, id)
    ensures Unmoved(start, Next(w, step), id) == true
  {
    if id in Next(w, step).sys.state.leases {
      CallLeavesLease(w, step, id);
    }
    CallKeepsWorld(w, step.request, step.at, step.ioOk);
    RecordedLeavesLease(start, w, Next(w, step), step.at, id);
  }

  lemma RestartKeepsUnmoved(start: World, w: World, order: seq<Persistence.RowId>, id: string)
    requires id in start.sys.state.leases && Unmoved(start, w, id)
    requires WorldInv(w) == true && Possible(w, RestartController(order))
    ensures Unmoved(start, Next(w, RestartController(order)), id) == true
  {
    RestartKeepsLeases(w.sys, order);
  }

  lemma OtherStepsKeepUnmoved(start: World, w: World, step: Step, id: string)
    requires id in start.sys.state.leases && Unmoved(start, w, id)
    requires Possible(w, step) && !step.CallController? && !step.RestartController?
    ensures Unmoved(start, Next(w, step), id) == true
  {
  }

  lemma StepKeepsUnmoved(start: World, w: World, step: Step, id: string)
    requires id in start.sys.state.leases && Unmoved(start, w, id)
    requires WorldInv(w) == true && Possible(w, step) && !Renews(step, id)
    ensures Unmoved(start, Next(w, step), id) == true
  {
    if step.CallController? {
      CallKeepsUnmoved(start, w, step, id);
    } else if step.RestartController? {
      RestartKeepsUnmoved(start, w, step.order, id);
    } else {
      OtherStepsKeepUnmoved(start, w, step, id);
    }
  }

  lemma {:induction false} RunKeepsUnmoved(start: World, w: World, steps: seq<Step>, id: string)
    requires id in start.sys.state.leases && Unmoved(start, w, id) && WorldInv(w) == true && PossibleRun(w, steps)
    requires forall i :: 0 <= i < |steps| ==> !Renews(steps[i], id)
    ensures Unmoved(start, Run(w, steps), id) == true && WorldInv(Run(w, steps)) == true
    decreases |steps|
  {
    if steps != [] {
      StepKeepsUnmoved(start, w, steps[0], id);
      StepKeepsWorld(w, steps[0]);
      RunKeepsUnmoved(start, Next(w, steps[0]), steps[1..], id);
    }
  }

  lemma BadEndShowsContext(start: World, w: World, machineId: string, id: string) returns (c: LeaseContext)
    requires id in start.sys.state.leases && Unmoved(start, w, id) && WorldInv(w) && EndsBadly(w, machineId, id)
    ensures LongerContext(start, id, c)
  {
    c := KnownContext(AgentMap(w, machineId), id);
    assert c in w.ledger.issued;
  }

  /** For every lease the controller holds, whatever has happened to it before: some run that does
      not renew it ends with an agent accepting it after it was reclaimed, if and only if a context
      of it was handed out that outlasts both now and the controller's deadline. So a lease is safe
      again once it is renewed past every deadline handed out. */
  lemma OutlivedIffLongerContext(w: World, id: string)
    requires WorldInv(w) == true && ControllerSystem.Writable(w.sys) && id in w.sys.state.leases && id != ""
    ensures (exists steps, machineId :: Outlives(w, steps, machineId, id)) <==> (exists c :: LongerContext(w, id, c))
  {
    if c :| LongerContext(w, id, c) {
      LongerContextOutlives(w, id, c, "");
    }
    forall steps, machineId | Outlives(w, steps, machineId, id)
      ensures exists c :: LongerContext(w, id, c)
    {
      RunKeepsUnmoved(w, w, steps, id);
      var c := BadEndShowsContext(w, Run(w, steps), machineId, id);
    }
  }

  /** Every renewal that goes through, whatever went before it: the lease can be outlived afterwards
      if and only if some context handed out so far outlasts both now and the new deadline. */
  lemma RenewalIsUnsafeIffOutlasted(w: World, step: Step)
    requires WorldInv(w) == true && Possible(w, step) && step.CallController? && step.request.Renew?
    requires Writes(w, step) && step.request.leaseId != ""
    ensures (exists steps, machineId :: Outlives(Next(w, step), steps, machineId, step.request.leaseId)) <==>
              exists c :: Outlasts(w, c, step.request.leaseId, Deadline(step.at, step.request.ttl))
  {
    var id, deadline := step.request.leaseId, Deadline(step.at, step.request.ttl);
    RenewedIsHeld(w.sys.state, step.request, step.at);
    RenewalStep(w, step);
    OutlivedIffLongerContext(Next(w, step), id);
    forall c
      ensures LongerContext(Next(w, step), id, c) <==> Outlasts(w, c, id, deadline)
    {
    }
    assert (exists c :: LongerContext(Next(w, step), id, c)) <==> exists c :: Outlasts(w, c, id, deadline);
  }

  ghost predicate Outlasts(w: World, c: LeaseContext, id: string, deadline: int) {
    c in w.ledger.issued && c.leaseId == id && c.fencingToken != "" && c.expiresAt > LaterOf(w.clock, deadline)
  }

  lemma RenewedIsHeld(s: State, r: Request, at: int)
    requires r.Renew? && Handle(s, r, at).Commit?
    ensures r.leaseId in s.leases
  {
  }

  // ---------- renewals of leases not shortened before ----------

  /** Whenever a renewal moves back a deadline that lies ahead, whatever clock reading it uses, the
      run can go on so that an agent accepts the reclaimed lease. */
  lemma ShorteningBreaksHandover(w: World, step: Step, machineId: string)
    requires WorldInv(w) == true && Possible(w, step) && Shortens(w, step)
    requires step.request.leaseId != "" && step.request.fencingToken != ""
    ensures var held := w.sys.state.leases[step.request.leaseId];
            var to := LaterOf(w.clock, Deadline(step.at, step.request.ttl));
            Outlives(Next(w, step), Misuse(held, machineId, to, 0), machineId, step.request.leaseId) == true
  {
    var id, held := step.request.leaseId, w.sys.state.leases[step.request.leaseId];
    RenewalStep(w, step);
    LongerContextOutlives(Next(w, step), id, ContextOf(held), machineId);
    assert Next(w, step).sys.state.leases[id].(expiresAt := held.expiresAt) == held;
  }

  lemma {:induction false} UnrenewedStaysUnshortened(w: World, steps: seq<Step>, id: string)
    requires WorldInv(w) == true && PossibleRun(w, steps) && id !in w.ledger.shortened
    requires forall i :: 0 <= i < |steps| ==> !Renews(steps[i], id)
    ensures id !in Run(w, steps).ledger.shortened && WorldInv(Run(w, steps)) == true
    decreases |steps|
  {
    if steps != [] {
      if id in Next(w, steps[0]).ledger.shortened {
        OnlyShorteningShortens(w, steps[0], id);
      }
      StepKeepsWorld(w, steps[0]);
      UnrenewedStaysUnshortened(Next(w, steps[0]), steps[1..], id);
    }
  }

  lemma UnshortenedNeverOutlives(w: World, steps: seq<Step>, machineId: string, id: string)
    requires WorldInv(w) == true && id !in w.ledger.shortened
    ensures !Outlives(w, steps, machineId, id)
  {
    if Outlives(w, steps, machineId, id) {
      UnrenewedStaysUnshortened(w, steps, id);
      ReclaimedIsRefused(Run(w, steps), machineId, id);
    }
  }

  /** For a lease not shortened before, the caller can tell: a renewal can be followed by a run that
      renews it no more and ends with an agent accepting it after it was reclaimed, if and only if the
      renewal goes through, the deadline it replaces lies ahead, and the new deadline is earlier. */
  lemma RenewalIsUnsafeIffItShortens(w: World, step: Step)
    requires WorldInv(w) == true && Possible(w, step) && step.CallController? && step.request.Renew?
    requires step.request.leaseId != "" && step.request.fencingToken != ""
             && step.request.leaseId !in w.ledger.shortened
    ensures Shortens(w, step) <==>
              exists steps, machineId :: Outlives(Next(w, step), steps, machineId, step.request.leaseId)
  {
    var id := step.request.leaseId;
    if Shortens(w, step) {
      ShorteningBreaksHandover(w, step, "");
    } else {
      if id in Next(w, step).ledger.shortened {
        OnlyShorteningShortens(w, step, id);
      }
      StepKeepsWorld(w, step);
      forall steps, machineId
        ensures !Outlives(Next(w, step), steps, machineId, id)
      {
        UnshortenedNeverOutlives(Next(w, step), steps, machineId, id);
      }
    }
  }

  // ---------- the failure can be reached ----------

  /** A controller that knows one machine and one profile. */
  function Populated(m: Machine, p: Profile): State {
    EMPTY.(machines := map[m.machineId := m], profiles := map[p.profileId := p])
  }

  /** A machine online and a free profile without accounts on it, as first reported at time 0. */
  predicate Plain(m: Machine, p: Profile) {
    && m.machineId != "" && m.status == MACHINE_ONLINE && m.lastHeartbeat == 0
    && p.profileId != "" && p.machineId == m.machineId && p.status == PROFILE_AVAILABLE && p.accounts == []
       && p.lastSeen == 0
  }

  /** A client asks for any free browser, for longer than a second. */
  predicate AsksForAny(r: Request, p: Profile) {
    && r.Acquire? && r.clientId != "" && r.platform == PLATFORM_UNSPECIFIED && r.accountId == "" && r.selector == map[]
    && r.choice == p.profileId && r.leaseId != "" && r.fencingToken != "" && r.ttl > 1
  }

  lemma UpsertStores(x: State, m: Machine, p: Profile)
    requires Plain(m, p) && x == EMPTY.(machines := map[m.machineId := m])
    ensures UpsertAll(x, [p], m.machineId, 0) == Ok(Populated(m, p))
  {
    assert Reported(x, p, m.machineId, 0) == p;
    assert AccountKeys(p) == {};
    assert Reindexed(x, p) == map[];
    assert [p][1..] == [];
    assert UpsertAll(Populated(m, p), [], m.machineId, 0) == Ok(Populated(m, p));
  }

  lemma RegistrationStores(m: Machine, p: Profile)
    requires Plain(m, p)
    ensures HandleRegisterMachine(EMPTY, Some(m), [p], 0) == Commit(Populated(m, p), Done(Registered(m.machineId)))
  {
    LazyExpiry.NothingToExpire(EMPTY, 0);
    assert Checkin(m, 0) == m;
    assert EMPTY.machines[m.machineId := m] == map[m.machineId := m];
    UpsertStores(EMPTY.(machines := map[m.machineId := m]), m, p);
  }

  lemma PopulatedIsDistinct(m: Machine, p: Profile)
    requires Plain(m, p)
    ensures RowIdentity.MetricIdsDiffer(Populated(m, p)) && RowIdentity.EventIdsDiffer(Populated(m, p))
    ensures Persistence.Distinct(Populated(m, p)) == true
  {
    RowIdentity.DistinctIffTelemetryIdsDiffer(Populated(m, p));
  }

  function Register(m: Machine, p: Profile): Step {
    CallController(RegisterMachine(Some(m), [p]), 0, true)
  }

  predicate Fresh(sys: ControllerSystem.System) {
    sys == ControllerSystem.FRESH_IN_MEMORY || sys == ControllerSystem.FRESH_ON_DISK
  }

  lemma CommittedIsInstalled(sys: ControllerSystem.System, r: Request, next: State, answer: Answer)
    requires Handle(sys.state, r, 0) == Commit(next, answer) && Persistence.Distinct(next)
    ensures ControllerSystem.Execute(sys, r, 0, true).0.state == next
  {
  }

  lemma RegistrationIsHandled(m: Machine, p: Profile)
    ensures Handle(EMPTY, RegisterMachine(Some(m), [p]), 0) == HandleRegisterMachine(EMPTY, Some(m), [p], 0)
  {
  }

  lemma RegistrationCommits(sys: ControllerSystem.System, m: Machine, p: Profile)
    requires Fresh(sys) && Plain(m, p)
    ensures ControllerSystem.Execute(sys, RegisterMachine(Some(m), [p]), 0, true).0.state == Populated(m, p)
  {
    RegistrationStores(m, p);
    RegistrationIsHandled(m, p);
    PopulatedIsDistinct(m, p);
    CommittedIsInstalled(sys, RegisterMachine(Some(m), [p]), Populated(m, p), Done(Registered(m.machineId)));
  }

  lemma NothingRecorded(ledger: Ledger, at: int, clock: int)
    ensures Recorded(ledger, map[], map[], at, clock) == ledger
  {
  }

  lemma FreshIsInitial(sys: ControllerSystem.System)
    requires Fresh(sys)
    ensures Initial(Opening(sys, 0)) == true
  {
    EmptyControllersAreInitial(0);
  }

  lemma RegistrationIsPossible(sys: ControllerSystem.System, m: Machine, p: Profile)
    ensures Possible(Opening(sys, 0), Register(m, p)) == true
  {
  }

  lemma RegistrationStep(sys: ControllerSystem.System, m: Machine, p: Profile)
    requires Fresh(sys) && Plain(m, p)
    ensures Possible(Opening(sys, 0), Register(m, p)) == true
    ensures var w := Next(Opening(sys, 0), Register(m, p));
            && WorldInv(w) == true && ControllerSystem.Writable(w.sys) == true && w.clock == 0
               && w.ledger == Opening(sys, 0).ledger
            && w.sys.state == Populated(m, p)
  {
    FreshIsInitial(sys);
    InitialIsSound(Opening(sys, 0));
    RegistrationIsPossible(sys, m, p);
    RegistrationCommits(sys, m, p);
    CallKeepsWorld(Opening(sys, 0), Register(m, p).request, 0, true);
    PopulatedIsDistinct(m, p);
    NothingRecorded(Opening(sys, 0).ledger, 0, 0);
  }

  lemma AcquirePicksProfile(m: Machine, p: Profile, r: Request)
    requires Plain(m, p) && AsksForAny(r, p)
    ensures LegalRequest(Populated(m, p), r, 0) == true
    ensures var o := Handle(Populated(m, p), r, 0);
            o.Commit? && o.answer == RouteTo(NewLease(Populated(m, p), p.profileId, r, 0), true)
  {
    LazyExpiry.NothingToExpire(Populated(m, p), 0);
    assert Grantable(Populated(m, p), p.profileId, PLATFORM_UNSPECIFIED, "", map[]);
  }

  /** The world in which `r` has been granted the only profile. */
  lemma GrantedWorld(sys: ControllerSystem.System, m: Machine, p: Profile, r: Request)
    requires Fresh(sys) && Plain(m, p) && AsksForAny(r, p)
    ensures Possible(Opening(sys, 0), Register(m, p)) == true
    ensures Possible(Next(Opening(sys, 0), Register(m, p)), CallController(r, 0, true)) == true
    ensures var lease := NewLease(Populated(m, p), p.profileId, r, 0);
            var w := Next(Next(Opening(sys, 0), Register(m, p)), CallController(r, 0, true));
            && WorldInv(w) == true && ControllerSystem.Writable(w.sys) == true && w.clock == 0
               && w.ledger.shortened == {}
            && lease.leaseId == r.leaseId && r.leaseId in w.sys.state.leases && w.sys.state.leases[r.leaseId] == lease
  {
    RegistrationStep(sys, m, p);
    AcquirePicksProfile(m, p, r);
    AcquireStep(Next(Opening(sys, 0), Register(m, p)), r);
  }

  lemma RenewalCommits(s: State, id: string, ttl: int, at: int)
    requires id in s.leases && at < s.leases[id].expiresAt
    ensures Handle(s, Renew(id, s.leases[id].fencingToken, ttl), at).Commit?
  {
  }

  lemma RenewalShortens(w: World, id: string, ttl: int)
    requires WorldInv(w) == true && ControllerSystem.Writable(w.sys) == true && id in w.sys.state.leases
    requires w.clock < w.sys.state.leases[id].expiresAt && Deadline(w.clock, ttl) < w.sys.state.leases[id].expiresAt
    ensures var step := CallController(Renew(id, w.sys.state.leases[id].fencingToken, ttl), w.clock, true);
            Possible(w, step) == true && Shortens(w, step) == true
  {
    RenewalCommits(w.sys.state, id, ttl, w.clock);
    LeaseCallCommits(w.sys, Renew(id, w.sys.state.leases[id].fencingToken, ttl), w.clock);
  }

  lemma RunAfterThree(w: World, a: Step, b: Step, c: Step, rest: seq<Step>)
    requires Possible(w, a) && Possible(Next(w, a), b) && Possible(Next(Next(w, a), b), c)
    requires PossibleRun(Next(Next(Next(w, a), b), c), rest)
    ensures PossibleRun(w, [a] + ([b] + ([c] + rest))) == true
    ensures Run(w, [a] + ([b] + ([c] + rest))) == Run(Next(Next(Next(w, a), b), c), rest)
  {
    RunCons(Next(Next(w, a), b), c, rest);
    RunCons(Next(w, a), b, [c] + rest);
    RunCons(w, a, [b] + ([c] + rest));
  }

  /** Once `id` is held until some later time, a renewal for a second breaks the handover. */
  lemma SecondRenewalFails(w: World, id: string, machineId: string) returns (renew: Step, rest: seq<Step>)
    requires WorldInv(w) == true && ControllerSystem.Writable(w.sys) == true && id in w.sys.state.leases && id != ""
    requires w.sys.state.leases[id].fencingToken != "" && w.clock + 1000 < w.sys.state.leases[id].expiresAt
    ensures Possible(w, renew) && |rest| == 4 && PossibleRun(Next(w, renew), rest)
    ensures EndsBadly(Run(Next(w, renew), rest), machineId, id) == true
  {
    var held := w.sys.state.leases[id];
    assert Deadline(w.clock, 1) == w.clock + 1000;
    RenewalShortens(w, id, 1);
    renew := CallController(Renew(id, held.fencingToken, 1), w.clock, true);
    ShorteningBreaksHandover(w, renew, machineId);
    rest := Misuse(held, machineId, w.clock + 1000, 0);
  }

  lemma FirstLeaseLasts(m: Machine, p: Profile, r: Request)
    requires Plain(m, p) && AsksForAny(r, p)
    ensures var lease := NewLease(Populated(m, p), p.profileId, r, 0);
            lease.fencingToken == r.fencingToken && 1000 < lease.expiresAt
  {
  }

  /** Whatever is registered and whoever acquires it first: seven steps from an empty controller
      an agent can accept a reclaimed lease. */
  lemma HandoverCanFail(sys: ControllerSystem.System, m: Machine, p: Profile, r: Request) returns (steps: seq<Step>)
    requires Fresh(sys) && Plain(m, p) && AsksForAny(r, p)
    ensures |steps| == 7 && PossibleRun(Opening(sys, 0), steps)
    ensures EndsBadly(Run(Opening(sys, 0), steps), m.machineId, r.leaseId)
  {
    GrantedWorld(sys, m, p, r);
    FirstLeaseLasts(m, p, r);
    var acquire := CallController(r, 0, true);
    var acquired := Next(Next(Opening(sys, 0), Register(m, p)), acquire);
    var renew, rest := SecondRenewalFails(acquired, r.leaseId, m.machineId);
    RunAfterThree(Opening(sys, 0), Register(m, p), acquire, renew, rest);
    steps := [Register(m, p)] + ([acquire] + ([renew] + rest));
  }
}
