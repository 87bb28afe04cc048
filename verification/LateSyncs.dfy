/** What a sync does to leases when its answer arrives late. */
module LateSyncs {
  import opened Messages
  import opened Registry
  import opened Operations
  import opened Agent
  import opened Handover
  import opened HandoverLimits
  import ControllerSystem
  import Leases

  // ---------- where a lease at the end of a run comes from ----------

  ghost predicate Grants(w: World, step: Step, id: string) {
    step.CallController? && step.request.Acquire? && step.request.leaseId == id && Writes(w, step)
  }

  /** Some step of the run grants the lease. */
  ghost predicate GrantedDuring(w: World, steps: seq<Step>, id: string)
    requires PossibleRun(w, steps)
    decreases |steps|
  {
    steps != [] && (Grants(w, steps[0], id) || GrantedDuring(Next(w, steps[0]), steps[1..], id))
  }

  /** A lease held in both worlds is the same up to its deadline; one held only later is fresh. */
  ghost predicate Traced(before: World, after: World, id: string, granted: bool) {
    && id in after.sys.state.leases
    && if id in before.sys.state.leases
       then SameButDeadline(before.sys.state.leases[id], after.sys.state.leases[id]) && !granted
       else id !in before.ledger.used && granted
  }

  lemma CallTracesLease(w: World, step: Step, id: string)
    requires Balanced(w.sys.state.leases, w.ledger, w.clock) && Possible(w, step) && step.CallController?
    requires id in Next(w, step).sys.state.leases
    ensures Traced(w, Next(w, step), id, Grants(w, step, id)) == true
  {
    if Writes(w, step) {
      Leases.EveryLeaseIsExplained(w.sys.state, step.request, step.at, id);
      assert Leases.Explained(w.sys.state, step.request, step.at, Next(w, step).sys.state, id);
    }
  }

  lemma RestartTracesLease(w: World, step: Step, id: string)
    requires WorldInv(w) && Possible(w, step) && step.RestartController? && id in Next(w, step).sys.state.leases
    ensures Traced(w, Next(w, step), id, false) == true
  {
    RestartKeepsLeases(w.sys, step.order);
  }

  lemma OthersTraceLease(w: World, step: Step, id: string)
    requires Possible(w, step) && !step.CallController? && !step.RestartController?
             && id in Next(w, step).sys.state.leases
    ensures Traced(w, Next(w, step), id, false) == true
  {
  }

  lemma StepTracesLease(w: World, step: Step, id: string)
    requires WorldInv(w) && Possible(w, step) && id in Next(w, step).sys.state.leases
    ensures Traced(w, Next(w, step), id, Grants(w, step, id)) == true
  {
    if step.CallController? {
      CallTracesLease(w, step, id);
    } else if step.RestartController? {
      RestartTracesLease(w, step, id);
    } else {
      OthersTraceLease(w, step, id);
    }
  }

  lemma WorldsGrow(w: World, step: Step)
    requires Possible(w, step)
    ensures w.net <= Next(w, step).net && w.clock <= Next(w, step).clock && w.ledger.used <= Next(w, step).ledger.used
  {
  }

  /** A lease held at the end of a run was held all along, or was granted during the run. */
  lemma {:induction false} RunTracesLease(w: World, steps: seq<Step>, id: string)
    requires WorldInv(w) == true && PossibleRun(w, steps) && id in Run(w, steps).sys.state.leases
    ensures Traced(w, Run(w, steps), id, GrantedDuring(w, steps, id)) == true
    ensures w.net <= Run(w, steps).net && w.clock <= Run(w, steps).clock
    decreases |steps|
  {
    if steps != [] {
      var next := Next(w, steps[0]);
      StepKeepsWorld(w, steps[0]);
      WorldsGrow(w, steps[0]);
      RunTracesLease(next, steps[1..], id);
      if id in next.sys.state.leases {
        StepTracesLease(w, steps[0], id);
      }
    }
  }

  // ---------- what a delivered answer keeps ----------

  lemma DeliverySyncs(w: World, machineId: string, desired: seq<Lease>)
    requires SyncMessage(machineId, desired) in w.net
    ensures var sync := Deliver(SyncMessage(machineId, desired));
            && Possible(w, sync)
            && AgentMap(Next(w, sync), machineId) == Mirror(desired)
            && Next(w, sync).sys == w.sys && Next(w, sync).clock == w.clock
  {
  }

  lemma AnswerStep(w: World, machineId: string, at: int, desired: seq<Lease>)
    requires WorldInv(w) == true && Possible(w, AnswerSync(machineId, at, desired))
    ensures var next := Next(w, AnswerSync(machineId, at, desired));
            && WorldInv(next) == true && next == w.(net := next.net) && SyncMessage(machineId, desired) in next.net
  {
    StepKeepsWorld(w, AnswerSync(machineId, at, desired));
  }

  /** Which of a machine's leases survive a sync, whatever happens between its answer and its
      arrival: those that were unexpired when it was answered, which are the ones not granted since. */
  ghost predicate KeepsExactly(w: World, at: int, after: World, machineId: string, id: string, granted: bool)
    requires id in after.sys.state.leases
  {
    && (id in w.sys.state.leases <==> !granted)
    && (id in AgentMap(after, machineId) <==> id in w.sys.state.leases && w.sys.state.leases[id].expiresAt > at)
    && (AcceptsLease(after, machineId, after.sys.state.leases[id]) <==>
          Presentable(after.sys.state.leases[id]) && id in w.sys.state.leases
              && after.clock < w.sys.state.leases[id].expiresAt)
  }

  predicate AcceptsLease(w: World, machineId: string, lease: Lease) {
    Check(AgentMap(w, machineId), lease.leaseId, lease.profileId, lease.fencingToken, w.clock)
  }

  /** The generator never draws empty ids or tokens. */
  predicate Presentable(lease: Lease) {
    lease.leaseId != "" && lease.fencingToken != ""
  }

  lemma MirrorKeepsExactly(w: World, machineId: string, at: int, desired: seq<Lease>, after: World, id: string,
                           granted: bool)
    requires WorldInv(w) && 0 <= at <= w.clock <= after.clock
    requires Lists(desired, LiveLeases(w.sys.state, machineId, at)) && AgentMap(after, machineId) == Mirror(desired)
    requires id in after.sys.state.leases && after.sys.state.leases[id].leaseId == id
    requires after.sys.state.leases[id].machineId == machineId && after.sys.state.leases[id].profileId != ""
    requires Traced(w, after, id, granted)
    ensures KeepsExactly(w, at, after, machineId, id, granted) == true
  {
    MirrorOfAnswer(w.sys.state, machineId, at, desired, id);
    if id in w.sys.state.leases {
      assert ContextOf(w.sys.state.leases[id]) in w.ledger.issued;
    }
  }

  /** A sync is answered at `at`, anything at all happens, and the answer arrives. Of the leases
      that the controller then holds for the machine, the agent keeps exactly those that were held and
      unexpired when the sync was answered, and it accepts one exactly as long as the deadline it
      had then: later grants are dropped, and later renewals are undone. */
  lemma LateSyncKeepsExactly(w: World, machineId: string, at: int, desired: seq<Lease>, between: seq<Step>, id: string)
    requires WorldInv(w) == true && Possible(w, AnswerSync(machineId, at, desired))
    requires PossibleRun(Next(w, AnswerSync(machineId, at, desired)), between)
    requires var end := Run(Next(w, AnswerSync(machineId, at, desired)), between);
             id in end.sys.state.leases && end.sys.state.leases[id].machineId == machineId
    ensures var answered := Next(w, AnswerSync(machineId, at, desired));
            var end, sync := Run(answered, between), Deliver(SyncMessage(machineId, desired));
            && Possible(end, sync)
            && Next(end, sync).sys == end.sys
            && KeepsExactly(w, at, Next(end, sync), machineId, id, GrantedDuring(answered, between, id))
  {
    var answered := Next(w, AnswerSync(machineId, at, desired));
    var end := Run(answered, between);
    AnswerStep(w, machineId, at, desired);
    RunKeepsWorld(answered, between);
    RunTracesLease(answered, between, id);
    DeliverySyncs(end, machineId, desired);
    LeasedProfilesAreNamed(end.sys.state, id);
    MirrorKeepsExactly(w, machineId, at, desired, Next(end, Deliver(SyncMessage(machineId, desired))), id,
                       GrantedDuring(answered, between, id));
  }

  // ---------- what a delivered answer brings back ----------

  lemma {:induction false} RunGrows(w: World, steps: seq<Step>)
    requires PossibleRun(w, steps)
    ensures w.net <= Run(w, steps).net && w.clock <= Run(w, steps).clock
    decreases |steps|
  {
    if steps != [] {
      WorldsGrow(w, steps[0]);
      RunGrows(Next(w, steps[0]), steps[1..]);
    }
  }

  /** The agent is as if it had been asked when the sync was answered. */
  ghost predicate Restored(w: World, at: int, after: World, machineId: string, id: string) {
    && (id in AgentMap(after, machineId) <==>
          id in w.sys.state.leases && w.sys.state.leases[id].machineId == machineId
              && w.sys.state.leases[id].expiresAt > at)
    && (id in w.sys.state.leases && w.sys.state.leases[id].machineId == machineId ==>
          (AcceptsLease(after, machineId, w.sys.state.leases[id]) <==>
             Presentable(w.sys.state.leases[id]) && after.clock < w.sys.state.leases[id].expiresAt))
  }

  lemma MirrorRestores(w: World, machineId: string, at: int, desired: seq<Lease>, after: World, id: string)
    requires WorldInv(w) && 0 <= at <= w.clock <= after.clock
    requires Lists(desired, LiveLeases(w.sys.state, machineId, at)) && AgentMap(after, machineId) == Mirror(desired)
    ensures Restored(w, at, after, machineId, id) == true
  {
    MirrorOfAnswer(w.sys.state, machineId, at, desired, id);
    if id in w.sys.state.leases {
      LeasedProfilesAreNamed(w.sys.state, id);
      assert ContextOf(w.sys.state.leases[id]) in w.ledger.issued;
    }
  }

  /** Whatever happens between answer and arrival: of all leases, held now or not, the agent then has
      exactly those of its machine that were held and unexpired when the sync was answered, and it
      accepts each until the deadline it had then. So what was dropped before the answer is gone,
      and what was released, quarantined or revoked since is brought back. */
  lemma LateSyncRestores(w: World, machineId: string, at: int, desired: seq<Lease>, between: seq<Step>, id: string)
    requires WorldInv(w) == true && Possible(w, AnswerSync(machineId, at, desired))
    requires PossibleRun(Next(w, AnswerSync(machineId, at, desired)), between)
    ensures var end := Run(Next(w, AnswerSync(machineId, at, desired)), between);
            var sync := Deliver(SyncMessage(machineId, desired));
            && Possible(end, sync)
            && Next(end, sync).sys == end.sys
            && Restored(w, at, Next(end, sync), machineId, id)
  {
    var answered := Next(w, AnswerSync(machineId, at, desired));
    var end := Run(answered, between);
    AnswerStep(w, machineId, at, desired);
    RunGrows(answered, between);
    DeliverySyncs(end, machineId, desired);
    MirrorRestores(w, machineId, at, desired, Next(end, Deliver(SyncMessage(machineId, desired))), id);
  }

  lemma ReleaseCommits(s: State, id: string, at: int)
    requires id in s.leases && at < s.leases[id].expiresAt
    ensures Handle(s, Release(id, s.leases[id].fencingToken), at).Commit?
    ensures id !in Handle(s, Release(id, s.leases[id].fencingToken), at).state.leases
  {
  }

  /** The lease is released and uninstalled between the answer and its arrival. */
  function ReleaseBetween(lease: Lease, clock: int): seq<Step> {
    [CallController(Release(lease.leaseId, lease.fencingToken), clock, true)]
    + ([RevokeAt(lease.machineId, lease.leaseId, lease.fencingToken)] + [])
  }

  lemma ReleaseStep(w: World, id: string)
    requires WorldInv(w) == true && ControllerSystem.Writable(w.sys) == true
    requires id in w.sys.state.leases && w.clock < w.sys.state.leases[id].expiresAt
    ensures var release := CallController(Release(id, w.sys.state.leases[id].fencingToken), w.clock, true);
            Possible(w, release) == true && id !in Next(w, release).sys.state.leases
                && Next(w, release).clock == w.clock
  {
    var r := Release(id, w.sys.state.leases[id].fencingToken);
    ReleaseCommits(w.sys.state, id, w.clock);
    ControllerSystem.OtherCallsWriteIffWritable(w.sys, r, w.clock, true);
  }

  lemma ReleaseBetweenRun(w: World, id: string)
    requires WorldInv(w) == true && ControllerSystem.Writable(w.sys) == true
    requires id in w.sys.state.leases && w.sys.state.leases[id].leaseId == id
             && w.clock < w.sys.state.leases[id].expiresAt
    ensures var between := ReleaseBetween(w.sys.state.leases[id], w.clock);
            && PossibleRun(w, between) == true
            && id !in Run(w, between).sys.state.leases && Run(w, between).clock == w.clock
  {
    var lease := w.sys.state.leases[id];
    var release := CallController(Release(id, lease.fencingToken), w.clock, true);
    var revoke := RevokeAt(lease.machineId, id, lease.fencingToken);
    ReleaseStep(w, id);
    RunCons(Next(w, release), revoke, []);
    RunCons(w, release, [revoke] + []);
  }

  /** A released and uninstalled lease can be accepted again: any live lease, once a sync answered
      before its release arrives after its uninstall. */
  lemma LateSyncRevivesReleasedLease(w: World, id: string, desired: seq<Lease>)
    requires WorldInv(w) == true && ControllerSystem.Writable(w.sys) == true
    requires id in w.sys.state.leases && w.clock < w.sys.state.leases[id].expiresAt
             && Presentable(w.sys.state.leases[id])
    requires Possible(w, AnswerSync(w.sys.state.leases[id].machineId, w.clock, desired))
    ensures var lease := w.sys.state.leases[id];
            var answer := AnswerSync(lease.machineId, w.clock, desired);
            var deliver := Deliver(SyncMessage(lease.machineId, desired));
            var steps := [answer] + (ReleaseBetween(lease, w.clock) + [deliver]);
            && PossibleRun(w, steps)
            && id !in Run(w, steps).sys.state.leases && AcceptsLease(Run(w, steps), lease.machineId, lease)
  {
    var lease := w.sys.state.leases[id];
    assert lease.leaseId == id;
    var answer := AnswerSync(lease.machineId, w.clock, desired);
    AnswerStep(w, lease.machineId, w.clock, desired);
    ReleaseBetweenRun(Next(w, answer), id);
    LateSyncRestores(w, lease.machineId, w.clock, desired, ReleaseBetween(lease, w.clock), id);
    ClockStands(Run(Next(w, answer), ReleaseBetween(lease, w.clock)), lease.machineId, desired);
    DeliveryEndsRun(w, answer, ReleaseBetween(lease, w.clock), Deliver(SyncMessage(lease.machineId, desired)));
  }

  lemma ClockStands(w: World, machineId: string, desired: seq<Lease>)
    requires SyncMessage(machineId, desired) in w.net
    ensures Next(w, Deliver(SyncMessage(machineId, desired))).clock == w.clock
  {
  }

  // ---------- a live lease can be dropped ----------

  lemma CallsIgnoreNetwork(w: World, net: set<Message>, r: Request, at: int, ioOk: bool)
    requires Possible(w, CallController(r, at, ioOk))
    ensures Possible(w.(net := net), CallController(r, at, ioOk)) == true
  {
  }

  /** The lease is granted and installed between the answer and its arrival. */
  function Between(r: Request, lease: Lease, clock: int): seq<Step> {
    [CallController(r, clock, true)]
    + ([SendInstall(lease.machineId, ContextOf(lease))]
       + ([Deliver(InstallMessage(lease.machineId, ContextOf(lease)))] + []))
  }

  lemma BetweenRun(w: World, r: Request)
    requires WorldInv(w) == true && ControllerSystem.Writable(w.sys) == true
    requires r.Acquire? && Possible(w, CallController(r, w.clock, true)) && Handle(w.sys.state, r, w.clock).Commit?
    ensures Handle(w.sys.state, r, w.clock).answer.RouteTo?
    ensures var lease := Handle(w.sys.state, r, w.clock).answer.lease;
            var between := Between(r, lease, w.clock);
            && PossibleRun(w, between) == true
            && var end := Run(w, between);
               && r.leaseId in end.sys.state.leases && end.sys.state.leases[r.leaseId] == lease
                  && lease.leaseId == r.leaseId
               && end.clock < lease.expiresAt
  {
    var acquire := CallController(r, w.clock, true);
    AcquireStep(w, r);
    var lease := Handle(w.sys.state, r, w.clock).answer.lease;
    var send := SendInstall(lease.machineId, ContextOf(lease));
    var install := Deliver(InstallMessage(lease.machineId, ContextOf(lease)));
    InstallSteps(Next(w, acquire), ContextOf(lease), lease.machineId);
    RunAfterThree(w, acquire, send, install, []);
  }

  lemma DeliveryEndsRun(w: World, answer: Step, between: seq<Step>, deliver: Step)
    requires Possible(w, answer) && PossibleRun(Next(w, answer), between)
             && Possible(Run(Next(w, answer), between), deliver)
    ensures PossibleRun(w, [answer] + (between + [deliver])) == true
    ensures Run(w, [answer] + (between + [deliver])) == Next(Run(Next(w, answer), between), deliver)
  {
    RunSnoc(Next(w, answer), between, deliver);
    RunCons(w, answer, between + [deliver]);
  }

  lemma {:induction false} RunSnoc(w: World, steps: seq<Step>, last: Step)
    requires PossibleRun(w, steps) && Possible(Run(w, steps), last)
    ensures PossibleRun(w, steps + [last]) && Run(w, steps + [last]) == Next(Run(w, steps), last)
    decreases |steps|
  {
    if steps == [] {
      assert [last][1..] == [];
      assert steps + [last] == [last];
    } else {
      assert (steps + [last])[1..] == steps[1..] + [last];
      RunSnoc(Next(w, steps[0]), steps[1..], last);
    }
  }

  /** A sync may remove a lease that the controller holds and that has not expired: any lease acquired
      and installed between a sync's answer and its arrival. */
  lemma LateSyncDropsLiveLease(w: World, r: Request, desired: seq<Lease>)
    requires WorldInv(w) == true && ControllerSystem.Writable(w.sys) == true
    requires r.Acquire? && Possible(w, CallController(r, w.clock, true)) && Handle(w.sys.state, r, w.clock).Commit?
    requires Handle(w.sys.state, r, w.clock).answer.RouteTo? ==>
               Possible(w, AnswerSync(Handle(w.sys.state, r, w.clock).answer.lease.machineId, w.clock, desired))
    ensures Handle(w.sys.state, r, w.clock).answer.RouteTo?
    ensures var lease := Handle(w.sys.state, r, w.clock).answer.lease;
            var answer := AnswerSync(lease.machineId, w.clock, desired);
            var deliver := Deliver(SyncMessage(lease.machineId, desired));
            var steps := [answer] + (Between(r, lease, w.clock) + [deliver]);
            && PossibleRun(w, steps)
            && var final := Run(w, steps);
               && r.leaseId in final.sys.state.leases && final.clock < final.sys.state.leases[r.leaseId].expiresAt
               && !Accepts(final, lease.machineId, r.leaseId)
  {
    AcquiredLeaseIsLive(w.sys.state, r, w.clock);
    var lease := Handle(w.sys.state, r, w.clock).answer.lease;
    var answer := AnswerSync(lease.machineId, w.clock, desired);
    AnswerStep(w, lease.machineId, w.clock, desired);
    CallsIgnoreNetwork(w, Next(w, answer).net, r, w.clock, true);
    BetweenRun(Next(w, answer), r);
    LateSyncKeepsExactly(w, lease.machineId, w.clock, desired, Between(r, lease, w.clock), r.leaseId);
    DeliveryEndsRun(w, answer, Between(r, lease, w.clock), Deliver(SyncMessage(lease.machineId, desired)));
  }

  lemma NoLeasesToList(w: World, machineId: string)
    requires w.sys.state.leases == map[] && 0 <= w.clock
    ensures Possible(w, AnswerSync(machineId, w.clock, [])) == true
  {
    assert LiveLeases(w.sys.state, machineId, w.clock) == {};
  }

  lemma FirstAcquireIsPossible(w: World, m: Machine, p: Profile, r: Request)
    requires Plain(m, p) && AsksForAny(r, p) && w.sys.state == Populated(m, p) && w.ledger.used == {} && w.clock == 0
    ensures Possible(w, CallController(r, 0, true)) == true
    ensures Handle(w.sys.state, r, 0).Commit?
    ensures Handle(w.sys.state, r, 0).answer == RouteTo(NewLease(Populated(m, p), p.profileId, r, 0), true)
  {
    AcquirePicksProfile(m, p, r);
  }

  lemma FirstAnswerIsPossible(sys: ControllerSystem.System, m: Machine, p: Profile, r: Request)
    requires Fresh(sys) && Plain(m, p) && AsksForAny(r, p)
    ensures Possible(Opening(sys, 0), Register(m, p)) == true
    ensures var w := Next(Opening(sys, 0), Register(m, p));
            && WorldInv(w) == true && ControllerSystem.Writable(w.sys) == true && w.clock == 0
            && Possible(w, CallController(r, 0, true)) == true
            && Possible(w, AnswerSync(m.machineId, 0, [])) == true
            && Handle(w.sys.state, r, 0).Commit?
            && Handle(w.sys.state, r, 0).answer == RouteTo(NewLease(Populated(m, p), p.profileId, r, 0), true)
  {
    RegistrationStep(sys, m, p);
    FirstAcquireIsPossible(Next(Opening(sys, 0), Register(m, p)), m, p, r);
    NoLeasesToList(Next(Opening(sys, 0), Register(m, p)), m.machineId);
  }

  lemma FirstLeaseIsThere(m: Machine, p: Profile, r: Request)
    requires Plain(m, p) && AsksForAny(r, p)
    ensures NewLease(Populated(m, p), p.profileId, r, 0).machineId == m.machineId
  {
  }

  /** Six steps from an empty controller, a late sync can cost a client its live lease. */
  lemma LiveLeaseCanBeDropped(sys: ControllerSystem.System, m: Machine, p: Profile, r: Request)
      returns (steps: seq<Step>)
    requires Fresh(sys) && Plain(m, p) && AsksForAny(r, p)
    ensures |steps| == 6 && PossibleRun(Opening(sys, 0), steps)
    ensures var w := Run(Opening(sys, 0), steps);
            && r.leaseId in w.sys.state.leases && w.clock < w.sys.state.leases[r.leaseId].expiresAt
            && !Accepts(w, m.machineId, r.leaseId)
  {
    FirstAnswerIsPossible(sys, m, p, r);
    FirstLeaseIsThere(m, p, r);
    var registered, lease := Next(Opening(sys, 0), Register(m, p)), NewLease(Populated(m, p), p.profileId, r, 0);
    LateSyncDropsLiveLease(registered, r, []);
    var late := [AnswerSync(m.machineId, 0, [])] + (Between(r, lease, 0) + [Deliver(SyncMessage(m.machineId, []))]);
    RunCons(Opening(sys, 0), Register(m, p), late);
    steps := [Register(m, p)] + late;
  }
}
