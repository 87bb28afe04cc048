/** The controller with its store and its network directory, and runs of it: calls whose writes
    may fail, and restarts that reload the store. */
module ControllerSystem {
  import opened Options
  import opened Messages
  import opened Registry
  import opened Operations
  import opened Edits
  import opened Persistence
  import opened Network
  import Invariants
  import RowIdentity

  /** Without a store (`None`) nothing is persisted and writes always succeed. */
  datatype System = System(state: State, store: Option<Table>, directory: map<string, Endpoint>)

  const FRESH_IN_MEMORY := System(EMPTY, None, map[])
  const FRESH_ON_DISK := System(EMPTY, Some(map[]), map[])

  /** `ioOk` is the database's own verdict; a duplicate row fails the transaction regardless. */
  ghost predicate CanWrite(store: Option<Table>, next: State, ioOk: bool) {
    store.None? || (ioOk && Distinct(next))
  }

  ghost function Persisted(store: Option<Table>, next: State, ioOk: bool): Option<Table> {
    if store.Some? && ioOk && Distinct(next) then Some(Image(next)) else store
  }

  /** Registration and heartbeat republish the machine's endpoint. */
  ghost function Publish(directory: map<string, Endpoint>, r: Request, next: State): map<string, Endpoint> {
    match r
    case RegisterMachine(machine, _) =>
      if machine.Some? && machine.value.machineId in next.machines
      then directory[machine.value.machineId := EndpointOf(next.machines[machine.value.machineId])] else directory
    case Heartbeat(machineId, _, _) =>
      if machineId in next.machines then directory[machineId := EndpointOf(next.machines[machineId])] else directory
    case _ => directory
  }

  function Resolve(answer: Answer, directory: map<string, Endpoint>): Response {
    match answer
    case Done(response) => response
    case RouteTo(lease, granted) =>
      if lease.machineId !in directory then Failed(Unavailable)
      else
        var e := directory[lease.machineId];
        var route := Route(e.machineId, e.agentGrpcAddr, lease.profileId, lease.leaseId, lease.fencingToken);
        if granted then Granted(lease, route) else Located(route)
  }

  /** A failed write fails the call, except that a sweep just revokes nothing this time. */
  function WriteFailed(r: Request): Response {
    if r.SweepNow? then Swept({}) else Failed(Internal)
  }

  ghost function Execute(sys: System, r: Request, now: int, ioOk: bool): (System, Response) {
    match Handle(sys.state, r, now)
    case Keep(answer) => (sys, Resolve(answer, sys.directory))
    case Commit(next, answer) =>
      if CanWrite(sys.store, next, ioOk) then
        var directory := Publish(sys.directory, r, next);
        (System(next, Persisted(sys.store, next, ioOk), directory), Resolve(answer, directory))
      else (sys, WriteFailed(r))
  }

  /** A new process: everything in memory is what the store gives back. */
  ghost function Restart(sys: System, order: seq<RowId>): System
    requires sys.store.Some? ==> forall row :: row in order ==> row in sys.store.value
  {
    match sys.store
    case None => FRESH_IN_MEMORY
    case Some(table) => System(Loaded(table, order), sys.store, Project(Loaded(table, order).machines))
  }

  datatype Step = Call(request: Request, now: int, ioOk: bool) | Reboot(order: seq<RowId>)

  ghost predicate Legal(sys: System, step: Step) {
    match step
    case Call(r, now, _) => LegalRequest(sys.state, r, now)
    case Reboot(order) => sys.store.Some? ==> Enumerates(order, sys.store.value)
  }

  ghost function Next(sys: System, step: Step): System
    requires Legal(sys, step)
  {
    match step
    case Call(r, now, ioOk) => Execute(sys, r, now, ioOk).0
    case Reboot(order) => Restart(sys, order)
  }

  ghost predicate LegalRun(sys: System, steps: seq<Step>)
    decreases |steps|
  {
    steps == [] || (Legal(sys, steps[0]) && LegalRun(Next(sys, steps[0]), steps[1..]))
  }

  ghost function Run(sys: System, steps: seq<Step>): System
    requires LegalRun(sys, steps)
    decreases |steps|
  {
    if steps == [] then sys else Run(Next(sys, steps[0]), steps[1..])
  }

  // ---------- the system invariant ----------

  /** Reloading `table` gives `s`, up to the order of its event log. */
  ghost predicate Backs(table: Table, s: State) {
    exists written: State :: Distinct(written) && table == Image(written) && Same(written, s)
  }

  /** Contracts below compare large predicates with `true`, so that the verifier passes them on
      whole instead of reproving them conjunct by conjunct. */
  ghost predicate Sound(s: State) {
    Inv(s) && Labelled(s)
  }

  ghost predicate SystemInv(sys: System) {
    && Sound(sys.state)
    && sys.directory == Project(sys.state.machines)
    && (sys.store.Some? ==> Backs(sys.store.value, sys.state))
  }

  lemma EmptyIsSound()
    ensures Sound(EMPTY)
  {
  }

  lemma EmptyIsStoredAsNothing()
    ensures Distinct(EMPTY) && Image(EMPTY) == map[]
  {
    assert Refs(EMPTY) == {};
    assert Names(EMPTY) == map[] && Payloads(EMPTY) == map[];
  }

  lemma FreshIsSound()
    ensures SystemInv(FRESH_IN_MEMORY) && SystemInv(FRESH_ON_DISK)
  {
    EmptyIsSound();
    EmptyIsStoredAsNothing();
    SameIsReflexive(EMPTY);
    BackedByImage(EMPTY, EMPTY);
  }

  lemma SameIsReflexive(s: State)
    ensures Same(s, s) == true
  {
  }

  lemma SameIsTransitive(s: State, t: State, u: State)
    requires Same(s, t) && Same(t, u)
    ensures Same(s, u) == true && Same(t, s) == true
  {
  }

  lemma BackedByImage(written: State, s: State)
    requires Distinct(written) && Same(written, s)
    ensures Backs(Image(written), s)
  {
  }

  lemma SameKeepsSound(s: State, t: State)
    requires Sound(s) == true && Same(s, t) == true
    ensures Sound(t) == true
  {
    assert |t.events| == |multiset(t.events)| == |s.events|;
    Invariants.LeaseEditKeepsCore(s, t);
  }

  lemma SoundIsSelfKeyed(s: State)
    requires Sound(s)
    ensures SelfKeyed(s) == true
  {
  }

  lemma CallKeepsSound(s: State, r: Request, now: int)
    requires Sound(s) && LegalRequest(s, r, now) && Handle(s, r, now).Commit?
    ensures Sound(Handle(s, r, now).state) == true
  {
    Invariants.CallKeepsInv(s, r, now, true);
    RowIdentity.CallKeepsLabels(s, r, now);
  }

  // ---------- machines and the directory ----------

  lemma EditKeepsEndpoints(s: State, e: Edit)
    requires Enabled(s, e) && !e.PutMachine?
    ensures Project(Apply(s, e).machines) == Project(s.machines)
  {
    if e.MarkStale? {
      assert Apply(s, e).machines.Keys == s.machines.Keys;
    } else {
      assert Apply(s, e).machines == s.machines;
    }
  }

  /** Only a check-in changes an endpoint, and only that of the machine checking in. */
  lemma OtherCallsKeepEndpoints(s: State, r: Request, now: int)
    requires KeysMatch(s) && Handle(s, r, now).Commit? && !r.RegisterMachine? && !r.Heartbeat?
    ensures Project(Handle(s, r, now).state.machines) == Project(s.machines)
  {
    CallIsEdits(s, r, now);
    forall x, e | Enabled(x, e) && !e.PutMachine?
      ensures Project(Apply(x, e).machines) == Project(x.machines)
    {
      EditKeepsEndpoints(x, e);
    }
    EditsKeep((x: State) => Project(x.machines) == Project(s.machines), (e: Edit) => !e.PutMachine?,
              s, EditsOf(s, r, now), Handle(s, r, now).state);
  }

  lemma CheckinPutsMachine(s: State, m: Machine, profiles: seq<Profile>, now: int, response: Response)
    requires CommitUpserts(s.(machines := s.machines[m.machineId := m]), profiles, m.machineId, now, response).Commit?
    ensures CommitUpserts(s.(machines := s.machines[m.machineId := m]), profiles, m.machineId, now,
                          response).state.machines
            == s.machines[m.machineId := m]
  {
    Invariants.UpsertAllFrame(s.(machines := s.machines[m.machineId := m]), profiles, m.machineId, now);
  }

  lemma ProjectFollowsUpdate(machines: map<string, Machine>, id: string, m: Machine)
    ensures Project(machines[id := m]) == Project(machines)[id := EndpointOf(m)]
  {
  }

  lemma CallPublishesProjection(s: State, r: Request, now: int)
    requires KeysMatch(s) && Handle(s, r, now).Commit?
    ensures Publish(Project(s.machines), r, Handle(s, r, now).state) == Project(Handle(s, r, now).state.machines)
  {
    var x := Expire(s, now);
    match r
    case RegisterMachine(machine, profiles) =>
      var m := Checkin(machine.value, now);
      CheckinPutsMachine(x, m, profiles, now, Registered(m.machineId));
      ProjectFollowsUpdate(s.machines, m.machineId, m);
    case Heartbeat(machineId, status, profiles) =>
      var m := x.machines[machineId].(status := status, lastHeartbeat := now);
      CheckinPutsMachine(x, m, profiles, now, HeartbeatAccepted);
      ProjectFollowsUpdate(s.machines, machineId, m);
    case _ => OtherCallsKeepEndpoints(s, r, now);
  }

  lemma WriteBacksState(store: Option<Table>, next: State, ioOk: bool)
    requires CanWrite(store, next, ioOk) && store.Some?
    ensures Persisted(store, next, ioOk).Some? && Backs(Persisted(store, next, ioOk).value, next) == true
  {
    SameIsReflexive(next);
    BackedByImage(next, next);
  }

  lemma CallKeepsSystemInv(sys: System, r: Request, now: int, ioOk: bool)
    requires SystemInv(sys) && LegalRequest(sys.state, r, now)
    ensures SystemInv(Execute(sys, r, now, ioOk).0) == true
  {
    var o := Handle(sys.state, r, now);
    if o.Commit? && CanWrite(sys.store, o.state, ioOk) {
      CallKeepsSound(sys.state, r, now);
      CallPublishesProjection(sys.state, r, now);
      if sys.store.Some? {
        WriteBacksState(sys.store, o.state, ioOk);
      }
    }
  }

  // ---------- durability ----------

  /** Whatever was written last, loading it gives the current state up to the order of its log. */
  lemma LoadRestores(table: Table, s: State, order: seq<RowId>)
    requires Sound(s) && Backs(table, s) && Enumerates(order, table)
    ensures Same(s, Loaded(table, order)) == true && Backs(table, Loaded(table, order)) == true
    ensures Sound(Loaded(table, order)) == true
  {
    var written: State :| Distinct(written) && table == Image(written) && Same(written, s);
    SameIsTransitive(written, s, s);
    SameKeepsSound(s, written);
    SoundIsSelfKeyed(written);
    LoadUndoesWrite(written, order);
    SameIsTransitive(s, written, Loaded(table, order));
    SameKeepsSound(s, Loaded(table, order));
  }

  /** What a restart brings back is the committed state: all maps exactly, the log up to order. */
  lemma RestartRestores(sys: System, order: seq<RowId>)
    requires SystemInv(sys) && sys.store.Some? && Enumerates(order, sys.store.value)
    ensures Same(sys.state, Restart(sys, order).state) == true && SystemInv(Restart(sys, order)) == true
  {
    LoadRestores(sys.store.value, sys.state, order);
  }

  lemma StepKeepsSystemInv(sys: System, step: Step)
    requires SystemInv(sys) && Legal(sys, step)
    ensures SystemInv(Next(sys, step)) == true
  {
    match step
    case Call(r, now, ioOk) => CallKeepsSystemInv(sys, r, now, ioOk);
    case Reboot(order) =>
      if sys.store.Some? {
        RestartRestores(sys, order);
      } else {
        FreshIsSound();
      }
  }

  /** Every state of every run from a sound one is sound. */
  lemma {:induction false} RunKeepsSystemInv(sys: System, steps: seq<Step>)
    requires SystemInv(sys) && LegalRun(sys, steps)
    ensures SystemInv(Run(sys, steps)) == true
    decreases |steps|
  {
    if steps != [] {
      StepKeepsSystemInv(sys, steps[0]);
      RunKeepsSystemInv(Next(sys, steps[0]), steps[1..]);
    }
  }

  /** In every reachable state with a store, a crash loses nothing that was ever committed. */
  lemma ReachableStatesAreDurable(steps: seq<Step>, order: seq<RowId>)
    requires LegalRun(FRESH_ON_DISK, steps)
    requires Run(FRESH_ON_DISK, steps).store.Some? && Enumerates(order, Run(FRESH_ON_DISK, steps).store.value)
    ensures Same(Run(FRESH_ON_DISK, steps).state, Restart(Run(FRESH_ON_DISK, steps), order).state)
  {
    FreshIsSound();
    RunKeepsSystemInv(FRESH_ON_DISK, steps);
    RestartRestores(Run(FRESH_ON_DISK, steps), order);
  }

  /** A write can fail for three reasons only: the database, two metric points that share an
      id, or two events that share one. */
  lemma WritesFailOnlyOnTelemetryIds(sys: System, r: Request, now: int, ioOk: bool)
    requires SystemInv(sys) && LegalRequest(sys.state, r, now) && Handle(sys.state, r, now).Commit?
    ensures var next := Handle(sys.state, r, now).state;
            CanWrite(sys.store, next, ioOk) <==>
              sys.store.None? || (ioOk && RowIdentity.MetricIdsDiffer(next) && RowIdentity.EventIdsDiffer(next))
  {
    CallKeepsSound(sys.state, r, now);
    RowIdentity.DistinctIffTelemetryIdsDiffer(Handle(sys.state, r, now).state);
  }

  /** Nothing but the database stands in the way of a write. */
  ghost predicate Writable(sys: System) {
    sys.store.None? || (RowIdentity.MetricIdsDiffer(sys.state) && RowIdentity.EventIdsDiffer(sys.state))
  }

  lemma SameStockSameIds(s: State, t: State)
    requires Invariants.SameStock(s, t)
    ensures RowIdentity.MetricIdsDiffer(t) == RowIdentity.MetricIdsDiffer(s)
    ensures RowIdentity.EventIdsDiffer(t) == RowIdentity.EventIdsDiffer(s)
  {
  }

  /** Whether a call other than a report can write depends on the telemetry already stored. */
  lemma OtherCallsWriteIffWritable(sys: System, r: Request, now: int, ioOk: bool)
    requires SystemInv(sys) && LegalRequest(sys.state, r, now) && Handle(sys.state, r, now).Commit?
    requires !r.ReportTelemetry? && !r.ReportArtifacts?
    ensures CanWrite(sys.store, Handle(sys.state, r, now).state, ioOk) <==> sys.store.None? || (ioOk && Writable(sys))
  {
    WritesFailOnlyOnTelemetryIds(sys, r, now, ioOk);
    Invariants.OnlyReportsRestock(sys.state, r, now);
    SameStockSameIds(sys.state, Handle(sys.state, r, now).state);
  }

  // ---------- routes, and all-or-nothing calls ----------

  lemma AcquiredLeaseIsStored(s: State, r: Request, now: int)
    requires Core(s) && r.Acquire? && Handle(s, r, now).Commit?
    ensures var o := Handle(s, r, now);
            && o.answer.RouteTo? && o.answer.granted
            && o.answer.lease.leaseId in o.state.leases && o.state.leases[o.answer.lease.leaseId] == o.answer.lease
  {
  }

  lemma {:induction false} UpsertErrors(s: State, profiles: seq<Profile>, machineId: string, now: int)
    ensures match UpsertAll(s, profiles, machineId, now)
            case Err(code) => code == InvalidArgument || code == AlreadyExists
            case Ok(_) => true
    decreases |profiles|
  {
    if profiles != [] && Upsert(s, profiles[0], machineId, now).Ok? {
      UpsertErrors(Upsert(s, profiles[0], machineId, now).value, profiles[1..], machineId, now);
    }
  }

  lemma CheckinsDoNotRoute(s: State, profiles: seq<Profile>, machineId: string, now: int, response: Response)
    requires !response.Granted? && !response.Failed?
    ensures var o := CommitUpserts(s, profiles, machineId, now, response);
            Unrouted(o.answer) && (o.Commit? ==> o.answer.response == response)
  {
    UpsertErrors(s, profiles, machineId, now);
  }

  ghost predicate Unrouted(answer: Answer) {
    answer.Done? && !answer.response.Granted? && answer.response != Failed(Unavailable)
  }

  lemma CheckinIsUnrouted(s: State, r: Request, now: int)
    requires r.RegisterMachine? || r.Heartbeat?
    ensures Unrouted(Handle(s, r, now).answer) == true
  {
    var x := Expire(s, now);
    match r
    case RegisterMachine(machine, profiles) =>
      if machine.Some? {
        var m := Checkin(machine.value, now);
        CheckinsDoNotRoute(x.(machines := x.machines[m.machineId := m]), profiles, m.machineId, now,
                           Registered(m.machineId));
      }
    case Heartbeat(machineId, status, profiles) =>
      if machineId in x.machines {
        var m := x.machines[machineId].(status := status, lastHeartbeat := now);
        CheckinsDoNotRoute(x.(machines := x.machines[machineId := m]), profiles, machineId, now, HeartbeatAccepted);
      }
  }

  lemma OnlyLeaseCallsRoute(s: State, r: Request, now: int)
    requires !r.Acquire? && !r.GetRoute?
    ensures Unrouted(Handle(s, r, now).answer) == true
  {
    if r.RegisterMachine? || r.Heartbeat? {
      CheckinIsUnrouted(s, r, now);
    }
  }

  /** The response grants a lease that is stored, with the address its machine registered. */
  ghost predicate GrantedIn(s: State, response: Response) {
    && response.Granted?
    && response.lease.leaseId in s.leases && s.leases[response.lease.leaseId] == response.lease
    && response.lease.machineId in s.machines
    && response.route == Route(response.lease.machineId, s.machines[response.lease.machineId].agentGrpcAddr,
                               response.lease.profileId, response.lease.leaseId, response.lease.fencingToken)
  }

  lemma StoredLeaseIsRouted(s: State, lease: Lease)
    requires KeysMatch(s) && Housed(s) && lease.leaseId in s.leases && s.leases[lease.leaseId] == lease
    ensures GrantedIn(s, Resolve(RouteTo(lease, true), Project(s.machines))) == true
  {
    assert lease.machineId in Project(s.machines);
  }

  lemma AcquireIsRouted(sys: System, r: Request, now: int, ioOk: bool)
    requires SystemInv(sys) && r.Acquire? && LegalRequest(sys.state, r, now)
    ensures var (after, response) := Execute(sys, r, now, ioOk);
            && (response.Failed? ==> response != Failed(Unavailable) && after == sys)
            && (!response.Failed? ==> GrantedIn(after.state, response) == true)
  {
    var o := Handle(sys.state, r, now);
    if o.Commit? {
      AcquiredLeaseIsStored(sys.state, r, now);
      CallKeepsSystemInv(sys, r, now, ioOk);
      if CanWrite(sys.store, o.state, ioOk) {
        assert sys.directory == Project(o.state.machines);
        StoredLeaseIsRouted(o.state, o.answer.lease);
        assert o.answer == RouteTo(o.answer.lease, true);
      }
    }
  }

  lemma GetRouteIsRouted(sys: System, r: Request, now: int, ioOk: bool)
    requires Housed(sys.state) && sys.directory == Project(sys.state.machines) && r.GetRoute?
    ensures var (after, response) := Execute(sys, r, now, ioOk);
            (response.Failed? ==> response != Failed(Unavailable) && after == sys) && !response.Granted?
  {
    if r.leaseId in sys.state.leases {
      assert sys.state.leases[r.leaseId].machineId in sys.directory;
    }
  }

  ghost predicate RouteFound(before: System, r: Request, after: System, response: Response) {
    && response != Failed(Unavailable)
    && (response.Granted? ==> GrantedIn(after.state, response))
    && (r.Acquire? && after != before ==> response.Granted?)
  }

  lemma OtherCallsNeedNoRoute(sys: System, r: Request, now: int, ioOk: bool)
    requires !r.Acquire? && !r.GetRoute?
    ensures RouteFound(sys, r, Execute(sys, r, now, ioOk).0, Execute(sys, r, now, ioOk).1) == true
  {
    OnlyLeaseCallsRoute(sys.state, r, now);
  }

  /** The directory never fails a call, and a call that grants a lease has stored it and
      returns the current address of its machine. */
  lemma RoutesAreAlwaysFound(sys: System, r: Request, now: int, ioOk: bool)
    requires SystemInv(sys) && LegalRequest(sys.state, r, now)
    ensures RouteFound(sys, r, Execute(sys, r, now, ioOk).0, Execute(sys, r, now, ioOk).1) == true
  {
    if r.Acquire? {
      AcquireIsRouted(sys, r, now, ioOk);
    } else if r.GetRoute? {
      GetRouteIsRouted(sys, r, now, ioOk);
    } else {
      OtherCallsNeedNoRoute(sys, r, now, ioOk);
    }
  }

  lemma CommittedCallsSucceed(s: State, r: Request, now: int)
    requires !r.Acquire? && !r.GetRoute? && !r.Lookup? && !r.RegisterMachine? && !r.Heartbeat?
             && Handle(s, r, now).Commit?
    ensures Handle(s, r, now).answer.Done? && !Handle(s, r, now).answer.response.Failed?
  {
  }

  lemma FailedLookupOnlyExpires(sys: System, r: Request, now: int, ioOk: bool)
    requires r.Lookup?
    ensures Execute(sys, r, now, ioOk).0 == sys || Execute(sys, r, now, ioOk).0.state == Expire(sys.state, now)
  {
  }

  lemma FailedWriteChangesNothing(sys: System, r: Request, now: int, ioOk: bool)
    requires Handle(sys.state, r, now).Commit? && Handle(sys.state, r, now).answer.Done?
    requires !Handle(sys.state, r, now).answer.response.Failed? && Execute(sys, r, now, ioOk).1.Failed?
    ensures Execute(sys, r, now, ioOk).0 == sys
  {
  }

  lemma CommittedCheckinsSucceed(s: State, r: Request, now: int)
    requires (r.RegisterMachine? || r.Heartbeat?) && Handle(s, r, now).Commit?
    ensures Handle(s, r, now).answer.Done? && !Handle(s, r, now).answer.response.Failed?
  {
  }

  /** A refused call leaves memory, store and directory as they were; the one exception is a
      lookup that finds nothing, which still writes the expiry it saw. */
  lemma CallsAreAllOrNothing(sys: System, r: Request, now: int, ioOk: bool)
    requires SystemInv(sys) && LegalRequest(sys.state, r, now)
    ensures var (after, response) := Execute(sys, r, now, ioOk);
            response.Failed? ==> after == sys || (r.Lookup? && after.state == Expire(sys.state, now))
  {
    if r.Acquire? {
      AcquireIsRouted(sys, r, now, ioOk);
    } else if r.GetRoute? {
      GetRouteIsRouted(sys, r, now, ioOk);
    } else if r.Lookup? {
      FailedLookupOnlyExpires(sys, r, now, ioOk);
    } else if Handle(sys.state, r, now).Commit? && Execute(sys, r, now, ioOk).1.Failed? {
      if r.RegisterMachine? || r.Heartbeat? {
        CommittedCheckinsSucceed(sys.state, r, now);
      } else {
        CommittedCallsSucceed(sys.state, r, now);
      }
      FailedWriteChangesNothing(sys, r, now, ioOk);
    }
  }

  /** Endpoints are never withdrawn, so a lookup made after the lock is dropped still succeeds. */
  lemma DirectoryGrows(sys: System, r: Request, now: int, ioOk: bool)
    requires SystemInv(sys) && LegalRequest(sys.state, r, now)
    ensures sys.directory.Keys <= Execute(sys, r, now, ioOk).0.directory.Keys
  {
  }
}
