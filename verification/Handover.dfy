/** Controller, agents and the network between them. Messages are delivered late, repeatedly, out
    of order or never; agents and the controller restart; a call may use any clock reading taken
    up to now. The question is whether a lease that the controller has taken back by expiry can
    still be used at an agent. */
module Handover {
  import opened Messages
  import opened Registry
  import opened Operations
  import opened Persistence
  import opened ControllerSystem
  import opened Agent
  import Invariants
  import Leases

  /** What has happened to leases so far: every context that anyone can know, every id ever
      drawn, the leases reclaimed at or after their deadline, those dropped before it, and those
      whose deadline a renewal moved back while it lay ahead. */
  datatype Ledger = Ledger(
    issued: set<LeaseContext>, used: set<string>, reclaimed: set<string>, dropped: set<string>, shortened: set<string>)

  datatype Message =
    | InstallMessage(machineId: string, context: LeaseContext)
    | SyncMessage(machineId: string, desired: seq<Lease>)

  /** `net` holds every message ever sent: delivering one does not use it up. */
  datatype World = World(sys: System, agents: map<string, Installed>, net: set<Message>, clock: int, ledger: Ledger)

  datatype Step =
    | Tick(to: int)
    | CallController(request: Request, at: int, ioOk: bool)
    | RestartController(order: seq<RowId>)
    | SendInstall(machineId: string, context: LeaseContext)
    | AnswerSync(machineId: string, at: int, desired: seq<Lease>)
    | Deliver(message: Message)
    | RevokeAt(machineId: string, leaseId: string, fencingToken: string)
    | RestartAgent(machineId: string)

  /** A controller in any state, of whose leases clients may know, and agents that know nothing. */
  ghost function Opening(sys: System, clock: int): World {
    var leases := sys.state.leases;
    World(sys, map[], {}, clock, Ledger(set id | id in leases :: ContextOf(leases[id]), leases.Keys, {}, {}, {}))
  }

  /** Any sound controller may start a run, with or without a store. */
  ghost predicate Initial(w: World) {
    && w == Opening(w.sys, w.clock)
    && SystemInv(w.sys) == true
    && 0 <= w.clock
    && forall id :: id in w.sys.state.leases ==> w.sys.state.leases[id].expiresAt > 0
  }

  /** Clients install only contexts that the controller produced, and lease ids are fresh. */
  ghost predicate Possible(w: World, step: Step) {
    match step
    case Tick(to) => w.clock <= to
    case CallController(r, at, _) =>
      0 <= at <= w.clock && LegalRequest(w.sys.state, r, at) && (r.Acquire? ==> r.leaseId !in w.ledger.used)
    case RestartController(order) => ControllerSystem.Legal(w.sys, Reboot(order))
    case SendInstall(_, context) => context in w.ledger.issued
    case AnswerSync(machineId, at, desired) => 0 <= at <= w.clock
      && Lists(desired, LiveLeases(w.sys.state, machineId, at))
    case Deliver(message) => message in w.net
    case RevokeAt(_, _, _) => true
    case RestartAgent(_) => true
  }

  function AgentMap(w: World, machineId: string): Installed {
    if machineId in w.agents then w.agents[machineId] else map[]
  }

  function SetAgent(w: World, machineId: string, m: Installed): World {
    w.(agents := w.agents[machineId := m])
  }

  /** The bookkeeping for a change of the controller's leases by a call that read the time `at`. */
  ghost function Recorded(ledger: Ledger, before: map<string, Lease>, after: map<string, Lease>, at: int,
                          clock: int): Ledger {
    Ledger(
      ledger.issued + (set id | id in after :: ContextOf(after[id])),
      ledger.used + after.Keys,
      ledger.reclaimed + (set id | id in before && id !in after && before[id].expiresAt <= at),
      ledger.dropped + (set id | id in before && id !in after && before[id].expiresAt > at),
      ledger.shortened + (set id | id in before && id in after && MovedBack(before[id], after[id], clock)))
  }

  /** The deadline still lay ahead, and is earlier now. */
  predicate MovedBack(before: Lease, after: Lease, clock: int) {
    clock < before.expiresAt && after.expiresAt < before.expiresAt
  }

  /** A controller without a store forgets its leases in a restart. */
  ghost function Forgotten(ledger: Ledger, before: map<string, Lease>, after: map<string, Lease>): Ledger {
    ledger.(dropped := ledger.dropped + (before.Keys - after.Keys))
  }

  function Delivered(w: World, message: Message): World {
    match message
    case InstallMessage(machineId, context) => SetAgent(w, machineId, Install(AgentMap(w, machineId), context))
    case SyncMessage(machineId, desired) => SetAgent(w, machineId, Mirror(desired))
  }

  ghost function Next(w: World, step: Step): World
    requires Possible(w, step)
  {
    match step
    case Tick(to) => w.(clock := to)
    case CallController(r, at, ioOk) =>
      var sys := Execute(w.sys, r, at, ioOk).0;
      w.(sys := sys, ledger := Recorded(w.ledger, w.sys.state.leases, sys.state.leases, at, w.clock))
    case RestartController(order) =>
      var sys := Restart(w.sys, order);
      w.(sys := sys, ledger := Forgotten(w.ledger, w.sys.state.leases, sys.state.leases))
    case SendInstall(machineId, context) => w.(net := w.net + {InstallMessage(machineId, context)})
    case AnswerSync(machineId, _, desired) => w.(net := w.net + {SyncMessage(machineId, desired)})
    case Deliver(message) => Delivered(w, message)
    case RevokeAt(machineId, leaseId, fencingToken) =>
      SetAgent(w, machineId, Uninstall(AgentMap(w, machineId), leaseId, fencingToken))
    case RestartAgent(machineId) => SetAgent(w, machineId, map[])
  }

  ghost predicate PossibleRun(w: World, steps: seq<Step>)
    decreases |steps|
  {
    steps == [] || (Possible(w, steps[0]) && PossibleRun(Next(w, steps[0]), steps[1..]))
  }

  ghost function Run(w: World, steps: seq<Step>): World
    requires PossibleRun(w, steps)
    decreases |steps|
  {
    if steps == [] then w else Run(Next(w, steps[0]), steps[1..])
  }

  // ---------- the ledger ----------

  /** Every context anyone knows is that of a lease the controller holds, up to the deadline, or
      of one it has lost. */
  ghost predicate Booked(leases: map<string, Lease>, ledger: Ledger) {
    && (forall id :: id in leases ==>
          leases[id].leaseId == id && id in ledger.used && ContextOf(leases[id]) in ledger.issued)
    && (forall c :: c in ledger.issued ==> c.leaseId in ledger.used && c.expiresAt > 0)
    && (forall c :: c in ledger.issued && c.leaseId in leases ==> SameHolder(c, leases[c.leaseId]))
    && (forall id :: id in ledger.reclaimed ==> id in ledger.used && id !in leases)
    && (forall id :: id in ledger.used ==> id in leases || id in ledger.reclaimed || id in ledger.dropped)
  }

  /** A context outlives neither the lease nor its loss, unless the deadline was moved back. */
  ghost predicate Bounded(leases: map<string, Lease>, ledger: Ledger, clock: int) {
    forall c :: c in ledger.issued && c.leaseId !in ledger.shortened ==>
      && (c.leaseId in leases ==> c.expiresAt <= leases[c.leaseId].expiresAt || c.expiresAt <= clock)
      && (c.leaseId in ledger.reclaimed ==> c.expiresAt <= clock)
  }

  ghost predicate Balanced(leases: map<string, Lease>, ledger: Ledger, clock: int) {
    Booked(leases, ledger) && Bounded(leases, ledger, clock)
  }

  predicate SameHolder(c: LeaseContext, lease: Lease) {
    c.profileId == lease.profileId && c.fencingToken == lease.fencingToken
  }

  /** The two leases differ in their deadlines at most. */
  predicate SameButDeadline(before: Lease, after: Lease) {
    after == before.(expiresAt := after.expiresAt)
  }

  /** Leases only come to be by a fresh grant, and only change by their deadline. */
  ghost predicate EvolvedFrom(before: map<string, Lease>, lease: Lease, id: string, used: set<string>) {
    && lease.leaseId == id
    && (if id in before then SameButDeadline(before[id], lease) else id !in used)
    && (id !in before || lease != before[id] ==> lease.expiresAt > 0)
  }

  ghost predicate Evolves(before: map<string, Lease>, after: map<string, Lease>, used: set<string>) {
    forall id :: id in after ==> EvolvedFrom(before, after[id], id, used)
  }

  lemma NewContexts(ledger: Ledger, before: map<string, Lease>, after: map<string, Lease>, at: int, clock: int,
                    c: LeaseContext)
    requires Evolves(before, after, ledger.used) && c in Recorded(ledger, before, after, at, clock).issued
    ensures c in ledger.issued || (c.leaseId in after && c == ContextOf(after[c.leaseId]))
  {
    if c !in ledger.issued {
      var id :| id in after && ContextOf(after[id]) == c;
      assert after[id].leaseId == id;
    }
  }

  lemma RecordingKeepsBooks(ledger: Ledger, before: map<string, Lease>, after: map<string, Lease>, at: int, clock: int)
    requires Booked(before, ledger) && Evolves(before, after, ledger.used)
    ensures Booked(after, Recorded(ledger, before, after, at, clock)) == true
  {
    var next := Recorded(ledger, before, after, at, clock);
    forall id | id in after
      ensures ContextOf(after[id]) in next.issued && after[id].expiresAt > 0
    {
      if id in before && after[id] == before[id] {
        assert ContextOf(before[id]) in ledger.issued;
      }
    }
    forall c | c in next.issued
      ensures c.leaseId in next.used && c.expiresAt > 0 && (c.leaseId in after ==> SameHolder(c, after[c.leaseId]))
    {
      NewContexts(ledger, before, after, at, clock, c);
    }
  }

  lemma RecordingKeepsBounds(ledger: Ledger, before: map<string, Lease>, after: map<string, Lease>, at: int, clock: int)
    requires Balanced(before, ledger, clock) && Evolves(before, after, ledger.used) && at <= clock
    ensures Bounded(after, Recorded(ledger, before, after, at, clock), clock) == true
  {
    var next := Recorded(ledger, before, after, at, clock);
    forall c | c in next.issued && c.leaseId !in next.shortened
      ensures c.leaseId in after ==> c.expiresAt <= after[c.leaseId].expiresAt || c.expiresAt <= clock
      ensures c.leaseId in next.reclaimed ==> c.expiresAt <= clock
    {
      NewContexts(ledger, before, after, at, clock, c);
    }
  }

  lemma RecordingKeepsBalance(ledger: Ledger, before: map<string, Lease>, after: map<string, Lease>, at: int,
                              clock: int)
    requires Balanced(before, ledger, clock) && Evolves(before, after, ledger.used) && at <= clock
    ensures Balanced(after, Recorded(ledger, before, after, at, clock), clock) == true
  {
    RecordingKeepsBooks(ledger, before, after, at, clock);
    RecordingKeepsBounds(ledger, before, after, at, clock);
  }

  lemma LeaseEvolves(s: State, r: Request, at: int, used: set<string>, id: string)
    requires 0 <= at && Handle(s, r, at).Commit? && (r.Acquire? ==> r.leaseId !in used) && s.leases.Keys <= used
    requires id in Handle(s, r, at).state.leases && Handle(s, r, at).state.leases[id].leaseId == id
    ensures EvolvedFrom(s.leases, Handle(s, r, at).state.leases[id], id, used) == true
  {
    Leases.EveryLeaseIsExplained(s, r, at, id);
    assert Leases.Explained(s, r, at, Handle(s, r, at).state, id);
  }

  lemma CallsEvolveLeases(s: State, r: Request, at: int, used: set<string>)
    requires Core(s) && 0 <= at && Handle(s, r, at).Commit? && (r.Acquire? ==> r.leaseId !in used)
    requires s.leases.Keys <= used
    ensures Evolves(s.leases, Handle(s, r, at).state.leases, used) == true
  {
    Invariants.CallKeepsCore(s, r, at);
    forall id | id in Handle(s, r, at).state.leases
      ensures EvolvedFrom(s.leases, Handle(s, r, at).state.leases[id], id, used)
    {
      LeaseEvolves(s, r, at, used, id);
    }
  }

  // ---------- the world's invariant ----------

  ghost predicate AgentsKnowIssued(w: World) {
    forall machineId :: machineId in w.agents ==>
      && OnePerProfile(w.agents[machineId])
      && forall id :: id in w.agents[machineId] ==> KnownContext(w.agents[machineId], id) in w.ledger.issued
  }

  function KnownContext(m: Installed, id: string): LeaseContext
    requires id in m
  {
    LeaseContext(id, m[id].profileId, m[id].fencingToken, m[id].expiresAt)
  }

  ghost predicate CarriesIssued(message: Message, issued: set<LeaseContext>) {
    match message
    case InstallMessage(_, context) => context in issued
    case SyncMessage(_, desired) => ExclusiveList(desired) && forall l :: l in desired ==> ContextOf(l) in issued
  }

  ghost predicate WorldInv(w: World) {
    && SystemInv(w.sys) == true
    && 0 <= w.clock
    && Balanced(w.sys.state.leases, w.ledger, w.clock)
    && AgentsKnowIssued(w)
    && forall message :: message in w.net ==> CarriesIssued(message, w.ledger.issued)
  }

  lemma OpeningBalances(sys: System, clock: int)
    requires forall id :: id in sys.state.leases ==>
             sys.state.leases[id].leaseId == id && sys.state.leases[id].expiresAt > 0
    ensures Balanced(sys.state.leases, Opening(sys, clock).ledger, clock) == true
  {
  }

  lemma InitialIsSound(w: World)
    requires Initial(w)
    ensures WorldInv(w) == true
  {
    OpeningBalances(w.sys, w.clock);
  }

  /** In particular a run may start from an empty controller, in memory or on disk. */
  lemma EmptyControllersAreInitial(clock: int)
    requires 0 <= clock
    ensures Initial(Opening(FRESH_IN_MEMORY, clock)) && Initial(Opening(FRESH_ON_DISK, clock))
  {
    FreshIsSound();
  }

  lemma IssuedGrows(w: World, ledger: Ledger)
    requires AgentsKnowIssued(w) && w.ledger.issued <= ledger.issued
    requires forall message :: message in w.net ==> CarriesIssued(message, w.ledger.issued)
    ensures AgentsKnowIssued(w.(ledger := ledger))
    ensures forall message :: message in w.net ==> CarriesIssued(message, ledger.issued)
  {
  }

  lemma CallKeepsBalance(w: World, r: Request, at: int, ioOk: bool)
    requires Core(w.sys.state) && Balanced(w.sys.state.leases, w.ledger, w.clock)
    requires Possible(w, CallController(r, at, ioOk))
    ensures var leases := Execute(w.sys, r, at, ioOk).0.state.leases;
            Balanced(leases, Recorded(w.ledger, w.sys.state.leases, leases, at, w.clock), w.clock) == true
  {
    if Handle(w.sys.state, r, at).Commit? {
      CallsEvolveLeases(w.sys.state, r, at, w.ledger.used);
    }
    RecordingKeepsBalance(w.ledger, w.sys.state.leases, Execute(w.sys, r, at, ioOk).0.state.leases, at, w.clock);
  }

  lemma CallKeepsWorld(w: World, r: Request, at: int, ioOk: bool)
    requires WorldInv(w) && Possible(w, CallController(r, at, ioOk))
    ensures WorldInv(Next(w, CallController(r, at, ioOk))) == true
  {
    var sys := Execute(w.sys, r, at, ioOk).0;
    CallKeepsSystemInv(w.sys, r, at, ioOk);
    CallKeepsBalance(w, r, at, ioOk);
    IssuedGrows(w.(sys := sys), Recorded(w.ledger, w.sys.state.leases, sys.state.leases, at, w.clock));
  }

  lemma RestartKeepsLeases(sys: System, order: seq<RowId>)
    requires SystemInv(sys) && ControllerSystem.Legal(sys, Reboot(order))
    ensures SystemInv(Restart(sys, order)) == true
    ensures var leases := Restart(sys, order).state.leases; leases == sys.state.leases || leases == map[]
  {
    StepKeepsSystemInv(sys, Reboot(order));
    if sys.store.Some? {
      RestartRestores(sys, order);
    }
  }

  lemma FewerLeasesKeepBalance(before: map<string, Lease>, after: map<string, Lease>, ledger: Ledger, clock: int)
    requires Balanced(before, ledger, clock) && (after == before || after == map[])
    ensures Balanced(after, Forgotten(ledger, before, after), clock) == true
  {
  }

  lemma ForgettingKeepsWorld(w: World, sys: System)
    requires WorldInv(w) && SystemInv(sys) == true
    requires sys.state.leases == w.sys.state.leases || sys.state.leases == map[]
    ensures WorldInv(w.(sys := sys, ledger := Forgotten(w.ledger, w.sys.state.leases, sys.state.leases))) == true
  {
    FewerLeasesKeepBalance(w.sys.state.leases, sys.state.leases, w.ledger, w.clock);
    IssuedGrows(w.(sys := sys), Forgotten(w.ledger, w.sys.state.leases, sys.state.leases));
  }

  lemma RestartKeepsWorld(w: World, order: seq<RowId>)
    requires WorldInv(w) && Possible(w, RestartController(order))
    ensures WorldInv(Next(w, RestartController(order))) == true
  {
    RestartKeepsLeases(w.sys, order);
    ForgettingKeepsWorld(w, Restart(w.sys, order));
  }

  lemma SetAgentKeepsWorld(w: World, machineId: string, m: Installed)
    requires WorldInv(w) && OnePerProfile(m) && forall id :: id in m ==> KnownContext(m, id) in w.ledger.issued
    ensures WorldInv(SetAgent(w, machineId, m)) == true
  {
  }

  lemma SyncAnswersAreIssued(w: World, machineId: string, at: int, desired: seq<Lease>)
    requires WorldInv(w) && Possible(w, AnswerSync(machineId, at, desired))
    ensures CarriesIssued(SyncMessage(machineId, desired), w.ledger.issued)
  {
    ControllerListsAreExclusive(w.sys.state, machineId, at, desired);
    forall l | l in desired
      ensures ContextOf(l) in w.ledger.issued
    {
      assert l in LiveLeases(w.sys.state, machineId, at);
    }
  }

  lemma InstallKeepsWorld(w: World, machineId: string, context: LeaseContext)
    requires WorldInv(w) && context in w.ledger.issued
    ensures WorldInv(SetAgent(w, machineId, Install(AgentMap(w, machineId), context))) == true
  {
    SetAgentKeepsWorld(w, machineId, Install(AgentMap(w, machineId), context));
  }

  lemma SyncKeepsWorld(w: World, machineId: string, desired: seq<Lease>)
    requires WorldInv(w) && CarriesIssued(SyncMessage(machineId, desired), w.ledger.issued)
    ensures WorldInv(SetAgent(w, machineId, Mirror(desired))) == true
  {
    SetAgentKeepsWorld(w, machineId, Mirror(desired));
  }

  lemma DeliveryKeepsWorld(w: World, message: Message)
    requires WorldInv(w) && message in w.net
    ensures WorldInv(Delivered(w, message)) == true
  {
    assert CarriesIssued(message, w.ledger.issued);
    match message
    case InstallMessage(machineId, context) => InstallKeepsWorld(w, machineId, context);
    case SyncMessage(machineId, desired) => SyncKeepsWorld(w, machineId, desired);
  }

  lemma TickKeepsWorld(w: World, to: int)
    requires WorldInv(w) && w.clock <= to
    ensures WorldInv(w.(clock := to)) == true
  {
  }

  lemma SendKeepsWorld(w: World, message: Message)
    requires WorldInv(w) && CarriesIssued(message, w.ledger.issued)
    ensures WorldInv(w.(net := w.net + {message})) == true
  {
  }

  lemma StepKeepsWorld(w: World, step: Step)
    requires WorldInv(w) && Possible(w, step)
    ensures WorldInv(Next(w, step)) == true
  {
    match step
    case CallController(r, at, ioOk) => CallKeepsWorld(w, r, at, ioOk);
    case RestartController(order) => RestartKeepsWorld(w, order);
    case Tick(to) => TickKeepsWorld(w, to);
    case SendInstall(machineId, context) => SendKeepsWorld(w, InstallMessage(machineId, context));
    case AnswerSync(machineId, at, desired) =>
      SyncAnswersAreIssued(w, machineId, at, desired);
      SendKeepsWorld(w, SyncMessage(machineId, desired));
    case Deliver(message) => DeliveryKeepsWorld(w, message);
    case RevokeAt(machineId, leaseId, fencingToken) =>
      SetAgentKeepsWorld(w, machineId, Uninstall(AgentMap(w, machineId), leaseId, fencingToken));
    case RestartAgent(machineId) => SetAgentKeepsWorld(w, machineId, map[]);
  }

  lemma {:induction false} RunKeepsWorld(w: World, steps: seq<Step>)
    requires WorldInv(w) && PossibleRun(w, steps)
    ensures WorldInv(Run(w, steps)) == true
    decreases |steps|
  {
    if steps != [] {
      StepKeepsWorld(w, steps[0]);
      RunKeepsWorld(Next(w, steps[0]), steps[1..]);
    }
  }

  // ---------- safety ----------

  ghost predicate Accepts(w: World, machineId: string, leaseId: string) {
    exists profileId, fencingToken :: Check(AgentMap(w, machineId), leaseId, profileId, fencingToken, w.clock)
  }

  /** What an agent accepts, the controller holds: the same lease for the same profile with the same
      token, unless it dropped the lease early or moved its deadline back. */
  lemma AcceptedIsHeld(w: World, machineId: string, id: string, profileId: string, fencingToken: string)
    requires WorldInv(w) && Check(AgentMap(w, machineId), id, profileId, fencingToken, w.clock)
    requires id !in w.ledger.dropped && id !in w.ledger.shortened
    ensures id !in w.ledger.reclaimed && id in w.sys.state.leases
    ensures w.sys.state.leases[id].profileId == profileId && w.sys.state.leases[id].fencingToken == fencingToken
    ensures w.clock < w.sys.state.leases[id].expiresAt
  {
    assert KnownContext(AgentMap(w, machineId), id) in w.ledger.issued;
  }

  lemma ReclaimedIsRefused(w: World, machineId: string, leaseId: string)
    requires WorldInv(w) && leaseId in w.ledger.reclaimed && leaseId !in w.ledger.shortened
    ensures !Accepts(w, machineId, leaseId)
  {
    if leaseId in AgentMap(w, machineId) {
      assert KnownContext(AgentMap(w, machineId), leaseId) in w.ledger.issued;
    }
  }

  /** Once the controller has reclaimed a lease by expiry, no agent accepts it at any later
      moment of any run, unless a renewal of that very lease had moved its deadline back. */
  lemma ReclaimedIsNeverAccepted(start: World, steps: seq<Step>, machineId: string, leaseId: string)
    requires Initial(start) && PossibleRun(start, steps)
    ensures var w := Run(start, steps);
            leaseId in w.ledger.reclaimed && leaseId !in w.ledger.shortened ==> !Accepts(w, machineId, leaseId)
  {
    InitialIsSound(start);
    RunKeepsWorld(start, steps);
    var w := Run(start, steps);
    if leaseId in w.ledger.reclaimed && leaseId !in w.ledger.shortened {
      ReclaimedIsRefused(w, machineId, leaseId);
    }
  }

  /** The call goes through to the store. */
  ghost predicate Writes(w: World, step: Step)
    requires step.CallController?
  {
    var o := Handle(w.sys.state, step.request, step.at);
    o.Commit? && CanWrite(w.sys.store, o.state, step.ioOk)
  }

  /** A renewal that goes through although its deadline is earlier than the one it replaces, which
      still lies ahead. */
  ghost predicate Shortens(w: World, step: Step) {
    && step.CallController? && step.request.Renew? && step.request.leaseId in w.sys.state.leases
    && Writes(w, step)
    && var deadline := w.sys.state.leases[step.request.leaseId].expiresAt;
       w.clock < deadline && Deadline(step.at, step.request.ttl) < deadline
  }

  ghost predicate CarefulRun(w: World, steps: seq<Step>)
    requires PossibleRun(w, steps)
    decreases |steps|
  {
    steps == [] || (!Shortens(w, steps[0]) && CarefulRun(Next(w, steps[0]), steps[1..]))
  }

  lemma OnlyRenewalsMoveBack(w: World, r: Request, at: int, ioOk: bool, id: string)
    requires Balanced(w.sys.state.leases, w.ledger, w.clock) && Possible(w, CallController(r, at, ioOk))
    requires id in w.sys.state.leases && id in Execute(w.sys, r, at, ioOk).0.state.leases
    requires MovedBack(w.sys.state.leases[id], Execute(w.sys, r, at, ioOk).0.state.leases[id], w.clock)
    ensures r.Renew? && r.leaseId == id && Shortens(w, CallController(r, at, ioOk))
  {
    if Handle(w.sys.state, r, at).Commit? && id in Handle(w.sys.state, r, at).state.leases {
      Leases.EveryLeaseIsExplained(w.sys.state, r, at, id);
      assert Leases.Explained(w.sys.state, r, at, Handle(w.sys.state, r, at).state, id);
    }
  }

  /** A step adds a lease to the shortened ones only by a shortening renewal of it. */
  lemma OnlyShorteningShortens(w: World, step: Step, id: string)
    requires Balanced(w.sys.state.leases, w.ledger, w.clock) && Possible(w, step)
    requires id in Next(w, step).ledger.shortened && id !in w.ledger.shortened
    ensures Shortens(w, step) && step.request.leaseId == id
  {
    if step.CallController? {
      OnlyRenewalsMoveBack(w, step.request, step.at, step.ioOk, id);
    }
  }

  lemma {:induction false} CarefulRunShortensNothing(w: World, steps: seq<Step>, id: string)
    requires WorldInv(w) == true && PossibleRun(w, steps) && CarefulRun(w, steps) && id !in w.ledger.shortened
    ensures id !in Run(w, steps).ledger.shortened
    decreases |steps|
  {
    if steps != [] {
      if id in Next(w, steps[0]).ledger.shortened {
        OnlyShorteningShortens(w, steps[0], id);
      }
      StepKeepsWorld(w, steps[0]);
      CarefulRunShortensNothing(Next(w, steps[0]), steps[1..], id);
    }
  }

  /** The handover is safe in every run whose renewals never shorten: a lease reclaimed by expiry
      is dead at every agent, whatever was lost, delayed, repeated or reordered. */
  lemma HandoverIsSafe(start: World, steps: seq<Step>)
    requires Initial(start) && PossibleRun(start, steps) && CarefulRun(start, steps)
    ensures forall machineId, leaseId ::
              leaseId in Run(start, steps).ledger.reclaimed ==> !Accepts(Run(start, steps), machineId, leaseId)
  {
    InitialIsSound(start);
    forall machineId, leaseId | leaseId in Run(start, steps).ledger.reclaimed
      ensures !Accepts(Run(start, steps), machineId, leaseId)
    {
      CarefulRunShortensNothing(start, steps, leaseId);
      ReclaimedIsNeverAccepted(start, steps, machineId, leaseId);
    }
  }

  /** In every reachable world an agent accepts at most one credential per profile. */
  lemma AgentsHoldOneCredential(start: World, steps: seq<Step>, machineId: string,
                                a: string, b: string, profileId: string, x: string, y: string)
    requires Initial(start) && PossibleRun(start, steps)
    requires Check(AgentMap(Run(start, steps), machineId), a, profileId, x, Run(start, steps).clock)
    requires Check(AgentMap(Run(start, steps), machineId), b, profileId, y, Run(start, steps).clock)
    ensures a == b && x == y
  {
    InitialIsSound(start);
    RunKeepsWorld(start, steps);
  }

  /** Whatever two agents accept for one profile is one and the same credential, in every reachable
      world, unless a lease was dropped before its deadline or had its deadline moved back. */
  lemma OneHolderAmongAllAgents(start: World, steps: seq<Step>, here: string, there: string,
                                a: string, b: string, profileId: string, x: string, y: string)
    requires Initial(start) && PossibleRun(start, steps)
    requires Check(AgentMap(Run(start, steps), here), a, profileId, x, Run(start, steps).clock)
    requires Check(AgentMap(Run(start, steps), there), b, profileId, y, Run(start, steps).clock)
    requires forall id :: id in {a, b} ==>
               id !in Run(start, steps).ledger.dropped && id !in Run(start, steps).ledger.shortened
    ensures a == b && x == y
  {
    InitialIsSound(start);
    RunKeepsWorld(start, steps);
    AcceptedIsHeld(Run(start, steps), here, a, profileId, x);
    AcceptedIsHeld(Run(start, steps), there, b, profileId, y);
  }
}
