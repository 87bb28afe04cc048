# Verified model of the browser control plane

This project models the lease protocol between the global controller and the machine agents, and
the self-contained algorithms around it, and proves what the protocol is for: a browser profile is
held by at most one client, a lease that the controller has taken back stops working, nothing that
was committed is lost, and no call is left half done.

## How it is built

* `Messages`, `Options`, `Strings`, `Domains`, `Utf8`: records on the wire and text.
* `Registry`, `Telemetry`, `Operations`: the controller's state, its invariant, and every call as a
  transition (`Handle`). What the code leaves to the hash map's iteration order (which profile an
  acquire picks, which of several equally old buckets goes first) and what it draws from outside
  (ids, clock, the database's verdict) are parameters of the request, constrained by `LegalRequest`.
* `Edits`, `Invariants`, `QuarantineRuns`, `LazyExpiry`, `LazyResponses`, `Leases`: every committing call is a short
  sequence of primitive edits; invariants and properties of runs are proved per edit and lifted.
* `LeaseLaws`, `CheckinLaws`, `ReadLaws`, `ReportLaws`: what each call promises in terms of the records
  before and after it, without the operations' own helpers: who is refused with which code and changes
  nothing, which records change and how, and that all others stay.
* `Persistence`, `RowIdentity`, `MetricRows`, `MetricReports`, `Network`, `ControllerSystem`: the store
  as a map from (kind, id) to records, when rows collide, the directory, and runs of calls, failed writes and restarts.
* `ControllerService`: the controller as the imperative class it is. Each method copies the state,
  edits the copy in loops, persists it and then installs it, and is proved equal to the transition
  above; `Agent` (`AgentService`), `Network` (`StaticNetworkDirectory`), `AgentTelemetry`
  (`BrowserFleetManager`), `ScriptRunner` (`RealPwrightGateway`) and `Query` do the same.
* `TelemetryRuns`: the controller's telemetry over whole runs.
* `Handover`: controller, agents, a network that loses, delays, repeats and reorders messages, and a
  clock, as one step relation that may start from any sound controller, with or without a store.
  `HandoverLimits` and `LateSyncs`: exactly when a renewal or a late sync does harm. `Acceptance`:
  exactly which steps end the acceptance of a credential.

The controller's invariant assumes nothing about clock readings, lease ids or which writes fail.
Monotone time appears only in the handover, in lazy expiry, and where an agent is asked after it
synced. Fresh lease ids are assumed only in the step relation of `Handover`.

## What was found

Where the code or its comments promise more than holds, the exact condition is proved:

* Renewals may move a deadline back, and a client can then reinstall the longer context it held
  before. For every lease the controller holds, whatever renewals went before: some run that does
  not renew it again ends with an agent accepting it after it was reclaimed if and only if a context of
  it was handed out that outlasts both now and the current deadline
  (`HandoverLimits.OutlivedIffLongerContext`; writes must work). So a shortened lease is safe again
  once renewed past every deadline handed out.
* `crates/bcp-agent/src/lib.rs:103-108` says that a sync makes revocation reliable and only prunes
  released or expired leases. A sync makes the agent what it would have been when the sync was
  answered (`LateSyncs.LateSyncRestores`): leases granted since are dropped, renewals since are
  undone, and leases released or revoked since come back, each until the deadline it had then.
* `crates/bcp-agent/src/main.rs:537-538` says audit events are never dropped on an outage. Nothing is
  lost if and only if no batch is put back beyond 5000 entries of a kind and no restart finds
  anything buffered (`AgentTelemetry.EverythingIsDeliveredIffFits`).
* Metric row ids join their fields with U+001F without escaping it. Among the points that samples can
  fall in, another bucket shares a point's row if and only if the name hides a bucket behind a
  shorter name, the machine id or the domain can be cut at that character, or one of the other text
  fields holds it (`MetricRows.RowIsSharedIffAmbiguous`). Every such point leads to a report of two
  samples that a storing controller refuses (`MetricReports.AmbiguousPointBlocksReport`).
* Event ids name machine, profile and millisecond, joined by colons: two are equal if and only if
  the times are and machine and profile read alike once joined. Two events of a machine about one
  profile in one millisecond therefore share an id, and a storing controller refuses that agent's
  reports on every retry while its buffer fits the bound. When only the acknowledgement of a report
  with events is lost, its retry, with whatever was recorded since, is refused the same way as long
  as both together are fewer than the log holds.
* A query credential comes out as the client spelled it if and only if it holds no escaped colon of
  its own (`Query.QueryRoundTrip`).

## Model

| member | source | states |
|---|---|---|
| Handover.HandoverIsSafe | crates/bcp-agent/src/lib.rs:109-203 | From any sound controller with or without a store, in every run whose renewals do not shorten, a lease that the controller reclaimed by expiry is accepted by no agent, whatever messages are lost, delayed, repeated or reordered and whatever restarts |
| Handover.ReclaimedIsNeverAccepted | crates/bcp-controller/src/lib.rs:620-641 | In every run at all, a reclaimed lease is accepted by no agent unless a renewal of that very lease moved back a deadline that still lay ahead |
| Handover.AcceptedIsHeld | crates/bcp-agent/src/lib.rs:208-223 | Whatever an agent accepts, the controller still holds for the same profile with the same token and an unexpired deadline, unless it dropped the lease early or moved its deadline back |
| Handover.OneHolderAmongAllAgents | crates/bcp-agent/src/lib.rs:142-149 | In every reachable world all agents together accept at most one credential per profile, leases aside that were dropped before their deadline or had it moved back |
| HandoverLimits.OutlivedIffLongerContext | crates/bcp-controller/src/service.rs:275-300 | For every held lease in every sound world whose store can be written, whatever happened before: some run without renewing it ends with an agent accepting it after reclaim if and only if a context of it was handed out that outlasts both the clock and its current deadline |
| HandoverLimits.RenewalIsUnsafeIffOutlasted | crates/bcp-controller/src/service.rs:275-300 | For every renewal that goes through, after any history and with any clock reading: the lease can be outlived afterwards if and only if a context handed out so far outlasts both the clock and the new deadline |
| HandoverLimits.RenewalIsUnsafeIffItShortens | crates/bcp-controller/src/service.rs:275-300 | In terms of the call, for a lease not shortened before: a run without further renewals of it can end with an agent accepting the reclaimed lease if and only if the renewal is written, the old deadline lies ahead and the new one is earlier |
| HandoverLimits.ShorteningBreaksHandover | crates/bcp-controller/src/service.rs:281-295 | After every shortening renewal, whatever clock reading it used, an explicit continuation ends with an agent accepting the reclaimed lease |
| LateSyncs.LateSyncKeepsExactly | crates/bcp-agent/src/main.rs:476-489 | Whatever happens between a sync's answer and its arrival: of the machine's leases then held the agent keeps exactly those held and unexpired when it was answered, equivalently not granted since and unexpired then, and accepts one exactly until the deadline it had then |
| LateSyncs.LateSyncRestores | crates/bcp-agent/src/lib.rs:103-127 | For every lease, held at arrival or not: the agent then has it exactly if it was held for the machine and unexpired when the sync was answered, and accepts it exactly until the deadline it had then |
| LateSyncs.LateSyncRevivesReleasedLease | crates/bcp-controller/src/service.rs:302-332 | From every sound world whose store can be written, any live lease that is released and uninstalled between a sync's answer and its arrival is accepted again after it |
| Acceptance.AcceptedThroughoutIff | crates/bcp-agent/src/lib.rs:109-223 | A credential is accepted through a whole run if and only if none of its steps is one of the ending ones: its deadline passing, an unbacking install or sync at its agent, its revocation, a restart of its agent |
| Acceptance.LateInstallEvicts | crates/bcp-agent/src/lib.rs:142-149 | From every sound world, an older known context of the same profile installed late ends the acceptance of its successor |
| LateSyncs.RunTracesLease | crates/bcp-controller/src/service.rs:217-300 | A lease held at the end of any run was held all along with the same profile, machine and token, or was granted during the run under an unused id |
| LateSyncs.LateSyncDropsLiveLease | crates/bcp-agent/src/main.rs:476-489 | From every sound world whose store can be written, any acquire that succeeds and is installed between a sync's answer and its arrival loses its live lease at the agent |
| HandoverLimits.HandoverCanFail | crates/bcp-controller/src/service.rs:275-300 | For any machine and free profile registered with an empty controller, with or without a store, and any client that then acquires it, a seven-step run ends with an agent accepting the reclaimed lease |
| LateSyncs.LiveLeaseCanBeDropped | crates/bcp-agent/src/lib.rs:105-109 | For the same, a six-step run ends with an agent refusing the client's unexpired lease that the controller still holds |
| Handover.AgentsHoldOneCredential | crates/bcp-agent/src/lib.rs:142-149 | In every reachable world an agent accepts at most one credential per profile |
| Handover.RunKeepsWorld | crates/bcp-controller/src/service.rs:217-300 | Every step keeps the world's invariant: contexts known to agents or in flight were issued, and none outlives the controller's deadline unless shortened |
| Invariants.CallKeepsInv | crates/bcp-controller/src/service.rs:5-543 | Every call, for every clock reading, with or without a successful write, keeps: at most one lease per profile, leased profiles exist with status Leased, keys match records, profiles and leases on known machines, exact index, bounded telemetry |
| Invariants.DropKeepsCore | crates/bcp-controller/src/service.rs:323-326 | Releasing a lease and setting its profile Available unconditionally keeps the invariant |
| Invariants.GrantKeepsCore | crates/bcp-controller/src/service.rs:243-249 | Granting a lease to an available profile without one keeps the invariant, also when the drawn lease id is already in use |
| Invariants.UpsertKeepsCore | crates/bcp-controller/src/lib.rs:406-495 | Storing a reported profile keeps leases, statuses and the index sound, whatever status and accounts it reports |
| Invariants.StoredKeepsIndex | crates/bcp-controller/src/lib.rs:450-493 | After a profile without conflicts is stored, the index is again exactly the inverse of all account lists |
| Invariants.IndexAgreesWithScan | crates/bcp-controller/src/lib.rs:583-618 | Selecting an exact account through the index finds exactly the grantable profile that lists the account, and no two profiles list it |
| Invariants.SweepPartitionsLeases | crates/bcp-controller/src/lib.rs:225-236 | The leases before a sweep are the disjoint union of those that stay unchanged and those returned as revoked |
| Invariants.SweepLeavesServable | crates/bcp-controller/src/lib.rs:231-232 | After a sweep every lease is unexpired and on no Offline machine |
| Invariants.SweepFreesOnlyRevoked | crates/bcp-controller/src/lib.rs:235-241 | A sweep changes a profile only if one of its leases was revoked |
| Invariants.SweepIsIdempotent | crates/bcp-controller/src/lib.rs:204-261 | A second sweep at the same time changes nothing |
| Invariants.SweepWithoutOfflineIsExpiry | crates/bcp-controller/src/lib.rs:620-641 | With no Offline machine a sweep does to leases and profiles what lazy expiry does |
| Edits.CallIsEdits | crates/bcp-controller/src/service.rs:217-408 | Every call that commits is a sequence of primitive edits, each allowed in the state where it happens |
| QuarantineRuns.QuarantineIsSticky | crates/bcp-controller/src/lib.rs:427-438 | Through any run of calls, failed writes and restarts, at any times, a quarantined profile stays quarantined, without a lease, and is never granted, until a release names it |
| QuarantineRuns.QuarantineHolds | crates/bcp-controller/src/service.rs:334-378 | Quarantining a known profile commits, leaves it quarantined and takes every lease on it away |
| LazyExpiry.LazyRefinesEager | crates/bcp-controller/src/lib.rs:620-641 | Over any calls at nondecreasing times whose writes succeed, expiring only inside calls gives the same answers as expiring at every instant |
| LazyResponses.LazyRunRefinesEager | crates/bcp-controller/src/service.rs:5-475 | The same for the responses themselves, routes resolved against the directory, from any controller with or without a store |
| LazyExpiry.CallAgrees | crates/bcp-controller/src/service.rs:5-475 | Each single call answers alike on a state and on its expired form, and leaves states that agree once expiry has caught up |
| Leases.LookupAgreesWithAcquire | crates/bcp-controller/src/lib.rs:539-618 | For an exact account at one time, an acquire is granted exactly when a lookup of available browsers finds one and the write goes through, for the same profile and machine; a lookup misses what an acquire finds only when it cannot write an expiry |
| Leases.LookupsAreHonest | crates/bcp-controller/src/service.rs:161-215 | A lookup reports `available` only when nobody holds the profile, and held by a client exactly when someone does |
| Leases.DeadlineFits | crates/bcp-controller/src/lib.rs:41-48 | For every requested time to live the deadline lies between one second and one day ahead and fits 64 bits, and a request within the cap is honoured exactly |
| Leases.RunKeepsTimely | crates/bcp-controller/src/service.rs:245 | In every reachable state no lease outlives the latest time any call has read by more than a day, even with clock readings out of order |
| Leases.EveryLeaseIsExplained | crates/bcp-controller/src/service.rs:217-300 | A lease found after a call was there before unchanged, or this call renewed it, or this call granted it |
| ControllerSystem.RunKeepsSystemInv | crates/bcp-controller/src/lib.rs:340-348 | Every run of calls, failed writes and restarts keeps the state sound, the directory equal to the machines' projection, and the store a faithful image |
| ControllerSystem.CallKeepsSystemInv | crates/bcp-controller/src/service.rs:22-75 | One call keeps state, directory and store in step, whether or not its write succeeds |
| ControllerSystem.ReachableStatesAreDurable | crates/bcp-controller/src/persistence.rs:68-98 | In every reachable state a restart brings back exactly the committed maps, and the event log up to order |
| ControllerSystem.RestartRestores | crates/bcp-controller/src/lib.rs:130-149 | Opening the store restores the state, republishes every machine and yields a sound system |
| ControllerSystem.RoutesAreAlwaysFound | crates/bcp-controller/src/service.rs:256-272 | No call ever fails for want of an endpoint; an acquire that changed anything returns a stored lease routed to its machine's current address |
| ControllerSystem.CallsAreAllOrNothing | crates/bcp-controller/src/service.rs:251-252 | A call that fails leaves state, store and directory alone, except that a failed lookup may have expired leases |
| ControllerSystem.DirectoryGrows | crates/bcp-controller/src/service.rs:32-36 | A machine that can be found stays findable through every call |
| ControllerSystem.WritesFailOnlyOnTelemetryIds | crates/bcp-controller/src/persistence.rs:15-66 | In a sound system a write succeeds exactly when the database accepts it and no two metric points and no two events share a row id |
| Persistence.LoadUndoesWrite | crates/bcp-controller/src/persistence.rs:15-113 | Loading what was written, with the rows in any order, restores every map exactly and the multiset of events |
| Persistence.WriteAll | crates/bcp-controller/src/persistence.rs:15-56 | The transaction succeeds exactly when all row ids differ, and then holds exactly the state's records |
| Persistence.InsertAll | crates/bcp-controller/src/persistence.rs:58-66 | Inserting records in any order succeeds exactly when their ids are distinct, and yields every record under its id and nothing else |
| Persistence.LoadAll | crates/bcp-controller/src/persistence.rs:68-98 | Loading files each row's record under the key derived from the record itself, in the order given |
| RowIdentity.DistinctIffTelemetryIdsDiffer | crates/bcp-controller/src/persistence.rs:21-53 | In every sound state only metric points and events can share a row |
| RowIdentity.BindingIdIsInjective | crates/bcp-controller/src/lib.rs:401-403 | A binding's row id determines platform and account, whatever characters the account holds |
| RowIdentity.MetricPointIdIsInjective | crates/bcp-controller/src/persistence.rs:129-143 | A metric's row id determines its bucket when no field holds U+001F |
| RowIdentity.MetricIdLaw | crates/bcp-controller/src/persistence.rs:129-143 | A metric's row id is its nine fields in order around U+001F |
| MetricRows.RowIsSharedIffAmbiguous | crates/bcp-controller/src/persistence.rs:129-143 | Among the points that samples fall in, another bucket shares a point's row id if and only if its name hides a bucket behind a shorter name, its machine id or domain can be cut at U+001F, or its profile, action, status or error class holds it |
| MetricReports.StorableIffSampled | crates/bcp-controller/src/service.rs:493-506 | The points meant are exactly those some named sample of some reporter falls in |
| MetricReports.AmbiguousPointBlocksReport | crates/bcp-controller/src/persistence.rs:38-40 | For every such ambiguous point there is a report of two samples, one of which falls in it, that every storing controller with room for two buckets refuses unchanged |
| MetricReports.RecutSampleIsRefused | crates/bcp-controller/src/persistence.rs:129-143 | In particular any sample reported together with itself cut elsewhere between action and status class |
| MetricReports.ReportKeepsStorable | crates/bcp-controller/src/service.rs:491-528 | Reports of arriving samples leave only such points stored |
| MetricRows.UnambiguousMetricsDiffer | crates/bcp-controller/src/persistence.rs:38-40 | Stored metrics never share a row when no two of them are ambiguous |
| TelemetryRuns.RunSummarizes | crates/bcp-controller/src/service.rs:477-543 | Between restarts, in any run of any calls and failed writes, the log is the longest allowed suffix of the recorded redacted stream, each bucket aggregates exactly its recorded samples, and both limits hold |
| Telemetry.RecordAllAggregatesPerKey | crates/bcp-controller/src/service.rs:493-512 | After a report each bucket holds the last gauge plus every later increment of its own samples on top of what it held, and no other bucket changes |
| Telemetry.EvictOldest | crates/bcp-controller/src/service.rs:516-528 | Eviction removes exactly the excess and no removed bucket is newer than a kept one |
| Telemetry.RedactionRemovesContent | crates/bcp-controller/src/lib.rs:701-720 | A stored event has lost exactly the attributes url, full_url, html, request_body and response_body, keeps the others and its other fields, and has a message of at most 512 bytes and bare hosts as domains |
| LeaseLaws.GuessedTokensAreRefused | crates/bcp-controller/src/service.rs:284-320 | Without a live lease a renewal, a release and a route fail with NotFound, with a wrong token with PermissionDenied, whether or not the database works, and neither state nor store nor directory changes |
| LeaseLaws.AcquireLaw | crates/bcp-controller/src/service.rs:217-273 | An acquire is granted if and only if some free profile carries every label and account asked for; the lease is then for such a profile on its machine with client, purpose, token and deadline as asked, and besides it only expiry happens |
| LeaseLaws.SelectionLaw | crates/bcp-controller/src/lib.rs:583-618 | Whatever the index and the scan order: the profile taken is unleased, available and suits the request, and one is taken whenever there is one |
| LeaseLaws.RenewLaw | crates/bcp-controller/src/service.rs:275-300 | With its token a live lease gets the deadline of the new request (300 s by default, at most a day) and nothing else of it changes; no other lease or profile does but by expiry |
| LeaseLaws.ReleaseLaw | crates/bcp-controller/src/service.rs:302-332 | With its token exactly the live lease goes and its profile becomes Available; no other lease or profile changes but by expiry |
| LeaseLaws.RouteLeadsToMachine | crates/bcp-controller/src/service.rs:434-475 | With its token the route to a live lease is its machine at the registered address, unless an expiry that is due cannot be written |
| LeaseLaws.RouteLaw | crates/bcp-controller/src/service.rs:434-475 | A route writes exactly when some lease has expired, and then only the expiry |
| LeaseLaws.QuarantineLaw | crates/bcp-controller/src/service.rs:334-378 | Quarantining leaves exactly the live leases of other profiles and changes no other profile but by expiry |
| LeaseLaws.ReleaseQuarantineLaw | crates/bcp-controller/src/service.rs:380-408 | Only a quarantined profile becomes Available, anything else stays as it is and no lease expires on the way |
| LeaseLaws.ListLeasesLaw | crates/bcp-controller/src/service.rs:410-432 | An agent is listed exactly the live leases of its machine, and nothing is written |
| LeaseLaws.ExpiryLaw | crates/bcp-controller/src/lib.rs:620-641 | Expiry leaves exactly the leases whose deadline lies ahead and frees exactly the Leased profiles with a lease that ran out |
| LeaseLaws.UnwrittenCall | crates/bcp-controller/src/lib.rs:340-348 | A call whose write fails answers Internal, a sweep an empty list, and changes nothing |
| CheckinLaws.RegistrationLaw | crates/bcp-controller/src/service.rs:5-42 | A registration that is not refused stores the machine as sent, stamped with the time and Online unless a status was sent, and every profile reported; a refused one changes nothing, and reports that share no account are not refused |
| CheckinLaws.HeartbeatLaw | crates/bcp-controller/src/service.rs:44-81 | A heartbeat of a known machine sets its status and the time, keeps its other fields and stores the profiles reported, under the same rules |
| CheckinLaws.UpsertLaw | crates/bcp-controller/src/lib.rs:406-495 | A report is refused when it names another machine or an account that another profile lists, and otherwise stored under the status rule (quarantined, broken and launching profiles keep theirs, leased ones stay Leased) and indexed under exactly its valid accounts |
| CheckinLaws.EveryReportIsStored | crates/bcp-controller/src/lib.rs:406-495 | Of all profiles reported together each is stored as its last report has it, and profiles not reported stay |
| CheckinLaws.HarmoniousReportsAreStored | crates/bcp-controller/src/lib.rs:415-425 | Well-formed reports that share no account with each other or with other stored profiles are never refused |
| CheckinLaws.SweptMachines | crates/bcp-controller/src/lib.rs:213-220 | After a sweep exactly those machines are Offline that were, or were Online and silent for longer than allowed since a recorded heartbeat; no other machine and no other field changes |
| CheckinLaws.SweepLaw | crates/bcp-controller/src/lib.rs:204-261 | A sweep revokes exactly the expired leases and those on machines that are then Offline, and frees exactly the Leased profiles that lose one |
| CheckinLaws.SweepAnswerLaw | crates/bcp-controller/src/lib.rs:225-236 | The sweep answers with exactly the leases it revoked |
| ReadLaws.LookupLaw | crates/bcp-controller/src/service.rs:161-215 | A lookup finds the one profile that lists the account and carries the labels, shows its present status, address, handle and health, and names the live lease on it if and only if there is one |
| ReadLaws.ListProfilesLaw | crates/bcp-controller/src/service.rs:101-132 | The listing holds exactly the profiles with the labels and accounts asked for, as they are once expiry has caught up |
| ReadLaws.ListBindingsLaw | crates/bcp-controller/src/service.rs:134-159 | The listing holds exactly the present bindings of all listed accounts that pass the filters |
| ReportLaws.ReportLaw | crates/bcp-controller/src/service.rs:477-543 | A report counts exactly its named samples in order, keeps the last 5000 of old and redacted new events, and of more than 5000 buckets the newest 5000; nothing else changes |
| ReportLaws.CountLaw | crates/bcp-controller/src/service.rs:493-506 | A sample falls in the bucket of its minute, its labels and the machine it names, or else the reporter |
| ReportLaws.RecordLaw | crates/bcp-controller/src/service.rs:502-511 | A gauge replaces the value of its bucket, any other sample adds to it, and no other bucket changes |
| ReportLaws.DomainLaw | crates/bcp-controller/src/lib.rs:684-698 | Of an address with or without scheme, user, port and tail the stored domain is its host in lower case |
| ReportLaws.PaddingLaw | crates/bcp-controller/src/lib.rs:684-688 | Blanks around an address change nothing, and blanks alone name no domain |
| ReportLaws.ArtifactReportLaw | crates/bcp-controller/src/service.rs:606-637 | Every named artifact is stored as last reported, for the machine it names or else the reporter, the others stay, and the count is that of the named ones |
| Agent.MirrorLaw | crates/bcp-agent/src/lib.rs:109-127 | After a sync the installed leases are those listed, each as its last entry has it |
| ScriptRunner.ScriptLaw | crates/bcp-core/src/pwright/real.rs:390-462 | A script restarts exactly when its first step fails as if the transport had dropped, once, on a newly dialled connection, and lines and deeds are those of the pass on the connection it ended on |
| ScriptRunner.DeedsLaw | crates/bcp-core/src/pwright/real.rs:414-446 | A pass runs exactly the steps its lines report, in order |
| ScriptRunner.OperationLaw | crates/bcp-core/src/pwright/real.rs:86-103 | The same for a single operation |
| ScriptRunner.ConnectionClosedLaw | crates/bcp-core/src/pwright/real.rs:66-80 | Exactly the failed operations whose message holds one of five phrases in any case count as a dropped transport |
| Query.LastCredentialWins | crates/bcp-agent/src/proxy.rs:189-205 | Of several credentials in a query the last one counts |
| Query.ForwardingLaw | crates/bcp-agent/src/proxy.rs:189-205 | What is forwarded is decided part by part, in order |
| AgentTelemetry.TickLaw | crates/bcp-agent/src/main.rs:508-517 | A tick sends everything pending if there is anything and no batch is under way |
| RowIdentity.NamelessEventsDiffer | crates/bcp-controller/src/persistence.rs:41-50 | Events without an id share a row only with themselves: time and position in the log tell them apart |
| Domains.SanitizeRedacts | crates/bcp-controller/src/lib.rs:684-698 | Whatever a domain field held, no path, query, fragment, credential, port or upper-case letter survives |
| Utf8.TruncationIsLongestValidPrefix | crates/bcp-controller/src/lib.rs:701-711 | For valid UTF-8 the truncated message is the longest valid prefix of at most 512 bytes and loses at most three of those bytes |
| Utf8.BoundaryMeansValidPrefix | crates/bcp-controller/src/lib.rs:706-709 | In valid UTF-8 the one-byte boundary test holds exactly where a prefix is valid UTF-8 |
| Utf8.Truncate | crates/bcp-controller/src/lib.rs:704-711 | The loop terminates and cuts at the last boundary within the limit |
| Agent.SyncMirrorsController | crates/bcp-agent/src/lib.rs:109-127 | A sync applied while the controller has not changed makes the agent accept exactly the controller's unexpired leases for its machine |
| Agent.OneCredentialPerProfile | crates/bcp-agent/src/lib.rs:135-173 | After any mix of installs, uninstalls, restarts and syncs with exclusive lists at most one credential per profile is accepted |
| Agent.ControllerListsAreExclusive | crates/bcp-controller/src/service.rs:410-432 | The controller's answer to a sync never lists two leases of one profile |
| Agent.ValidateAgreesWithCheck | crates/bcp-agent/src/lib.rs:175-223 | The semantic calls and the raw proxy accept the same credentials; a missing part is an InvalidArgument, anything else refused PermissionDenied |
| Agent.AgentService.SyncLeases | crates/bcp-agent/src/lib.rs:109-127 | The map becomes the mirror of the list, whatever it held before |
| Agent.AgentService.InstallLease | crates/bcp-agent/src/lib.rs:135-161 | The lease is installed and every other lease of its profile is gone |
| Agent.AgentService.UninstallLease | crates/bcp-agent/src/lib.rs:163-172 | A lease is removed exactly when the fencing token matches |
| Agent.AgentService.ValidateLease | crates/bcp-agent/src/lib.rs:175-203 | A context is accepted exactly when installed with the same profile and token and unexpired, and malformed ones are told apart |
| Agent.AgentService.CheckLease | crates/bcp-agent/src/lib.rs:208-223 | A credential is accepted exactly when installed for this profile and token and unexpired |
| Network.StaticNetworkDirectory.UpsertMachine | crates/bcp-core/src/network.rs:41-54 | The machine's endpoint replaces its former one and no other changes |
| Network.StaticNetworkDirectory.EndpointForMachine | crates/bcp-core/src/network.rs:58-70 | In step with the registered machines, the directory finds a machine exactly when it is registered and answers with the address it registered last |
| ControllerService.ControllerService.WithStore | crates/bcp-controller/src/lib.rs:130-149 | A controller opened on a store is exactly the restarted system |
| ControllerService.ControllerService.CallKeepsValid | crates/bcp-controller/src/service.rs:5-543 | What a method does by its contract keeps the object's invariant |
| ControllerService.ControllerService.RegisterMachine | crates/bcp-controller/src/service.rs:5-42 | The method performs exactly the registration transition, with every error case, whose meaning is `CheckinLaws.RegistrationLaw` |
| ControllerService.ControllerService.Heartbeat | crates/bcp-controller/src/service.rs:44-81 | The method performs exactly the heartbeat transition, whose meaning is `CheckinLaws.HeartbeatLaw` |
| ControllerService.ControllerService.ListProfiles | crates/bcp-controller/src/service.rs:101-132 | The method performs exactly the listing transition, including its lazy expiry, whose meaning is `ReadLaws.ListProfilesLaw` |
| ControllerService.ControllerService.ListBrowserAccountBindings | crates/bcp-controller/src/service.rs:134-159 | The method lists exactly the live bindings that match, refreshed from their profiles, whose meaning is `ReadLaws.ListBindingsLaw` |
| ControllerService.ControllerService.LookupBrowserConnection | crates/bcp-controller/src/service.rs:161-215 | The method performs exactly the lookup transition, including its lazy expiry, whose meaning is `ReadLaws.LookupLaw` |
| ControllerService.ControllerService.AcquireBrowser | crates/bcp-controller/src/service.rs:217-273 | The method performs exactly the acquire transition for some profile that the scan may end on, whose meaning is `LeaseLaws.AcquireLaw` |
| ControllerService.ControllerService.RenewLease | crates/bcp-controller/src/service.rs:275-300 | The method performs exactly the renew transition, whose meaning is `LeaseLaws.RenewLaw` |
| ControllerService.ControllerService.ReleaseLease | crates/bcp-controller/src/service.rs:302-332 | The method performs exactly the release transition, whose meaning is `LeaseLaws.ReleaseLaw` |
| ControllerService.ControllerService.QuarantineProfile | crates/bcp-controller/src/service.rs:334-378 | The method performs exactly the quarantine transition, whose meaning is `LeaseLaws.QuarantineLaw` |
| ControllerService.ControllerService.ReleaseQuarantine | crates/bcp-controller/src/service.rs:380-408 | The method performs exactly the release-quarantine transition, whose meaning is `LeaseLaws.ReleaseQuarantineLaw` |
| ControllerService.ControllerService.ListMachineLeases | crates/bcp-controller/src/service.rs:410-432 | The method returns exactly the machine's unexpired leases and changes nothing, whose meaning is `LeaseLaws.ListLeasesLaw` |
| ControllerService.ControllerService.GetRoute | crates/bcp-controller/src/service.rs:434-475 | The method performs exactly the route transition, whose meaning is `LeaseLaws.RouteLeadsToMachine` |
| ControllerService.ControllerService.ReportTelemetry | crates/bcp-controller/src/service.rs:477-543 | The method performs exactly the report transition for a legal choice of evicted buckets, whose meaning is `ReportLaws.ReportLaw` |
| ControllerService.ControllerService.ReportArtifacts | crates/bcp-controller/src/service.rs:606-637 | The method performs exactly the artifact transition, whose meaning is `ReportLaws.ArtifactReportLaw` |
| ControllerService.ControllerService.SweepAt | crates/bcp-controller/src/lib.rs:204-261 | The method performs exactly the sweep transition, and returns nothing when its write fails, whose meaning is `CheckinLaws.SweepLaw` |
| ControllerService.MarkExpiredLeases | crates/bcp-controller/src/lib.rs:620-641 | The loops remove every expired lease, free its profile if still Leased, and report a change exactly when something had expired |
| ControllerService.UpsertProfileAndBindings | crates/bcp-controller/src/lib.rs:406-495 | The loops reject a conflicting account and otherwise store the profile and rebuild its index entries |
| ControllerService.SelectProfileForAcquire | crates/bcp-controller/src/lib.rs:583-618 | The scan ends on a grantable profile whenever there is one |
| AgentTelemetry.RunConserves | crates/bcp-core/src/fleet.rs:327-350 | Over any interleaving, delivered, in-flight and pending entries are an order-preserving selection of what was recorded, none twice, and every other entry is counted as lost |
| AgentTelemetry.EverythingIsDeliveredIffFits | crates/bcp-agent/src/main.rs:510-541 | Delivered, in-flight and pending telemetry together are exactly what was recorded, in order, if and only if no batch is put back beyond the bound and no restart finds anything buffered |
| AgentTelemetry.RunLosesNothingIffFits | crates/bcp-core/src/fleet.rs:327-343 | The same for any stretch of an agent's life: nothing more is lost if and only if each step fits |
| AgentTelemetry.OutageLosesEvents | crates/bcp-agent/src/main.rs:537-541 | From a fresh agent, events recorded before a failed send and while it is under way are lost in exactly the number by which they exceed the bound |
| AgentTelemetry.UnsentLosesExcess | crates/bcp-core/src/fleet.rs:334-342 | Putting a batch back loses exactly the excess over the bound, from the newest entries |
| AgentTelemetry.UnsentBatchLeads | crates/bcp-core/src/fleet.rs:327-343 | After a failed send each kind holds the failed batch and then the newer entries, cut only to the first 5000 |
| AgentTelemetry.BrowserFleetManager.RequeueTelemetry | crates/bcp-core/src/fleet.rs:327-343 | The older batch goes ahead of newer entries and the excess is cut from the end |
| AgentTelemetry.BrowserFleetManager.DrainTelemetry | crates/bcp-core/src/fleet.rs:123-130 | Everything pending is handed over and nothing stays |
| AgentTelemetry.BrowserFleetManager.RecordEvent | crates/bcp-core/src/fleet.rs:276-300 | The event is appended under the id made of machine, profile and time |
| AgentTelemetry.EventIdNamesProfileAndTime | crates/bcp-core/src/fleet.rs:290 | On one machine two event ids are equal exactly when profile and millisecond are |
| AgentTelemetry.EventIdsAreEqualIff | crates/bcp-core/src/fleet.rs:290 | Any two event ids are equal if and only if the times are and machine and profile read alike once joined by a colon |
| AgentTelemetry.EventIdsClashAcrossMachines | crates/bcp-core/src/fleet.rs:290 | Across machines ids of one time clash exactly where one machine id extends the other by a colon and text that the other's profile id begins with |
| AgentTelemetry.LoggedAgainRepeatsIdIff | crates/bcp-controller/src/service.rs:529-537 | A log that has just taken events and takes them again with newer ones repeats an id if and only if the older ones overlap with what it still holds or the newer ones alone would repeat one |
| AgentTelemetry.RepeatedIdsBlockTheReporter | crates/bcp-controller/src/persistence.rs:42-50 | Two buffered events with one id make every storing controller refuse every report of that agent, however often it retries, while the buffer fits |
| AgentTelemetry.LostAcknowledgementBlocksRetry | crates/bcp-agent/src/main.rs:523-541 | When the acknowledgement of a stored report with events is lost, a storing controller refuses its retry together with everything recorded since, as long as both fit in the log |
| AgentTelemetry.RetrySendsBatchFirst | crates/bcp-core/src/fleet.rs:333-340 | After a failed send the next tick sends the batch with the events recorded since behind it |
| ScriptRunner.RealPwrightGateway.RunScript | crates/bcp-core/src/pwright/real.rs:390-462 | For every script and every outcome of pages and steps the restart loop terminates with exactly the specified lines, cache and deeds |
| ScriptRunner.RealPwrightGateway.WithReconnect | crates/bcp-core/src/pwright/real.rs:83-101 | An operation is retried once, on a fresh connection, exactly when the first failure looks like a dropped transport |
| ScriptRunner.ScriptNeverRepeatsWork | crates/bcp-core/src/pwright/real.rs:404-461 | A script evicts at most once, runs its first step at most twice and every later one at most once, and returns k successes followed by a failure line for step k or by the completion line |
| ScriptRunner.StaleConnectionIsInvisible | crates/bcp-core/src/pwright/real.rs:406-410 | When the cached connection is stale and a fresh one works, result and cache are those of a run that had nothing cached |
| Query.SplitLeaseFromQuery | crates/bcp-agent/src/proxy.rs:189-205 | The loop yields the last credential, decoded, and the other non-empty parts in order |
| Query.QueryRoundTrip | crates/bcp-agent/src/proxy.rs:189-205 | A credential spelled in any way and put anywhere among plain parts leaves the rest untouched, and comes back out exactly when it holds no escaped colon of its own |
| Query.AnyCredentialIsChecked | crates/bcp-agent/src/proxy.rs:91-96 | Whatever value is sent as the credential, the request is authorized exactly when its decoded form names a lease that is installed for this profile and unexpired |
| Query.CredentialsAreNotForwarded | crates/bcp-agent/src/proxy.rs:184-188 | Whatever the query, what remains splits into exactly its plain parts and carries no credential |
| Query.PassesDecodeBoth | crates/bcp-agent/src/proxy.rs:199 | The two replacement passes together decode both spellings of the colon and never interfere |
| Query.CredentialSplitsIffNoColon | crates/bcp-agent/src/proxy.rs:91-96 | Lease id and fencing token are recovered exactly when the lease id has no colon |
| Query.QueryAuthorizesLease | crates/bcp-agent/src/proxy.rs:91-96 | In particular a lease that survives decoding, spelled in any way, is authorized exactly when it is installed for this profile and unexpired |
| Query.Authorize | crates/bcp-agent/src/proxy.rs:91-96 | The scan splits at the first colon, and a token without one is refused |

## Left out

- Transport and concurrency: gRPC, tokio tasks, timeouts and lock poisoning. Each locked section is one atomic step; sending, answering and delivering are separate steps in `Handover`.
- Protobuf and SQLite: a row is a record under its kind and id, encoding is taken to be injective, and rows come back in any order. The load order by id that the code asks for is one of them.
- Revocation messages after release, quarantine and sweep (`crates/bcp-controller/src/lib.rs:154-182`): an agent may uninstall anything at any time, which covers them arriving, late or never.
- Hash-map order: listings are sets, and the profile or bucket picked is a parameter constrained to the possible ones.
- 64-bit integers are unbounded here; `Leases.DeadlineFits` shows that deadlines fit. Other timestamps are not computed with, apart from bucket starts and heartbeat ages.
- Metric values are reals, so rounding is not modelled.
- Record fields that no modelled code reads, such as host name, display name or lease creation data; an artifact's descriptive fields are one opaque text.
- ControllerService.ControllerService.AcquireBrowser: does not draw ids itself; they come as parameters, and only `Handover` assumes that lease ids are fresh. No run with a reused id is exhibited.
- ControllerService.ControllerService.Heartbeat: does not model the interval returned to the agent.
- ControllerService.ControllerService.LookupBrowserConnection: does not model the route hint, whose address is the binding's own, and its texts; readiness is one of three values.
- TelemetryRuns.RunSummarizes: does not span restarts, because the log then comes back in id order.
- AgentTelemetry.RepeatedIdsBlockTheReporter: does not extend beyond 5000 buffered events, where the older of two repeated events can fall out of the log.
- ScriptRunner.RealPwrightGateway.RunScript: does not model other operations running on the same profile in between, the YAML parser or parameter substitution; a page is a connection number, dialling (with its 30 attempts) and each step are oracles.
- Query.Authorize: does not model the Authorization header, which takes precedence over the query.
- Bearer header parsing, websocket relay and URL rewriting in the proxy.
- Machine and event listings, metric summaries, the web snapshot, the command line client, configuration and templates: presentation over the modelled state.
- The artifact store, child processes, recording and browser step bodies: mostly I/O.
- The agent's profile reconciliation loop: it only calls the gateway and records events.
