/** The controller's store: one row per record under (kind, id), rewritten as a whole by every
    write. Protobuf encoding is the identity on payloads; only its injectivity matters. */
module Persistence {
  import opened Options
  import opened Messages
  import opened Registry
  import opened Strings

  datatype Kind = MachineKind | ProfileKind | BindingKind | LeaseKind | MetricKind | EventKind | ArtifactKind

  datatype RowId = RowId(kind: Kind, id: string)

  datatype Payload =
    | MachineRow(machine: Machine)
    | ProfileRow(profile: Profile)
    | BindingRow(binding: Binding)
    | LeaseRow(lease: Lease)
    | MetricRow(point: MetricPoint)
    | EventRow(event: Event)
    | ArtifactRow(artifact: Artifact)

  type Table = map<RowId, Payload>

  /** Names one record of a state. */
  datatype Ref =
    | MachineRef(id: string) | ProfileRef(id: string) | BindingRef(key: AccountKey) | LeaseRef(id: string)
    | MetricRef(metric: MetricKey) | EventRef(index: nat) | ArtifactRef(id: string)

  const UNIT_SEPARATOR := '\U{001F}'

  function MetricFields(p: MetricPoint): seq<string> {
    [p.name, Decimal(p.bucketStart), p.machineId, p.profileId, Decimal(p.platform),
     p.domain, p.action, p.statusClass, p.errorClass]
  }

  function MetricPointId(p: MetricPoint): string {
    Join(MetricFields(p), UNIT_SEPARATOR)
  }

  /** An event without an id is stored under its time and its position in the log. */
  function EventRowId(e: Event, index: nat): string {
    if e.eventId == "" then Decimal(e.observedAt) + ":" + Decimal(index) else e.eventId
  }

  predicate InState(s: State, r: Ref) {
    match r
    case MachineRef(id) => id in s.machines
    case ProfileRef(id) => id in s.profiles
    case BindingRef(k) => k in s.bindings
    case LeaseRef(id) => id in s.leases
    case MetricRef(k) => k in s.metrics
    case EventRef(i) => i < |s.events|
    case ArtifactRef(id) => id in s.artifacts
  }

  function Refs(s: State): (refs: set<Ref>)
    ensures forall r :: r in refs <==> InState(s, r)
  {
    (set id | id in s.machines :: MachineRef(id)) + (set id | id in s.profiles :: ProfileRef(id))
    + (set k | k in s.bindings :: BindingRef(k)) + (set id | id in s.leases :: LeaseRef(id))
    + (set k | k in s.metrics :: MetricRef(k)) + (set i: nat | i < |s.events| :: EventRef(i))
    + (set id | id in s.artifacts :: ArtifactRef(id))
  }

  function RowOf(s: State, r: Ref): RowId
    requires InState(s, r)
  {
    match r
    case MachineRef(id) => RowId(MachineKind, s.machines[id].machineId)
    case ProfileRef(id) => RowId(ProfileKind, s.profiles[id].profileId)
    case BindingRef(k) => RowId(BindingKind, s.bindings[k].bindingId)
    case LeaseRef(id) => RowId(LeaseKind, s.leases[id].leaseId)
    case MetricRef(k) => RowId(MetricKind, MetricPointId(s.metrics[k]))
    case EventRef(i) => RowId(EventKind, EventRowId(s.events[i], i))
    case ArtifactRef(id) => RowId(ArtifactKind, s.artifacts[id].artifactId)
  }

  function PayloadOf(s: State, r: Ref): Payload
    requires InState(s, r)
  {
    match r
    case MachineRef(id) => MachineRow(s.machines[id])
    case ProfileRef(id) => ProfileRow(s.profiles[id])
    case BindingRef(k) => BindingRow(s.bindings[k])
    case LeaseRef(id) => LeaseRow(s.leases[id])
    case MetricRef(k) => MetricRow(s.metrics[k])
    case EventRef(i) => EventRow(s.events[i])
    case ArtifactRef(id) => ArtifactRow(s.artifacts[id])
  }

  /** The row each record is stored under. */
  function Names(s: State): (names: map<Ref, RowId>)
    ensures names.Keys == Refs(s)
  {
    map r | r in Refs(s) :: RowOf(s, r)
  }

  ghost predicate Injective(names: map<Ref, RowId>) {
    forall a, b :: a in names && b in names && names[a] == names[b] ==> a == b
  }

  /** No two records share a row, so no insert violates the primary key. */
  ghost predicate Distinct(s: State) {
    Injective(Names(s))
  }

  function Payloads(s: State): (payloads: map<Ref, Payload>)
    ensures payloads.Keys == Refs(s)
  {
    map r | r in Refs(s) :: PayloadOf(s, r)
  }

  ghost function Rows(names: map<Ref, RowId>, payloads: map<Ref, Payload>): Table
    requires names.Keys == payloads.Keys && Injective(names)
  {
    map r | r in names :: names[r] := payloads[r]
  }

  ghost function Image(s: State): Table
    requires Distinct(s)
  {
    Rows(Names(s), Payloads(s))
  }

  /** `rows` holds exactly the records in `done`, and no two of them share a row. */
  ghost predicate Written(rows: Table, names: map<Ref, RowId>, payloads: map<Ref, Payload>, done: set<Ref>)
    requires names.Keys == payloads.Keys && done <= names.Keys
  {
    && (forall a, b :: a in done && b in done && names[a] == names[b] ==> a == b)
    && (forall r :: r in done ==> names[r] in rows && rows[names[r]] == payloads[r])
    && forall row :: row in rows ==> exists r :: r in done && names[r] == row
  }

  lemma WrittenOneMore(rows: Table, names: map<Ref, RowId>, payloads: map<Ref, Payload>, done: set<Ref>, r: Ref)
    requires names.Keys == payloads.Keys && done <= names.Keys && r in names && r !in done
    requires Written(rows, names, payloads, done)
    ensures names[r] in rows ==> !Injective(names)
    ensures names[r] !in rows ==> Written(rows[names[r] := payloads[r]], names, payloads, done + {r}) == true
  {
  }

  lemma WrittenAll(rows: Table, names: map<Ref, RowId>, payloads: map<Ref, Payload>)
    requires names.Keys == payloads.Keys && Written(rows, names, payloads, names.Keys)
    ensures Injective(names) && rows == Rows(names, payloads)
  {
    var image := Rows(names, payloads);
    assert forall row :: row in rows ==> row in image && rows[row] == image[row];
    assert forall row :: row in image ==> row in rows;
  }

  /** Inserts every record, in any order; the first duplicate row abandons the transaction. */
  method InsertAll(names: map<Ref, RowId>, payloads: map<Ref, Payload>) returns (table: Option<Table>)
    requires names.Keys == payloads.Keys
    ensures table.Some? == Injective(names)
    ensures table.Some? ==> table.value == Rows(names, payloads)
  {
    var rows: Table := map[];
    var rest := names.Keys;
    while rest != {}
      invariant rest <= names.Keys && Written(rows, names, payloads, names.Keys - rest) == true
      decreases |rest|
    {
      var r :| r in rest;
      WrittenOneMore(rows, names, payloads, names.Keys - rest, r);
      if names[r] in rows {
        return None;
      }
      assert names.Keys - rest + {r} == names.Keys - (rest - {r});
      rows := rows[names[r] := payloads[r]];
      rest := rest - {r};
    }
    assert names.Keys - {} == names.Keys;
    WrittenAll(rows, names, payloads);
    table := Some(rows);
  }

  /** Writing succeeds exactly when all row ids differ, and then stores the state's image. */
  method WriteAll(s: State) returns (table: Option<Table>)
    ensures table.Some? <==> Distinct(s)
    ensures table.Some? ==> table.value == Image(s)
  {
    table := InsertAll(Names(s), Payloads(s));
  }

  // ---------- loading ----------

  function Absorb(s: State, p: Payload): State {
    match p
    case MachineRow(m) => s.(machines := s.machines[m.machineId := m])
    case ProfileRow(p) => s.(profiles := s.profiles[p.profileId := p])
    case BindingRow(b) =>
      (match KeyOf(b.platform, b.accountId)
       case Some(k) => s.(bindings := s.bindings[k := b])
       case None => s)
    case LeaseRow(l) => s.(leases := s.leases[l.leaseId := l])
    case MetricRow(p) => s.(metrics := s.metrics[KeyOfPoint(p) := p])
    case EventRow(e) => s.(events := s.events + [e])
    case ArtifactRow(a) => s.(artifacts := s.artifacts[a.artifactId := a])
  }

  /** The order in which the store hands its rows out. */
  ghost predicate Enumerates(order: seq<RowId>, table: Table) {
    && (forall row :: row in order <==> row in table)
    && forall i, j :: 0 <= i < j < |order| ==> order[i] != order[j]
  }

  function Loaded(table: Table, order: seq<RowId>): State
    requires forall row :: row in order ==> row in table
  {
    if order == [] then EMPTY
    else Absorb(Loaded(table, order[..|order| - 1]), table[order[|order| - 1]])
  }

  method LoadAll(table: Table, order: seq<RowId>) returns (s: State)
    requires forall row :: row in order ==> row in table
    ensures s == Loaded(table, order)
  {
    s := EMPTY;
    for i := 0 to |order|
      invariant s == Loaded(table, order[..i])
    {
      assert order[..i + 1][..i] == order[..i];
      s := Absorb(s, table[order[i]]);
    }
    assert order[..|order|] == order;
  }

  // ---------- what comes back ----------

  /** Equal except for the order of the event log. */
  ghost predicate Same(s: State, t: State) {
    t == s.(events := t.events) && multiset(t.events) == multiset(s.events)
  }

  /** Every record sits under the key that loading will derive from it. */
  ghost predicate SelfKeyed(s: State) {
    KeysMatch(s) && Stocked(s)
    && forall k :: k in s.bindings ==>
         IsKey(k) && s.bindings[k].platform == k.platform && s.bindings[k].accountId == k.accountId
  }

  ghost predicate Unique(refs: seq<Ref>) {
    forall i, j :: 0 <= i < j < |refs| ==> refs[i] != refs[j]
  }

  ghost predicate From(s: State, refs: seq<Ref>) {
    forall r :: r in refs ==> InState(s, r)
  }

  ghost function LoadedRefs(s: State, refs: seq<Ref>): State
    requires From(s, refs)
  {
    if refs == [] then EMPTY
    else Absorb(LoadedRefs(s, refs[..|refs| - 1]), PayloadOf(s, refs[|refs| - 1]))
  }

  ghost function MachinesIn(s: State, refs: set<Ref>): map<string, Machine> {
    map id | id in s.machines && MachineRef(id) in refs :: s.machines[id]
  }

  ghost function ProfilesIn(s: State, refs: set<Ref>): map<string, Profile> {
    map id | id in s.profiles && ProfileRef(id) in refs :: s.profiles[id]
  }

  ghost function BindingsIn(s: State, refs: set<Ref>): map<AccountKey, Binding> {
    map k | k in s.bindings && BindingRef(k) in refs :: s.bindings[k]
  }

  ghost function LeasesIn(s: State, refs: set<Ref>): map<string, Lease> {
    map id | id in s.leases && LeaseRef(id) in refs :: s.leases[id]
  }

  ghost function MetricsIn(s: State, refs: set<Ref>): map<MetricKey, MetricPoint> {
    map k | k in s.metrics && MetricRef(k) in refs :: s.metrics[k]
  }

  ghost function ArtifactsIn(s: State, refs: set<Ref>): map<string, Artifact> {
    map id | id in s.artifacts && ArtifactRef(id) in refs :: s.artifacts[id]
  }

  /** The records of `s` named in `refs`, leaving out the log. */
  ghost function Part(s: State, refs: set<Ref>): State {
    State(MachinesIn(s, refs), ProfilesIn(s, refs), BindingsIn(s, refs), LeasesIn(s, refs), MetricsIn(s, refs), [],
          ArtifactsIn(s, refs))
  }

  /** The event at `i`, if `refs` names it. */
  ghost function Named(s: State, refs: set<Ref>, i: nat): multiset<Event>
    requires i < |s.events|
  {
    if EventRef(i) in refs then multiset{s.events[i]} else multiset{}
  }

  /** The events among the first `n` that are named in `refs`. */
  ghost function Bag(s: State, refs: set<Ref>, n: nat): multiset<Event>
    requires n <= |s.events|
  {
    if n == 0 then multiset{} else Bag(s, refs, n - 1) + Named(s, refs, n - 1)
  }

  /** What the record `r` adds to the bag of the first `n` events. */
  ghost function Share(s: State, r: Ref, n: nat): multiset<Event>
    requires InState(s, r)
  {
    if r.EventRef? && r.index < n then multiset{s.events[r.index]} else multiset{}
  }

  /** The new record's share arrives at its own event, and only there. */
  lemma ShareArrives(s: State, refs: set<Ref>, r: Ref, n: nat)
    requires InState(s, r) && r !in refs && 0 < n <= |s.events|
    ensures if r == EventRef(n - 1)
            then Share(s, r, n - 1) == multiset{} && Named(s, refs, n - 1) == multiset{}
                && Named(s, refs + {r}, n - 1) == Share(s, r, n)
            else Share(s, r, n - 1) == Share(s, r, n) && Named(s, refs + {r}, n - 1) == Named(s, refs, n - 1)
  {
    assert EventRef(n - 1) in refs + {r} <==> EventRef(n - 1) in refs || EventRef(n - 1) == r;
  }

  lemma Swap(a: multiset<Event>, b: multiset<Event>, c: multiset<Event>)
    ensures a + b + c == a + c + b
  {
  }

  lemma {:induction false} BagGrows(s: State, refs: set<Ref>, r: Ref, n: nat)
    requires InState(s, r) && r !in refs && n <= |s.events|
    ensures Bag(s, refs + {r}, n) == Bag(s, refs, n) + Share(s, r, n)
  {
    if n > 0 {
      BagGrows(s, refs, r, n - 1);
      ShareArrives(s, refs, r, n);
      if r == EventRef(n - 1) {
        Swap(Bag(s, refs, n - 1), multiset{}, Share(s, r, n));
      } else {
        Swap(Bag(s, refs, n - 1), Share(s, r, n), Named(s, refs, n - 1));
      }
    }
  }

  lemma {:induction false} BagIsLog(s: State, refs: set<Ref>, n: nat)
    requires n <= |s.events| && forall i: nat :: i < n ==> EventRef(i) in refs
    ensures Bag(s, refs, n) == multiset(s.events[..n])
  {
    if n > 0 {
      BagIsLog(s, refs, n - 1);
      assert s.events[..n] == s.events[..n - 1] + [s.events[n - 1]];
    }
  }

  lemma {:induction false} BagOfNothing(s: State, n: nat)
    requires n <= |s.events|
    ensures Bag(s, {}, n) == multiset{}
  {
    if n > 0 {
      BagOfNothing(s, n - 1);
    }
  }

  lemma MachinesGrow(s: State, refs: set<Ref>, r: Ref)
    requires InState(s, r)
    ensures MachinesIn(s, refs + {r}) == if r.MachineRef? then MachinesIn(s, refs)[r.id := s.machines[r.id]]
            else MachinesIn(s, refs)
  {
  }

  lemma ProfilesGrow(s: State, refs: set<Ref>, r: Ref)
    requires InState(s, r)
    ensures ProfilesIn(s, refs + {r}) == if r.ProfileRef? then ProfilesIn(s, refs)[r.id := s.profiles[r.id]]
            else ProfilesIn(s, refs)
  {
  }

  lemma BindingsGrow(s: State, refs: set<Ref>, r: Ref)
    requires InState(s, r)
    ensures BindingsIn(s, refs + {r}) == if r.BindingRef? then BindingsIn(s, refs)[r.key := s.bindings[r.key]]
            else BindingsIn(s, refs)
  {
  }

  lemma LeasesGrow(s: State, refs: set<Ref>, r: Ref)
    requires InState(s, r)
    ensures LeasesIn(s, refs + {r}) == if r.LeaseRef? then LeasesIn(s, refs)[r.id := s.leases[r.id]]
            else LeasesIn(s, refs)
  {
  }

  lemma MetricsGrow(s: State, refs: set<Ref>, r: Ref)
    requires InState(s, r)
    ensures MetricsIn(s, refs + {r}) == if r.MetricRef? then MetricsIn(s, refs)[r.metric := s.metrics[r.metric]]
            else MetricsIn(s, refs)
  {
  }

  lemma ArtifactsGrow(s: State, refs: set<Ref>, r: Ref)
    requires InState(s, r)
    ensures ArtifactsIn(s, refs + {r}) == if r.ArtifactRef? then ArtifactsIn(s, refs)[r.id := s.artifacts[r.id]]
            else ArtifactsIn(s, refs)
  {
  }

  lemma AbsorbExtendsPart(s: State, refs: set<Ref>, r: Ref)
    requires SelfKeyed(s) && InState(s, r)
    ensures Absorb(Part(s, refs), PayloadOf(s, r)).(events := []) == Part(s, refs + {r})
  {
    MachinesGrow(s, refs, r);
    ProfilesGrow(s, refs, r);
    BindingsGrow(s, refs, r);
    LeasesGrow(s, refs, r);
    MetricsGrow(s, refs, r);
    ArtifactsGrow(s, refs, r);
  }

  lemma AbsorbIgnoresLog(s: State, p: Payload)
    ensures Absorb(s, p).(events := []) == Absorb(s.(events := []), p).(events := [])
    ensures Absorb(s, p).events == s.events + if p.EventRow? then [p.event] else []
  {
  }

  ghost function Members(refs: seq<Ref>): set<Ref> {
    set r | r in refs
  }

  ghost predicate IsPart(s: State, t: State, refs: set<Ref>) {
    t.(events := []) == Part(s, refs) && multiset(t.events) == Bag(s, refs, |s.events|)
  }

  lemma AbsorbKeepsPart(s: State, t: State, refs: set<Ref>, r: Ref)
    requires SelfKeyed(s) && InState(s, r) && r !in refs && IsPart(s, t, refs)
    ensures IsPart(s, Absorb(t, PayloadOf(s, r)), refs + {r})
  {
    AbsorbIgnoresLog(t, PayloadOf(s, r));
    AbsorbExtendsPart(s, refs, r);
    BagGrows(s, refs, r, |s.events|);
  }

  lemma MembersOfInit(refs: seq<Ref>)
    requires refs != [] && Unique(refs)
    ensures Members(refs) == Members(refs[..|refs| - 1]) + {refs[|refs| - 1]}
            && refs[|refs| - 1] !in Members(refs[..|refs| - 1])
  {
    assert refs == refs[..|refs| - 1] + [refs[|refs| - 1]];
  }

  lemma EmptyIsPart(s: State)
    ensures IsPart(s, EMPTY, {})
  {
    BagOfNothing(s, |s.events|);
    assert Part(s, {}) == EMPTY;
  }

  lemma {:induction false} LoadedIsPart(s: State, refs: seq<Ref>)
    requires SelfKeyed(s) && From(s, refs) && Unique(refs)
    ensures IsPart(s, LoadedRefs(s, refs), Members(refs)) == true
  {
    if refs == [] {
      EmptyIsPart(s);
      assert Members(refs) == {};
    } else {
      var init, r := refs[..|refs| - 1], refs[|refs| - 1];
      LoadedIsPart(s, init);
      MembersOfInit(refs);
      AbsorbKeepsPart(s, LoadedRefs(s, init), Members(init), r);
    }
  }

  lemma MachinesInAll(s: State)
    ensures MachinesIn(s, Refs(s)) == s.machines
  {
    assert forall k :: k in s.machines ==> InState(s, MachineRef(k));
  }

  lemma ProfilesInAll(s: State)
    ensures ProfilesIn(s, Refs(s)) == s.profiles
  {
    assert forall k :: k in s.profiles ==> InState(s, ProfileRef(k));
  }

  lemma BindingsInAll(s: State)
    ensures BindingsIn(s, Refs(s)) == s.bindings
  {
    assert forall k :: k in s.bindings ==> InState(s, BindingRef(k));
  }

  lemma LeasesInAll(s: State)
    ensures LeasesIn(s, Refs(s)) == s.leases
  {
    assert forall k :: k in s.leases ==> InState(s, LeaseRef(k));
  }

  lemma MetricsInAll(s: State)
    ensures MetricsIn(s, Refs(s)) == s.metrics
  {
    assert forall k :: k in s.metrics ==> InState(s, MetricRef(k));
  }

  lemma ArtifactsInAll(s: State)
    ensures ArtifactsIn(s, Refs(s)) == s.artifacts
  {
    assert forall k :: k in s.artifacts ==> InState(s, ArtifactRef(k));
  }

  lemma PartOfAll(s: State)
    ensures Part(s, Refs(s)) == s.(events := [])
  {
    MachinesInAll(s);
    ProfilesInAll(s);
    BindingsInAll(s);
    LeasesInAll(s);
    MetricsInAll(s);
    ArtifactsInAll(s);
  }

  lemma LoadedAllIsSame(s: State, refs: seq<Ref>)
    requires SelfKeyed(s) && From(s, refs) && Unique(refs) && Members(refs) == Refs(s)
    ensures Same(s, LoadedRefs(s, refs))
  {
    LoadedIsPart(s, refs);
    PartOfAll(s);
    BagIsLog(s, Refs(s), |s.events|);
    assert s.events[..|s.events|] == s.events;
  }

  lemma RowHoldsPayload(names: map<Ref, RowId>, payloads: map<Ref, Payload>, r: Ref)
    requires names.Keys == payloads.Keys && Injective(names) && r in names
    ensures names[r] in Rows(names, payloads) && Rows(names, payloads)[names[r]] == payloads[r]
  {
  }

  /** Row by row, `table` holds the payloads of `refs`. */
  ghost predicate Holds(s: State, table: Table, order: seq<RowId>, refs: seq<Ref>) {
    |refs| == |order| &&
    forall i :: 0 <= i < |order| ==>
      order[i] in table && InState(s, refs[i]) && table[order[i]] == PayloadOf(s, refs[i])
  }

  lemma {:induction false} RowsLoadAsRefs(s: State, table: Table, order: seq<RowId>, refs: seq<Ref>)
    requires Holds(s, table, order, refs)
    ensures From(s, refs) && Loaded(table, order) == LoadedRefs(s, refs)
  {
    if order != [] {
      RowsLoadAsRefs(s, table, order[..|order| - 1], refs[..|refs| - 1]);
    }
  }

  ghost function RefOf(names: map<Ref, RowId>, row: RowId): (r: Ref)
    requires exists r :: r in names && names[r] == row
    ensures r in names && names[r] == row
  {
    var r :| r in names && names[r] == row; r
  }

  /** The records behind a sequence of rows. */
  lemma RowsAreRefs(s: State, order: seq<RowId>) returns (refs: seq<Ref>)
    requires Distinct(s) && Enumerates(order, Image(s))
    ensures |refs| == |order| && forall i :: 0 <= i < |refs| ==> refs[i] in Names(s) && Names(s)[refs[i]] == order[i]
    ensures Holds(s, Image(s), order, refs)
  {
    var names := Names(s);
    assert forall i :: 0 <= i < |order| ==> order[i] in Image(s);
    refs := seq(|order|, i requires 0 <= i < |order| => RefOf(names, order[i]));
    forall i | 0 <= i < |order|
      ensures InState(s, refs[i]) && Image(s)[order[i]] == PayloadOf(s, refs[i])
    {
      RowHoldsPayload(names, Payloads(s), refs[i]);
    }
  }

  lemma EveryRowEveryRef(names: map<Ref, RowId>, payloads: map<Ref, Payload>, order: seq<RowId>, refs: seq<Ref>)
    requires names.Keys == payloads.Keys && Injective(names) && Enumerates(order, Rows(names, payloads))
    requires |refs| == |order| && forall i :: 0 <= i < |refs| ==> refs[i] in names && names[refs[i]] == order[i]
    ensures Unique(refs) && Members(refs) == names.Keys
  {
    forall r | r in names
      ensures r in refs
    {
      assert names[r] in Rows(names, payloads);
      var i :| 0 <= i < |order| && order[i] == names[r];
      assert refs[i] == r;
    }
  }

  /** Loading what was written, in whatever order the rows come, restores every map exactly and
      the event log up to order. */
  lemma LoadUndoesWrite(s: State, order: seq<RowId>)
    requires SelfKeyed(s) && Distinct(s) && Enumerates(order, Image(s))
    ensures Same(s, Loaded(Image(s), order))
  {
    var refs := RowsAreRefs(s, order);
    RowsLoadAsRefs(s, Image(s), order, refs);
    EveryRowEveryRef(Names(s), Payloads(s), order, refs);
    LoadedAllIsSame(s, refs);
  }
}
