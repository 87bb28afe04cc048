/** What registrations, heartbeats and sweeps do to machines, profiles and the binding index, field by
    field. */
module CheckinLaws {
  import opened Options
  import opened Messages
  import opened Strings
  import opened Registry
  import opened Operations
  import opened LeaseLaws
  import Invariants

  // ---------- one reported profile ----------

  /** Two profiles would list the same account. */
  ghost predicate Clashes(s: State, p: Profile, a: Account) {
    && a in p.accounts && a.platform != PLATFORM_UNSPECIFIED && a.accountId != ""
    && exists id, b :: id in s.profiles && id != p.profileId && b in s.profiles[id].accounts
                       && b.platform == a.platform && b.accountId == a.accountId
  }

  lemma ConflictIsClash(s: State, p: Profile)
    requires Indexed(s)
    ensures Conflicts(s, p) <==> exists a :: Clashes(s, p, a)
  {
    forall k | IsKey(k)
      ensures k in s.bindings && s.bindings[k].profileId != p.profileId <==>
                exists id :: id in s.profiles && id != p.profileId && HasAccount(s.profiles[id], k)
    {
      if k in s.bindings && s.bindings[k].profileId != p.profileId {
        assert HasAccount(s.profiles[s.bindings[k].profileId], k);
      }
    }
    if Conflicts(s, p) {
      var k :| k in AccountKeys(p) && k in s.bindings && s.bindings[k].profileId != p.profileId;
      ConflictShowsClash(s, p, k);
    }
    forall a | Clashes(s, p, a)
      ensures Conflicts(s, p)
    {
      ClashShowsConflict(s, p, a);
    }
  }

  lemma ConflictShowsClash(s: State, p: Profile, k: AccountKey)
    requires Indexed(s) && k in AccountKeys(p) && k in s.bindings && s.bindings[k].profileId != p.profileId
    ensures exists a :: Clashes(s, p, a)
  {
    var a :| a in p.accounts && AccountKey(a.platform, a.accountId) == k;
    var id := s.bindings[k].profileId;
    assert HasAccount(s.profiles[id], k);
    var b :| b in s.profiles[id].accounts && IsFor(b, k);
    assert Clashes(s, p, a);
  }

  lemma ClashShowsConflict(s: State, p: Profile, a: Account)
    requires Indexed(s) && Clashes(s, p, a)
    ensures Conflicts(s, p)
  {
    var k := AccountKey(a.platform, a.accountId);
    var id, b :| id in s.profiles && id != p.profileId && b in s.profiles[id].accounts
                 && b.platform == a.platform && b.accountId == a.accountId;
    assert IsFor(b, k) && HasAccount(s.profiles[id], k);
    assert k in AccountKeys(p);
  }

  /** The status that is stored: quarantined, broken and launching profiles keep theirs, leased ones
      stay leased, and only then does the report count. */
  ghost predicate StatusRule(s: State, p: Profile, stored: int) {
    if p.profileId in s.profiles
       && s.profiles[p.profileId].status in {PROFILE_QUARANTINED, PROFILE_BROKEN, PROFILE_LAUNCHING}
    then stored == s.profiles[p.profileId].status
    else if exists l :: l in s.leases && s.leases[l].profileId == p.profileId then stored == PROFILE_LEASED
    else if p.status == PROFILE_UNSPECIFIED then stored == PROFILE_AVAILABLE
    else stored == p.status
  }

  /** The stored record is the reported one but for who reported it, the status rule and the time. */
  ghost predicate StoredAs(s: State, p: Profile, reporter: string, now: int, q: Profile) {
    && q.profileId == p.profileId && q.machineId == reporter && q.cdpUrl == p.cdpUrl
    && q.accounts == p.accounts && q.labels == p.labels
    && q.lastSeen == (if p.lastSeen == 0 then now else p.lastSeen)
    && StatusRule(s, p, q.status)
  }

  /** The last account of the profile for the key. */
  predicate LastFor(accounts: seq<Account>, i: int, k: AccountKey) {
    && 0 <= i < |accounts| && accounts[i].platform == k.platform && accounts[i].accountId == k.accountId
    && forall j :: i < j < |accounts| ==> accounts[j].platform != k.platform || accounts[j].accountId != k.accountId
  }

  /** The index entry that account `i` of the stored profile is given. */
  ghost predicate EntryFor(s: State, q: Profile, i: int, b: Binding)
    requires 0 <= i < |q.accounts|
  {
    && b.profileId == q.profileId && b.machineId == q.machineId && b.platform == q.accounts[i].platform
    && b.accountId == q.accounts[i].accountId
    && b.handle == q.accounts[i].handle && b.accountHealth == q.accounts[i].health
    && b.profileStatus == q.status && b.cdpUrl == q.cdpUrl && b.lastSeen == q.lastSeen
    && b.bindingId == Decimal(b.platform) + ":" + b.accountId
    && b.agentGrpcAddr == if q.machineId in s.machines then s.machines[q.machineId].agentGrpcAddr else ""
  }

  lemma {:induction false} LastAccountIsLast(accounts: seq<Account>, i: int, k: AccountKey)
    requires LastFor(accounts, i, k)
    ensures exists a :: a in accounts && IsFor(a, k)
    ensures LastAccount(accounts, k) == accounts[i]
    decreases |accounts|
  {
    assert accounts[i] in accounts && IsFor(accounts[i], k);
    if i < |accounts| - 1 {
      LastAccountIsLast(accounts[..|accounts| - 1], i, k);
    }
  }

  /** The index afterwards: an entry per valid account of the stored profile, and the others' entries. */
  ghost predicate IndexedAs(s: State, q: Profile, t: State) {
    && (forall i, k :: IsKey(k) && LastFor(q.accounts, i, k) ==> k in t.bindings && EntryFor(s, q, i, t.bindings[k]))
    && (forall k :: k in s.bindings && s.bindings[k].profileId != q.profileId ==>
          k in t.bindings && t.bindings[k] == s.bindings[k])
    && (forall k :: k in t.bindings ==>
          || (k in s.bindings && s.bindings[k].profileId != q.profileId)
          || (k.platform != PLATFORM_UNSPECIFIED && k.accountId != ""
              && exists a :: a in q.accounts && a.platform == k.platform && a.accountId == k.accountId))
  }

  lemma StoredEntry(s: State, q: Profile, i: int, k: AccountKey)
    requires IsKey(k) && LastFor(q.accounts, i, k)
    ensures k in Stored(s, q).bindings && EntryFor(s, q, i, Stored(s, q).bindings[k])
  {
    LastAccountIsLast(q.accounts, i, k);
    Invariants.AccountKeysAreAccounts(q, k);
  }

  lemma IndexLaw(s: State, q: Profile)
    requires !Conflicts(s, q)
    ensures IndexedAs(s, q, Stored(s, q)) == true
  {
    var t := Stored(s, q);
    forall i, k | IsKey(k) && LastFor(q.accounts, i, k)
      ensures k in t.bindings && EntryFor(s, q, i, t.bindings[k])
    {
      StoredEntry(s, q, i, k);
    }
  }

  lemma ReportedLaw(s: State, p: Profile, reporter: string, now: int)
    ensures StoredAs(s, p, reporter, now, Reported(s, p, reporter, now)) == true
  {
  }

  /** Storing one reported profile: it is refused without an id or from another machine, refused when
      another profile lists one of its accounts, and otherwise stored and indexed. */
  lemma UpsertLaw(s: State, p: Profile, reporter: string, now: int)
    requires Indexed(s)
    ensures var r := Upsert(s, p, reporter, now);
            && (p.profileId == "" || (p.machineId != "" && p.machineId != reporter) ==> r == Err(InvalidArgument))
            && (p.profileId != "" && (p.machineId == "" || p.machineId == reporter) ==>
                  if exists a :: Clashes(s, p, a) then r == Err(AlreadyExists)
                  else r.Ok? && UpsertedAs(s, p, reporter, now, r.value) == true)
  {
    var q := Reported(s, p, reporter, now);
    ReportedLaw(s, p, reporter, now);
    ConflictIsClash(s, q);
    assert forall a :: Clashes(s, p, a) == Clashes(s, q, a);
    if !Conflicts(s, q) {
      IndexLaw(s, q);
    }
  }

  ghost predicate UpsertedAs(s: State, p: Profile, reporter: string, now: int, t: State) {
    && p.profileId in t.profiles && StoredAs(s, p, reporter, now, t.profiles[p.profileId])
    && t.profiles == s.profiles[p.profileId := t.profiles[p.profileId]]
    && IndexedAs(s, t.profiles[p.profileId], t)
    && t == s.(profiles := t.profiles, bindings := t.bindings)
  }

  // ---------- all reported profiles ----------

  /** Reports are stored one after the other, and the first that cannot be ends it. */
  lemma {:induction false} UpsertAllLaw(s: State, profiles: seq<Profile>, last: Profile, reporter: string, now: int)
    ensures UpsertAll(s, [], reporter, now) == Ok(s)
    ensures UpsertAll(s, profiles + [last], reporter, now) ==
            match UpsertAll(s, profiles, reporter, now)
            case Err(code) => Err(code)
            case Ok(t) => Upsert(t, last, reporter, now)
    decreases |profiles|
  {
    if profiles == [] {
      assert profiles + [last] == [last] && [last][1..] == [];
    } else {
      assert (profiles + [last])[1..] == profiles[1..] + [last];
      var first := Upsert(s, profiles[0], reporter, now);
      if first.Ok? {
        UpsertAllLaw(first.value, profiles[1..], last, reporter, now);
      }
    }
  }

  lemma {:induction false} AllUpsertsKeepIndex(s: State, profiles: seq<Profile>, reporter: string, now: int)
    requires Indexed(s) && UpsertAll(s, profiles, reporter, now).Ok?
    ensures Indexed(UpsertAll(s, profiles, reporter, now).value) == true
    decreases |profiles|
  {
    if profiles != [] {
      Invariants.StoredKeepsIndex(s, Reported(s, profiles[0], reporter, now));
      AllUpsertsKeepIndex(Upsert(s, profiles[0], reporter, now).value, profiles[1..], reporter, now);
    }
  }

  /** No later report names the same profile. */
  predicate IsLast(profiles: seq<Profile>, i: int) {
    0 <= i < |profiles| && forall j :: i < j < |profiles| ==> profiles[j].profileId != profiles[i].profileId
  }

  /** No other report names the same profile. */
  predicate IsOnly(profiles: seq<Profile>, i: int) {
    0 <= i < |profiles| && forall j :: 0 <= j < |profiles| && j != i ==> profiles[j].profileId != profiles[i].profileId
  }

  predicate IsReported(profiles: seq<Profile>, id: string) {
    exists i :: 0 <= i < |profiles| && profiles[i].profileId == id
  }

  ghost predicate LastOnesStored(t: State, profiles: seq<Profile>, reporter: string, now: int) {
    forall i :: IsLast(profiles, i) ==> StoresReport(t, profiles[i], reporter, now)
  }

  ghost predicate UnreportedStay(s: State, t: State, profiles: seq<Profile>) {
    forall id :: !IsReported(profiles, id) ==>
      (id in t.profiles <==> id in s.profiles) && (id in t.profiles ==> t.profiles[id] == s.profiles[id])
  }

  ghost predicate StatusesFollow(s: State, t: State, profiles: seq<Profile>) {
    forall i :: IsOnly(profiles, i) ==>
      profiles[i].profileId in t.profiles && StatusRule(s, profiles[i], t.profiles[profiles[i].profileId].status)
  }

  lemma StoringOneMore(u: State, t: State, init: seq<Profile>, last: Profile, reporter: string, now: int)
    requires LastOnesStored(u, init, reporter, now) && UpsertedAs(u, last, reporter, now, t)
    ensures LastOnesStored(t, init + [last], reporter, now) == true
  {
    var all := init + [last];
    forall i | IsLast(all, i)
      ensures StoresReport(t, all[i], reporter, now)
    {
      if i < |init| {
        assert all[|init|].profileId != all[i].profileId;
        assert forall j :: i < j < |init| ==> all[j] == init[j];
        assert IsLast(init, i);
      }
    }
  }

  lemma StayingOneMore(s: State, u: State, t: State, init: seq<Profile>, last: Profile, reporter: string, now: int)
    requires UnreportedStay(s, u, init) && UpsertedAs(u, last, reporter, now, t)
    ensures UnreportedStay(s, t, init + [last]) == true
  {
    var all := init + [last];
    forall id | !IsReported(all, id)
      ensures id != last.profileId && !IsReported(init, id)
    {
      assert all[|init|] == last;
      assert forall i :: 0 <= i < |init| ==> all[i] == init[i];
    }
  }

  lemma FollowingOneMore(s: State, u: State, t: State, init: seq<Profile>, last: Profile, reporter: string, now: int)
    requires StatusesFollow(s, u, init) && UnreportedStay(s, u, init) && UpsertedAs(u, last, reporter, now, t)
    requires u.leases == s.leases
    ensures StatusesFollow(s, t, init + [last]) == true
  {
    var all := init + [last];
    forall i | IsOnly(all, i)
      ensures all[i].profileId in t.profiles && StatusRule(s, all[i], t.profiles[all[i].profileId].status)
    {
      if i < |init| {
        assert all[|init|].profileId != all[i].profileId;
        assert forall j :: 0 <= j < |init| ==> all[j] == init[j];
        assert IsOnly(init, i);
      } else {
        assert forall j :: 0 <= j < |init| ==> all[j] == init[j] && all[j].profileId != last.profileId;
        assert !IsReported(init, last.profileId);
      }
    }
  }

  /** Each report is what is stored in the end, unless a later one names the same profile; its status
      follows the rule if it is the only one; profiles that are not reported stay as they are. */
  lemma {:induction false} EveryReportIsStored(s: State, profiles: seq<Profile>, reporter: string, now: int)
    requires Indexed(s) && UpsertAll(s, profiles, reporter, now).Ok?
    ensures var t := UpsertAll(s, profiles, reporter, now).value;
            && LastOnesStored(t, profiles, reporter, now) == true
            && UnreportedStay(s, t, profiles) == true
            && StatusesFollow(s, t, profiles) == true
            && t == s.(profiles := t.profiles, bindings := t.bindings)
    decreases |profiles|
  {
    if profiles != [] {
      var init, last := profiles[..|profiles| - 1], profiles[|profiles| - 1];
      assert profiles == init + [last];
      UpsertAllLaw(s, init, last, reporter, now);
      EveryReportIsStored(s, init, reporter, now);
      AllUpsertsKeepIndex(s, init, reporter, now);
      var u, t := UpsertAll(s, init, reporter, now).value, UpsertAll(s, profiles, reporter, now).value;
      UpsertLaw(u, last, reporter, now);
      StoringOneMore(u, t, init, last, reporter, now);
      StayingOneMore(s, u, t, init, last, reporter, now);
      FollowingOneMore(s, u, t, init, last, reporter, now);
    }
  }

  ghost predicate StoresReport(t: State, p: Profile, reporter: string, now: int) {
    && p.profileId in t.profiles
    && var q := t.profiles[p.profileId];
       && q.profileId == p.profileId && q.machineId == reporter && q.cdpUrl == p.cdpUrl
       && q.accounts == p.accounts && q.labels == p.labels
       && q.lastSeen == (if p.lastSeen == 0 then now else p.lastSeen)
  }

  /** Well-formed reports that share no account with another profile, reported or stored. */
  ghost predicate Harmonious(s: State, profiles: seq<Profile>, reporter: string) {
    && (forall i :: 0 <= i < |profiles| ==>
          profiles[i].profileId != "" && (profiles[i].machineId == "" || profiles[i].machineId == reporter))
    && (forall i, a :: 0 <= i < |profiles| ==> !Clashes(s, profiles[i], a))
    && forall i, j, a, b ::
         0 <= i < |profiles| && 0 <= j < |profiles| && SharedAccount(profiles[i], profiles[j], a, b) ==>
           profiles[i].profileId == profiles[j].profileId
  }

  predicate SharedAccount(p: Profile, q: Profile, a: Account, b: Account) {
    && a in p.accounts && b in q.accounts && a.platform == b.platform && a.accountId == b.accountId
    && a.platform != PLATFORM_UNSPECIFIED && a.accountId != ""
  }

  /** A clash after a report was stored is one that was there before, or one with that report. */
  lemma ClashesBefore(s: State, p: Profile, reporter: string, now: int, t: State, q: Profile, a: Account)
    requires UpsertedAs(s, p, reporter, now, t)
    ensures Clashes(t, q, a) ==>
              Clashes(s, q, a) || (q.profileId != p.profileId && exists b :: SharedAccount(q, p, a, b))
  {
    if Clashes(t, q, a) {
      var id, b :| id in t.profiles && id != q.profileId && b in t.profiles[id].accounts
                   && b.platform == a.platform && b.accountId == a.accountId;
      if id == p.profileId {
        assert SharedAccount(q, p, a, b);
      } else {
        assert b in s.profiles[id].accounts;
      }
    }
  }

  lemma RestIsHarmonious(s: State, profiles: seq<Profile>, reporter: string, now: int, t: State)
    requires profiles != [] && Harmonious(s, profiles, reporter) && UpsertedAs(s, profiles[0], reporter, now, t)
    ensures Harmonious(t, profiles[1..], reporter) == true
  {
    var rest := profiles[1..];
    forall i, a | 0 <= i < |rest|
      ensures !Clashes(t, rest[i], a)
    {
      ClashesBefore(s, profiles[0], reporter, now, t, rest[i], a);
      assert rest[i] == profiles[i + 1];
      var p, q := profiles[0], profiles[i + 1];
      assert forall b :: SharedAccount(q, p, a, b) ==> q.profileId == p.profileId;
    }
    forall i, j, a, b | 0 <= i < |rest| && 0 <= j < |rest| && SharedAccount(rest[i], rest[j], a, b)
      ensures rest[i].profileId == rest[j].profileId
    {
      assert SharedAccount(profiles[i + 1], profiles[j + 1], a, b);
    }
  }

  /** Such reports are never refused. */
  lemma {:induction false} HarmoniousReportsAreStored(s: State, profiles: seq<Profile>, reporter: string, now: int)
    requires Indexed(s) && Harmonious(s, profiles, reporter)
    ensures UpsertAll(s, profiles, reporter, now).Ok?
    decreases |profiles|
  {
    if profiles != [] {
      assert forall a :: !Clashes(s, profiles[0], a);
      UpsertLaw(s, profiles[0], reporter, now);
      var t := Upsert(s, profiles[0], reporter, now).value;
      Invariants.StoredKeepsIndex(s, Reported(s, profiles[0], reporter, now));
      RestIsHarmonious(s, profiles, reporter, now, t);
      HarmoniousReportsAreStored(t, profiles[1..], reporter, now);
    }
  }

  // ---------- check-ins ----------

  /** The status rule at a time: what expires first does not count. */
  ghost predicate StatusRuleAt(s: State, p: Profile, now: int, stored: int) {
    if p.profileId in s.profiles
       && s.profiles[p.profileId].status in {PROFILE_QUARANTINED, PROFILE_BROKEN, PROFILE_LAUNCHING}
    then stored == s.profiles[p.profileId].status
    else if exists l :: Live(s, l, now) && s.leases[l].profileId == p.profileId then stored == PROFILE_LEASED
    else if p.status == PROFILE_UNSPECIFIED then stored == PROFILE_AVAILABLE
    else stored == p.status
  }

  /** A check-in is refused as a whole, or stores its machine and every reported profile; besides,
      only expiry happens. Harmonious reports are not refused. */
  ghost predicate CheckedIn(s: State, o: Outcome, m: Machine, profiles: seq<Profile>, now: int, response: Response) {
    && (Harmonious(s, profiles, m.machineId) ==> o.Commit?)
    && (o.Keep? ==> o.answer == Done(Failed(InvalidArgument)) || o.answer == Done(Failed(AlreadyExists)))
    && (o.Commit? ==> o.answer == Done(response) && CheckinStores(s, o.state, m, profiles, now))
  }

  ghost predicate CheckinStores(s: State, t: State, m: Machine, profiles: seq<Profile>, now: int) {
    && t.machines == s.machines[m.machineId := m]
    && LeasesKept(s, t, now, {})
    && t.metrics == s.metrics && t.events == s.events && t.artifacts == s.artifacts
    && LastOnesStored(t, profiles, m.machineId, now)
    && (forall i :: IsOnly(profiles, i) ==>
          && profiles[i].profileId in t.profiles
          && StatusRuleAt(s, profiles[i], now, t.profiles[profiles[i].profileId].status))
    && (forall id :: !IsReported(profiles, id) ==>
          (id in t.profiles <==> id in s.profiles) && (id in t.profiles ==> t.profiles[id] == Caught(s, id, now)))
  }

  lemma RuleAfterExpiry(s: State, x: State, p: Profile, now: int, stored: int)
    requires Kept(s, x, now, {}, {}) && StatusRule(x, p, stored)
    ensures StatusRuleAt(s, p, now, stored)
  {
    assert forall l :: l in x.leases <==> Live(s, l, now);
  }

  lemma StoringAfterExpiry(s: State, x: State, y: State, t: State, m: Machine, profiles: seq<Profile>, now: int)
    requires Kept(s, x, now, {}, {}) && y == x.(machines := x.machines[m.machineId := m])
    requires LastOnesStored(t, profiles, m.machineId, now) && UnreportedStay(y, t, profiles)
    requires StatusesFollow(y, t, profiles) && t == y.(profiles := t.profiles, bindings := t.bindings)
    ensures CheckinStores(s, t, m, profiles, now) == true
  {
    forall i | IsOnly(profiles, i)
      ensures StatusRuleAt(s, profiles[i], now, t.profiles[profiles[i].profileId].status)
    {
      var stored := t.profiles[profiles[i].profileId].status;
      assert StatusRule(x, profiles[i], stored);
      RuleAfterExpiry(s, x, profiles[i], now, stored);
    }
  }

  lemma ExpiryKeepsIndex(s: State, now: int)
    requires Indexed(s)
    ensures Indexed(Expire(s, now)) == true
  {
    Invariants.SameAccountsKeepIndex(s, Expire(s, now));
  }

  lemma {:induction false} UpsertCodes(s: State, profiles: seq<Profile>, reporter: string, now: int)
    ensures UpsertAll(s, profiles, reporter, now).Err? ==>
              UpsertAll(s, profiles, reporter, now).error in {InvalidArgument, AlreadyExists}
    decreases |profiles|
  {
    if profiles != [] && Upsert(s, profiles[0], reporter, now).Ok? {
      UpsertCodes(Upsert(s, profiles[0], reporter, now).value, profiles[1..], reporter, now);
    }
  }

  lemma ClashIgnoresExpiry(s: State, y: State, p: Profile, a: Account)
    requires y.profiles.Keys == s.profiles.Keys && Clashes(y, p, a)
    requires forall id :: id in y.profiles ==> y.profiles[id].accounts == s.profiles[id].accounts
    ensures Clashes(s, p, a)
  {
    var id, b :| id in y.profiles && id != p.profileId && b in y.profiles[id].accounts
                 && b.platform == a.platform && b.accountId == a.accountId;
    assert b in s.profiles[id].accounts;
  }

  lemma HarmonyIgnoresExpiry(s: State, y: State, profiles: seq<Profile>, reporter: string)
    requires Harmonious(s, profiles, reporter) && y.profiles.Keys == s.profiles.Keys
    requires forall id :: id in y.profiles ==> y.profiles[id].accounts == s.profiles[id].accounts
    ensures Harmonious(y, profiles, reporter) == true
  {
    forall i, a | 0 <= i < |profiles|
      ensures Clashes(y, profiles[i], a) ==> Clashes(s, profiles[i], a)
    {
      if Clashes(y, profiles[i], a) {
        ClashIgnoresExpiry(s, y, profiles[i], a);
      }
    }
  }

  lemma CommittedCheckin(s: State, m: Machine, profiles: seq<Profile>, now: int, response: Response)
    requires Indexed(s)
    ensures var x := Expire(s, now);
            var o := CommitUpserts(x.(machines := x.machines[m.machineId := m]), profiles, m.machineId, now, response);
            CheckedIn(s, o, m, profiles, now, response) == true
  {
    var x := Expire(s, now);
    var y := x.(machines := x.machines[m.machineId := m]);
    UpsertCodes(y, profiles, m.machineId, now);
    ExpiryKeepsIndex(s, now);
    SameIndex(x, y);
    if Harmonious(s, profiles, m.machineId) {
      HarmonyIgnoresExpiry(s, y, profiles, m.machineId);
      HarmoniousReportsAreStored(y, profiles, m.machineId, now);
    }
    if UpsertAll(y, profiles, m.machineId, now).Ok? {
      ExpiryLaw(s, now);
      EveryReportIsStored(y, profiles, m.machineId, now);
      StoringAfterExpiry(s, x, y, UpsertAll(y, profiles, m.machineId, now).value, m, profiles, now);
    }
  }

  lemma SameIndex(s: State, t: State)
    requires Indexed(s) && t == s.(machines := t.machines)
    ensures Indexed(t) == true
  {
    Invariants.SameAccountsKeepIndex(s, t);
  }

  /** The record stored for a registration: the one sent, stamped with the time, Online unless a status
      was sent. */
  function Stamped(m: Machine, now: int): Machine {
    Machine(m.machineId, m.agentGrpcAddr, m.tailscaleHost,
            if m.status == MACHINE_UNSPECIFIED then MACHINE_ONLINE else m.status, m.labels, now)
  }

  lemma RegistrationLaw(s: State, machine: Option<Machine>, profiles: seq<Profile>, now: int)
    requires Indexed(s)
    ensures var o := HandleRegisterMachine(s, machine, profiles, now);
            && (machine.None? || machine.value.machineId == "" ==> o == Keep(Done(Failed(InvalidArgument))))
            && (machine.Some? && machine.value.machineId != "" ==>
                  CheckedIn(s, o, Stamped(machine.value, now), profiles, now, Registered(machine.value.machineId)))
  {
    if machine.Some? {
      assert Checkin(machine.value, now) == Stamped(machine.value, now);
      CommittedCheckin(s, Stamped(machine.value, now), profiles, now, Registered(machine.value.machineId));
    }
  }

  lemma HeartbeatLaw(s: State, machineId: string, status: int, profiles: seq<Profile>, now: int)
    requires Indexed(s) && KeysMatch(s)
    ensures var o := HandleHeartbeat(s, machineId, status, profiles, now);
            && (machineId == "" ==> o == Keep(Done(Failed(InvalidArgument))))
            && (machineId != "" && machineId !in s.machines ==> o == Keep(Done(Failed(NotFound))))
            && (machineId != "" && machineId in s.machines ==>
                  var m := s.machines[machineId];
                  CheckedIn(s, o, Machine(machineId, m.agentGrpcAddr, m.tailscaleHost, status, m.labels, now),
                            profiles, now, HeartbeatAccepted))
  {
    if machineId in s.machines {
      CommittedCheckin(s, s.machines[machineId].(status := status, lastHeartbeat := now), profiles, now,
                       HeartbeatAccepted);
    }
  }

  // ---------- sweeps ----------

  /** Online, but silent for longer than allowed since a heartbeat that was recorded. */
  predicate Silent(m: Machine, now: int, offlineAfter: int) {
    m.status == MACHINE_ONLINE && 0 < m.lastHeartbeat && m.lastHeartbeat < now - offlineAfter
  }

  predicate Down(m: Machine, now: int, offlineAfter: int) {
    m.status == MACHINE_OFFLINE || Silent(m, now, offlineAfter)
  }

  lemma SweptMachines(s: State, now: int, offlineAfter: int)
    ensures var t := Sweep(s, now, offlineAfter);
            && t.machines.Keys == s.machines.Keys
            && forall id :: id in s.machines ==>
                 && (t.machines[id].status == MACHINE_OFFLINE <==> Down(s.machines[id], now, offlineAfter))
                 && (!Silent(s.machines[id], now, offlineAfter) ==> t.machines[id] == s.machines[id])
                 && t.machines[id] == s.machines[id].(status := t.machines[id].status)
  {
  }

  /** Which leases a sweep revokes: the expired ones and those on machines that are down. */
  ghost predicate Revoked(s: State, id: string, now: int, offlineAfter: int) {
    id in s.leases &&
    (s.leases[id].expiresAt <= now
     || (s.leases[id].machineId in s.machines && Down(s.machines[s.leases[id].machineId], now, offlineAfter)))
  }

  lemma DoomedAreRevoked(s: State, now: int, offlineAfter: int, id: string)
    requires KeysMatch(s)
    ensures var marked := s.(machines := MarkOffline(s.machines, now, offlineAfter));
            id in DoomedIds(marked, now) <==> Revoked(s, id, now, offlineAfter)
  {
    var marked := MarkOffline(s.machines, now, offlineAfter);
    forall m | m in s.machines
      ensures marked[m].machineId == m
      ensures marked[m].status == MACHINE_OFFLINE <==> Down(s.machines[m], now, offlineAfter)
    {
    }
    if id in s.leases {
      var m := s.leases[id].machineId;
      assert OnOffline(marked, m) <==> m in s.machines && Down(s.machines[m], now, offlineAfter);
    }
  }

  /** A sweep marks silent machines Offline, revokes exactly the leases that cannot serve, and makes
      available exactly the Leased profiles whose lease it revoked. */
  lemma SweepLaw(s: State, now: int, offlineAfter: int)
    requires KeysMatch(s)
    ensures var t := Sweep(s, now, offlineAfter);
            && (forall id :: id in t.leases <==> id in s.leases && !Revoked(s, id, now, offlineAfter))
            && (forall id :: id in t.leases ==> t.leases[id] == s.leases[id])
            && t.profiles.Keys == s.profiles.Keys
            && (forall id :: id in s.profiles ==>
                  t.profiles[id] == if s.profiles[id].status == PROFILE_LEASED && LosesLease(s, id, now, offlineAfter)
                                    then s.profiles[id].(status := PROFILE_AVAILABLE) else s.profiles[id])
            && t == s.(machines := t.machines, leases := t.leases, profiles := t.profiles)
  {
    forall id
      ensures id in DoomedIds(s.(machines := MarkOffline(s.machines, now, offlineAfter)), now) <==>
              Revoked(s, id, now, offlineAfter)
    {
      DoomedAreRevoked(s, now, offlineAfter, id);
    }
  }

  ghost predicate LosesLease(s: State, profileId: string, now: int, offlineAfter: int) {
    exists l :: Revoked(s, l, now, offlineAfter) && s.leases[l].profileId == profileId
  }

  /** The sweep answers with exactly the leases it revoked. */
  lemma SweepAnswerLaw(s: State, now: int, offlineAfter: int)
    requires KeysMatch(s)
    ensures Handle(s, SweepNow(offlineAfter), now) ==
            Commit(Sweep(s, now, offlineAfter), Done(Swept(RevokedBy(s, now, offlineAfter))))
    ensures forall l :: l in RevokedBy(s, now, offlineAfter) <==>
                          Revoked(s, l.leaseId, now, offlineAfter) && s.leases[l.leaseId] == l
  {
    forall id
      ensures id in DoomedIds(s.(machines := MarkOffline(s.machines, now, offlineAfter)), now) <==>
              Revoked(s, id, now, offlineAfter)
    {
      DoomedAreRevoked(s, now, offlineAfter, id);
    }
  }
}
