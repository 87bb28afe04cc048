/** When the rows of a state are distinct, that is, when a write can succeed at all. */
module RowIdentity {
  import opened Messages
  import opened Strings
  import opened Registry
  import opened Operations
  import opened Edits
  import opened Persistence
  import Invariants

  ghost predicate MetricIdsDiffer(s: State) {
    forall a, b ::
      a in s.metrics && b in s.metrics && MetricPointId(s.metrics[a]) == MetricPointId(s.metrics[b]) ==> a == b
  }

  ghost predicate EventIdsDiffer(s: State) {
    forall i, j ::
      0 <= i < |s.events| && 0 <= j < |s.events| && EventRowId(s.events[i], i) == EventRowId(s.events[j], j) ==> i == j
  }

  /** A binding id determines its key: the platform is decimal, so the first colon ends it. */
  lemma BindingIdIsInjective(a: AccountKey, b: AccountKey)
    requires BindingId(a.platform, a.accountId) == BindingId(b.platform, b.accountId)
    ensures a == b
  {
    var pa, pb := Decimal(a.platform), Decimal(b.platform);
    DecimalIsFree(a.platform, ':');
    DecimalIsFree(b.platform, ':');
    BeforeSeparator(pa, ':', a.accountId);
    BeforeSeparator(pb, ':', b.accountId);
    assert pa + [':'] + a.accountId == pb + [':'] + b.accountId;
    DecimalIsInjective(a.platform, b.platform);
    assert (pa + [':'] + a.accountId)[|pa| + 1..] == a.accountId;
    assert (pb + [':'] + b.accountId)[|pb| + 1..] == b.accountId;
  }

  /** None of the point's text fields holds the unit separator. */
  ghost predicate Clean(p: MetricPoint) {
    && Free(p.name, UNIT_SEPARATOR) && Free(p.machineId, UNIT_SEPARATOR) && Free(p.profileId, UNIT_SEPARATOR)
    && Free(p.domain, UNIT_SEPARATOR) && Free(p.action, UNIT_SEPARATOR) && Free(p.statusClass, UNIT_SEPARATOR)
    && Free(p.errorClass, UNIT_SEPARATOR)
  }

  lemma CleanFieldsAreFree(p: MetricPoint)
    requires Clean(p)
    ensures AllFree(MetricFields(p), UNIT_SEPARATOR)
  {
    DecimalIsFree(p.bucketStart, UNIT_SEPARATOR);
    DecimalIsFree(p.platform, UNIT_SEPARATOR);
  }

  lemma FieldsDetermineKey(p: MetricPoint, q: MetricPoint)
    requires MetricFields(p) == MetricFields(q)
    ensures KeyOfPoint(p) == KeyOfPoint(q)
  {
    var a, b := MetricFields(p), MetricFields(q);
    assert a[0] == b[0] && a[1] == b[1] && a[2] == b[2] && a[3] == b[3] && a[4] == b[4];
    assert a[5] == b[5] && a[6] == b[6] && a[7] == b[7] && a[8] == b[8];
    DecimalIsInjective(p.bucketStart, q.bucketStart);
    DecimalIsInjective(p.platform, q.platform);
  }

  /** A metric id is its fields around U+001F. */
  lemma MetricIdLaw(p: MetricPoint)
    requires Clean(p)
    ensures Split(MetricPointId(p), '\U{001F}') ==
            [p.name, Decimal(p.bucketStart), p.machineId, p.profileId, Decimal(p.platform),
             p.domain, p.action, p.statusClass, p.errorClass]
  {
    CleanFieldsAreFree(p);
    SplitUndoesJoin(MetricFields(p), UNIT_SEPARATOR);
  }

  /** A metric id determines its bucket, as long as no field holds the separator. */
  lemma MetricPointIdIsInjective(p: MetricPoint, q: MetricPoint)
    requires Clean(p) && Clean(q) && MetricPointId(p) == MetricPointId(q)
    ensures KeyOfPoint(p) == KeyOfPoint(q)
  {
    CleanFieldsAreFree(p);
    CleanFieldsAreFree(q);
    SplitUndoesJoin(MetricFields(p), UNIT_SEPARATOR);
    SplitUndoesJoin(MetricFields(q), UNIT_SEPARATOR);
    FieldsDetermineKey(p, q);
  }

  /** Events without an id never share a row: their position in the log tells them apart. */
  lemma NamelessEventsDiffer(e: Event, i: nat, f: Event, j: nat)
    requires e.eventId == "" && f.eventId == ""
    ensures EventRowId(e, i) == EventRowId(f, j) <==> e.observedAt == f.observedAt && i == j
  {
    var a, b := Decimal(e.observedAt), Decimal(f.observedAt);
    DecimalIsFree(e.observedAt, ':');
    DecimalIsFree(f.observedAt, ':');
    BeforeSeparator(a, ':', Decimal(i));
    BeforeSeparator(b, ':', Decimal(j));
    if EventRowId(e, i) == EventRowId(f, j) {
      assert a + [':'] + Decimal(i) == b + [':'] + Decimal(j);
      DecimalIsInjective(e.observedAt, f.observedAt);
      assert (a + [':'] + Decimal(i))[|a| + 1..] == Decimal(i) && (b + [':'] + Decimal(j))[|b| + 1..] == Decimal(j);
      DecimalIsInjective(i, j);
    }
  }

  // ---------- distinctness of all rows ----------

  ghost predicate Keyed(s: State) {
    KeysMatch(s) && Stocked(s) && Labelled(s)
  }

  lemma SameRowSameRef(s: State, a: Ref, b: Ref)
    requires Keyed(s) && MetricIdsDiffer(s) && EventIdsDiffer(s)
    requires InState(s, a) && InState(s, b) && RowOf(s, a) == RowOf(s, b)
    ensures a == b
  {
    match a
    case BindingRef(k) => BindingIdIsInjective(k, b.key);
    case _ =>
  }

  lemma IdsDifferMeansDistinct(s: State)
    requires Keyed(s) && MetricIdsDiffer(s) && EventIdsDiffer(s)
    ensures Distinct(s) == true
  {
    forall a, b | a in Names(s) && b in Names(s) && Names(s)[a] == Names(s)[b]
      ensures a == b
    {
      SameRowSameRef(s, a, b);
    }
  }

  lemma DistinctMeansMetricIdsDiffer(s: State)
    requires Distinct(s)
    ensures MetricIdsDiffer(s) == true
  {
    forall a, b | a in s.metrics && b in s.metrics && MetricPointId(s.metrics[a]) == MetricPointId(s.metrics[b])
      ensures a == b
    {
      assert InState(s, MetricRef(a)) && InState(s, MetricRef(b));
      assert Names(s)[MetricRef(a)] == Names(s)[MetricRef(b)];
    }
  }

  lemma DistinctMeansEventIdsDiffer(s: State)
    requires Distinct(s)
    ensures EventIdsDiffer(s) == true
  {
    forall i, j | 0 <= i < |s.events| && 0 <= j < |s.events| && EventRowId(s.events[i], i) == EventRowId(s.events[j], j)
      ensures i == j
    {
      assert InState(s, EventRef(i)) && InState(s, EventRef(j));
      assert Names(s)[EventRef(i)] == Names(s)[EventRef(j)];
    }
  }

  /** Machines, profiles, bindings, leases and artifacts never collide: a write can fail only
      through the ids of metric points and events. */
  lemma DistinctIffTelemetryIdsDiffer(s: State)
    requires Keyed(s)
    ensures Distinct(s) <==> MetricIdsDiffer(s) && EventIdsDiffer(s)
  {
    if MetricIdsDiffer(s) && EventIdsDiffer(s) {
      IdsDifferMeansDistinct(s);
    }
    if Distinct(s) {
      DistinctMeansMetricIdsDiffer(s);
      DistinctMeansEventIdsDiffer(s);
    }
  }

  // ---------- binding ids stay spelled out ----------

  lemma StoredKeepsLabels(s: State, p: Profile)
    requires Labelled(s)
    ensures Labelled(Stored(s, p))
  {
    var t := Stored(s, p);
    forall k | k in t.bindings
      ensures t.bindings[k].bindingId == BindingId(k.platform, k.accountId)
    {
      Invariants.AccountKeysAreAccounts(p, k);
      if k in AccountKeys(p) {
        Invariants.LastAccountIsFor(p.accounts, k);
      }
    }
  }

  lemma EditKeepsLabels(s: State, e: Edit)
    requires Labelled(s) && Enabled(s, e)
    ensures Labelled(Apply(s, e))
  {
    match e
    case PutProfile(p, reporter, now) => StoredKeepsLabels(s, Reported(s, p, reporter, now));
    case _ => assert Apply(s, e).bindings == s.bindings;
  }

  lemma CallKeepsLabels(s: State, r: Request, now: int)
    requires Core(s) && Labelled(s) && Handle(s, r, now).Commit?
    ensures Labelled(Handle(s, r, now).state)
  {
    CallIsEdits(s, r, now);
    forall x, e | Labelled(x) && Enabled(x, e)
      ensures Labelled(Apply(x, e))
    {
      EditKeepsLabels(x, e);
    }
    EditsKeep(x => Labelled(x), e => true, s, EditsOf(s, r, now), Handle(s, r, now).state);
  }
}
