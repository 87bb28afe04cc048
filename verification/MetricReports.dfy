/** Which metric points samples fall in, and reports that no storing controller can take because two
    of their samples share a row. */
module MetricReports {
  import opened Messages
  import opened Strings
  import opened Registry
  import opened Operations
  import opened Persistence
  import opened ControllerSystem
  import opened MetricRows
  import AgentTelemetry
  import Domains
  import RowIdentity
  import Telemetry

  const I64_MIN := -0x8000_0000_0000_0000

  /** A named sample as it can arrive: a 64-bit time and a 32-bit platform. */
  predicate Arrives(sample: MetricSample, reporter: string) {
    && sample.name != "" && reporter != ""
    && I64_MIN <= sample.observedAt <= I64_MAX && I32_MIN <= sample.platform <= I32_MAX
  }

  predicate FallsIn(sample: MetricSample, reporter: string, p: MetricPoint) {
    Arrives(sample, reporter) && Telemetry.Count(sample, reporter).key == KeyOfPoint(p)
  }

  // ---------- domains ----------

  ghost predicate AllBare(s: string) {
    forall i :: 0 <= i < |s| ==> Domains.IsBare(s[i])
  }

  lemma {:induction false} NoScheme(s: string, from: nat)
    requires AllBare(s) && from <= |s|
    ensures Domains.AfterScheme(s, from) == s
    decreases |s| - from
  {
    if from + 3 <= |s| {
      assert s[from..from + 3][0] == s[from];
      NoScheme(s, from + 1);
    }
  }

  lemma NoUserInfo(s: string)
    requires AllBare(s)
    ensures Domains.AfterLast(s, '@') == s
  {
    assert forall i :: 0 <= i < |s| ==> Domains.IsBare(s[i]) && s[i] != '@';
  }

  lemma {:induction false} TrimStartIsSuffix(s: string)
    ensures var t := Domains.TrimStart(s);
            |t| <= |s| && t == s[|s| - |t|..] && (t != "" ==> !Domains.IsWhitespace(t[0]))
  {
    if s != "" && Domains.IsWhitespace(s[0]) {
      TrimStartIsSuffix(s[1..]);
    }
  }

  lemma {:induction false} TrimEndIsPrefix(s: string)
    ensures var t := Domains.TrimEnd(s); t <= s && (t != "" ==> !Domains.IsWhitespace(t[|t| - 1]))
  {
    if s != "" && Domains.IsWhitespace(s[|s| - 1]) {
      TrimEndIsPrefix(s[..|s| - 1]);
    }
  }

  lemma TrimmingTrims(s: string)
    requires AllBare(s)
    ensures IsDomain(Domains.TrimEnd(Domains.TrimStart(s)))
  {
    TrimStartIsSuffix(s);
    TrimEndIsPrefix(Domains.TrimStart(s));
  }

  lemma BeforeNothing(s: string, stops: set<char>)
    requires forall i :: 0 <= i < |s| ==> s[i] !in stops
    ensures Before(s, stops) == s
  {
  }

  lemma BareHost(s: string)
    requires AllBare(s)
    ensures Before(s, {'/', '?', '#'}) == s && Before(s, {':'}) == s
  {
    assert forall i :: 0 <= i < |s| ==> Domains.IsBare(s[i]) && s[i] !in {'/', '?', '#'} && s[i] !in {':'};
    BeforeNothing(s, {'/', '?', '#'});
    BeforeNothing(s, {':'});
  }

  lemma BareIsLower(s: string)
    requires AllBare(s)
    ensures AsciiLower(s) == s
  {
    assert forall i :: 0 <= i < |s| ==> Domains.IsBare(s[i]) && AsciiLower(s)[i] == s[i];
  }

  /** A bare text is only trimmed. */
  lemma SanitizingBareTrims(s: string)
    requires AllBare(s)
    ensures Domains.Sanitize(s) == Domains.TrimEnd(Domains.TrimStart(s))
  {
    var t := Domains.TrimEnd(Domains.TrimStart(s));
    TrimmingTrims(s);
    NoScheme(t, 0);
    BareHost(t);
    NoUserInfo(t);
    BareIsLower(t);
  }

  /** The counted domains are exactly the bare, trimmed ones: a domain is sanitized twice. */
  lemma SanitizedTwiceIsDomain(s: string)
    ensures IsDomain(Domains.Sanitize(Domains.Sanitize(s)))
  {
    Domains.SanitizeRedacts(s);
    SanitizingBareTrims(Domains.Sanitize(s));
    TrimmingTrims(Domains.Sanitize(s));
  }

  lemma DomainStays(s: string)
    requires IsDomain(s)
    ensures Domains.Sanitize(s) == s
  {
    SanitizingBareTrims(s);
  }

  // ---------- the points that samples fall in ----------

  lemma BucketsAreStarts(at: int)
    requires I64_MIN <= at <= I64_MAX
    ensures IsBucket(Telemetry.BucketStart(at))
    ensures IsBucket(at) ==> Telemetry.BucketStart(at) == at
  {
  }

  function SampleFor(p: MetricPoint): MetricSample {
    MetricSample(p.name, METRIC_GAUGE, p.bucketStart, p.machineId, p.profileId, p.platform,
                 p.domain, p.action, p.statusClass, p.errorClass, 0.0)
  }

  lemma SampleForFallsIn(p: MetricPoint, reporter: string)
    requires Storable(p) && reporter != ""
    ensures FallsIn(SampleFor(p), reporter, p)
  {
    BucketsAreStarts(p.bucketStart);
    DomainStays(p.domain);
  }

  lemma SampledIsStorable(sample: MetricSample, reporter: string, p: MetricPoint)
    requires FallsIn(sample, reporter, p)
    ensures Storable(p)
  {
    BucketsAreStarts(sample.observedAt);
    SanitizedTwiceIsDomain(sample.domain);
    var k := KeyOfPoint(p);
    assert k.name == p.name && k.machineId == p.machineId && k.bucketStart == p.bucketStart;
    assert k.platform == p.platform && k.domain == p.domain;
  }

  /** Some sample falls in the point. */
  ghost predicate Sampled(p: MetricPoint) {
    exists sample, reporter :: FallsIn(sample, reporter, p)
  }

  lemma FallingInSamples(sample: MetricSample, reporter: string, p: MetricPoint)
    requires FallsIn(sample, reporter, p)
    ensures Sampled(p)
  {
  }

  lemma SomeSampleFallsIn(p: MetricPoint) returns (sample: MetricSample, reporter: string)
    requires Sampled(p)
    ensures FallsIn(sample, reporter, p)
  {
    sample, reporter :| FallsIn(sample, reporter, p);
  }

  /** `Storable` is neither more nor less than what the controller can be made to store. */
  lemma StorableIffSampled(p: MetricPoint)
    ensures Storable(p) <==> Sampled(p)
  {
    if Storable(p) {
      SampleForFallsIn(p, "reporter");
      FallingInSamples(SampleFor(p), "reporter", p);
    }
    if Sampled(p) {
      var sample, reporter := SomeSampleFallsIn(p);
      SampledIsStorable(sample, reporter, p);
    }
  }

  // ---------- reports that cannot be stored ----------

  lemma {:induction false} TwoSamplesAreCounted(s: MetricSample, t: MetricSample, reporter: string)
    requires s.name != "" && t.name != ""
    ensures Telemetry.Accepted([s, t], reporter) == [Telemetry.Count(s, reporter), Telemetry.Count(t, reporter)]
  {
    assert [s, t][..1] == [s] && [s][..0] == [];
    assert Telemetry.Accepted([s], reporter) == [Telemetry.Count(s, reporter)];
  }

  lemma RecordGrowsByOne(metrics: map<MetricKey, MetricPoint>, a: Telemetry.Counted)
    ensures |Telemetry.Record(metrics, a)| <= |metrics| + 1
  {
    var one := Telemetry.Record(metrics, a);
    assert one.Keys == metrics.Keys + {a.key};
    assert |one.Keys| <= |metrics.Keys| + 1;
  }

  lemma TwoRecordsGrowByTwo(metrics: map<MetricKey, MetricPoint>, a: Telemetry.Counted, b: Telemetry.Counted)
    ensures |Telemetry.RecordAll(metrics, [a, b])| <= |metrics| + 2
  {
    assert [a, b][..|[a, b]| - 1] == [a] && [a][..|[a]| - 1] == [];
    assert Telemetry.RecordAll(metrics, []) == metrics;
    var one := Telemetry.RecordAll(metrics, [a]);
    assert one == Telemetry.Record(metrics, a);
    RecordGrowsByOne(metrics, a);
    RecordGrowsByOne(one, b);
  }

  lemma {:induction false} RecordedIsThere(metrics: map<MetricKey, MetricPoint>, a: Telemetry.Counted,
                                           b: Telemetry.Counted,
                                           k: MetricKey)
    requires Telemetry.PointsMatchKeys(metrics) && (k == a.key || k == b.key)
    ensures var recorded := Telemetry.RecordAll(metrics, [a, b]);
            k in recorded && MetricPointId(recorded[k]) == MetricPointId(Telemetry.PointFromKey(k, 0.0))
  {
    Telemetry.RecordAllAggregatesPerKey(metrics, [a, b], k);
    assert [a, b][0] == a && [a, b][1] == b;
    assert Telemetry.ForKey(k, [a, b]) != [];
    IdIgnoresValue(Telemetry.RecordAll(metrics, [a, b])[k], Telemetry.PointFromKey(k, 0.0));
  }

  lemma IdIgnoresValue(p: MetricPoint, q: MetricPoint)
    requires KeyOfPoint(p) == KeyOfPoint(q)
    ensures MetricPointId(p) == MetricPointId(q)
  {
    var k, m := KeyOfPoint(p), KeyOfPoint(q);
    assert k.name == m.name && k.bucketStart == m.bucketStart && k.machineId == m.machineId
           && k.profileId == m.profileId;
    assert k.platform == m.platform && k.domain == m.domain && k.action == m.action;
    assert k.statusClass == m.statusClass && k.errorClass == m.errorClass;
    assert MetricFields(p) == MetricFields(q);
  }

  /** The samples land in different buckets with one row. */
  ghost predicate Collide(s: MetricSample, t: MetricSample, reporter: string) {
    var a, b := Telemetry.Count(s, reporter).key, Telemetry.Count(t, reporter).key;
    a != b && MetricPointId(Telemetry.PointFromKey(a, 0.0)) == MetricPointId(Telemetry.PointFromKey(b, 0.0))
  }

  ghost predicate HasRoom(controller: System) {
    controller.store.Some? && Stocked(controller.state) && |controller.state.metrics| + 2 <= MAX_STORED_METRICS
  }

  lemma NothingIsEvicted(metrics: map<MetricKey, MetricPoint>, evicted: set<MetricKey>)
    requires |metrics| <= MAX_STORED_METRICS
    ensures Telemetry.LegalEviction(metrics, evicted) <==> evicted == {}
    ensures metrics - {} == metrics
  {
  }

  lemma CollidingRecordsShareRows(metrics: map<MetricKey, MetricPoint>, a: Telemetry.Counted, b: Telemetry.Counted,
                                  s: State)
    requires Telemetry.PointsMatchKeys(metrics) && a.key != b.key
    requires MetricPointId(Telemetry.PointFromKey(a.key, 0.0)) == MetricPointId(Telemetry.PointFromKey(b.key, 0.0))
    requires s.metrics == Telemetry.RecordAll(metrics, [a, b])
    ensures !Distinct(s)
  {
    RecordedIsThere(metrics, a, b, a.key);
    RecordedIsThere(metrics, a, b, b.key);
    if Distinct(s) {
      RowIdentity.DistinctMeansMetricIdsDiffer(s);
    }
  }

  /** A controller with a store refuses every report of two such samples. */
  lemma CollidingSamplesAreRefused(controller: System, reporter: string, s: MetricSample, t: MetricSample,
                                   events: seq<Event>, evicted: set<MetricKey>, now: int, ioOk: bool)
    requires HasRoom(controller) && s.name != "" && t.name != "" && Collide(s, t, reporter)
    ensures Telemetry.LegalReport(controller.state, reporter, [s, t], evicted) <==> evicted == {}
    ensures evicted == {} ==>
              AgentTelemetry.Refused(controller, ReportTelemetry(reporter, [s, t], events, evicted), now, ioOk)
  {
    var a, b := Telemetry.Count(s, reporter), Telemetry.Count(t, reporter);
    TwoSamplesAreCounted(s, t, reporter);
    TwoRecordsGrowByTwo(controller.state.metrics, a, b);
    NothingIsEvicted(Telemetry.RecordAll(controller.state.metrics, [a, b]), evicted);
    if evicted == {} {
      CollidingRecordsShareRows(controller.state.metrics, a, b,
                                Telemetry.Report(controller.state, reporter, [s, t], events, evicted));
      AgentTelemetry.UnstorableIsRefused(controller, ReportTelemetry(reporter, [s, t], events, evicted), now, ioOk);
    }
  }

  /** Every ambiguous point leads to a report that no storing controller with room for it can take. */
  lemma AmbiguousPointBlocksReport(controller: System, reporter: string, p: MetricPoint, events: seq<Event>, now: int,
                                   ioOk: bool)
    returns (s: MetricSample, t: MetricSample)
    requires HasRoom(controller) && Storable(p) && Ambiguous(p) && reporter != ""
    ensures FallsIn(s, reporter, p) && Arrives(t, reporter)
    ensures Telemetry.LegalReport(controller.state, reporter, [s, t], {})
    ensures AgentTelemetry.Refused(controller, ReportTelemetry(reporter, [s, t], events, {}), now, ioOk)
  {
    var q := AmbiguousShares(p);
    s, t := SampleFor(p), SampleFor(q);
    SampleForFallsIn(p, reporter);
    SampleForFallsIn(q, reporter);
    SampledPointsCollide(p, q);
    CollidingSamplesAreRefused(controller, reporter, s, t, events, {}, now, ioOk);
  }

  lemma SampledPointsCollide(p: MetricPoint, q: MetricPoint)
    requires MetricPointId(p) == MetricPointId(q)
    ensures MetricPointId(Telemetry.PointFromKey(KeyOfPoint(p), 0.0)) ==
            MetricPointId(Telemetry.PointFromKey(KeyOfPoint(q), 0.0))
  {
    IdIgnoresValue(p, Telemetry.PointFromKey(KeyOfPoint(p), 0.0));
    IdIgnoresValue(q, Telemetry.PointFromKey(KeyOfPoint(q), 0.0));
  }

  /** For instance: any sample, sent together with itself cut elsewhere between action and status. */
  lemma RecutSampleIsRefused(controller: System, reporter: string, s: MetricSample, action: string, statusClass: string,
                             events: seq<Event>, now: int, ioOk: bool)
    requires HasRoom(controller) && s.name != "" && action != s.action
    requires s.action + [UNIT_SEPARATOR] + s.statusClass == action + [UNIT_SEPARATOR] + statusClass
    ensures var t := s.(action := action, statusClass := statusClass);
            AgentTelemetry.Refused(controller, ReportTelemetry(reporter, [s, t], events, {}), now, ioOk)
  {
    var t := s.(action := action, statusClass := statusClass);
    var a, b := Telemetry.Count(s, reporter).key, Telemetry.Count(t, reporter).key;
    var p := Telemetry.PointFromKey(a, 0.0);
    ActionAndStatusMove(p, action, statusClass);
    assert Telemetry.PointFromKey(b, 0.0) == p.(action := action, statusClass := statusClass);
    CollidingSamplesAreRefused(controller, reporter, s, t, events, {}, now, ioOk);
  }

  // ---------- what is stored is storable ----------

  lemma ReportKeepsStorable(s: State, reporter: string, samples: seq<MetricSample>, events: seq<Event>,
                            evicted: set<MetricKey>, k: MetricKey)
    requires Stocked(s) && reporter != "" && k in Telemetry.Report(s, reporter, samples, events, evicted).metrics
    requires forall j :: j in s.metrics ==> Storable(s.metrics[j])
    requires forall i :: 0 <= i < |samples| && samples[i].name != "" ==> Arrives(samples[i], reporter)
    ensures Storable(Telemetry.Report(s, reporter, samples, events, evicted).metrics[k])
  {
    var counted := Telemetry.Accepted(samples, reporter);
    Telemetry.RecordAllAggregatesPerKey(s.metrics, counted, k);
    var p := Telemetry.RecordAll(s.metrics, counted)[k];
    if k in s.metrics {
      SameKeySameStorable(s.metrics[k], p);
    } else {
      var i :| 0 <= i < |counted| && counted[i].key == k;
      var sample := AcceptedComesFrom(samples, reporter, i);
      SampledIsStorable(sample, reporter, p);
    }
  }

  lemma SameKeySameStorable(p: MetricPoint, q: MetricPoint)
    requires KeyOfPoint(p) == KeyOfPoint(q) && Storable(p)
    ensures Storable(q)
  {
    var k, m := KeyOfPoint(p), KeyOfPoint(q);
    assert k.name == m.name && k.bucketStart == m.bucketStart && k.machineId == m.machineId;
    assert k.platform == m.platform && k.domain == m.domain;
  }

  lemma {:induction false} AcceptedComesFrom(samples: seq<MetricSample>, reporter: string, i: nat)
      returns (sample: MetricSample)
    requires i < |Telemetry.Accepted(samples, reporter)|
    ensures sample in samples && sample.name != ""
    ensures Telemetry.Accepted(samples, reporter)[i] == Telemetry.Count(sample, reporter)
  {
    var init, last := samples[..|samples| - 1], samples[|samples| - 1];
    if last.name != "" && i == |Telemetry.Accepted(init, reporter)| {
      sample := last;
    } else {
      sample := AcceptedComesFrom(init, reporter, i);
    }
  }
}
