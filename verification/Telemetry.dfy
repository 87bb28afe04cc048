/** The controller's telemetry: metric buckets, their eviction, and the bounded event log. */
module Telemetry {
  import opened Messages
  import opened Registry
  import Domains
  import Utf8

  const METRIC_BUCKET_MS := 60_000

  function BucketStart(observedAt: int): int {
    if observedAt <= 0 then 0 else observedAt - observedAt % METRIC_BUCKET_MS
  }

  /** A sample as it is counted: which bucket it falls in, and what it does there. */
  datatype Counted = Counted(key: MetricKey, kind: int, value: real)

  function KeyOfSample(sample: MetricSample): MetricKey {
    MetricKey(sample.name, BucketStart(sample.observedAt), sample.machineId, sample.profileId, sample.platform,
              Domains.Sanitize(sample.domain), sample.action, sample.statusClass, sample.errorClass)
  }

  /** The sample is attributed to its reporter and its domain reduced to a host before it is keyed. */
  function Count(sample: MetricSample, reporter: string): Counted {
    var attributed := sample.(machineId := if sample.machineId == "" then reporter else sample.machineId,
                              domain := Domains.Sanitize(sample.domain));
    Counted(KeyOfSample(attributed), attributed.kind, attributed.value)
  }

  function PointFromKey(k: MetricKey, value: real): MetricPoint {
    MetricPoint(k.name, k.bucketStart, k.machineId, k.profileId, k.platform,
                k.domain, k.action, k.statusClass, k.errorClass, value)
  }

  function Record(metrics: map<MetricKey, MetricPoint>, c: Counted): map<MetricKey, MetricPoint> {
    var point := if c.key in metrics then metrics[c.key] else PointFromKey(c.key, 0.0);
    metrics[c.key := point.(value := if c.kind == METRIC_GAUGE then c.value else point.value + c.value)]
  }

  /** The samples a report contributes: the named ones, in order. */
  function Accepted(samples: seq<MetricSample>, reporter: string): seq<Counted> {
    if samples == [] then []
    else if samples[|samples| - 1].name == "" then Accepted(samples[..|samples| - 1], reporter)
    else Accepted(samples[..|samples| - 1], reporter) + [Count(samples[|samples| - 1], reporter)]
  }

  function RecordAll(metrics: map<MetricKey, MetricPoint>, samples: seq<Counted>): map<MetricKey, MetricPoint> {
    if samples == [] then metrics
    else Record(RecordAll(metrics, samples[..|samples| - 1]), samples[|samples| - 1])
  }

  // ---------- what a bucket means ----------

  function Sum(samples: seq<Counted>): real {
    if samples == [] then 0.0 else Sum(samples[..|samples| - 1]) + samples[|samples| - 1].value
  }

  /** One past the last gauge sample, or 0. */
  function AfterLastGauge(samples: seq<Counted>): (n: nat)
    ensures n <= |samples|
    ensures n > 0 ==> samples[n - 1].kind == METRIC_GAUGE
    ensures forall i :: n <= i < |samples| ==> samples[i].kind != METRIC_GAUGE
  {
    if samples == [] then 0
    else if samples[|samples| - 1].kind == METRIC_GAUGE then |samples|
    else AfterLastGauge(samples[..|samples| - 1])
  }

  /** The value a run of samples gives a bucket: the last gauge, plus every later increment. */
  function Aggregate(start: real, samples: seq<Counted>): real {
    var n := AfterLastGauge(samples);
    (if n > 0 then samples[n - 1].value else start) + Sum(samples[n..])
  }

  function ForKey(k: MetricKey, samples: seq<Counted>): (r: seq<Counted>)
    ensures r == [] <==> forall i :: 0 <= i < |samples| ==> samples[i].key != k
  {
    if samples == [] then []
    else if samples[|samples| - 1].key == k then ForKey(k, samples[..|samples| - 1]) + [samples[|samples| - 1]]
    else ForKey(k, samples[..|samples| - 1])
  }

  lemma AggregateExtends(start: real, samples: seq<Counted>, last: Counted)
    ensures Aggregate(start, samples + [last]) ==
            if last.kind == METRIC_GAUGE then last.value else Aggregate(start, samples) + last.value
  {
    var all := samples + [last];
    assert all[..|all| - 1] == samples;
    var n := AfterLastGauge(samples);
    if last.kind != METRIC_GAUGE {
      assert AfterLastGauge(all) == n;
      assert all[n..] == samples[n..] + [last];
      assert all[n..][..|all[n..]| - 1] == samples[n..];
    } else {
      assert all[|all|..] == [];
    }
  }

  ghost predicate PointsMatchKeys(metrics: map<MetricKey, MetricPoint>) {
    forall k :: k in metrics ==> KeyOfPoint(metrics[k]) == k
  }

  function ValueIn(metrics: map<MetricKey, MetricPoint>, k: MetricKey): real {
    if k in metrics then metrics[k].value else 0.0
  }

  /** In `after`, bucket `k` is what `samples` make of it on top of what `before` held. */
  ghost predicate Aggregated(before: map<MetricKey, MetricPoint>, after: map<MetricKey, MetricPoint>,
                             samples: seq<Counted>, k: MetricKey) {
    && (k in after <==> k in before || ForKey(k, samples) != [])
    && (k in after ==> after[k] == PointFromKey(k, Aggregate(ValueIn(before, k), ForKey(k, samples))))
  }

  lemma ForKeyExtends(k: MetricKey, samples: seq<Counted>, last: Counted)
    ensures ForKey(k, samples + [last]) == ForKey(k, samples) + if last.key == k then [last] else []
  {
    assert (samples + [last])[..|samples|] == samples;
  }

  lemma RecordAggregates(before: map<MetricKey, MetricPoint>, after: map<MetricKey, MetricPoint>,
                         samples: seq<Counted>, last: Counted, k: MetricKey)
    requires Aggregated(before, after, samples, k)
    ensures Aggregated(before, Record(after, last), samples + [last], k)
  {
    ForKeyExtends(k, samples, last);
    AggregateExtends(ValueIn(before, k), ForKey(k, samples), last);
    if last.key == k && k !in after {
      assert Aggregate(0.0, []) == 0.0;
    }
  }

  /** After a report, a bucket holds exactly its own samples aggregated on top of what it held,
      a bucket without samples is untouched, and no other bucket appears. */
  lemma {:induction false} RecordAllAggregatesPerKey(metrics: map<MetricKey, MetricPoint>, samples: seq<Counted>,
                                                     k: MetricKey)
    requires PointsMatchKeys(metrics)
    ensures Aggregated(metrics, RecordAll(metrics, samples), samples, k)
  {
    if samples == [] {
      assert k in metrics ==> metrics[k] == PointFromKey(k, metrics[k].value);
      assert Aggregate(ValueIn(metrics, k), []) == ValueIn(metrics, k);
    } else {
      var init, last := samples[..|samples| - 1], samples[|samples| - 1];
      RecordAllAggregatesPerKey(metrics, init, k);
      RecordAggregates(metrics, RecordAll(metrics, init), init, last, k);
      assert init + [last] == samples;
    }
  }

  lemma RecordAllKeepsKeys(metrics: map<MetricKey, MetricPoint>, samples: seq<Counted>)
    requires PointsMatchKeys(metrics)
    ensures PointsMatchKeys(RecordAll(metrics, samples))
  {
    forall k | k in RecordAll(metrics, samples)
      ensures KeyOfPoint(RecordAll(metrics, samples)[k]) == k
    {
      RecordAllAggregatesPerKey(metrics, samples, k);
    }
  }

  // ---------- eviction ----------

  /** The outcome of sorting the buckets by start time and removing the excess from the front;
      the order among equal start times is the hash map's, so several outcomes are legal. */
  ghost predicate LegalEviction(metrics: map<MetricKey, MetricPoint>, evicted: set<MetricKey>) {
    && evicted <= metrics.Keys
    && |evicted| == (if |metrics| > MAX_STORED_METRICS then |metrics| - MAX_STORED_METRICS else 0)
    && forall gone, kept :: gone in evicted && kept in metrics && kept !in evicted ==>
       gone.bucketStart <= kept.bucketStart
  }

  ghost predicate Ascending(keys: seq<MetricKey>) {
    forall i, j :: 0 <= i < j < |keys| ==> keys[i].bucketStart <= keys[j].bucketStart && keys[i] != keys[j]
  }

  lemma OldestExists(keys: set<MetricKey>)
    requires keys != {}
    ensures exists k :: k in keys && forall other :: other in keys ==> k.bucketStart <= other.bucketStart
  {
    var k :| k in keys;
    if keys != {k} {
      OldestExists(keys - {k});
      var m :| m in keys - {k} && forall other :: other in keys - {k} ==> m.bucketStart <= other.bucketStart;
      var oldest := if k.bucketStart <= m.bucketStart then k else m;
      forall other | other in keys
        ensures oldest.bucketStart <= other.bucketStart
      {
        assert other == k || other in keys - {k};
      }
    }
  }

  method SortByBucket(keys: set<MetricKey>) returns (sorted: seq<MetricKey>)
    ensures Ascending(sorted) && |sorted| == |keys|
    ensures forall k :: k in sorted <==> k in keys
  {
    sorted := [];
    var rest := keys;
    while rest != {}
      invariant rest <= keys && |sorted| + |rest| == |keys|
      invariant Ascending(sorted)
      invariant forall k :: k in sorted <==> k in keys && k !in rest
      invariant forall i, k :: 0 <= i < |sorted| && k in rest ==> sorted[i].bucketStart <= k.bucketStart
      decreases |rest|
    {
      OldestExists(rest);
      var k :| k in rest && forall other :: other in rest ==> k.bucketStart <= other.bucketStart;
      assert k !in sorted;
      sorted := sorted + [k];
      rest := rest - {k};
    }
  }

  function Taken(keys: seq<MetricKey>, n: nat): set<MetricKey>
    requires n <= |keys|
  {
    set i | 0 <= i < n :: keys[i]
  }

  lemma {:induction false} TakenSize(keys: seq<MetricKey>, n: nat)
    requires n <= |keys| && Ascending(keys)
    ensures |Taken(keys, n)| == n
  {
    if n > 0 {
      TakenSize(keys, n - 1);
      assert forall i :: 0 <= i < n - 1 ==> keys[i] != keys[n - 1];
      assert Taken(keys, n) == Taken(keys, n - 1) + {keys[n - 1]};
    }
  }

  /** The front of the sorted buckets is a legal choice. */
  lemma FrontIsOldest(metrics: map<MetricKey, MetricPoint>, buckets: seq<MetricKey>, excess: nat)
    requires Ascending(buckets) && (forall k :: k in buckets <==> k in metrics) && excess <= |buckets|
    ensures Taken(buckets, excess) <= metrics.Keys
    ensures var taken := Taken(buckets, excess);
            forall gone, kept :: gone in taken && kept in metrics && kept !in taken ==>
              gone.bucketStart <= kept.bucketStart
  {
    forall gone, kept | gone in Taken(buckets, excess) && kept in metrics && kept !in Taken(buckets, excess)
      ensures gone.bucketStart <= kept.bucketStart
    {
      var i :| 0 <= i < excess && buckets[i] == gone;
      var j :| 0 <= j < |buckets| && buckets[j] == kept;
      assert j >= excess;
    }
  }

  method EvictOldest(metrics: map<MetricKey, MetricPoint>)
      returns (kept: map<MetricKey, MetricPoint>, evicted: set<MetricKey>)
    ensures LegalEviction(metrics, evicted) && kept == metrics - evicted
  {
    kept, evicted := metrics, {};
    if |metrics| > MAX_STORED_METRICS {
      var buckets := SortByBucket(metrics.Keys);
      var excess := |metrics| - MAX_STORED_METRICS;
      for i := 0 to excess
        invariant evicted == Taken(buckets, i)
        invariant kept == metrics - evicted
      {
        kept, evicted := kept - {buckets[i]}, evicted + {buckets[i]};
      }
      TakenSize(buckets, excess);
      FrontIsOldest(metrics, buckets, excess);
    }
  }

  lemma EvictionSize(metrics: map<MetricKey, MetricPoint>, evicted: set<MetricKey>)
    requires LegalEviction(metrics, evicted)
    ensures |metrics - evicted| == |metrics| - |evicted| <= MAX_STORED_METRICS
  {
    assert (metrics - evicted).Keys == metrics.Keys - evicted;
    assert |metrics.Keys - evicted| == |metrics.Keys| - |evicted|;
  }

  // ---------- events ----------

  const REDACTED_ATTRIBUTES := {"url", "full_url", "html", "request_body", "response_body"}

  function Redact(e: Event): Event {
    var kept := e.attributes - REDACTED_ATTRIBUTES;
    e.(message := Utf8.Bounded(e.message),
       attributes := if "domain" in kept then kept["domain" := Domains.Sanitize(kept["domain"])] else kept)
  }

  function RedactAll(events: seq<Event>): (r: seq<Event>)
    ensures |r| == |events|
  {
    seq(|events|, i requires 0 <= i < |events| => Redact(events[i]))
  }

  function Newest(events: seq<Event>): seq<Event> {
    if |events| > MAX_STORED_EVENTS then events[|events| - MAX_STORED_EVENTS..] else events
  }

  /** Nothing that could carry page content is stored with an event: five attributes go, the domain is
      reduced, the message is cut, and everything else stays as it was sent. */
  lemma RedactionRemovesContent(e: Event)
    ensures forall name ::
              name in Redact(e).attributes <==>
                name in e.attributes && name !in {"url", "full_url", "html", "request_body", "response_body"}
    ensures forall name :: name in Redact(e).attributes && name != "domain" ==>
            Redact(e).attributes[name] == e.attributes[name]
    ensures "domain" in e.attributes ==>
              && Redact(e).attributes["domain"] == Domains.Sanitize(e.attributes["domain"])
              && forall i :: 0 <= i < |Redact(e).attributes["domain"]| ==>
                 Domains.IsBare(Redact(e).attributes["domain"][i])
    ensures |Redact(e).message| <= 512 && Redact(e).message <= e.message
    ensures |e.message| <= 512 ==> Redact(e).message == e.message
    ensures Redact(e) == e.(message := Redact(e).message, attributes := Redact(e).attributes)
  {
    if "domain" in e.attributes {
      Domains.SanitizeRedacts(e.attributes["domain"]);
    }
  }

  // ---------- one report ----------

  ghost function Report(s: State, reporter: string, samples: seq<MetricSample>, events: seq<Event>,
                        evicted: set<MetricKey>): State {
    s.(metrics := RecordAll(s.metrics, Accepted(samples, reporter)) - evicted,
       events := Newest(s.events + RedactAll(events)))
  }

  ghost predicate LegalReport(s: State, reporter: string, samples: seq<MetricSample>, evicted: set<MetricKey>) {
    LegalEviction(RecordAll(s.metrics, Accepted(samples, reporter)), evicted)
  }

  // ---------- what has been reported ----------

  datatype Batch = Batch(reporter: string, samples: seq<MetricSample>, events: seq<Event>, evicted: set<MetricKey>)

  /** What was reported: every redacted event, and per bucket the samples since it last appeared. */
  datatype History = History(stream: seq<Event>, samples: map<MetricKey, seq<Counted>>)

  ghost function Extended(h: map<MetricKey, seq<Counted>>, samples: seq<Counted>): map<MetricKey, seq<Counted>> {
    map k | k in h.Keys + (set i | 0 <= i < |samples| :: samples[i].key) ::
      (if k in h then h[k] else []) + ForKey(k, samples)
  }

  ghost function Remember(h: History, b: Batch): History {
    History(h.stream + RedactAll(b.events), Extended(h.samples, Accepted(b.samples, b.reporter)) - b.evicted)
  }

  /** The stored telemetry is determined by the history: the log is the longest allowed suffix
      of the stream, and each bucket aggregates exactly the samples it has had since it appeared. */
  ghost predicate Summarizes(s: State, h: History) {
    && s.events == Newest(h.stream)
    && s.metrics.Keys == h.samples.Keys
    && forall k :: k in s.metrics ==> s.metrics[k] == PointFromKey(k, Aggregate(0.0, h.samples[k]))
  }

  lemma {:induction false} AggregateSplits(start: real, a: seq<Counted>, b: seq<Counted>)
    ensures Aggregate(start, a + b) == Aggregate(Aggregate(start, a), b)
  {
    if b == [] {
      assert a + b == a;
    } else {
      var init, last := b[..|b| - 1], b[|b| - 1];
      var middle := Aggregate(start, a);
      calc {
        Aggregate(start, a + b);
        { assert a + b == a + init + [last]; }
        Aggregate(start, a + init + [last]);
        { AggregateExtends(start, a + init, last); }
        if last.kind == METRIC_GAUGE then last.value else Aggregate(start, a + init) + last.value;
        { AggregateSplits(start, a, init); }
        if last.kind == METRIC_GAUGE then last.value else Aggregate(middle, init) + last.value;
        { AggregateExtends(middle, init, last); }
        Aggregate(middle, init + [last]);
        { assert b == init + [last]; }
        Aggregate(middle, b);
      }
    }
  }

  lemma NewestOfNewest(a: seq<Event>, b: seq<Event>)
    ensures Newest(Newest(a) + b) == Newest(a + b)
  {
  }

  lemma ReportSummarizes(s: State, h: History, b: Batch)
    requires Summarizes(s, h)
    ensures Summarizes(Report(s, b.reporter, b.samples, b.events, b.evicted), Remember(h, b))
  {
    var samples := Accepted(b.samples, b.reporter);
    var metrics, extended := RecordAll(s.metrics, samples), Extended(h.samples, samples);
    NewestOfNewest(h.stream, RedactAll(b.events));
    forall k
      ensures k in metrics <==> k in extended
      ensures k in metrics ==> metrics[k] == PointFromKey(k, Aggregate(0.0, extended[k]))
    {
      RecordAllAggregatesPerKey(s.metrics, samples, k);
      assert (exists i :: 0 <= i < |samples| && samples[i].key == k) <==> ForKey(k, samples) != [];
      if k in metrics {
        AggregateSplits(0.0, if k in h.samples then h.samples[k] else [], ForKey(k, samples));
      }
    }
  }
}
