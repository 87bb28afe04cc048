/** What reports of telemetry and artifacts store, field by field. */
module ReportLaws {
  import opened Options
  import opened Messages
  import opened Strings
  import opened Registry
  import opened Operations
  import Domains
  import Telemetry

  // ---------- domains ----------

  lemma {:induction false} SchemeEnds(scheme: string, rest: string, from: nat)
    requires Free(scheme, ':') && from <= |scheme|
    ensures Domains.AfterScheme(scheme + "://" + rest, from) == rest
    decreases |scheme| - from
  {
    var s := scheme + "://" + rest;
    if from == |scheme| {
      assert s[from..from + 3] == "://" && s[from + 3..] == rest;
    } else {
      assert s[from..from + 3][0] == scheme[from];
      SchemeEnds(scheme, rest, from + 1);
    }
  }

  predicate SchemeAt(s: string, i: nat)
    requires i <= |s| - 3
  {
    s[i..i + 3] == "://"
  }

  ghost predicate Schemeless(s: string) {
    forall i :: 0 <= i <= |s| - 3 ==> !SchemeAt(s, i)
  }

  lemma {:induction false} NothingBeforeScheme(s: string, from: nat)
    requires Schemeless(s) && from <= |s|
    ensures Domains.AfterScheme(s, from) == s
    decreases |s| - from
  {
    if from + 3 <= |s| {
      assert !SchemeAt(s, from);
      NothingBeforeScheme(s, from + 1);
    }
  }

  predicate FreeOf(s: string, stops: set<char>) {
    forall i :: 0 <= i < |s| ==> s[i] !in stops
  }

  lemma {:induction false} BeforeStop(a: string, b: string, stops: set<char>)
    requires FreeOf(a, stops) && (b != "" ==> b[0] in stops)
    ensures Before(a + b, stops) == a
  {
    if a == "" {
      assert a + b == b;
    } else {
      assert (a + b)[1..] == a[1..] + b;
      BeforeStop(a[1..], b, stops);
    }
  }

  lemma {:induction false} AfterLastOf(a: string, b: string, stop: char)
    requires Free(b, stop) && (a != "" ==> a[|a| - 1] == stop)
    ensures Domains.AfterLast(a + b, stop) == b
    decreases |b|
  {
    if b == "" {
      assert a + b == a;
    } else {
      var init := b[..|b| - 1];
      assert (a + b)[..|a + b| - 1] == a + init;
      AfterLastOf(a, init, stop);
    }
  }

  /** An authority and what follows it: user info with its `@`, host, port with its `:`, and the rest
      from the first `/`, `?` or `#`. */
  ghost predicate IsAuthority(user: string, host: string, port: string, tail: string) {
    && FreeOf(user, {'/', '?', '#'}) && (user != "" ==> user[|user| - 1] == '@')
    && FreeOf(host, {'/', '?', '#', '@', ':'})
    && FreeOf(port, {'/', '?', '#', '@'}) && (port != "" ==> port[0] == ':')
    && (tail != "" ==> tail[0] in {'/', '?', '#'})
  }

  lemma AuthorityHost(user: string, host: string, port: string, tail: string)
    requires IsAuthority(user, host, port, tail)
    ensures Before(user + (host + port) + tail, {'/', '?', '#'}) == user + (host + port)
    ensures Domains.AfterLast(user + (host + port), '@') == host + port
    ensures Before(host + port, {':'}) == host
  {
    BeforeStop(user + (host + port), tail, {'/', '?', '#'});
    AfterLastOf(user, host + port, '@');
    BeforeStop(host, port, {':'});
  }

  predicate Tight(s: string) {
    s != "" && !Domains.IsWhitespace(s[0]) && !Domains.IsWhitespace(s[|s| - 1])
  }

  lemma TightStays(s: string)
    requires Tight(s)
    ensures Domains.TrimEnd(Domains.TrimStart(s)) == s
  {
  }

  ghost predicate Blank(s: string) {
    forall i :: 0 <= i < |s| ==> s[i] in {' ', '\t', '\r', '\n'}
  }

  lemma {:induction false} TrimmedEnd(s: string, pad: string)
    requires Blank(pad) && Tight(s)
    ensures Domains.TrimEnd(s + pad) == s
    decreases |pad|
  {
    if pad == "" {
      assert s + pad == s;
    } else {
      assert (s + pad)[..|s + pad| - 1] == s + pad[..|pad| - 1];
      TrimmedEnd(s, pad[..|pad| - 1]);
    }
  }

  lemma {:induction false} AllTrimmed(pad: string)
    requires Blank(pad)
    ensures Domains.TrimStart(pad) == ""
  {
    if pad != "" {
      AllTrimmed(pad[1..]);
    }
  }

  /** Blanks around an address do not count, and blanks alone name no domain. */
  lemma PaddingLaw(before: string, s: string, after: string)
    requires Blank(before) && Blank(after)
    ensures Tight(s) ==> Domains.Sanitize(before + s + after) == Domains.Sanitize(s)
    ensures Domains.Sanitize(before) == ""
  {
    AllTrimmed(before);
    if Tight(s) {
      PaddedStart(before, s, after);
      TrimmedEnd(s, after);
      TightStays(s);
    }
  }

  lemma {:induction false} PaddedStart(before: string, s: string, after: string)
    requires Blank(before) && Tight(s)
    ensures Domains.TrimStart(before + s + after) == s + after
  {
    if before == "" {
      assert before + s + after == s + after;
    } else {
      assert (before + s + after)[1..] == before[1..] + s + after;
      PaddedStart(before[1..], s, after);
    }
  }

  /** The host of an address is what is stored as its domain, in lower case, with a scheme or without. */
  lemma DomainLaw(scheme: string, user: string, host: string, port: string, tail: string)
    requires IsAuthority(user, host, port, tail)
    ensures var address := user + (host + port) + tail;
            && (Tight(address) && Schemeless(address) ==> Domains.Sanitize(address) == AsciiLower(host))
            && (Tight(scheme + "://" + address) && Free(scheme, ':') ==>
                  Domains.Sanitize(scheme + "://" + address) == AsciiLower(host))
  {
    var address := user + (host + port) + tail;
    AuthorityHost(user, host, port, tail);
    if Tight(address) && Schemeless(address) {
      TightStays(address);
      NothingBeforeScheme(address, 0);
    }
    if Tight(scheme + "://" + address) && Free(scheme, ':') {
      TightStays(scheme + "://" + address);
      SchemeEnds(scheme, address, 0);
    }
  }

  // ---------- samples ----------

  /** The start of the minute a time falls in; times before the epoch count as the epoch. */
  function MinuteOf(at: int): int {
    if at <= 0 then 0 else at / 60_000 * 60_000
  }

  /** A sample counts in the bucket of its minute and labels, for the machine named or else the
      reporter. */
  lemma CountLaw(sample: MetricSample, reporter: string)
    ensures var c := Telemetry.Count(sample, reporter);
            && c.kind == sample.kind && c.value == sample.value
            && c.key == MetricKey(sample.name, MinuteOf(sample.observedAt),
                                  if sample.machineId == "" then reporter else sample.machineId,
                                  sample.profileId, sample.platform, Domains.Sanitize(Domains.Sanitize(sample.domain)),
                                  sample.action, sample.statusClass, sample.errorClass)
  {
  }

  /** A gauge (kind 2) replaces the value of its bucket, any other sample adds to it. */
  lemma RecordLaw(metrics: map<MetricKey, MetricPoint>, c: Telemetry.Counted)
    ensures var before := if c.key in metrics then metrics[c.key].value else 0.0;
            var after := Telemetry.Record(metrics, c);
            && after.Keys == metrics.Keys + {c.key}
            && after[c.key].value == (if c.kind == 2 then c.value else before + c.value)
            && forall k :: k in metrics && k != c.key ==> after[k] == metrics[k]
  {
  }

  /** The samples with a name, in order. */
  function Named(samples: seq<MetricSample>): seq<MetricSample> {
    if samples == [] then []
    else if samples[0].name == "" then Named(samples[1..])
    else [samples[0]] + Named(samples[1..])
  }

  function CountAll(samples: seq<MetricSample>, reporter: string): seq<Telemetry.Counted> {
    seq(|samples|, i requires 0 <= i < |samples| => Telemetry.Count(samples[i], reporter))
  }

  lemma {:induction false} NamedOneMore(init: seq<MetricSample>, last: MetricSample)
    ensures Named(init + [last]) == Named(init) + if last.name == "" then [] else [last]
  {
    if init == [] {
      assert init + [last] == [last] && [last][1..] == [];
    } else {
      assert (init + [last])[1..] == init[1..] + [last];
      NamedOneMore(init[1..], last);
    }
  }

  lemma CountOneMore(init: seq<MetricSample>, last: MetricSample, reporter: string)
    ensures CountAll(init + [last], reporter) == CountAll(init, reporter) + [Telemetry.Count(last, reporter)]
  {
  }

  lemma AcceptedOneMore(init: seq<MetricSample>, last: MetricSample, reporter: string)
    requires CountsNamed(init, reporter)
    ensures CountsNamed(init + [last], reporter) == true
  {
    assert (init + [last])[..|init|] == init;
    NamedOneMore(init, last);
    CountOneMore(Named(init), last, reporter);
  }

  ghost predicate CountsNamed(samples: seq<MetricSample>, reporter: string) {
    Telemetry.Accepted(samples, reporter) == CountAll(Named(samples), reporter)
  }

  lemma NothingIsCounted(reporter: string)
    ensures CountsNamed([], reporter)
  {
    assert CountAll([], reporter) == [];
  }

  lemma PrefixStep(samples: seq<MetricSample>, n: nat)
    requires 0 < n <= |samples|
    ensures samples[..n] == samples[..n - 1] + [samples[n - 1]]
  {
  }

  lemma {:induction false} CountsNamedUpTo(samples: seq<MetricSample>, reporter: string, n: nat)
    requires n <= |samples|
    ensures CountsNamed(samples[..n], reporter) == true
  {
    if n == 0 {
      NothingIsCounted(reporter);
    } else {
      CountsNamedUpTo(samples, reporter, n - 1);
      AcceptedOneMore(samples[..n - 1], samples[n - 1], reporter);
      PrefixStep(samples, n);
    }
  }

  /** A report counts exactly its named samples, in order. */
  lemma AcceptedLaw(samples: seq<MetricSample>, reporter: string)
    ensures Telemetry.Accepted(samples, reporter) == CountAll(Named(samples), reporter)
  {
    CountsNamedUpTo(samples, reporter, |samples|);
    assert samples[..|samples|] == samples;
  }

  // ---------- a report of telemetry ----------

  /** The log afterwards: the last 5000 of what was there and the redacted events, in order. */
  ghost predicate LogsReport(before: seq<Event>, events: seq<Event>, after: seq<Event>) {
    var size := |before| + |events|;
    && |after| == (if size > 5_000 then 5_000 else size)
    && forall i :: 0 <= i < |after| ==>
         var n := size - |after| + i;
         after[i] == if n < |before| then before[n] else Telemetry.Redact(events[n - |before|])
  }

  lemma NewestIsEnd(all: seq<Event>)
    ensures var newest := Telemetry.Newest(all);
            |newest| == (if |all| > 5_000 then 5_000 else |all|) && newest == all[|all| - |newest|..]
  {
  }

  lemma LogEntry(before: seq<Event>, events: seq<Event>, n: nat)
    requires n < |before| + |events|
    ensures (before + Telemetry.RedactAll(events))[n] ==
            if n < |before| then before[n] else Telemetry.Redact(events[n - |before|])
  {
  }

  lemma EndIsLogged(before: seq<Event>, events: seq<Event>, all: seq<Event>, newest: seq<Event>)
    requires |all| == |before| + |events|
    requires forall n :: 0 <= n < |all| ==> all[n] == if n < |before| then before[n]
             else Telemetry.Redact(events[n - |before|])
    requires |newest| == (if |all| > 5_000 then 5_000 else |all|) && newest == all[|all| - |newest|..]
    ensures LogsReport(before, events, newest) == true
  {
    assert forall i :: 0 <= i < |newest| ==> newest[i] == all[|all| - |newest| + i];
  }

  lemma LogLaw(before: seq<Event>, events: seq<Event>)
    ensures LogsReport(before, events, Telemetry.Newest(before + Telemetry.RedactAll(events))) == true
  {
    var all := before + Telemetry.RedactAll(events);
    forall n | 0 <= n < |all|
      ensures all[n] == if n < |before| then before[n] else Telemetry.Redact(events[n - |before|])
    {
      LogEntry(before, events, n);
    }
    NewestIsEnd(all);
    EndIsLogged(before, events, all, Telemetry.Newest(all));
  }

  /** What is left of the buckets: all of them up to 5000, else 5000 of which none is older than one
      that is gone. */
  ghost predicate KeepsNewest(all: map<MetricKey, MetricPoint>, kept: map<MetricKey, MetricPoint>) {
    && kept.Keys <= all.Keys && (forall k :: k in kept ==> kept[k] == all[k])
    && |kept| == (if |all| > 5_000 then 5_000 else |all|)
    && forall gone, k :: gone in all && gone !in kept && k in kept ==> gone.bucketStart <= k.bucketStart
  }

  lemma EvictionLaw(all: map<MetricKey, MetricPoint>, evicted: set<MetricKey>)
    requires Telemetry.LegalEviction(all, evicted)
    ensures KeepsNewest(all, all - evicted) == true
  {
    Telemetry.EvictionSize(all, evicted);
  }

  lemma ReportLaw(s: State, reporter: string, samples: seq<MetricSample>, events: seq<Event>, evicted: set<MetricKey>)
    requires Telemetry.LegalReport(s, reporter, samples, evicted)
    ensures var o := HandleReportTelemetry(s, reporter, samples, events, evicted);
            && (reporter == "" ==> o == Keep(Done(Failed(InvalidArgument))))
            && (reporter != "" ==>
                  && o.Commit?
                  && o.answer == Done(TelemetryAccepted(|Named(samples)|, |events|))
                  && LogsReport(s.events, events, o.state.events)
                  && KeepsNewest(Telemetry.RecordAll(s.metrics, CountAll(Named(samples), reporter)), o.state.metrics)
                  && o.state == s.(metrics := o.state.metrics, events := o.state.events))
  {
    AcceptedLaw(samples, reporter);
    LogLaw(s.events, events);
    EvictionLaw(Telemetry.RecordAll(s.metrics, Telemetry.Accepted(samples, reporter)), evicted);
  }

  // ---------- a report of artifacts ----------

  predicate LastNamed(reported: seq<Artifact>, i: int) {
    && 0 <= i < |reported| && reported[i].artifactId != ""
    && forall j :: i < j < |reported| ==> reported[j].artifactId != reported[i].artifactId
  }

  /** Every named artifact is stored as last reported, for the machine named or else the reporter, and
      the others stay. */
  ghost predicate StoresArtifacts(before: map<string, Artifact>, reported: seq<Artifact>, reporter: string,
                                  after: map<string, Artifact>) {
    && (forall i :: LastNamed(reported, i) ==>
          && reported[i].artifactId in after
          && after[reported[i].artifactId] ==
             Artifact(reported[i].artifactId, if reported[i].machineId == "" then reporter else reported[i].machineId,
                      reported[i].details))
    && forall id :: !IsNamed(reported, id) ==>
         (id in after <==> id in before) && (id in after ==> after[id] == before[id])
  }

  predicate IsNamed(reported: seq<Artifact>, id: string) {
    id != "" && exists i :: 0 <= i < |reported| && reported[i].artifactId == id
  }

  lemma {:induction false} ArtifactsLaw(before: map<string, Artifact>, reported: seq<Artifact>, reporter: string)
    ensures StoresArtifacts(before, reported, reporter, StoreArtifacts(before, reported, reporter)) == true
  {
    if reported != [] {
      var init := reported[..|reported| - 1];
      ArtifactsLaw(before, init, reporter);
      ArtifactOneMore(before, init, reported[|reported| - 1], reporter, StoreArtifacts(before, init, reporter),
                      StoreArtifacts(before, reported, reporter));
      assert init + [reported[|reported| - 1]] == reported;
    }
  }

  lemma ArtifactOneMore(before: map<string, Artifact>, init: seq<Artifact>, last: Artifact, reporter: string,
                        middle: map<string, Artifact>, after: map<string, Artifact>)
    requires StoresArtifacts(before, init, reporter, middle)
    requires after == if last.artifactId == "" then middle
                      else middle[last.artifactId :=
                                  last.(machineId := if last.machineId == "" then reporter else last.machineId)]
    ensures StoresArtifacts(before, init + [last], reporter, after) == true
  {
    var all := init + [last];
    forall i | LastNamed(all, i)
      ensures all[i].artifactId in after
      ensures after[all[i].artifactId] ==
              Artifact(all[i].artifactId, if all[i].machineId == "" then reporter else all[i].machineId, all[i].details)
    {
      if i < |init| {
        assert all[|init|].artifactId != all[i].artifactId;
        assert forall j :: i < j < |init| ==> all[j] == init[j];
        assert LastNamed(init, i);
      }
    }
    forall id | !IsNamed(all, id)
      ensures !IsNamed(init, id) && (id == "" || id != last.artifactId)
    {
      assert all[|init|] == last;
      assert forall i :: 0 <= i < |init| ==> init[i] == all[i];
    }
  }

  lemma {:induction false} ArtifactCount(reported: seq<Artifact>)
    ensures CountArtifacts(reported) == |set i | 0 <= i < |reported| && reported[i].artifactId != ""|
  {
    var named := set i | 0 <= i < |reported| && reported[i].artifactId != "";
    if reported == [] {
      assert named == {};
    } else {
      var init, last := reported[..|reported| - 1], reported[|reported| - 1];
      ArtifactCount(init);
      var before := set i | 0 <= i < |init| && init[i].artifactId != "";
      assert named == before + if last.artifactId == "" then {} else {|init|};
    }
  }

  lemma ArtifactReportLaw(s: State, reporter: string, artifacts: seq<Artifact>)
    ensures var o := HandleReportArtifacts(s, reporter, artifacts);
            && (reporter == "" ==> o == Keep(Done(Failed(InvalidArgument))))
            && (reporter != "" ==>
                  && o.Commit? && StoresArtifacts(s.artifacts, artifacts, reporter, o.state.artifacts)
                  && o.state == s.(artifacts := o.state.artifacts)
                  && o.answer ==
                     Done(ArtifactsAccepted(|set i | 0 <= i < |artifacts| && artifacts[i].artifactId != ""|)))
  {
    ArtifactsLaw(s.artifacts, artifacts, reporter);
    ArtifactCount(artifacts);
  }
}
