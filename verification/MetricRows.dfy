/** Which metric points can share a row of the store: the exact condition under which joining their
    fields with an unescaped separator loses information, among the points that samples fall in. */
module MetricRows {
  import opened Messages
  import opened Strings
  import opened Registry
  import opened Persistence
  import Domains
  import RowIdentity
  import Telemetry

  const I64_MAX := 0x7FFF_FFFF_FFFF_FFFF
  const I32_MIN := -0x8000_0000
  const I32_MAX := 0x7FFF_FFFF

  predicate IsBucket(n: int) {
    0 <= n <= I64_MAX && n % Telemetry.METRIC_BUCKET_MS == 0
  }

  predicate IsTrimmed(s: string) {
    s != "" ==> !Domains.IsWhitespace(s[0]) && !Domains.IsWhitespace(s[|s| - 1])
  }

  ghost predicate IsDomain(s: string) {
    IsTrimmed(s) && forall i :: 0 <= i < |s| ==> Domains.IsBare(s[i])
  }

  /** A point that some sample falls in. */
  ghost predicate Storable(p: MetricPoint) {
    p.name != "" && p.machineId != "" && IsBucket(p.bucketStart) && I32_MIN <= p.platform <= I32_MAX
        && IsDomain(p.domain)
  }

  /** The first `k` pieces of a text that holds separators. */
  function FirstPieces(s: string, k: nat): string
    requires k <= |Split(s, UNIT_SEPARATOR)|
  {
    Join(Split(s, UNIT_SEPARATOR)[..k], UNIT_SEPARATOR)
  }

  ghost predicate IsBucketText(s: string) {
    exists n :: IsBucket(n) && s == Decimal(n)
  }

  /** A piece of the name reads like a bucket, and what stands before it is a name. */
  ghost predicate HidesBucket(name: string) {
    exists k :: 0 < k < |Split(name, UNIT_SEPARATOR)|
                && FirstPieces(name, k) != "" && IsBucketText(Split(name, UNIT_SEPARATOR)[k])
  }

  /** The machine id can be cut at a separator so that a machine id is left. */
  ghost predicate HidesMachine(machineId: string) {
    exists k :: 0 < k < |Split(machineId, UNIT_SEPARATOR)| && FirstPieces(machineId, k) != ""
  }

  /** The domain can be cut at a separator so that a domain is left. */
  ghost predicate HidesDomain(domain: string) {
    exists k :: 0 < k < |Split(domain, UNIT_SEPARATOR)| && IsTrimmed(FirstPieces(domain, k))
  }

  ghost predicate Ambiguous(p: MetricPoint) {
    || HidesBucket(p.name) || HidesMachine(p.machineId) || HidesDomain(p.domain)
    || !Free(p.profileId, UNIT_SEPARATOR) || !Free(p.action, UNIT_SEPARATOR)
    || !Free(p.statusClass, UNIT_SEPARATOR) || !Free(p.errorClass, UNIT_SEPARATOR)
  }

  ghost predicate ShareRow(p: MetricPoint, q: MetricPoint) {
    Storable(q) && KeyOfPoint(q) != KeyOfPoint(p) && MetricPointId(q) == MetricPointId(p)
  }

  // ---------- ambiguous points share their row ----------

  /** Two neighbouring fields can be cut elsewhere without a trace in the joined text. */
  lemma PairHides(before: seq<string>, f: string, g: string, x: string, y: string, after: seq<string>, sep: char)
    requires f + [sep] + g == x + [sep] + y
    ensures Join(before + ([f, g] + after), sep) == Join(before + ([x, y] + after), sep)
  {
    assert Join([f, g], sep) == f + [sep] + g && Join([x, y], sep) == x + [sep] + y;
    if after == [] {
      assert [f, g] + after == [f, g] && [x, y] + after == [x, y];
    } else {
      JoinConcat([f, g], after, sep);
      JoinConcat([x, y], after, sep);
    }
    if before == [] {
      assert before + ([f, g] + after) == [f, g] + after && before + ([x, y] + after) == [x, y] + after;
    } else {
      JoinConcat(before, [f, g] + after, sep);
      JoinConcat(before, [x, y] + after, sep);
    }
  }

  /** A separator in one of two neighbours lets them be cut elsewhere. */
  lemma NeighboursCutElsewhere(f: string, g: string, sep: char) returns (x: string, y: string)
    requires !Free(f, sep) || !Free(g, sep)
    ensures f + [sep] + g == x + [sep] + y && x != f
  {
    var whole := f + [sep] + g;
    if !Free(f, sep) {
      var i :| 0 <= i < |f| && f[i] == sep;
      x, y := whole[..i], whole[i + 1..];
      assert whole[i] == sep;
    } else {
      var i :| 0 <= i < |g| && g[i] == sep;
      x, y := whole[..|f| + 1 + i], whole[|f| + 2 + i..];
      assert whole[|f| + 1 + i] == sep;
    }
  }

  lemma FirstPiecesCut(s: string, k: nat)
    requires 0 < k < |Split(s, UNIT_SEPARATOR)|
    ensures var rest := Join(Split(s, UNIT_SEPARATOR)[k..], UNIT_SEPARATOR);
            s == FirstPieces(s, k) + [UNIT_SEPARATOR] + rest && FirstPieces(s, k) <= s && FirstPieces(s, k) != s
  {
    var pieces := Split(s, UNIT_SEPARATOR);
    JoinUndoesSplit(s, UNIT_SEPARATOR);
    JoinConcat(pieces[..k], pieces[k..], UNIT_SEPARATOR);
    assert pieces[..k] + pieces[k..] == pieces;
  }

  lemma MovedText(x: string, rest: string, g: string)
    ensures x + [UNIT_SEPARATOR] + rest + [UNIT_SEPARATOR] + g == x + [UNIT_SEPARATOR] + (rest + [UNIT_SEPARATOR] + g)
  {
  }

  lemma MachineAndProfileMove(p: MetricPoint, x: string, y: string)
    requires p.machineId + [UNIT_SEPARATOR] + p.profileId == x + [UNIT_SEPARATOR] + y
    ensures MetricPointId(p.(machineId := x, profileId := y)) == MetricPointId(p)
  {
    var q := p.(machineId := x, profileId := y);
    var before := [p.name, Decimal(p.bucketStart)];
    var after := [Decimal(p.platform), p.domain, p.action, p.statusClass, p.errorClass];
    PairHides(before, p.machineId, p.profileId, x, y, after, UNIT_SEPARATOR);
    assert MetricFields(p) == before + ([p.machineId, p.profileId] + after);
    assert MetricFields(q) == before + ([x, y] + after);
  }

  lemma MachineShares(p: MetricPoint) returns (q: MetricPoint)
    requires Storable(p) && HidesMachine(p.machineId)
    ensures ShareRow(p, q)
  {
    var k :| 0 < k < |Split(p.machineId, UNIT_SEPARATOR)| && FirstPieces(p.machineId, k) != "";
    var x, rest := FirstPieces(p.machineId, k), Join(Split(p.machineId, UNIT_SEPARATOR)[k..], UNIT_SEPARATOR);
    FirstPiecesCut(p.machineId, k);
    MovedText(x, rest, p.profileId);
    MachineAndProfileMove(p, x, rest + [UNIT_SEPARATOR] + p.profileId);
    q := p.(machineId := x, profileId := rest + [UNIT_SEPARATOR] + p.profileId);
  }

  lemma ProfileShares(p: MetricPoint) returns (q: MetricPoint)
    requires Storable(p) && !Free(p.profileId, UNIT_SEPARATOR)
    ensures ShareRow(p, q)
  {
    var i :| 0 <= i < |p.profileId| && p.profileId[i] == UNIT_SEPARATOR;
    var a, y := p.profileId[..i], p.profileId[i + 1..];
    assert p.profileId == a + [UNIT_SEPARATOR] + y;
    MovedText(p.machineId, a, y);
    MachineAndProfileMove(p, p.machineId + [UNIT_SEPARATOR] + a, y);
    q := p.(machineId := p.machineId + [UNIT_SEPARATOR] + a, profileId := y);
  }

  lemma PrefixIsBare(s: string, x: string)
    requires IsDomain(s) && x <= s && IsTrimmed(x)
    ensures IsDomain(x)
  {
  }

  lemma DomainAndActionMove(p: MetricPoint, x: string, y: string)
    requires p.domain + [UNIT_SEPARATOR] + p.action == x + [UNIT_SEPARATOR] + y
    ensures MetricPointId(p.(domain := x, action := y)) == MetricPointId(p)
  {
    var q := p.(domain := x, action := y);
    var before := [p.name, Decimal(p.bucketStart), p.machineId, p.profileId, Decimal(p.platform)];
    PairHides(before, p.domain, p.action, x, y, [p.statusClass, p.errorClass], UNIT_SEPARATOR);
    assert MetricFields(p) == before + ([p.domain, p.action] + [p.statusClass, p.errorClass]);
    assert MetricFields(q) == before + ([x, y] + [p.statusClass, p.errorClass]);
  }

  lemma DomainShares(p: MetricPoint) returns (q: MetricPoint)
    requires Storable(p) && HidesDomain(p.domain)
    ensures ShareRow(p, q)
  {
    var k :| 0 < k < |Split(p.domain, UNIT_SEPARATOR)| && IsTrimmed(FirstPieces(p.domain, k));
    var x, rest := FirstPieces(p.domain, k), Join(Split(p.domain, UNIT_SEPARATOR)[k..], UNIT_SEPARATOR);
    FirstPiecesCut(p.domain, k);
    PrefixIsBare(p.domain, x);
    MovedText(x, rest, p.action);
    DomainAndActionMove(p, x, rest + [UNIT_SEPARATOR] + p.action);
    q := p.(domain := x, action := rest + [UNIT_SEPARATOR] + p.action);
  }

  lemma ActionAndStatusMove(p: MetricPoint, x: string, y: string)
    requires p.action + [UNIT_SEPARATOR] + p.statusClass == x + [UNIT_SEPARATOR] + y
    ensures MetricPointId(p.(action := x, statusClass := y)) == MetricPointId(p)
  {
    var q := p.(action := x, statusClass := y);
    var before := [p.name, Decimal(p.bucketStart), p.machineId, p.profileId, Decimal(p.platform), p.domain];
    PairHides(before, p.action, p.statusClass, x, y, [p.errorClass], UNIT_SEPARATOR);
    assert MetricFields(p) == before + ([p.action, p.statusClass] + [p.errorClass]);
    assert MetricFields(q) == before + ([x, y] + [p.errorClass]);
  }

  lemma ActionShares(p: MetricPoint) returns (q: MetricPoint)
    requires Storable(p) && (!Free(p.action, UNIT_SEPARATOR) || !Free(p.statusClass, UNIT_SEPARATOR))
    ensures ShareRow(p, q)
  {
    var x, y := NeighboursCutElsewhere(p.action, p.statusClass, UNIT_SEPARATOR);
    ActionAndStatusMove(p, x, y);
    q := p.(action := x, statusClass := y);
  }

  lemma ClassesMove(p: MetricPoint, x: string, y: string)
    requires p.statusClass + [UNIT_SEPARATOR] + p.errorClass == x + [UNIT_SEPARATOR] + y
    ensures MetricPointId(p.(statusClass := x, errorClass := y)) == MetricPointId(p)
  {
    var q := p.(statusClass := x, errorClass := y);
    var before := [p.name, Decimal(p.bucketStart), p.machineId, p.profileId, Decimal(p.platform), p.domain, p.action];
    PairHides(before, p.statusClass, p.errorClass, x, y, [], UNIT_SEPARATOR);
    assert MetricFields(p) == before + ([p.statusClass, p.errorClass] + []);
    assert MetricFields(q) == before + ([x, y] + []);
  }

  lemma ClassesShare(p: MetricPoint) returns (q: MetricPoint)
    requires Storable(p) && !Free(p.errorClass, UNIT_SEPARATOR)
    ensures ShareRow(p, q)
  {
    var x, y := NeighboursCutElsewhere(p.statusClass, p.errorClass, UNIT_SEPARATOR);
    ClassesMove(p, x, y);
    q := p.(statusClass := x, errorClass := y);
  }

  /** Cutting the joined text anywhere gives fields that join to it again. */
  lemma JoinRegroups(a: seq<string>, d: string, b: seq<string>, rest: seq<string>, sep: char)
    requires a != [] && b != [] && rest != []
    ensures Join([Join(a, sep), d, Join(b, sep)] + rest, sep) == Join(a + ([d] + (b + rest)), sep)
  {
    var x, y := Join(a, sep), Join(b, sep);
    JoinConcat([x, d, y], rest, sep);
    JoinConcat([x], [d, y], sep);
    JoinConcat([d], [y], sep);
    assert [x, d, y] == [x] + [d, y] && [d, y] == [d] + [y];
    JoinConcat(a, [d] + (b + rest), sep);
    JoinConcat([d], b + rest, sep);
    JoinConcat(b, rest, sep);
    var z := Join(rest, sep);
    assert x + [sep] + (d + [sep] + y) + [sep] + z == x + [sep] + (d + [sep] + (y + [sep] + z));
  }

  lemma NameFieldsJoin(p: MetricPoint, pieces: seq<string>, rest: seq<string>)
    requires pieces == Split(p.name, UNIT_SEPARATOR) && rest != []
    ensures Join([p.name] + rest, UNIT_SEPARATOR) == Join(pieces + rest, UNIT_SEPARATOR)
  {
    JoinUndoesSplit(p.name, UNIT_SEPARATOR);
    JoinConcat([p.name], rest, UNIT_SEPARATOR);
    JoinConcat(pieces, rest, UNIT_SEPARATOR);
  }

  /** The pieces of the name from `k` on, the bucket and the machine, read as a bucket and a machine. */
  function LateFields(p: MetricPoint, k: nat): string
    requires k < |Split(p.name, UNIT_SEPARATOR)|
  {
    Join(Split(p.name, UNIT_SEPARATOR)[k + 1..] + [Decimal(p.bucketStart), p.machineId], UNIT_SEPARATOR)
  }

  lemma NameRegroups(p: MetricPoint, k: nat, rest: seq<string>)
    requires 0 < k < |Split(p.name, UNIT_SEPARATOR)| && rest != []
    ensures var pieces := Split(p.name, UNIT_SEPARATOR);
            Join([p.name] + ([Decimal(p.bucketStart), p.machineId] + rest), UNIT_SEPARATOR) ==
            Join([Join(pieces[..k], UNIT_SEPARATOR), pieces[k], LateFields(p, k)] + rest, UNIT_SEPARATOR)
  {
    var pieces := Split(p.name, UNIT_SEPARATOR);
    var late := pieces[k + 1..] + [Decimal(p.bucketStart), p.machineId];
    NameFieldsJoin(p, pieces, [Decimal(p.bucketStart), p.machineId] + rest);
    JoinRegroups(pieces[..k], pieces[k], late, rest, UNIT_SEPARATOR);
    assert pieces + ([Decimal(p.bucketStart), p.machineId] + rest) == pieces[..k] + ([pieces[k]] + (late + rest));
  }

  /** The bucket `n` hidden at `k` in the name trades places with the real one. */
  function Traded(p: MetricPoint, k: nat, n: int): MetricPoint
    requires k < |Split(p.name, UNIT_SEPARATOR)|
  {
    p.(name := FirstPieces(p.name, k), bucketStart := n, machineId := LateFields(p, k))
  }

  lemma FieldsSplit(p: MetricPoint, rest: seq<string>)
    requires rest == [p.profileId, Decimal(p.platform), p.domain, p.action, p.statusClass, p.errorClass]
    ensures MetricFields(p) == [p.name] + ([Decimal(p.bucketStart), p.machineId] + rest)
    ensures MetricFields(p) == [p.name, Decimal(p.bucketStart), p.machineId] + rest
  {
  }

  lemma TradedSharesId(p: MetricPoint, k: nat, n: int)
    requires 0 < k < |Split(p.name, UNIT_SEPARATOR)| && Split(p.name, UNIT_SEPARATOR)[k] == Decimal(n)
    ensures MetricPointId(Traded(p, k, n)) == MetricPointId(p)
  {
    var rest := [p.profileId, Decimal(p.platform), p.domain, p.action, p.statusClass, p.errorClass];
    NameRegroups(p, k, rest);
    FieldsSplit(p, rest);
    FieldsSplit(Traded(p, k, n), rest);
  }

  lemma LateFieldsAreNamed(p: MetricPoint, k: nat)
    requires k < |Split(p.name, UNIT_SEPARATOR)|
    ensures LateFields(p, k) != ""
  {
    var late := Split(p.name, UNIT_SEPARATOR)[k + 1..] + [Decimal(p.bucketStart), p.machineId];
    assert late == late[..1] + late[1..];
    JoinConcat(late[..1], late[1..], UNIT_SEPARATOR);
  }

  lemma NameShares(p: MetricPoint) returns (q: MetricPoint)
    requires Storable(p) && HidesBucket(p.name)
    ensures ShareRow(p, q)
  {
    var pieces := Split(p.name, UNIT_SEPARATOR);
    var k :| 0 < k < |pieces| && FirstPieces(p.name, k) != "" && IsBucketText(pieces[k]);
    var n :| IsBucket(n) && pieces[k] == Decimal(n);
    TradedSharesId(p, k, n);
    FirstPiecesCut(p.name, k);
    LateFieldsAreNamed(p, k);
    q := Traded(p, k, n);
  }

  lemma AmbiguousShares(p: MetricPoint) returns (q: MetricPoint)
    requires Storable(p) && Ambiguous(p)
    ensures ShareRow(p, q)
  {
    if HidesBucket(p.name) {
      q := NameShares(p);
    } else if HidesMachine(p.machineId) {
      q := MachineShares(p);
    } else if HidesDomain(p.domain) {
      q := DomainShares(p);
    } else if !Free(p.profileId, UNIT_SEPARATOR) {
      q := ProfileShares(p);
    } else if !Free(p.errorClass, UNIT_SEPARATOR) {
      q := ClassesShare(p);
    } else {
      q := ActionShares(p);
    }
  }

  // ---------- other points have their row to themselves ----------

  /** All pieces of all fields. */
  function Pieces(fields: seq<string>, sep: char): seq<string> {
    if fields == [] then [] else Split(fields[0], sep) + Pieces(fields[1..], sep)
  }

  lemma SplitAtSeparator(a: string, b: string, sep: char)
    ensures Split(a + [sep] + b, sep) == Split(a, sep) + Split(b, sep)
  {
    SplitIsFree(a, sep);
    SplitIsFree(b, sep);
    JoinUndoesSplit(a, sep);
    JoinUndoesSplit(b, sep);
    JoinConcat(Split(a, sep), Split(b, sep), sep);
    SplitUndoesJoin(Split(a, sep) + Split(b, sep), sep);
  }

  lemma {:induction false} SplitOfJoin(fields: seq<string>, sep: char)
    requires fields != []
    ensures Split(Join(fields, sep), sep) == Pieces(fields, sep)
  {
    if |fields| == 1 {
      assert Pieces(fields[1..], sep) == [];
    } else {
      SplitAtSeparator(fields[0], Join(fields[1..], sep), sep);
      SplitOfJoin(fields[1..], sep);
    }
  }

  lemma OnePiece(s: string, sep: char)
    ensures Free(s, sep) <==> |Split(s, sep)| == 1
    ensures |Split(s, sep)| == 1 ==> Split(s, sep) == [s]
  {
    if Free(s, sep) {
      BeforeAll(s, sep);
    }
  }

  lemma {:induction false} PiecesAreMany(fields: seq<string>, sep: char)
    ensures |Pieces(fields, sep)| >= |fields|
    ensures |Pieces(fields, sep)| == |fields| ==> Pieces(fields, sep) == fields
    ensures AllFree(fields, sep) ==> Pieces(fields, sep) == fields
  {
    if fields != [] {
      PiecesAreMany(fields[1..], sep);
      OnePiece(fields[0], sep);
    }
  }

  /** The pieces of a point's id, field by field; `tail` is those of the last three fields. */
  datatype Layout = Layout(
    name: seq<string>, bucket: string, machine: seq<string>, profile: seq<string>, platform: string,
    domain: seq<string>, tail: seq<string>)

  function Flat(l: Layout): seq<string> {
    l.name + ([l.bucket] + (l.machine + (l.profile + ([l.platform] + (l.domain + l.tail)))))
  }

  predicate WellSized(l: Layout) {
    |l.name| > 0 && |l.machine| > 0 && |l.profile| > 0 && |l.domain| > 0 && |l.tail| >= 3
  }

  function LayoutOf(p: MetricPoint): Layout {
    Layout(Split(p.name, UNIT_SEPARATOR), Decimal(p.bucketStart), Split(p.machineId, UNIT_SEPARATOR),
           Split(p.profileId, UNIT_SEPARATOR), Decimal(p.platform), Split(p.domain, UNIT_SEPARATOR),
           Pieces([p.action, p.statusClass, p.errorClass], UNIT_SEPARATOR))
  }

  lemma PiecesStep(field: string, rest: seq<string>)
    ensures Pieces([field] + rest, UNIT_SEPARATOR) == Split(field, UNIT_SEPARATOR) + Pieces(rest, UNIT_SEPARATOR)
  {
    assert ([field] + rest)[1..] == rest;
  }

  lemma NumberIsOnePiece(n: int)
    ensures Split(Decimal(n), UNIT_SEPARATOR) == [Decimal(n)]
  {
    DecimalIsFree(n, UNIT_SEPARATOR);
    OnePiece(Decimal(n), UNIT_SEPARATOR);
  }

  lemma IdIsFlat(p: MetricPoint)
    ensures Split(MetricPointId(p), UNIT_SEPARATOR) == Flat(LayoutOf(p)) && WellSized(LayoutOf(p))
  {
    var r6 := [p.action, p.statusClass, p.errorClass];
    var r5 := [p.domain] + r6;
    var r4 := [Decimal(p.platform)] + r5;
    var r3 := [p.profileId] + r4;
    var r2 := [p.machineId] + r3;
    var r1 := [Decimal(p.bucketStart)] + r2;
    assert MetricFields(p) == [p.name] + r1;
    SplitOfJoin(MetricFields(p), UNIT_SEPARATOR);
    PiecesStep(p.name, r1);
    PiecesStep(Decimal(p.bucketStart), r2);
    PiecesStep(p.machineId, r3);
    PiecesStep(p.profileId, r4);
    PiecesStep(Decimal(p.platform), r5);
    PiecesStep(p.domain, r6);
    NumberIsOnePiece(p.bucketStart);
    NumberIsOnePiece(p.platform);
    PiecesAreMany(r6, UNIT_SEPARATOR);
  }

  function PlatformAt(l: Layout): nat {
    |l.name| + 1 + |l.machine| + |l.profile|
  }

  lemma FlatSize(l: Layout)
    ensures |Flat(l)| == PlatformAt(l) + 1 + |l.domain| + |l.tail|
  {
  }

  lemma FlatNumbers(l: Layout)
    requires WellSized(l)
    ensures |Flat(l)| > PlatformAt(l) && Flat(l)[|l.name|] == l.bucket && Flat(l)[PlatformAt(l)] == l.platform
    ensures |Flat(l)| > |l.name| + 1 && Flat(l)[|l.name| + 1] == l.machine[0]
  {
  }

  lemma FlatDomain(l: Layout, i: nat)
    requires i < |l.domain|
    ensures |Flat(l)| > PlatformAt(l) + 1 + i && Flat(l)[PlatformAt(l) + 1 + i] == l.domain[i]
  {
  }

  ghost predicate IsNumber(s: string) {
    exists n :: s == Decimal(n)
  }

  /** What an unambiguous point's pieces look like. */
  ghost predicate Plain(l: Layout) {
    && |l.profile| == 1 && |l.tail| == 3
    && (|l.machine| == 1 || (|l.machine| == 2 && l.machine[0] == ""))
    && forall i :: 0 <= i < |l.domain| - 1 ==> !IsNumber(l.domain[i])
  }

  lemma NothingIsNoNumber()
    ensures !IsNumber("")
  {
  }

  lemma LaterPlatformIsInDomain(a: Layout, b: Layout)
    requires Flat(a) == Flat(b) && |a.tail| == 3 && WellSized(a) && WellSized(b) && PlatformAt(a) < PlatformAt(b)
    ensures var i := PlatformAt(b) - PlatformAt(a) - 1; i < |a.domain| - 1 && a.domain[i] == b.platform
  {
    FlatSize(a);
    FlatSize(b);
    FlatNumbers(b);
    FlatDomain(a, PlatformAt(b) - PlatformAt(a) - 1);
  }

  lemma PlatformComesNoLater(a: Layout, b: Layout)
    requires Flat(a) == Flat(b) && Plain(a) && WellSized(a) && WellSized(b) && IsNumber(b.platform)
    ensures PlatformAt(b) <= PlatformAt(a)
  {
    if PlatformAt(a) < PlatformAt(b) {
      LaterPlatformIsInDomain(a, b);
    }
  }

  /** Any other reading of the same pieces has the same boundaries, up to the domain. */
  lemma PlainFixesBoundaries(a: Layout, b: Layout)
    requires Flat(a) == Flat(b) && Plain(a) && WellSized(a) && WellSized(b)
    requires IsNumber(b.bucket) && IsNumber(b.platform) && |a.name| <= |b.name| && b.machine != [""]
    ensures |b.name| == |a.name| && |b.machine| == |a.machine| && |b.profile| == 1
  {
    PlatformComesNoLater(a, b);
    FlatNumbers(a);
    FlatNumbers(b);
    NothingIsNoNumber();
  }

  /** With equal boundaries the readings agree. */
  lemma BoundariesFixParts(a: Layout, b: Layout)
    requires Flat(a) == Flat(b) && |b.name| == |a.name| && |b.machine| == |a.machine| && |b.profile| == |a.profile|
    ensures b.name == a.name && b.bucket == a.bucket && b.machine == a.machine && b.profile == a.profile
    ensures b.platform == a.platform && b.domain + b.tail == a.domain + a.tail
  {
    var x, y := Flat(a), Flat(b);
    var m := |a.name| + 1;
    assert a.name == x[..|a.name|] && b.name == y[..|a.name|];
    assert a.bucket == x[|a.name|] && b.bucket == y[|a.name|];
    assert a.machine == x[m..m + |a.machine|] && b.machine == y[m..m + |a.machine|];
    assert a.profile == x[m + |a.machine|..PlatformAt(a)] && b.profile == y[m + |a.machine|..PlatformAt(a)];
    assert a.platform == x[PlatformAt(a)] && b.platform == y[PlatformAt(a)];
    assert a.domain + a.tail == x[PlatformAt(a) + 1..] && b.domain + b.tail == y[PlatformAt(a) + 1..];
  }

  // ---------- an unambiguous point is plain ----------

  lemma TwoPiecesAreNamed(pieces: seq<string>)
    requires |pieces| >= 2
    ensures Join(pieces, UNIT_SEPARATOR) != ""
  {
  }

  lemma UnhiddenMachineIsPlain(machineId: string)
    requires !HidesMachine(machineId)
    ensures var pieces := Split(machineId, UNIT_SEPARATOR); |pieces| == 1 || (|pieces| == 2 && pieces[0] == "")
  {
    var pieces := Split(machineId, UNIT_SEPARATOR);
    if |pieces| > 1 {
      assert FirstPieces(machineId, 1) == Join(pieces[..1], UNIT_SEPARATOR) == pieces[0];
      if |pieces| > 2 {
        assert FirstPieces(machineId, 2) == Join(pieces[..2], UNIT_SEPARATOR);
        TwoPiecesAreNamed(pieces[..2]);
      }
    }
  }

  lemma {:induction false} JoinEndsLikeLast(pieces: seq<string>)
    requires pieces != [] && pieces[|pieces| - 1] != ""
    ensures var text, last := Join(pieces, UNIT_SEPARATOR), pieces[|pieces| - 1];
            text != "" && text[|text| - 1] == last[|last| - 1]
  {
    if |pieces| > 1 {
      JoinEndsLikeLast(pieces[1..]);
    }
  }

  lemma NumbersEndInDigits(n: int)
    ensures Decimal(n) != "" && !Domains.IsWhitespace(Decimal(n)[|Decimal(n)| - 1])
  {
  }

  lemma UnhiddenDomainHasNoNumber(domain: string, i: nat)
    requires IsDomain(domain) && !HidesDomain(domain) && i < |Split(domain, UNIT_SEPARATOR)| - 1
    ensures !IsNumber(Split(domain, UNIT_SEPARATOR)[i])
  {
    var pieces := Split(domain, UNIT_SEPARATOR);
    if IsNumber(pieces[i]) {
      var n :| pieces[i] == Decimal(n);
      NumbersEndInDigits(n);
      JoinEndsLikeLast(pieces[..i + 1]);
      FirstPiecesCut(domain, i + 1);
      assert IsTrimmed(FirstPieces(domain, i + 1));
    }
  }

  lemma UnambiguousIsPlain(p: MetricPoint)
    requires Storable(p) && !Ambiguous(p)
    ensures Plain(LayoutOf(p))
    ensures Pieces([p.action, p.statusClass, p.errorClass], UNIT_SEPARATOR) == [p.action, p.statusClass, p.errorClass]
  {
    OnePiece(p.profileId, UNIT_SEPARATOR);
    PiecesAreMany([p.action, p.statusClass, p.errorClass], UNIT_SEPARATOR);
    UnhiddenMachineIsPlain(p.machineId);
    forall i | 0 <= i < |Split(p.domain, UNIT_SEPARATOR)| - 1
      ensures !IsNumber(Split(p.domain, UNIT_SEPARATOR)[i])
    {
      UnhiddenDomainHasNoNumber(p.domain, i);
    }
  }

  /** A point with a shorter name under the same id shows that the longer name hides a bucket. */
  lemma ShorterNameShowsBucket(p: MetricPoint, q: MetricPoint)
    requires Storable(q) && MetricPointId(p) == MetricPointId(q)
    ensures |Split(q.name, UNIT_SEPARATOR)| < |Split(p.name, UNIT_SEPARATOR)| ==> HidesBucket(p.name)
  {
    var a, b := LayoutOf(p), LayoutOf(q);
    IdIsFlat(p);
    IdIsFlat(q);
    var k := |b.name|;
    if k < |a.name| {
      FlatNumbers(b);
      assert a.name[k] == Flat(a)[k] == Flat(b)[k] == Decimal(q.bucketStart);
      assert b.name == Flat(b)[..k] == Flat(a)[..k] == a.name[..k];
      JoinUndoesSplit(q.name, UNIT_SEPARATOR);
      assert IsBucketText(a.name[k]) && FirstPieces(p.name, k) == q.name;
    }
  }

  /** A point with a shorter domain shows that the longer domain hides one. */
  lemma ShorterDomainShows(domain: string, other: string, tail: seq<string>, rest: seq<string>)
    requires IsDomain(other)
    requires Split(other, UNIT_SEPARATOR) + rest == Split(domain, UNIT_SEPARATOR) + tail
    ensures |Split(other, UNIT_SEPARATOR)| < |Split(domain, UNIT_SEPARATOR)| ==> HidesDomain(domain)
  {
    var a, b := Split(domain, UNIT_SEPARATOR), Split(other, UNIT_SEPARATOR);
    var k := |b|;
    if k < |a| {
      assert b == (b + rest)[..k] == (a + tail)[..k] == a[..k];
      JoinUndoesSplit(other, UNIT_SEPARATOR);
      assert FirstPieces(domain, k) == other;
    }
  }

  lemma SameSplitSameText(s: string, t: string)
    requires Split(s, UNIT_SEPARATOR) == Split(t, UNIT_SEPARATOR)
    ensures s == t
  {
    JoinUndoesSplit(s, UNIT_SEPARATOR);
    JoinUndoesSplit(t, UNIT_SEPARATOR);
  }

  lemma LayoutFixesKey(p: MetricPoint, q: MetricPoint)
    requires LayoutOf(p).(tail := []) == LayoutOf(q).(tail := [])
    requires p.action == q.action && p.statusClass == q.statusClass && p.errorClass == q.errorClass
    ensures KeyOfPoint(p) == KeyOfPoint(q)
  {
    SameSplitSameText(p.name, q.name);
    SameSplitSameText(p.machineId, q.machineId);
    SameSplitSameText(p.profileId, q.profileId);
    SameSplitSameText(p.domain, q.domain);
    DecimalIsInjective(p.bucketStart, q.bucketStart);
    DecimalIsInjective(p.platform, q.platform);
  }

  lemma NamedIsNotEmptyPiece(s: string)
    requires s != ""
    ensures Split(s, UNIT_SEPARATOR) != [""]
  {
    JoinUndoesSplit(s, UNIT_SEPARATOR);
  }

  lemma UnambiguousBoundaries(p: MetricPoint, q: MetricPoint)
    requires Storable(p) && !Ambiguous(p) && Storable(q) && MetricPointId(p) == MetricPointId(q)
    ensures var a, b := LayoutOf(p), LayoutOf(q);
            && Flat(a) == Flat(b) && WellSized(b) && Plain(a)
            && |b.name| == |a.name| && |b.machine| == |a.machine| && |b.profile| == |a.profile|
  {
    IdIsFlat(p);
    IdIsFlat(q);
    UnambiguousIsPlain(p);
    ShorterNameShowsBucket(p, q);
    NamedIsNotEmptyPiece(q.machineId);
    PlainFixesBoundaries(LayoutOf(p), LayoutOf(q));
  }

  lemma UnambiguousIsAlone(p: MetricPoint, q: MetricPoint)
    requires Storable(p) && !Ambiguous(p) && Storable(q) && MetricPointId(p) == MetricPointId(q)
    ensures KeyOfPoint(p) == KeyOfPoint(q)
  {
    var a, b := LayoutOf(p), LayoutOf(q);
    var tail := [q.action, q.statusClass, q.errorClass];
    UnambiguousBoundaries(p, q);
    BoundariesFixParts(a, b);
    ShorterDomainShows(p.domain, q.domain, a.tail, b.tail);
    assert |b.domain| == |a.domain| && |b.tail| == 3;
    assert b.domain == (b.domain + b.tail)[..|b.domain|] && a.domain == (a.domain + a.tail)[..|b.domain|];
    assert b.tail == (b.domain + b.tail)[|b.domain|..] && a.tail == (a.domain + a.tail)[|b.domain|..];
    PiecesAreMany(tail, UNIT_SEPARATOR);
    UnambiguousIsPlain(p);
    assert tail[0] == a.tail[0] && tail[1] == a.tail[1] && tail[2] == a.tail[2];
    LayoutFixesKey(p, q);
  }

  // ---------- the exact condition ----------

  /** Among the points that samples fall in, another bucket shares a point's row exactly when the
      point is ambiguous: its name hides a bucket, its machine id or domain can be cut at a
      separator, or one of the remaining text fields holds the separator. */
  lemma RowIsSharedIffAmbiguous(p: MetricPoint)
    requires Storable(p)
    ensures Ambiguous(p) <==> exists q :: ShareRow(p, q)
  {
    if Ambiguous(p) {
      var q := AmbiguousShares(p);
    } else {
      forall q
        ensures !ShareRow(p, q)
      {
        if ShareRow(p, q) {
          UnambiguousIsAlone(p, q);
        }
      }
    }
  }

  /** Metrics never stand in the way of a write as long as at most one of any two is ambiguous. */
  lemma UnambiguousMetricsDiffer(s: State)
    requires Stocked(s) && forall k :: k in s.metrics ==> Storable(s.metrics[k])
    requires forall j, k ::
               j in s.metrics && k in s.metrics && Ambiguous(s.metrics[j]) && Ambiguous(s.metrics[k]) ==> j == k
    ensures RowIdentity.MetricIdsDiffer(s)
  {
    forall j, k | j in s.metrics && k in s.metrics && MetricPointId(s.metrics[j]) == MetricPointId(s.metrics[k])
      ensures j == k
    {
      if !Ambiguous(s.metrics[j]) {
        UnambiguousIsAlone(s.metrics[j], s.metrics[k]);
      } else if !Ambiguous(s.metrics[k]) {
        UnambiguousIsAlone(s.metrics[k], s.metrics[j]);
      }
    }
  }
}
