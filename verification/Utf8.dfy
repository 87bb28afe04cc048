/** UTF-8 as section 4 of RFC 3629 defines it, and the cut that bounds an event message. */
module Utf8 {
  import opened Messages

  const MAX_EVENT_MESSAGE_LEN := 512

  predicate IsTail(b: byte) {
    0x80 <= b <= 0xBF
  }

  /** The length of the first character of `m`, or 0 when `m` does not start with a whole one. */
  function CharLength(m: seq<byte>): (n: nat)
    ensures n <= 4 && n <= |m|
  {
    if |m| == 0 then 0
    else if m[0] <= 0x7F then 1
    else if 0xC2 <= m[0] <= 0xDF then
      if |m| >= 2 && IsTail(m[1]) then 2 else 0
    else if 0xE0 <= m[0] <= 0xEF then
      if |m| >= 3 && IsTail(m[1]) && IsTail(m[2])
         && (m[0] == 0xE0 ==> 0xA0 <= m[1]) && (m[0] == 0xED ==> m[1] <= 0x9F) then 3 else 0
    else if 0xF0 <= m[0] <= 0xF4 then
      if |m| >= 4 && IsTail(m[1]) && IsTail(m[2]) && IsTail(m[3])
         && (m[0] == 0xF0 ==> 0x90 <= m[1]) && (m[0] == 0xF4 ==> m[1] <= 0x8F) then 4 else 0
    else 0
  }

  predicate IsValid(m: seq<byte>) {
    m == [] || (CharLength(m) > 0 && IsValid(m[CharLength(m)..]))
  }

  /** The standard library's character-boundary test, which looks at a single byte. */
  predicate IsBoundary(m: seq<byte>, i: nat) {
    i == 0 || i == |m| || (i < |m| && !IsTail(m[i]))
  }

  /** In valid text, the one-byte test decides exactly whether a prefix is valid text. */
  lemma {:induction false} BoundaryMeansValidPrefix(m: seq<byte>, e: nat)
    requires IsValid(m) && e <= |m|
    ensures IsBoundary(m, e) <==> IsValid(m[..e])
  {
    if e == 0 || m == [] {
    } else {
      var n := CharLength(m);
      var rest := m[n..];
      assert rest == [] || !IsTail(rest[0]);
      if e < n {
        assert IsTail(m[e]);
        assert CharLength(m[..e]) == 0;
      } else {
        BoundaryMeansValidPrefix(rest, e - n);
        assert CharLength(m[..e]) == n;
        assert m[..e][n..] == rest[..e - n];
        assert IsBoundary(m, e) == IsBoundary(rest, e - n);
      }
    }
  }

  /** No position of valid text is more than three bytes after a boundary. */
  lemma {:induction false} BoundaryIsNear(m: seq<byte>, i: nat) returns (b: nat)
    requires IsValid(m) && i <= |m|
    ensures b <= i <= b + 3 && IsBoundary(m, b)
  {
    var n := CharLength(m);
    if i < n || m == [] {
      b := 0;
    } else {
      var c := BoundaryIsNear(m[n..], i - n);
      b := c + n;
      assert m[n..] == [] || !IsTail(m[n..][0]);
    }
  }

  /** The last boundary at or before `end`. */
  function LastBoundary(m: seq<byte>, end: nat): (b: nat)
    requires end <= |m|
    ensures b <= end && IsBoundary(m, b)
    ensures forall i :: b < i <= end ==> !IsBoundary(m, i)
  {
    if IsBoundary(m, end) then end else LastBoundary(m, end - 1)
  }

  function Bounded(m: seq<byte>): seq<byte> {
    if |m| > MAX_EVENT_MESSAGE_LEN then m[..LastBoundary(m, MAX_EVENT_MESSAGE_LEN)] else m
  }

  /** Cuts a long message at a character boundary. */
  method Truncate(m: seq<byte>) returns (r: seq<byte>)
    ensures r == Bounded(m)
  {
    r := m;
    if |m| > MAX_EVENT_MESSAGE_LEN {
      var end := MAX_EVENT_MESSAGE_LEN;
      while end > 0 && !IsBoundary(m, end)
        invariant 0 <= end <= MAX_EVENT_MESSAGE_LEN
        invariant LastBoundary(m, end) == LastBoundary(m, MAX_EVENT_MESSAGE_LEN)
      {
        end := end - 1;
      }
      r := m[..end];
    }
  }

  /** Truncation keeps valid text valid, is the longest valid prefix within the limit, and
      loses at most three of the bytes the limit allows. */
  lemma TruncationIsLongestValidPrefix(m: seq<byte>)
    requires IsValid(m)
    ensures IsValid(Bounded(m)) && Bounded(m) <= m && |Bounded(m)| <= MAX_EVENT_MESSAGE_LEN
    ensures forall p: seq<byte> :: p <= m && IsValid(p) && |p| <= MAX_EVENT_MESSAGE_LEN ==> |p| <= |Bounded(m)|
    ensures |m| > MAX_EVENT_MESSAGE_LEN ==> |Bounded(m)| >= MAX_EVENT_MESSAGE_LEN - 3
  {
    if |m| > MAX_EVENT_MESSAGE_LEN {
      BoundaryMeansValidPrefix(m, |Bounded(m)|);
      var near := BoundaryIsNear(m, MAX_EVENT_MESSAGE_LEN);
      forall p: seq<byte> | p <= m && IsValid(p) && |p| <= MAX_EVENT_MESSAGE_LEN ensures |p| <= |Bounded(m)| {
        assert p == m[..|p|];
        BoundaryMeansValidPrefix(m, |p|);
      }
    }
  }
}
