/** The credential in a browser proxy request: found in the query, decoded, split and checked. */
module Query {
  import opened Options
  import opened Strings
  import Agent

  const LEASE_PARAMETER := "bcpLease="

  /** Replaces every occurrence, left to right, without looking at what it has put in. */
  function Replace(s: string, pattern: string, text: string): string
    requires pattern != ""
  {
    if s == "" then ""
    else if pattern <= s then text + Replace(s[|pattern|..], pattern, text)
    else [s[0]] + Replace(s[1..], pattern, text)
  }

  function Decode(value: string): string {
    Replace(Replace(value, "%3A", ":"), "%3a", ":")
  }

  predicate IsLease(part: string) {
    LEASE_PARAMETER <= part
  }

  /** What Chrome is to see: the non-empty parts that carry no credential. */
  function Forwarded(parts: seq<string>): seq<string> {
    if parts == [] then []
    else
      var init, part := Forwarded(parts[..|parts| - 1]), parts[|parts| - 1];
      if IsLease(part) || part == "" then init else init + [part]
  }

  /** The last credential wins. */
  function Credential(parts: seq<string>): Option<string> {
    if parts == [] then None
    else if IsLease(parts[|parts| - 1]) then Some(Decode(parts[|parts| - 1][|LEASE_PARAMETER|..]))
    else Credential(parts[..|parts| - 1])
  }

  function Remaining(parts: seq<string>): Option<string> {
    if Forwarded(parts) == [] then None else Some(Join(Forwarded(parts), '&'))
  }

  method SplitLeaseFromQuery(raw: Option<string>) returns (token: Option<string>, remaining: Option<string>)
    ensures raw.None? ==> token == None && remaining == None
    ensures raw.Some? ==> token == Credential(Split(raw.value, '&')) && remaining == Remaining(Split(raw.value, '&'))
  {
    token := None;
    if raw.None? {
      return None, None;
    }
    var parts, rest := Split(raw.value, '&'), [];
    for i := 0 to |parts|
      invariant token == Credential(parts[..i]) && rest == Forwarded(parts[..i])
    {
      assert parts[..i + 1][..i] == parts[..i];
      var part := parts[i];
      if IsLease(part) {
        token := Some(Replace(Replace(part[|LEASE_PARAMETER|..], "%3A", ":"), "%3a", ":"));
      } else if part != "" {
        rest := rest + [part];
      }
    }
    assert parts[..|parts|] == parts;
    remaining := if rest == [] then None else Some(Join(rest, '&'));
  }

  function SplitOnce(s: string, sep: char): Option<(string, string)> {
    var head := Before(s, {sep});
    if head == s then None else Some((head, s[|head| + 1..]))
  }

  function Authorized(installed: Agent.Installed, profileId: string, token: string, now: int): bool {
    match SplitOnce(token, ':')
    case Some((leaseId, fencing)) => Agent.Check(installed, leaseId, profileId, fencing, now)
    case None => false
  }

  method Authorize(installed: Agent.Installed, profileId: string, token: string, now: int) returns (ok: bool)
    ensures ok == Authorized(installed, profileId, token, now)
  {
    var colon := 0;
    while colon < |token| && token[colon] != ':'
      invariant 0 <= colon <= |token| && Free(token[..colon], ':')
    {
      colon := colon + 1;
    }
    if colon == |token| {
      assert token[..colon] == token;
      BeforeAll(token, ':');
      return false;
    }
    assert token == token[..colon] + [':'] + token[colon + 1..];
    BeforeSeparator(token[..colon], ':', token[colon + 1..]);
    ok := Agent.Check(installed, token[..colon], profileId, token[colon + 1..], now);
  }

  // ---------- decoding ----------

  /** `value` spells `token`: each colon is written as itself or percent-encoded in either case, and
      everything else as it is. */
  ghost predicate Spells(value: string, token: string)
    decreases |token|
  {
    if token == "" then value == ""
    else if token[0] == ':' then
      || (":" <= value && Spells(value[1..], token[1..]))
      || ("%3A" <= value && Spells(value[3..], token[1..]))
      || ("%3a" <= value && Spells(value[3..], token[1..]))
    else value != "" && value[0] == token[0] && Spells(value[1..], token[1..])
  }

  /** The token itself contains what would be decoded as a colon. */
  predicate HoldsEscape(token: string) {
    token != "" && (StartsEscaped(token) || HoldsEscape(token[1..]))
  }

  predicate StartsEscaped(s: string) {
    "%3A" <= s || "%3a" <= s
  }

  /** Both encodings at once: what the two passes should amount to. */
  function DecodeBoth(s: string): string {
    if s == "" then ""
    else if "%3A" <= s || "%3a" <= s then ":" + DecodeBoth(s[3..])
    else [s[0]] + DecodeBoth(s[1..])
  }

  lemma StartsWithEscape(s: string)
    ensures "%3a" <= s <==> |s| >= 3 && s[0] == '%' && s[1] == '3' && s[2] == 'a'
  {
  }

  /** The first pass puts a colon or the original character first. */
  lemma FirstPassHead(s: string)
    ensures var r := Replace(s, "%3A", ":");
            if s == "" then r == ""
            else if "%3A" <= s then r == [':'] + Replace(s[3..], "%3A", ":")
            else r == [s[0]] + Replace(s[1..], "%3A", ":")
  {
  }

  /** The first pass leaves a lower-case escape alone, and cannot create one. */
  lemma FirstPassKeepsEscapes(s: string)
    requires !("%3A" <= s)
    ensures "%3a" <= Replace(s, "%3A", ":") <==> "%3a" <= s
    ensures "%3a" <= s ==> Replace(s, "%3A", ":")[3..] == Replace(s[3..], "%3A", ":")
  {
    var r := Replace(s, "%3A", ":");
    StartsWithEscape(s);
    StartsWithEscape(r);
    FirstPassHead(s);
    if |s| > 1 {
      var r1 := Replace(s[1..], "%3A", ":");
      FirstPassHead(s[1..]);
      assert r == [s[0]] + r1;
      if |s| > 2 && s[1] == '3' {
        var r2 := Replace(s[2..], "%3A", ":");
        FirstPassHead(s[2..]);
        assert s[1..][1..] == s[2..] && s[2..][1..] == s[3..];
        assert r1 == [s[1]] + r2;
        assert "%3a" <= s ==> r2 == [s[2]] + Replace(s[3..], "%3A", ":");
      }
    }
  }

  /** What `Decode` does at the front of a value. */
  lemma DecodeHead(s: string)
    requires s != ""
    ensures Decode(s) == if "%3A" <= s || "%3a" <= s then [':'] + Decode(s[3..]) else [s[0]] + Decode(s[1..])
  {
    var r := Replace(s, "%3A", ":");
    FirstPassHead(s);
    if "%3A" <= s {
      assert r[0] == ':' && r[1..] == Replace(s[3..], "%3A", ":");
      StartsWithEscape(r);
    } else {
      FirstPassKeepsEscapes(s);
      assert r[1..] == Replace(s[1..], "%3A", ":");
    }
  }

  /** The two passes never interfere. */
  lemma {:induction false} PassesDecodeBoth(s: string)
    ensures Decode(s) == DecodeBoth(s)
    decreases |s|
  {
    if s != "" {
      DecodeHead(s);
      PassesDecodeBoth(if "%3A" <= s || "%3a" <= s then s[3..] else s[1..]);
    }
  }

  lemma SpellingHead(value: string, token: string)
    requires Spells(value, token)
    ensures value == "" <==> token == ""
    ensures token != "" && token[0] == ':' ==> value[0] == ':' || value[0] == '%'
    ensures token != "" && token[0] != ':' ==> value[0] == token[0] && Spells(value[1..], token[1..])
  {
  }

  lemma EscapeIsThree(s: string)
    ensures StartsEscaped(s) <==> |s| >= 3 && s[0] == '%' && s[1] == '3' && (s[2] == 'A' || s[2] == 'a')
  {
  }

  /** A spelling starts with an escape that is no colon of the token only where the token does. */
  lemma SpellingStarts(value: string, token: string)
    requires Spells(value, token) && token != "" && token[0] != ':'
    ensures StartsEscaped(value) <==> StartsEscaped(token)
    ensures StartsEscaped(token) ==> Spells(value[3..], token[3..])
  {
    EscapeIsThree(value);
    EscapeIsThree(token);
    SpellingHead(value, token);
    SpellingHead(value[1..], token[1..]);
    if |token| > 1 && token[1] == '3' {
      assert value[1..][1..] == value[2..] && token[1..][1..] == token[2..];
      SpellingHead(value[2..], token[2..]);
      if |token| > 2 && token[2] != ':' {
        assert value[2..][1..] == value[3..] && token[2..][1..] == token[3..];
      }
    }
  }

  /** All spellings of a token decode alike. */
  lemma {:induction false} SpellingsDecodeAlike(value: string, token: string)
    requires Spells(value, token)
    ensures DecodeBoth(value) == DecodeBoth(token)
    decreases |token|
  {
    if token != "" {
      if token[0] == ':' {
        SpellingsDecodeAlike(if ":" <= value && Spells(value[1..], token[1..]) then value[1..]
                             else value[3..], token[1..]);
      } else {
        SpellingStarts(value, token);
        if StartsEscaped(token) {
          SpellingsDecodeAlike(value[3..], token[3..]);
        } else {
          SpellingsDecodeAlike(value[1..], token[1..]);
        }
      }
    }
  }

  lemma {:induction false} DecodingShortens(s: string)
    ensures |DecodeBoth(s)| <= |s|
    ensures HoldsEscape(s) ==> |DecodeBoth(s)| < |s|
    ensures !HoldsEscape(s) ==> DecodeBoth(s) == s
    decreases |s|
  {
    if s != "" {
      if StartsEscaped(s) {
        DecodingShortens(s[3..]);
      } else {
        DecodingShortens(s[1..]);
      }
    }
  }

  /** A spelling of a token decodes to it exactly when the token holds no escape of its own. */
  lemma SpellingDecodesIff(value: string, token: string)
    requires Spells(value, token)
    ensures Decode(value) == token <==> !HoldsEscape(token)
  {
    PassesDecodeBoth(value);
    SpellingsDecodeAlike(value, token);
    DecodingShortens(token);
  }

  // ---------- what is forwarded ----------

  ghost predicate Plain(parts: seq<string>) {
    forall i :: 0 <= i < |parts| ==> parts[i] != "" && !IsLease(parts[i])
  }

  lemma {:induction false} ForwardedIsPlain(parts: seq<string>, sep: char)
    ensures Plain(Forwarded(parts))
    ensures AllFree(parts, sep) ==> AllFree(Forwarded(parts), sep)
  {
    if parts != [] {
      ForwardedIsPlain(parts[..|parts| - 1], sep);
    }
  }

  /** No query, however it is written, makes the proxy forward a credential to Chrome: what
      remains splits into exactly the plain parts of the original. */
  lemma CredentialsAreNotForwarded(raw: string)
    ensures match Remaining(Split(raw, '&'))
            case None => Forwarded(Split(raw, '&')) == []
            case Some(query) =>
              Split(query, '&') == Forwarded(Split(raw, '&')) && Plain(Split(query, '&'))
                  && Credential(Split(query, '&')) == None
  {
    var kept := Forwarded(Split(raw, '&'));
    SplitIsFree(raw, '&');
    ForwardedIsPlain(Split(raw, '&'), '&');
    if kept != [] {
      SplitUndoesJoin(kept, '&');
      PlainIsForwarded(kept);
    }
  }

  lemma {:induction false} PlainIsForwarded(parts: seq<string>)
    requires Plain(parts)
    ensures Forwarded(parts) == parts && Credential(parts) == None
  {
    if parts != [] {
      PlainIsForwarded(parts[..|parts| - 1]);
      assert parts[..|parts| - 1] + [parts[|parts| - 1]] == parts;
    }
  }

  lemma {:induction false} OneCredentialAmongPlain(before: seq<string>, part: string, after: seq<string>)
    requires Plain(before) && Plain(after) && IsLease(part)
    ensures Forwarded(before + [part] + after) == before + after
    ensures Credential(before + [part] + after) == Some(Decode(part[|LEASE_PARAMETER|..]))
    decreases |after|
  {
    var all := before + [part] + after;
    if after == [] {
      assert all[..|all| - 1] == before;
      PlainIsForwarded(before);
    } else {
      var init := after[..|after| - 1];
      assert all[..|all| - 1] == before + [part] + init;
      OneCredentialAmongPlain(before, part, init);
      assert before + init + [after[|after| - 1]] == before + after;
    }
  }

  /** However a credential is spelled and wherever it is put among plain parts, the rest comes out
      untouched, and the credential itself exactly when it holds no escape of its own. */
  lemma QueryRoundTrip(before: seq<string>, after: seq<string>, value: string, token: string)
    requires Plain(before) && Plain(after) && AllFree(before, '&') && AllFree(after, '&')
    requires Spells(value, token) && Free(value, '&')
    ensures var parts := Split(Join(before + [LEASE_PARAMETER + value] + after, '&'), '&');
            && (Credential(parts) == Some(token) <==> !HoldsEscape(token))
            && Remaining(parts) == if before + after == [] then None else Some(Join(before + after, '&'))
  {
    CredentialIsFound(before, after, value);
    SpellingDecodesIff(value, token);
  }

  lemma CredentialIsFound(before: seq<string>, after: seq<string>, value: string)
    requires Plain(before) && Plain(after) && AllFree(before, '&') && AllFree(after, '&') && Free(value, '&')
    ensures var parts := Split(Join(before + [LEASE_PARAMETER + value] + after, '&'), '&');
            Credential(parts) == Some(Decode(value)) && Forwarded(parts) == before + after
  {
    var part := LEASE_PARAMETER + value;
    assert part[|LEASE_PARAMETER|..] == value;
    SplitUndoesJoin(before + [part] + after, '&');
    OneCredentialAmongPlain(before, part, after);
  }

  /** Of several credentials the last one counts, decoded. */
  lemma {:induction false} LastCredentialWins(before: seq<string>, value: string, after: seq<string>)
    requires forall i :: 0 <= i < |after| ==> !IsLease(after[i])
    ensures Credential(before + ["bcpLease=" + value] + after) == Some(Decode(value))
    decreases |after|
  {
    var all := before + [LEASE_PARAMETER + value] + after;
    if after == [] {
      assert all[|all| - 1][|LEASE_PARAMETER|..] == value;
    } else {
      assert all[..|all| - 1] == before + [LEASE_PARAMETER + value] + after[..|after| - 1];
      LastCredentialWins(before, value, after[..|after| - 1]);
    }
  }

  lemma ForwardsOne(part: string)
    ensures Forwarded([part]) == if "bcpLease=" <= part || part == "" then [] else [part]
  {
    assert [part][..0] == [];
    assert Forwarded([]) == [];
  }

  lemma ForwardsLast(parts: seq<string>, last: string)
    ensures Forwarded(parts + [last]) == Forwarded(parts) + Forwarded([last])
  {
    assert (parts + [last])[..|parts|] == parts;
    ForwardsOne(last);
  }

  /** What is forwarded is decided part by part: every plain part, no credential, nothing empty. */
  lemma {:induction false} ForwardingLaw(parts: seq<string>, others: seq<string>)
    ensures Forwarded(parts + others) == Forwarded(parts) + Forwarded(others)
    decreases |others|
  {
    if others == [] {
      assert parts + others == parts && Forwarded([]) == [];
    } else {
      var init, last := others[..|others| - 1], others[|others| - 1];
      ForwardingLaw(parts, init);
      ForwardsLast(parts + init, last);
      ForwardsLast(init, last);
      assert others == init + [last] && parts + others == parts + init + [last];
    }
  }

  // ---------- the credential ----------

  /** The proxy recovers a lease id and its fencing token exactly when the id has no colon. */
  lemma CredentialSplitsIffNoColon(leaseId: string, fencing: string)
    ensures SplitOnce(leaseId + ":" + fencing, ':') == Some((leaseId, fencing)) <==> Free(leaseId, ':')
  {
    var s := leaseId + ":" + fencing;
    if Free(leaseId, ':') {
      BeforeSeparator(leaseId, ':', fencing);
      assert s[|leaseId| + 1..] == fencing;
    }
  }

  /** A lease id and a fencing token, as the first colon separates them. */
  ghost predicate Names(token: string, leaseId: string, fencing: string) {
    token == leaseId + ":" + fencing && Free(leaseId, ':')
  }

  lemma SplitNames(token: string)
    ensures SplitOnce(token, ':').None? ==> Free(token, ':')
    ensures SplitOnce(token, ':').Some? ==> Names(token, SplitOnce(token, ':').value.0, SplitOnce(token, ':').value.1)
  {
    var head := Before(token, {':'});
    if head != token {
      assert token == head + ":" + token[|head| + 1..];
    }
  }

  lemma NamesAreUnique(token: string, leaseId: string, fencing: string)
    requires Names(token, leaseId, fencing)
    ensures SplitOnce(token, ':') == Some((leaseId, fencing))
  {
    CredentialSplitsIffNoColon(leaseId, fencing);
  }

  lemma AuthorizedIffNamed(installed: Agent.Installed, profileId: string, token: string, now: int)
    ensures Authorized(installed, profileId, token, now) <==>
              exists leaseId, fencing :: Names(token, leaseId, fencing)
                                         && Agent.Check(installed, leaseId, profileId, fencing, now)
  {
    SplitNames(token);
    forall leaseId, fencing | Names(token, leaseId, fencing)
      ensures SplitOnce(token, ':') == Some((leaseId, fencing))
    {
      NamesAreUnique(token, leaseId, fencing);
    }
  }

  /** Whatever is sent as the credential: the request is authorized exactly when its decoded form names
      a lease that is installed, unexpired and for this profile. */
  lemma AnyCredentialIsChecked(before: seq<string>, after: seq<string>, value: string,
                               installed: Agent.Installed, profileId: string, now: int)
    requires Plain(before) && Plain(after) && AllFree(before, '&') && AllFree(after, '&') && Free(value, '&')
    ensures var token := Credential(Split(Join(before + [LEASE_PARAMETER + value] + after, '&'), '&'));
            && token == Some(Decode(value))
            && (Authorized(installed, profileId, token.value, now) <==>
                  exists leaseId, fencing :: Names(Decode(value), leaseId, fencing)
                                             && Agent.Check(installed, leaseId, profileId, fencing, now))
  {
    CredentialIsFound(before, after, value);
    AuthorizedIffNamed(installed, profileId, Decode(value), now);
  }

  /** In particular a lease that survives decoding, however it is spelled, is authorized exactly when
      it is installed, unexpired and for this profile. */
  lemma QueryAuthorizesLease(before: seq<string>, after: seq<string>, value: string, leaseId: string, fencing: string,
                             installed: Agent.Installed, profileId: string, now: int)
    requires Plain(before) && Plain(after) && AllFree(before, '&') && AllFree(after, '&')
    requires Spells(value, leaseId + ":" + fencing) && Free(value, '&') && Free(leaseId, ':')
    requires !HoldsEscape(leaseId + ":" + fencing)
    ensures var token := Credential(Split(Join(before + [LEASE_PARAMETER + value] + after, '&'), '&'));
            && token.Some?
            && Authorized(installed, profileId, token.value, now) ==
               Agent.Check(installed, leaseId, profileId, fencing, now)
  {
    QueryRoundTrip(before, after, value, leaseId + ":" + fencing);
    CredentialSplitsIffNoColon(leaseId, fencing);
  }
}
