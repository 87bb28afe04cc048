/** Reduction of a reported URL or host to a bare lower-case host name. */
module Domains {
  import opened Strings

  /** Unicode White_Space, as the standard library's trimming uses it. */
  predicate IsWhitespace(c: char) {
    || '\U{0009}' <= c <= '\U{000D}'
    || c in {'\U{0020}', '\U{0085}', '\U{00A0}', '\U{1680}', '\U{2028}', '\U{2029}', '\U{202F}', '\U{205F}', '\U{3000}'}
    || '\U{2000}' <= c <= '\U{200A}'
  }

  function TrimStart(s: string): string {
    if s != "" && IsWhitespace(s[0]) then TrimStart(s[1..]) else s
  }

  function TrimEnd(s: string): string {
    if s != "" && IsWhitespace(s[|s| - 1]) then TrimEnd(s[..|s| - 1]) else s
  }

  /** What follows the first `://`, or all of `s` when there is none; `from` is the scan position. */
  function AfterScheme(s: string, from: nat := 0): string
    requires from <= |s|
    decreases |s| - from
  {
    if from + 3 > |s| then s
    else if s[from..from + 3] == "://" then s[from + 3..]
    else AfterScheme(s, from + 1)
  }

  /** The part of `s` after the last `stop`, or all of `s`. */
  function AfterLast(s: string, stop: char): (r: string)
    ensures |r| <= |s| && r == s[|s| - |r|..]
    ensures forall i :: 0 <= i < |r| ==> r[i] != stop
    ensures |r| < |s| ==> s[|s| - |r| - 1] == stop
  {
    if s == "" || s[|s| - 1] == stop then "" else AfterLast(s[..|s| - 1], stop) + [s[|s| - 1]]
  }

  function Sanitize(value: string): string {
    var trimmed := TrimEnd(TrimStart(value));
    if trimmed == "" then ""
    else
      var hostPort := Before(AfterScheme(trimmed), {'/', '?', '#'});
      AsciiLower(Before(AfterLast(hostPort, '@'), {':'}))
  }

  predicate IsBare(c: char) {
    c != '/' && c != '?' && c != '#' && c != '@' && c != ':' && !('A' <= c <= 'Z')
  }

  lemma HostIsBare(hostPort: string)
    requires forall i :: 0 <= i < |hostPort| ==> hostPort[i] !in {'/', '?', '#'}
    ensures forall i :: 0 <= i < |Before(AfterLast(hostPort, '@'), {':'})| ==>
              IsBare(AsciiLower(Before(AfterLast(hostPort, '@'), {':'}))[i])
  {
    var host := AfterLast(hostPort, '@');
    var name := Before(host, {':'});
    forall i | 0 <= i < |name|
      ensures IsBare(AsciiLower(name)[i])
    {
      assert name[i] == host[i] == hostPort[|hostPort| - |host| + i];
    }
  }

  /** Whatever an agent reports, no path, query, fragment, credential or port survives. */
  lemma SanitizeRedacts(value: string)
    ensures forall i :: 0 <= i < |Sanitize(value)| ==> IsBare(Sanitize(value)[i])
  {
    var trimmed := TrimEnd(TrimStart(value));
    if trimmed != "" {
      HostIsBare(Before(AfterScheme(trimmed), {'/', '?', '#'}));
    }
  }
}
