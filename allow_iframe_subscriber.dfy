/**
 * The frame-embedding policy applied to every outbound response: the response is
 * made to vary by the referer's host, and `X-Frame-Options` is removed when some
 * line of the configured allow-list matches that host.
 * Regular-expression matching (`preg_match('/' . $pattern . '/', $subject)`) is the
 * parameter `matches`; `parse_url($url, PHP_URL_HOST)` is the parameter `hostOf`.
 */
module AllowIframe {

  import opened Wrappers
  import Php
  import opened Http
  import opened RefererCache

  /** Name of the configuration object that holds the allow-list. */
  const CONFIG_NAME: string := "iframe_helper.allowed_iframe_referrers"

  /** The cache tag the configuration object contributes as a dependency. */
  const CONFIG_TAG: string := "config:" + CONFIG_NAME

  /** The cacheable metadata of the configuration object. */
  const ConfigMetadata: CacheMetadata := CacheMetadata({}, {CONFIG_TAG})

  /** The header whose removal allows framing, as the header bag keys it (lower-cased). */
  const FRAME_OPTIONS: string := "x-frame-options"

  predicate IsLineBreak(c: char) {
    c == '\r' || c == '\n'
  }

  predicate NoLineBreak(s: string) {
    forall j :: 0 <= j < |s| ==> !IsLineBreak(s[j])
  }

  /**
   * `preg_split('/[\r\n]{1,2}/', $text)`: the text cut at every run of one or two
   * CR/LF characters, scanning left to right; empty pieces are kept.
   */
  function SplitAllowList(text: string): (patterns: seq<string>)
    ensures |patterns| >= 1
    ensures forall i :: 0 <= i < |patterns| ==> NoLineBreak(patterns[i])
  {
    if text == [] then [[]]
    else if IsLineBreak(text[0]) then
      var width := if |text| >= 2 && IsLineBreak(text[1]) then 2 else 1;
      [[]] + SplitAllowList(text[width..])
    else
      var rest := SplitAllowList(text[1..]);
      [[text[0]] + rest[0]] + rest[1..]
  }

  /** Lines joined by a separator. */
  function JoinLines(lines: seq<string>, separator: string): (text: string)
    requires |lines| >= 1
  {
    if |lines| == 1 then lines[0] else lines[0] + separator + JoinLines(lines[1..], separator)
  }

  /** A break-free prefix is glued onto the first piece of what follows it. */
  lemma {:induction false} SplitAfterPlainPrefix(prefix: string, text: string)
    requires NoLineBreak(prefix)
    ensures SplitAllowList(prefix + text) ==
      [prefix + SplitAllowList(text)[0]] + SplitAllowList(text)[1..]
  {
    if prefix != [] {
      assert (prefix + text)[0] == prefix[0];
      assert (prefix + text)[1..] == prefix[1..] + text;
      SplitAfterPlainPrefix(prefix[1..], text);
      assert [prefix[0]] + (prefix[1..] + SplitAllowList(text)[0]) == prefix + SplitAllowList(text)[0];
    } else {
      var pieces := SplitAllowList(text);
      assert prefix + text == text;
      assert prefix + pieces[0] == pieces[0];
      assert pieces == [pieces[0]] + pieces[1..];
    }
  }

  /** Lines joined with CR LF split back into exactly those lines, empty ones included. */
  lemma {:induction false} SplitJoinCrLf(lines: seq<string>)
    requires |lines| >= 1
    requires forall i :: 0 <= i < |lines| ==> NoLineBreak(lines[i])
    ensures SplitAllowList(JoinLines(lines, "\r\n")) == lines
  {
    if |lines| == 1 {
      SplitAfterPlainPrefix(lines[0], "");
      assert lines[0] + "" == lines[0];
    } else {
      var tail := JoinLines(lines[1..], "\r\n");
      SplitJoinCrLf(lines[1..]);
      var brk := "\r\n" + tail;
      assert brk[0] == '\r' && brk[1] == '\n' && brk[2..] == tail;
      assert SplitAllowList(brk) == [[]] + SplitAllowList(tail);
      assert JoinLines(lines, "\r\n") == lines[0] + brk;
      SplitAfterPlainPrefix(lines[0], brk);
      assert lines[0] + [] == lines[0];
      assert lines == [lines[0]] + lines[1..];
    }
  }

  /**
   * Lines joined with LF split back into those lines when no inner line is empty
   * (an empty inner line would make two LFs one separator).
   */
  lemma {:induction false} SplitJoinLf(lines: seq<string>)
    requires |lines| >= 1
    requires forall i :: 0 <= i < |lines| ==> NoLineBreak(lines[i])
    requires forall i :: 0 < i < |lines| - 1 ==> lines[i] != ""
    ensures SplitAllowList(JoinLines(lines, "\n")) == lines
  {
    if |lines| == 1 {
      SplitAfterPlainPrefix(lines[0], "");
      assert lines[0] + "" == lines[0];
    } else {
      var tail := JoinLines(lines[1..], "\n");
      SplitJoinLf(lines[1..]);
      var brk := "\n" + tail;
      assert brk[0] == '\n' && brk[1..] == tail;
      if |lines| > 2 {
        assert lines[1] != "";
        assert tail == lines[1] + "\n" + JoinLines(lines[2..], "\n");
        assert tail[0] == lines[1][0];
        assert !IsLineBreak(brk[1]);
      } else {
        assert tail == lines[1];
        assert |brk| >= 2 ==> brk[1] == lines[1][0];
      }
      assert SplitAllowList(brk) == [[]] + SplitAllowList(tail);
      assert JoinLines(lines, "\n") == lines[0] + brk;
      SplitAfterPlainPrefix(lines[0], brk);
      assert lines[0] + [] == lines[0];
      assert lines == [lines[0]] + lines[1..];
    }
  }

  /** Windows and Unix line endings give the same allow-list. */
  lemma LineEndingsAgree()
    ensures SplitAllowList("a\r\nb") == ["a", "b"]
    ensures SplitAllowList("a\nb") == ["a", "b"]
  {
    SplitJoinCrLf(["a", "b"]);
    SplitJoinLf(["a", "b"]);
  }

  /** Some pattern of the list matches the subject. */
  predicate AnyMatch(patterns: seq<string>, subject: string, matches: (string, string) -> bool) {
    exists i :: 0 <= i < |patterns| && matches(patterns[i], subject)
  }

  /** Reordering the allow-list lines does not change whether one of them matches. */
  lemma AnyMatchOrderFree(patterns1: seq<string>, patterns2: seq<string>, subject: string,
                          matches: (string, string) -> bool)
    requires multiset(patterns1) == multiset(patterns2)
    ensures AnyMatch(patterns1, subject, matches) == AnyMatch(patterns2, subject, matches)
  {
    if AnyMatch(patterns1, subject, matches) {
      var i :| 0 <= i < |patterns1| && matches(patterns1[i], subject);
      assert patterns1[i] in multiset(patterns2);
      var j :| 0 <= j < |patterns2| && patterns2[j] == patterns1[i];
    }
    if AnyMatch(patterns2, subject, matches) {
      var i :| 0 <= i < |patterns2| && matches(patterns2[i], subject);
      assert patterns2[i] in multiset(patterns1);
      var j :| 0 <= j < |patterns1| && patterns1[j] == patterns2[i];
    }
  }

  /** The subject the patterns are matched against: the referer's host, with null read as "". */
  function MatchSubject(referer: string, hostOf: string -> Option<string>): (subject: string)
    ensures !Php.Falsy(referer) ==> subject == CacheKeyPart(GetContext(Some(referer), hostOf))
    ensures hostOf(referer).None? ==> subject == ""
  {
    hostOf(referer).GetOr("")
  }

  /** The allow-list value passes `if (!$allowedReferrers)`. */
  predicate AllowListPresent(allowedDomains: Option<string>) {
    allowedDomains.Some? && !Php.Falsy(allowedDomains.value)
  }

  /** The header decision: a referer is present, the allow-list is set, and some line matches. */
  predicate FrameAllowed(referer: Option<string>, allowedDomains: Option<string>,
                         matches: (string, string) -> bool, hostOf: string -> Option<string>)
    ensures FrameAllowed(referer, allowedDomains, matches, hostOf) ==>
      RefererPresent(referer) && AllowListPresent(allowedDomains)
  {
    && RefererPresent(referer)
    && AllowListPresent(allowedDomains)
    && AnyMatch(SplitAllowList(allowedDomains.value), MatchSubject(referer.value, hostOf), matches)
  }

  /** The `foreach` over the allow-list: it sets the flag on any match and never stops early. */
  method ScanAllowList(patterns: seq<string>, host: string, matches: (string, string) -> bool)
    returns (hostAllowed: bool)
    ensures hostAllowed == AnyMatch(patterns, host, matches)
  {
    hostAllowed := false;
    for k := 0 to |patterns|
      invariant hostAllowed <==> exists i :: 0 <= i < k && matches(patterns[i], host)
    {
      if matches(patterns[k], host) {
        hostAllowed := true;
      }
    }
  }

  class AllowIframeSubscriber {
    /** The `allowed_domains` value of the configuration object, fixed when the subscriber is built. */
    const allowedDomains: Option<string>
    const matches: (string, string) -> bool
    const hostOf: string -> Option<string>

    constructor (allowedDomains: Option<string>, matches: (string, string) -> bool,
                 hostOf: string -> Option<string>)
      ensures this.allowedDomains == allowedDomains && this.matches == matches && this.hostOf == hostOf
    {
      this.allowedDomains := allowedDomains;
      this.matches := matches;
      this.hostOf := hostOf;
    }

    /**
     * `onResponse`. A cacheable response always gains the `referer` context, and gains the
     * configuration's tag exactly when a referer is present. `X-Frame-Options` is removed
     * exactly when the decision allows framing; no other header changes.
     */
    method OnResponse(request: Request, response: Response)
      modifies response
      ensures response.cacheMetadata.contexts ==
        old(response.cacheMetadata.contexts) + (if response.cacheable then {CONTEXT_ID} else {})
      ensures response.cacheMetadata.tags ==
        old(response.cacheMetadata.tags) +
        (if response.cacheable && RefererPresent(request.referer) then {CONFIG_TAG} else {})
      ensures response.headers ==
        if FrameAllowed(request.referer, allowedDomains, matches, hostOf)
        then old(response.headers) - {FRAME_OPTIONS}
        else old(response.headers)
    {
      var cacheable := response.cacheable;
      if cacheable {
        var meta := CacheMetadata({CONTEXT_ID}, {});
        response.AddCacheableDependency(meta);
      }
      var referer := request.referer;
      if !RefererPresent(referer) {
        return;
      }
      if cacheable {
        response.AddCacheableDependency(ConfigMetadata);
      }
      var allowedReferrers := allowedDomains;
      if !AllowListPresent(allowedReferrers) {
        return;
      }
      var host := hostOf(referer.value);
      var hostAllowed := ScanAllowList(SplitAllowList(allowedReferrers.value), host.GetOr(""), matches);
      if hostAllowed {
        response.RemoveHeader(FRAME_OPTIONS);
      }
    }
  }

  /** Without a referer, or with an empty allow-list, the frame-deny header stays. */
  lemma FrameDeniedByDefault(referer: Option<string>, allowedDomains: Option<string>,
                             matches: (string, string) -> bool, hostOf: string -> Option<string>)
    ensures !RefererPresent(referer) ==> !FrameAllowed(referer, allowedDomains, matches, hostOf)
    ensures !AllowListPresent(allowedDomains) ==> !FrameAllowed(referer, allowedDomains, matches, hostOf)
  {
  }

  /**
   * Cache soundness: when a referer is present, the subject matched is the cache key part
   * of the context value, so two requests with referers that share a key share the decision.
   */
  lemma {:induction false} CacheContextDeterminesDecision(referer1: string, referer2: string,
                                                          allowedDomains: Option<string>,
                                                          matches: (string, string) -> bool,
                                                          hostOf: string -> Option<string>)
    requires RefererPresent(Some(referer1)) && RefererPresent(Some(referer2))
    requires CacheKeyPart(GetContext(Some(referer1), hostOf)) == CacheKeyPart(GetContext(Some(referer2), hostOf))
    ensures MatchSubject(referer1, hostOf) == CacheKeyPart(GetContext(Some(referer1), hostOf))
    ensures FrameAllowed(Some(referer1), allowedDomains, matches, hostOf)
      == FrameAllowed(Some(referer2), allowedDomains, matches, hostOf)
  {
  }

  /**
   * A present referer without a host and an absent referer share the cache key part "",
   * yet only the first is matched: against "", so the decisions differ exactly when
   * the allow-list is set and one of its lines matches the empty string.
   */
  lemma HostlessRefererSharesKeyWithAbsent(referer: string, allowedDomains: Option<string>,
                                           matches: (string, string) -> bool,
                                           hostOf: string -> Option<string>)
    requires RefererPresent(Some(referer)) && hostOf(referer) == None
    ensures CacheKeyPart(GetContext(None, hostOf)) == CacheKeyPart(GetContext(Some(referer), hostOf)) == ""
    ensures !FrameAllowed(None, allowedDomains, matches, hostOf)
    ensures FrameAllowed(Some(referer), allowedDomains, matches, hostOf) <==>
      AllowListPresent(allowedDomains) && AnyMatch(SplitAllowList(allowedDomains.value), "", matches)
  {
  }

  /**
   * An empty line in a CR LF allow-list (a blank line, or a trailing line break) is itself
   * a pattern. Where the empty pattern matches the subject, as the empty regular
   * expression matches every string, framing is allowed for that referer.
   */
  lemma BlankLineAllowsFraming(lines: seq<string>, referer: string,
                               matches: (string, string) -> bool, hostOf: string -> Option<string>)
    requires |lines| >= 2
    requires forall i :: 0 <= i < |lines| ==> NoLineBreak(lines[i])
    requires "" in lines
    requires RefererPresent(Some(referer))
    requires matches("", MatchSubject(referer, hostOf))
    ensures FrameAllowed(Some(referer), Some(JoinLines(lines, "\r\n")), matches, hostOf)
  {
    SplitJoinCrLf(lines);
    var i :| 0 <= i < |lines| && lines[i] == "";
    var text := JoinLines(lines, "\r\n");
    assert text == lines[0] + "\r\n" + JoinLines(lines[1..], "\r\n");
    assert text[|lines[0]|] == '\r';
  }
}
