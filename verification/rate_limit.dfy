/** Rate limiting of the waitlist endpoint: whether the limiter exists, which client
    address it keys on, and the decision it returns. The sliding-window algorithm itself
    lives in an external service and is an oracle here. */
module RateLimit {
  import opened Wrappers
  import opened Text

  /** Request headers, keyed by lower-case header name. `Headers.get` yields `None` for
      an absent header. */
  type Headers = map<string, string>

  function Header(h: Headers, name: string): (r: Option<string>)
    ensures r.Some? <==> name in h
  {
    if name in h then Some(h[name]) else None
  }

  const ForwardedFor: string := "x-forwarded-for"
  const RealIp: string := "x-real-ip"
  const UnknownClient: string := "unknown"

  /** A first comma-separated segment of `s`: a prefix with no comma that ends at a comma
      or at the end of `s`. */
  predicate IsFirstSegment(s: string, seg: string) {
    seg <= s && ',' !in seg && (|seg| < |s| ==> s[|seg|] == ',')
  }

  /** A string has exactly one first segment. */
  lemma FirstSegmentUnique(s: string, a: string, b: string)
    requires IsFirstSegment(s, a) && IsFirstSegment(s, b)
    ensures a == b
  {
  }

  /** `split(",")[0]`. */
  function FirstSegment(s: string): (seg: string)
    ensures IsFirstSegment(s, seg)
  {
    BeforeFirst(s, ',')
  }

  /** `getClientIp`: the first entry of a non-empty `x-forwarded-for`, trimmed; else a
      non-empty `x-real-ip`, trimmed; else `"unknown"`. */
  function GetClientIp(h: Headers): (ip: string)
    ensures Truthy(Header(h, ForwardedFor)) ==>
      && ',' !in ip
      && exists seg :: IsFirstSegment(h[ForwardedFor], seg) && ip == Trim(seg)
    ensures !Truthy(Header(h, ForwardedFor)) && Truthy(Header(h, RealIp)) ==> ip == Trim(h[RealIp])
    ensures !Truthy(Header(h, ForwardedFor)) && !Truthy(Header(h, RealIp)) ==> ip == UnknownClient
    ensures ip == UnknownClient || IsTrimmed(ip)
  {
    var forwardedFor := Header(h, ForwardedFor);
    if Truthy(forwardedFor) then
      var seg := FirstSegment(forwardedFor.value);
      TrimKeepsAbsent(seg, ',');
      Trim(seg)
    else
      var realIp := Header(h, RealIp);
      if Truthy(realIp) then Trim(realIp.value) else UnknownClient
  }

  /** Trimming adds no character. */
  lemma TrimKeepsAbsent(s: string, c: char)
    requires c !in s
    ensures c !in Trim(s)
  {
    var t := TrimStart(s);
    assert t == s[|s| - |t|..];
    assert c !in t by {
      forall k | 0 <= k < |t| ensures t[k] != c {
        assert t[k] == s[|s| - |t| + k];
      }
    }
    var r := TrimEnd(t);
    assert r == t[..|r|];
    forall k | 0 <= k < |r| ensures r[k] != c {
      assert r[k] == t[k];
    }
  }

  /** The address taken from `x-forwarded-for` is the trimmed first segment, whichever
      segment-finding method is used. */
  lemma ForwardedForRule(h: Headers, seg: string)
    requires Truthy(Header(h, ForwardedFor)) && IsFirstSegment(h[ForwardedFor], seg)
    ensures GetClientIp(h) == Trim(seg)
  {
    var s :| IsFirstSegment(h[ForwardedFor], s) && GetClientIp(h) == Trim(s);
    FirstSegmentUnique(h[ForwardedFor], s, seg);
  }

  /** A non-empty `x-forwarded-for` wins: `x-real-ip` does not matter then. */
  lemma ForwardedForWins(h: Headers, realIp: Option<string>)
    requires Truthy(Header(h, ForwardedFor))
    ensures var h' := if realIp.Some? then h[RealIp := realIp.value] else h - {RealIp};
      GetClientIp(h') == GetClientIp(h)
  {
    var h' := if realIp.Some? then h[RealIp := realIp.value] else h - {RealIp};
    assert Header(h', ForwardedFor) == Header(h, ForwardedFor);
  }

  /** A first segment of only whitespace yields an empty address, not a fallback. */
  lemma BlankFirstSegment()
    ensures GetClientIp(map[ForwardedFor := " ,1.2.3.4", RealIp := "5.6.7.8"]) == ""
  {
    var h := map[ForwardedFor := " ,1.2.3.4", RealIp := "5.6.7.8"];
    assert IsFirstSegment(h[ForwardedFor], " ");
    ForwardedForRule(h, " ");
    assert TrimStart(" ") == "";
  }

  /** The limiter: 3 requests per 60-second sliding window, keys prefixed
      `ratelimit:waitlist`. */
  datatype SlidingWindow = SlidingWindow(requests: nat, windowSeconds: nat, prefix: string)

  const WaitlistWindow: SlidingWindow := SlidingWindow(3, 60, "ratelimit:waitlist")

  /** The Upstash settings, read from the environment once. */
  datatype UpstashEnv = UpstashEnv(url: Option<string>, token: Option<string>)

  /** `isRateLimitConfigured()`: the `&&` of the two settings, made boolean. An unset
      and an empty setting both leave the limiter off. */
  function IsRateLimitConfigured(env: UpstashEnv): (b: bool)
    ensures b <==> env.url.Some? && env.token.Some? && |env.url.value| > 0 && |env.token.value| > 0
    ensures env.url == Some("") || env.token == Some("") ==> !b
  {
    Truthy(env.url) && Truthy(env.token)
  }

  /** `waitlistRateLimit`: a limiter exactly when a Redis client was built. */
  function Limiter(env: UpstashEnv): (l: Option<SlidingWindow>)
    ensures l.Some? <==> env.url.Some? && env.token.Some? && |env.url.value| > 0 && |env.token.value| > 0
    ensures l.Some? ==> l.value.requests == 3 && l.value.windowSeconds == 60
  {
    if IsRateLimitConfigured(env) then Some(WaitlistWindow) else None
  }

  /** The limiter's answer for one request: admitted or not, the window's quota, what is
      left of it and when it resets (epoch milliseconds). */
  datatype LimitDecision = LimitDecision(success: bool, limit: nat, remaining: nat, reset: nat)
}
