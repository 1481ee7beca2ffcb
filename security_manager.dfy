/** services/security_manager.py: `SecurityManager` — per-(user, action) rate
    limits with action-specific caps, a failed-attempt lockout that expires,
    a bounded threat history, permanent blocks for critical threats, and the
    URL and input checks. The foreign parts are inputs: what `urlparse`
    returned, what `ipaddress.ip_address` says of the host, and which
    suspicious patterns `re.search` finds. The clock is the parameter `now`
    (whole seconds). */
module SecurityManager {
  import opened Common
  import opened PyStr
  import Helpers

  /** `max_failed_attempts`. */
  const MaxFailedAttempts := 5

  /** `lockout_duration`, in seconds. */
  const LockoutDuration := 3600

  /** Rate-limit timestamps are kept for an hour. */
  const RateWindow := 3600

  /** Inputs longer than this are unsafe. */
  const MaxInputLength := 10000

  /** The threat history is cut back once it holds more than this many items... */
  const HistoryLimit := 1000

  /** ...to this many of the most recent. */
  const HistoryKept := 500

  /** Threats are kept for seven days. */
  const ThreatRetention := 7 * 24 * 3600

  // ---------------------------------------------------------------------------
  // Risk levels

  /** The severities 'low', 'medium', 'high' and 'critical'. */
  datatype Risk = Low | Medium | High | Critical

  function RiskName(r: Risk): string
  {
    match r
    case Low => "low"
    case Medium => "medium"
    case High => "high"
    case Critical => "critical"
  }

  /** The intended order of severities. */
  function Rank(r: Risk): nat
  {
    match r
    case Low => 0
    case Medium => 1
    case High => 2
    case Critical => 3
  }

  /** Python's `max(a, b)` on the severity NAMES, as lines 100 and 107 compute
      it: the name that is larger as a string. */
  function MaxRiskAsWritten(a: Risk, b: Risk): (r: Risk)
    ensures r == a || r == b
  {
    if Less(RiskName(a), RiskName(b)) then b else a
  }

  /** String order ranks "low" above "high": `max('low', 'high')` is 'low'. */
  lemma LowOutranksHighAsWritten()
    ensures MaxRiskAsWritten(Low, High) == Low
    ensures MaxRiskAsWritten(High, Medium) == Medium
  {
    assert RiskName(Low)[0] == 'l' && RiskName(High)[0] == 'h' && RiskName(Medium)[0] == 'm';
  }

  /** The more severe of two risks. */
  function MaxRisk(a: Risk, b: Risk): (r: Risk)
    ensures r == a || r == b
    ensures Rank(r) >= Rank(a) && Rank(r) >= Rank(b)
  {
    if Rank(a) >= Rank(b) then a else b
  }

  // ---------------------------------------------------------------------------
  // Check results

  /** An entry of a result's `threats` list. */
  datatype Threat =
    | InsecureProtocol
    | BlockedEntry(entry: string)
    | LocalAddress
    | SuspiciousTld(tld: string)
    | SuspiciousPattern(pattern: string)
    | InputTooLong
    | CheckError

  /** A result dictionary `{'is_safe', 'threats', 'risk_level'}`. */
  datatype Check = Check(safe: bool, threats: seq<Threat>, risk: Risk)

  /** What `ipaddress.ip_address(domain)` makes of a network location: not an
      address (ValueError), a private, loopback or link-local address, or
      another address. */
  datatype Address = NotAnAddress | LocalAddr | PublicAddr

  /** `blocked_domains`, tested as substrings of the lower-cased domain. */
  const BlockedDomains := ["localhost", "127.0.0.1", "0.0.0.0", "10.0.0.0/8", "172.16.0.0/12",
                           "192.168.0.0/16", "malware.com", "phishing.net", "spam.org"]

  const SuspiciousTlds := [".tk", ".ml", ".ga", ".cf"]

  /** `suspicious_patterns`, the regular expressions searched for (ignoring case). */
  const SuspiciousPatterns := ["<script[^>]*>.*?</script>", "javascript:", "data:text/html", "vbscript:",
                               "onload\\s*=", "onerror\\s*=", "onclick\\s*=",
                               "\\.exe$", "\\.bat$", "\\.cmd$", "\\.scr$"]

  const AllowedSchemes := ["http", "https"]

  predicate IsBlockedDomain(domain: string)
  {
    exists b :: b in BlockedDomains && Contains(Lower(domain), b)
  }

  predicate HasSuspiciousTld(domain: string)
  {
    exists t :: t in SuspiciousTlds && EndsWith(domain, t)
  }

  /** One threat per listed entry found in the lower-cased domain, in list order. */
  function BlockedIn(entries: seq<string>, domain: string): (r: seq<Threat>)
    ensures forall t :: t in r ==> t.BlockedEntry? && t.entry in entries && Contains(Lower(domain), t.entry)
    ensures forall b :: b in entries && Contains(Lower(domain), b) ==> BlockedEntry(b) in r
  {
    if |entries| == 0 then []
    else
      var here := if Contains(Lower(domain), entries[0]) then [BlockedEntry(entries[0])] else [];
      here + BlockedIn(entries[1..], domain)
  }

  /** One threat per listed suffix the domain (not lower-cased) ends with. */
  function TldsOf(tlds: seq<string>, domain: string): (r: seq<Threat>)
    ensures forall t :: t in r ==> t.SuspiciousTld? && t.tld in tlds && EndsWith(domain, t.tld)
    ensures forall s :: s in tlds && EndsWith(domain, s) ==> SuspiciousTld(s) in r
  {
    if |tlds| == 0 then []
    else
      var here := if EndsWith(domain, tlds[0]) then [SuspiciousTld(tlds[0])] else [];
      here + TldsOf(tlds[1..], domain)
  }

  /** One threat per listed pattern that `search` finds, in list order. */
  function PatternsIn(patterns: seq<string>, search: string -> bool): (r: seq<Threat>)
    ensures forall t :: t in r ==> t.SuspiciousPattern? && t.pattern in patterns && search(t.pattern)
    ensures forall p :: p in patterns && search(p) ==> SuspiciousPattern(p) in r
  {
    if |patterns| == 0 then []
    else
      var here := if search(patterns[0]) then [SuspiciousPattern(patterns[0])] else [];
      here + PatternsIn(patterns[1..], search)
  }

  /** `_check_domain_security(domain)`. A blocked entry or a local address makes
      the domain unsafe with risk 'high'; a suspicious top-level domain adds a
      threat and sets 'medium' but leaves it safe. */
  function CheckDomainSecurity(domain: string, address: Address): (r: Check)
    ensures r.safe <==> !IsBlockedDomain(domain) && address != LocalAddr
    ensures r.risk == Medium <==> HasSuspiciousTld(domain)
    ensures r.risk == High <==> !r.safe && !HasSuspiciousTld(domain)
    ensures r.risk == Low <==> r.safe && !HasSuspiciousTld(domain)
    ensures r.safe && !HasSuspiciousTld(domain) ==> r.threats == []
  {
    var blocked := BlockedIn(BlockedDomains, domain);
    var local := if address == LocalAddr then [LocalAddress] else [];
    var tlds := TldsOf(SuspiciousTlds, domain);
    assert IsBlockedDomain(domain) <==> blocked != [] by {
      if IsBlockedDomain(domain) {
        var b :| b in BlockedDomains && Contains(Lower(domain), b);
        assert BlockedEntry(b) in blocked;
      }
      if blocked != [] {
        assert blocked[0] in blocked;
      }
    }
    assert HasSuspiciousTld(domain) <==> tlds != [] by {
      if HasSuspiciousTld(domain) {
        var t :| t in SuspiciousTlds && EndsWith(domain, t);
        assert SuspiciousTld(t) in tlds;
      }
      if tlds != [] {
        assert tlds[0] in tlds;
      }
    }
    var safe := blocked == [] && local == [];
    Check(safe, blocked + local + tlds, if tlds != [] then Medium else if safe then Low else High)
  }

  /** `_check_suspicious_patterns(url)`: unsafe with risk 'high' when any
      pattern matches. */
  function CheckSuspiciousPatterns(search: string -> bool): (r: Check)
    ensures r.safe <==> forall p :: p in SuspiciousPatterns ==> !search(p)
    ensures r.risk == (if r.safe then Low else High)
    ensures r.safe <==> r.threats == []
  {
    var hits := PatternsIn(SuspiciousPatterns, search);
    assert hits != [] ==> hits[0] in hits;
    Check(hits == [], hits, if hits == [] then Low else High)
  }

  /** The protocol test of `validate_url_security`. */
  function SchemeCheck(scheme: string): (r: Check)
    ensures r.safe <==> scheme in AllowedSchemes
  {
    if scheme in AllowedSchemes then Check(true, [], Low) else Check(false, [InsecureProtocol], High)
  }

  // ---------------------------------------------------------------------------
  // validate_url_security: combining the checks

  /** One step of the combination as written: a failed sub-check makes the
      result unsafe, adds its threats, and takes the string maximum of the
      risk names. */
  function MergeAsWritten(acc: Check, c: Check): Check
  {
    if c.safe then acc else Check(false, acc.threats + c.threats, MaxRiskAsWritten(acc.risk, c.risk))
  }

  /** Lines 89-107 as written. */
  function CombineAsWritten(scheme: string, domain: Check, patterns: Check): Check
  {
    MergeAsWritten(MergeAsWritten(SchemeCheck(scheme), domain), patterns)
  }

  /** With an accepted scheme, a URL whose only failing check rates 'high'
      is unsafe yet rated 'low' by the string maximum. */
  lemma HighFailureRatedLowAsWritten(scheme: string, domain: Check, patterns: Check)
    requires scheme in AllowedSchemes
    requires (!domain.safe && domain.risk == High && patterns.safe)
             || (domain.safe && !patterns.safe && patterns.risk == High)
    ensures !CombineAsWritten(scheme, domain, patterns).safe
    ensures CombineAsWritten(scheme, domain, patterns).risk == Low
  {
    LowOutranksHighAsWritten();
  }

  /** The URL "https://localhost" as written: unsafe, rated 'low'. */
  lemma BlockedDomainRatedLowAsWritten()
    ensures var r := CombineAsWritten("https", CheckDomainSecurity("localhost", NotAnAddress),
                                      CheckSuspiciousPatterns(p => false));
            !r.safe && r.risk == Low
  {
    LocalhostIsBlocked();
    HighFailureRatedLowAsWritten("https", CheckDomainSecurity("localhost", NotAnAddress),
                                 CheckSuspiciousPatterns(p => false));
  }

  /** "localhost" is a blocked entry and has no suspicious suffix. */
  lemma LocalhostIsBlocked()
    ensures IsBlockedDomain("localhost") && !HasSuspiciousTld("localhost")
  {
    var d := "localhost";
    ContainsAt(d, d, 0);
    assert d in BlockedDomains;
    assert Lower(d) == d;
    NoSuspiciousTldBy(d);
  }

  /** A domain has no suspicious suffix when its last character ends none of
      them. */
  lemma NoSuspiciousTldBy(d: string)
    requires |d| > 0 && forall t :: t in SuspiciousTlds ==> d[|d| - 1] != t[|t| - 1]
    ensures !HasSuspiciousTld(d)
  {
    forall t | t in SuspiciousTlds ensures !EndsWith(d, t) {
      if |t| <= |d| {
        assert d[|d| - |t|..][|t| - 1] == d[|d| - 1];
      }
    }
  }

  /** A lower-case domain is not blocked when, for each entry, `js` names a
      character of the entry that the domain lacks. */
  lemma NotBlockedBy(d: string, js: seq<nat>)
    requires Lower(d) == d && |js| == |BlockedDomains|
    requires forall k :: 0 <= k < |js| ==> js[k] < |BlockedDomains[k]|
    requires forall k, i :: 0 <= k < |js| && 0 <= i < |d| ==> d[i] != BlockedDomains[k][js[k]]
    ensures !IsBlockedDomain(d)
  {
    forall b | b in BlockedDomains ensures !Contains(d, b) {
      var k :| 0 <= k < |BlockedDomains| && BlockedDomains[k] == b;
      NoOccurrence(d, b, js[k]);
    }
  }

  /** A string lacking one of the characters of `sub` does not contain `sub`. */
  lemma {:induction false} NoOccurrence(s: string, sub: string, j: nat)
    requires j < |sub| && forall i :: 0 <= i < |s| ==> s[i] != sub[j]
    ensures !Contains(s, sub)
    decreases |s|
  {
    if |sub| <= |s| {
      assert s[..|sub|][j] == s[j];
    }
    if |s| > 0 {
      NoOccurrence(s[1..], sub, j);
    }
  }

  /** One step of the intended combination: the maximum by severity. */
  function Merge(acc: Check, c: Check): Check
  {
    if c.safe then acc else Check(false, acc.threats + c.threats, MaxRisk(acc.risk, c.risk))
  }

  /** The intended combination: unsafe iff some sub-check fails, the threats of
      the failing sub-checks in order, and the risk of the worst of them (low
      when all pass). */
  function Combine(scheme: string, domain: Check, patterns: Check): (r: Check)
    ensures r.safe <==> scheme in AllowedSchemes && domain.safe && patterns.safe
    ensures r.threats == SchemeCheck(scheme).threats + (if domain.safe then [] else domain.threats)
                         + (if patterns.safe then [] else patterns.threats)
    ensures r.safe ==> r.risk == Low
    ensures !domain.safe ==> Rank(r.risk) >= Rank(domain.risk)
    ensures !patterns.safe ==> Rank(r.risk) >= Rank(patterns.risk)
    ensures scheme !in AllowedSchemes ==> Rank(r.risk) >= Rank(High)
    ensures !r.safe ==> (scheme !in AllowedSchemes && r.risk == High)
                        || (!domain.safe && r.risk == domain.risk)
                        || (!patterns.safe && r.risk == patterns.risk)
  {
    Merge(Merge(SchemeCheck(scheme), domain), patterns)
  }

  /** The same URLs now rate 'high'. */
  lemma BlockedDomainRatedHigh()
    ensures var r := Combine("https", CheckDomainSecurity("localhost", NotAnAddress),
                             CheckSuspiciousPatterns(p => false));
            !r.safe && r.risk == High
  {
    LocalhostIsBlocked();
  }

  /** `validate_url_security(url)` as written. `Config` has no attribute
      `ENABLE_EXTERNAL_SECURITY_CHECK` (config.py), so line 110 raises
      AttributeError after the checks; the handler at line 126 keeps the threats
      found so far, adds an error threat, marks the URL unsafe with risk
      'medium', and the threat is never logged. */
  function UrlSecurityAsWritten(parsed: Option<Helpers.ParsedUrl>, address: Address, search: string -> bool): Check
  {
    var found := if parsed.None? then [] else
      CombineAsWritten(parsed.value.scheme, CheckDomainSecurity(parsed.value.netloc, address),
                       CheckSuspiciousPatterns(search)).threats;
    Check(false, found + [CheckError], Medium)
  }

  /** As written, every URL is refused, whatever it is. */
  lemma EveryUrlRefusedAsWritten(parsed: Option<Helpers.ParsedUrl>, address: Address, search: string -> bool)
    ensures !UrlSecurityAsWritten(parsed, address, search).safe
    ensures UrlSecurityAsWritten(parsed, address, search).risk == Medium
    ensures CheckError in UrlSecurityAsWritten(parsed, address, search).threats
  {
    var r := UrlSecurityAsWritten(parsed, address, search);
    assert r.threats[|r.threats| - 1] == CheckError;
  }

  /** `validate_url_security(url)` as intended, with the external check off (it
      reports every URL safe in any case): a URL that failed to parse gives the
      error result, otherwise the combination of the three checks. */
  function UrlSecurity(parsed: Option<Helpers.ParsedUrl>, address: Address, search: string -> bool): (r: Check)
    ensures parsed.None? ==> r == Check(false, [CheckError], Medium)
    ensures parsed.Some? ==> r == Combine(parsed.value.scheme, CheckDomainSecurity(parsed.value.netloc, address),
                                          CheckSuspiciousPatterns(search))
    ensures r.safe <==> parsed.Some? && parsed.value.scheme in AllowedSchemes
                        && !IsBlockedDomain(parsed.value.netloc) && address != LocalAddr
                        && forall p :: p in SuspiciousPatterns ==> !search(p)
  {
    if parsed.None? then Check(false, [CheckError], Medium)
    else Combine(parsed.value.scheme, CheckDomainSecurity(parsed.value.netloc, address),
                 CheckSuspiciousPatterns(search))
  }

  /** "www.google.com" contains none of the blocked entries and has no
      suspicious suffix. */
  lemma GoogleIsClean()
    ensures !IsBlockedDomain("www.google.com") && !HasSuspiciousTld("www.google.com")
  {
    var d := "www.google.com";
    assert Lower(d) == d;
    NotBlockedBy(d, [5, 0, 0, 0, 0, 0, 1, 1, 0]);
    NoSuspiciousTldBy(d);
  }

  /** A clean https URL with no pattern match: refused as written, safe with
      no threats and risk 'low' as intended. */
  lemma CleanUrlIsSafe()
    ensures var parsed := Some(Helpers.ParsedUrl("https", "www.google.com", ""));
      !UrlSecurityAsWritten(parsed, NotAnAddress, p => false).safe
      && UrlSecurity(parsed, NotAnAddress, p => false) == Check(true, [], Low)
  {
    GoogleIsClean();
    EveryUrlRefusedAsWritten(Some(Helpers.ParsedUrl("https", "www.google.com", "")), NotAnAddress, p => false);
  }

  // ---------------------------------------------------------------------------
  // validate_user_input

  /** The verdict on a user input: unsafe when a pattern matches or the text is
      longer than 10000 characters. */
  datatype InputCheck = InputCheck(safe: bool, threats: seq<Threat>)

  function CheckUserInput(text: string, search: string -> bool): (r: InputCheck)
    ensures r.safe <==> |text| <= MaxInputLength && forall p :: p in SuspiciousPatterns ==> !search(p)
    ensures |text| > MaxInputLength ==> InputTooLong in r.threats
    ensures r.safe <==> r.threats == []
  {
    var hits := PatternsIn(SuspiciousPatterns, search);
    assert hits != [] ==> hits[0] in hits;
    var long := if |text| > MaxInputLength then [InputTooLong] else [];
    InputCheck(hits == [] && long == [], hits + long)
  }

  // ---------------------------------------------------------------------------
  // Rate limits

  /** The key `f"{user_id}:{action}"`. */
  function RateKey(user: int, action: string): string
  {
    IntToString(user) + ":" + action
  }

  /** `str(i)` holds no colon. */
  lemma NoColonInt(i: int)
    ensures forall k :: 0 <= k < |IntToString(i)| ==> IntToString(i)[k] != ':'
  {
    if i < 0 {
      assert forall k :: 1 <= k < |IntToString(i)| ==> IntToString(i)[k] == NatToString(-i)[k - 1];
    }
  }

  /** Different (user, action) pairs have different keys: `str(user)` holds no
      colon, so the first colon splits the key. */
  lemma RateKeyInjective(u1: int, a1: string, u2: int, a2: string)
    requires RateKey(u1, a1) == RateKey(u2, a2)
    ensures u1 == u2 && a1 == a2
  {
    var x, y := IntToString(u1), IntToString(u2);
    var key := RateKey(u1, a1);
    NoColonInt(u1);
    NoColonInt(u2);
    assert key[|x|] == ':' && key[|y|] == ':';
    assert forall k :: 0 <= k < |x| ==> key[k] == x[k] != ':';
    assert forall k :: 0 <= k < |y| ==> key[k] == y[k] != ':';
    assert |x| == |y|;
    assert x == key[..|x|] && y == key[..|y|];
    assert a1 == key[|x| + 1..] && a2 == key[|y| + 1..];
    IntToStringInjective(u1, u2);
  }

  /** The hourly cap of an action. */
  function ActionLimit(action: string): nat
  {
    if action == "general" then 100
    else if action == "download" then 10
    else if action == "admin" then 1000
    else 50
  }

  /** The result dictionary of `check_rate_limit`. */
  datatype RateResult =
    | Allowed(limit: int, current: int, remaining: int)
    | Refused(limit: int, current: int, resetTime: int)

  /** The decision for a window of `count` recent calls. */
  function Decide(count: nat, limit: nat, now: int): (r: RateResult)
    ensures r.Allowed? <==> count < limit
    ensures r.limit == limit
    ensures r.Allowed? ==> r.current == count + 1 && r.remaining >= 0 && r.current + r.remaining == limit
    ensures r.Refused? ==> r.current == count && r.resetTime == now + RateWindow
  {
    if count >= limit then Refused(limit, count, now + RateWindow)
    else Allowed(limit, count + 1, limit - count - 1)
  }

  function Window(m: map<string, seq<int>>, key: string): seq<int>
  {
    if key in m then m[key] else []
  }

  // ---------------------------------------------------------------------------
  // Threat history and lockouts

  /** The kinds of threat the modelled code logs. */
  datatype ThreatType = MaliciousUrl | RateLimitExceeded | MaliciousInput

  /** An entry of `threat_history`; the description is only logged. */
  datatype SecurityThreat = SecurityThreat(userId: int, threatType: ThreatType, severity: Risk, time: int)

  /** The history after `_log_security_threat` appends `t`: everything, or the
      500 most recent once more than 1000 are held. */
  function Logged(h: seq<SecurityThreat>, t: SecurityThreat): (r: seq<SecurityThreat>)
    ensures |r| == if |h| + 1 > HistoryLimit then HistoryKept else |h| + 1
    ensures |r| <= HistoryLimit && r[|r| - 1] == t
    ensures r == (h + [t])[|h| + 1 - |r|..]
  {
    var all := h + [t];
    if |all| > HistoryLimit then all[|all| - HistoryKept..] else all
  }

  /** The history entries newer than seven days (`timestamp > week_ago`). */
  function RecentThreats(h: seq<SecurityThreat>, now: int): (r: seq<SecurityThreat>)
    ensures |r| <= |h|
    ensures forall t :: t in r <==> t in h && t.time > now - ThreatRetention
  {
    if |h| == 0 then []
    else
      var rest := RecentThreats(h[..|h| - 1], now);
      var t := h[|h| - 1];
      assert h == h[..|h| - 1] + [t];
      if t.time > now - ThreatRetention then rest + [t] else rest
  }

  /** An entry of `failed_attempts`. */
  datatype Attempts = Attempts(count: nat, lastAttempt: int)

  /** `_handle_high_threat`'s update: one more failure, at `now`. */
  function Bump(m: map<int, Attempts>, user: int, now: int): (r: map<int, Attempts>)
    ensures user in r && r[user].lastAttempt == now
    ensures r[user].count == (if user in m then m[user].count else 0) + 1
    ensures forall u :: u != user ==> (u in r <==> u in m) && (u in m ==> r[u] == m[u])
  {
    m[user := Attempts((if user in m then m[user].count else 0) + 1, now)]
  }

  /** The temporary lockout: at least five failures, the last within the hour. */
  predicate LockedOut(m: map<int, Attempts>, user: int, now: int)
  {
    user in m && m[user].count >= MaxFailedAttempts && now - m[user].lastAttempt < LockoutDuration
  }

  /** The fifth failure locks the user out at once, and a lockout lasts exactly
      the lockout duration after the last failure. */
  lemma LockoutTiming(m: map<int, Attempts>, user: int, now: int, later: int)
    ensures (if user in m then m[user].count else 0) + 1 >= MaxFailedAttempts ==> LockedOut(Bump(m, user, now), user, now)
    ensures LockedOut(Bump(m, user, now), user, later) <==>
      (if user in m then m[user].count else 0) + 1 >= MaxFailedAttempts && later - now < LockoutDuration
    ensures (if user in m then m[user].count else 0) + 1 < MaxFailedAttempts ==> !LockedOut(Bump(m, user, now), user, later)
  {
  }

  /** The entries `cleanup_old_data` keeps: last failure at most twice the
      lockout duration ago. */
  function FreshAttempts(m: map<int, Attempts>, now: int): map<int, Attempts>
  {
    map u | u in m && now - m[u].lastAttempt <= 2 * LockoutDuration :: m[u]
  }

  /** The state of the failed-attempt sweep: users still in `todo` are kept. */
  function FreshAttemptsExcept(m: map<int, Attempts>, todo: set<int>, now: int): map<int, Attempts>
  {
    map u | u in m && (u in todo || now - m[u].lastAttempt <= 2 * LockoutDuration) :: m[u]
  }

  /** The sweep removes no lockout that is still running. */
  lemma FreshAttemptsKeepLockouts(m: map<int, Attempts>, user: int, now: int)
    ensures LockedOut(m, user, now) ==> LockedOut(FreshAttempts(m, now), user, now)
    ensures user in FreshAttempts(m, now) ==> FreshAttempts(m, now)[user] == m[user]
    ensures user in m && user !in FreshAttempts(m, now) ==> now - m[user].lastAttempt > 2 * LockoutDuration
  {
  }

  // ---------------------------------------------------------------------------
  // The manager

  class SecurityManager {
    var blockedIps: set<string>
    var threatHistory: seq<SecurityThreat>
    var rateLimits: map<string, seq<int>>
    var failedAttempts: map<int, Attempts>

    /** The history stays bounded and no (user, action) window holds more calls
        than the action's cap. */
    ghost predicate Valid()
      reads this
    {
      |threatHistory| <= HistoryLimit
      && forall u, a :: RateKey(u, a) in rateLimits ==> |rateLimits[RateKey(u, a)]| <= ActionLimit(a)
    }

    constructor ()
      ensures blockedIps == {} && threatHistory == [] && rateLimits == map[] && failedAttempts == map[]
      ensures Valid()
    {
      blockedIps := {};
      threatHistory := [];
      rateLimits := map[];
      failedAttempts := map[];
    }

    /** `_handle_critical_threat`: the user is blocked for good. */
    method HandleCriticalThreat(user: int)
      modifies this
      ensures blockedIps == old(blockedIps) + {IntToString(user)}
      ensures threatHistory == old(threatHistory) && rateLimits == old(rateLimits)
      ensures failedAttempts == old(failedAttempts)
    {
      blockedIps := blockedIps + {IntToString(user)};
    }

    /** `_handle_high_threat`: one more failed attempt, at `now`. */
    method HandleHighThreat(user: int, now: int)
      modifies this
      ensures failedAttempts == Bump(old(failedAttempts), user, now)
      ensures threatHistory == old(threatHistory) && rateLimits == old(rateLimits)
      ensures blockedIps == old(blockedIps)
    {
      if user !in failedAttempts {
        failedAttempts := failedAttempts[user := Attempts(0, now)];
      }
      failedAttempts := failedAttempts[user := Attempts(failedAttempts[user].count + 1, now)];
    }

    /** `_log_security_threat`: the threat is appended (the history cut back
        when too long), then a critical threat blocks the user and a high one
        counts a failed attempt. */
    method LogSecurityThreat(user: int, kind: ThreatType, severity: Risk, now: int)
      requires Valid()
      modifies this
      ensures Valid()
      ensures threatHistory == Logged(old(threatHistory), SecurityThreat(user, kind, severity, now))
      ensures blockedIps == if severity == Critical then old(blockedIps) + {IntToString(user)} else old(blockedIps)
      ensures failedAttempts == if severity == High then Bump(old(failedAttempts), user, now) else old(failedAttempts)
      ensures rateLimits == old(rateLimits)
    {
      threatHistory := Logged(threatHistory, SecurityThreat(user, kind, severity, now));
      if severity == Critical {
        HandleCriticalThreat(user);
      } else if severity == High {
        HandleHighThreat(user, now);
      }
    }

    /** `check_rate_limit(user, action)`: the window of the key is cut to the
        last hour; a full window refuses and logs a medium threat, otherwise the
        call is recorded. */
    method CheckRateLimit(user: int, action: string, now: int) returns (r: RateResult)
      requires Valid()
      modifies this
      ensures Valid()
      ensures var kept := Recent(Window(old(rateLimits), RateKey(user, action)), now, RateWindow);
        r == Decide(|kept|, ActionLimit(action), now)
        && rateLimits == old(rateLimits)[RateKey(user, action) := if r.Allowed? then kept + [now] else kept]
      ensures threatHistory == if r.Allowed? then old(threatHistory)
                               else Logged(old(threatHistory), SecurityThreat(user, RateLimitExceeded, Medium, now))
      ensures blockedIps == old(blockedIps) && failedAttempts == old(failedAttempts)
    {
      var key := RateKey(user, action);
      var kept := Recent(Window(rateLimits, key), now, RateWindow);
      SetWindow(user, action, kept);
      var limit := ActionLimit(action);
      r := Decide(|kept|, limit, now);
      if r.Refused? {
        LogSecurityThreat(user, RateLimitExceeded, Medium, now);
      } else {
        SetWindow(user, action, kept + [now]);
      }
    }

    /** Stores a window for the key of (user, action) of no more calls than the
        cap of that action allows. */
    method SetWindow(user: int, action: string, w: seq<int>)
      requires Valid() && |w| <= ActionLimit(action)
      modifies this
      ensures Valid()
      ensures rateLimits == old(rateLimits)[RateKey(user, action) := w]
      ensures threatHistory == old(threatHistory) && blockedIps == old(blockedIps)
      ensures failedAttempts == old(failedAttempts)
    {
      rateLimits := rateLimits[RateKey(user, action) := w];
      forall u, a | RateKey(u, a) in rateLimits
        ensures |rateLimits[RateKey(u, a)]| <= ActionLimit(a)
      {
        if RateKey(u, a) == RateKey(user, action) {
          RateKeyInjective(u, a, user, action);
        }
      }
    }

    /** `is_user_blocked`: permanently blocked, or locked out; a lockout found
        expired is deleted. */
    method IsUserBlocked(user: int, now: int) returns (blocked: bool)
      modifies this
      ensures blocked <==> IntToString(user) in old(blockedIps) || LockedOut(old(failedAttempts), user, now)
      ensures failedAttempts ==
        if IntToString(user) !in old(blockedIps) && user in old(failedAttempts)
           && old(failedAttempts)[user].count >= MaxFailedAttempts && !LockedOut(old(failedAttempts), user, now)
        then old(failedAttempts) - {user} else old(failedAttempts)
      ensures blockedIps == old(blockedIps) && threatHistory == old(threatHistory)
      ensures rateLimits == old(rateLimits)
    {
      if IntToString(user) in blockedIps {
        return true;
      }
      if user in failedAttempts && failedAttempts[user].count >= MaxFailedAttempts {
        if now - failedAttempts[user].lastAttempt < LockoutDuration {
          return true;
        }
        failedAttempts := failedAttempts - {user};
      }
      return false;
    }

    /** `validate_url_security(url, user_id)` with the configuration attribute
        defined: the verdict of `UrlSecurity`, and an unsafe URL of a known user
        (a non-zero id) is logged with the combined risk. A URL that failed to
        parse raised inside the `try`, so the handler skips the logging. */
    method ValidateUrlSecurity(parsed: Option<Helpers.ParsedUrl>, address: Address, search: string -> bool,
                               user: int, now: int) returns (r: Check)
      requires Valid()
      modifies this
      ensures Valid()
      ensures r == UrlSecurity(parsed, address, search)
      ensures var logs := parsed.Some? && !r.safe && user != 0;
        threatHistory == (if logs then Logged(old(threatHistory), SecurityThreat(user, MaliciousUrl, r.risk, now))
                          else old(threatHistory))
        && blockedIps == (if logs && r.risk == Critical then old(blockedIps) + {IntToString(user)} else old(blockedIps))
        && failedAttempts == (if logs && r.risk == High then Bump(old(failedAttempts), user, now) else old(failedAttempts))
      ensures rateLimits == old(rateLimits)
    {
      r := UrlSecurity(parsed, address, search);
      if parsed.Some? && !r.safe && user != 0 {
        LogSecurityThreat(user, MaliciousUrl, r.risk, now);
      }
    }

    /** `validate_user_input(text, user_id)` without the sanitised copy: the
        verdict, and an unsafe input of a known user is logged as medium. */
    method ValidateUserInput(text: string, search: string -> bool, user: int, now: int) returns (r: InputCheck)
      requires Valid()
      modifies this
      ensures Valid()
      ensures r == CheckUserInput(text, search)
      ensures threatHistory == if !r.safe && user != 0
        then Logged(old(threatHistory), SecurityThreat(user, MaliciousInput, Medium, now)) else old(threatHistory)
      ensures blockedIps == old(blockedIps) && failedAttempts == old(failedAttempts)
      ensures rateLimits == old(rateLimits)
    {
      r := CheckUserInput(text, search);
      if !r.safe && user != 0 {
        LogSecurityThreat(user, MaliciousInput, Medium, now);
      }
    }

    /** The rate-limit loop of `cleanup_old_data`. */
    method PruneRateLimits(now: int)
      requires Valid()
      modifies this
      ensures Valid()
      ensures rateLimits == PruneAll(old(rateLimits), now, RateWindow)
      ensures threatHistory == old(threatHistory) && blockedIps == old(blockedIps)
      ensures failedAttempts == old(failedAttempts)
    {
      ghost var m0 := rateLimits;
      var todo := rateLimits.Keys;
      while todo != {}
        invariant todo <= m0.Keys
        invariant rateLimits == PrunedExcept(m0, todo, now, RateWindow)
        invariant threatHistory == old(threatHistory) && blockedIps == old(blockedIps)
        invariant failedAttempts == old(failedAttempts)
        decreases |todo|
      {
        ghost var w := Pick(todo);
        var key :| key in todo;
        PruneStep(m0, todo, now, RateWindow, key);
        rateLimits := rateLimits[key := Recent(rateLimits[key], now, RateWindow)];
        if rateLimits[key] == [] {
          rateLimits := rateLimits - {key};
        }
        todo := todo - {key};
      }
      assert rateLimits == PruneAll(m0, now, RateWindow);
      PruneAllProperties(m0, now, RateWindow);
    }

    /** The failed-attempt loop of `cleanup_old_data`. */
    method DropStaleAttempts(now: int)
      modifies this
      ensures failedAttempts == FreshAttempts(old(failedAttempts), now)
      ensures threatHistory == old(threatHistory) && blockedIps == old(blockedIps)
      ensures rateLimits == old(rateLimits)
    {
      ghost var m0 := failedAttempts;
      var todo := failedAttempts.Keys;
      while todo != {}
        invariant todo <= m0.Keys
        invariant failedAttempts == FreshAttemptsExcept(m0, todo, now)
        invariant threatHistory == old(threatHistory) && blockedIps == old(blockedIps)
        invariant rateLimits == old(rateLimits)
        decreases |todo|
      {
        ghost var w := Pick(todo);
        var user :| user in todo;
        if now - failedAttempts[user].lastAttempt > 2 * LockoutDuration {
          failedAttempts := failedAttempts - {user};
        }
        todo := todo - {user};
        assert failedAttempts == FreshAttemptsExcept(m0, todo, now);
      }
      assert failedAttempts == FreshAttempts(m0, now);
    }

    /** `cleanup_old_data`: rate-limit windows pruned to the hour, failed
        attempts older than two lockouts dropped, threats older than a week
        dropped. */
    method CleanupOldData(now: int)
      requires Valid()
      modifies this
      ensures Valid()
      ensures rateLimits == PruneAll(old(rateLimits), now, RateWindow)
      ensures failedAttempts == FreshAttempts(old(failedAttempts), now)
      ensures threatHistory == RecentThreats(old(threatHistory), now)
      ensures blockedIps == old(blockedIps)
    {
      PruneRateLimits(now);
      DropStaleAttempts(now);
      threatHistory := RecentThreats(threatHistory, now);
    }
  }
}
