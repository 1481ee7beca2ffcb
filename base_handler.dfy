/** bot/handlers/base_handler.py: the per-user moderation state shared by all
    bot handlers — a sliding-window rate limiter, warnings with an automatic
    ban, the ban set, a suspicious-activity detector and the URL string
    checks. A handler created with a parent shares the parent's containers,
    so that state is one `Moderation` object the handlers point to. The clock
    is the parameter `now` (whole seconds). */
module BaseHandler {
  import opened Common
  import opened PyStr
  import Helpers

  /** `Config.RATE_LIMIT_PER_HOUR` when the environment does not set it (config.py). */
  const DefaultRateLimitPerHour := 10

  /** Rate-limit timestamps are kept for an hour. */
  const RateWindow := 3600

  /** Activities are kept for ten minutes. */
  const ActivityWindow := 600

  /** Download requests are counted over the last minute. */
  const BurstWindow := 60

  /** More activities than this in the ten-minute window are suspicious. */
  const MaxActivities := 20

  /** More download requests than this in the last minute are suspicious. */
  const MaxBurst := 5

  /** The warning count at which a user is banned. */
  const WarningsToBan := 3

  const DownloadRequest := "download_request"

  // ---------------------------------------------------------------------------
  // Rate-limit windows

  /** A defaultdict(list) read: a missing user has no timestamps. */
  function Requests(m: map<int, seq<int>>, user: int): seq<int>
  {
    if user in m then m[user] else []
  }

  // ---------------------------------------------------------------------------
  // detect_suspicious_activity

  /** One entry of `suspicious_activity[user]`, `{'type': kind, 'time': time}`. */
  datatype Activity = Activity(kind: string, time: int)

  /** The activities less than `span` seconds old, in order. */
  function RecentActivities(acts: seq<Activity>, now: int, span: int): (r: seq<Activity>)
    ensures |r| <= |acts|
    ensures forall a :: a in r <==> a in acts && now - a.time < span
  {
    Filter(acts, (a: Activity) => now - a.time < span)
  }

  /** The download requests of the last minute (`recent_requests`). */
  function Burst(acts: seq<Activity>, now: int): (r: seq<Activity>)
    ensures |r| <= |acts|
    ensures forall a :: a in r <==> a in acts && a.kind == DownloadRequest && now - a.time < BurstWindow
  {
    Filter(acts, (a: Activity) => a.kind == DownloadRequest && now - a.time < BurstWindow)
  }

  /** The window after recording an activity: the last ten minutes, then the
      new activity. */
  function Observe(acts: seq<Activity>, kind: string, now: int): (r: seq<Activity>)
    ensures |r| >= 1 && r[|r| - 1] == Activity(kind, now)
    ensures forall a :: a in r ==> now - a.time < ActivityWindow
    ensures forall a :: a in acts && now - a.time < ActivityWindow ==> a in r
  {
    RecentActivities(acts, now, ActivityWindow) + [Activity(kind, now)]
  }

  /** The verdict on a window: more than 20 activities, or more than 5
      download requests in the last minute. */
  predicate Suspicious(acts: seq<Activity>, now: int)
  {
    |acts| > MaxActivities || |Burst(acts, now)| > MaxBurst
  }

  /** The minute of download requests is the same whether or not the window was
      first cut to ten minutes. */
  lemma BurstIgnoresPruning(acts: seq<Activity>, now: int)
    ensures Burst(RecentActivities(acts, now, ActivityWindow), now) == Burst(acts, now)
  {
    FilterNarrower(acts, (a: Activity) => now - a.time < ActivityWindow,
                   (a: Activity) => a.kind == DownloadRequest && now - a.time < BurstWindow);
  }

  /** A user who already has 20 activities in the window is flagged by the next one. */
  lemma FloodIsSuspicious(acts: seq<Activity>, kind: string, now: int)
    requires |RecentActivities(acts, now, ActivityWindow)| >= MaxActivities
    ensures Suspicious(Observe(acts, kind, now), now)
  {
  }

  /** After five download requests within a minute, a sixth is flagged. */
  lemma RepeatedDownloadsAreSuspicious(acts: seq<Activity>, now: int)
    requires |Burst(acts, now)| >= MaxBurst
    ensures Suspicious(Observe(acts, DownloadRequest, now), now)
  {
    var w := RecentActivities(acts, now, ActivityWindow);
    BurstIgnoresPruning(acts, now);
    var o := Observe(acts, DownloadRequest, now);
    assert o[..|o| - 1] == w;
    assert Burst(o, now) == Burst(w, now) + [Activity(DownloadRequest, now)];
  }

  /** A user with nothing in the last ten minutes is never flagged. */
  lemma QuietUserIsNotSuspicious(acts: seq<Activity>, kind: string, now: int)
    requires RecentActivities(acts, now, ActivityWindow) == []
    ensures !Suspicious(Observe(acts, kind, now), now)
  {
    var o := Observe(acts, kind, now);
    assert o == [Activity(kind, now)];
    assert o[..0] == [];
  }

  /** A defaultdict(list) read of the activity map. */
  function Activities(m: map<int, seq<Activity>>, user: int): seq<Activity>
  {
    if user in m then m[user] else []
  }

  /** A defaultdict(int) read of the warning map. */
  function Warnings(m: map<int, nat>, user: int): nat
  {
    if user in m then m[user] else 0
  }

  // ---------------------------------------------------------------------------
  // validate_url_security

  const AllowedSchemes := ["http", "https"]

  /** Substrings of the lower-cased network location that are refused. */
  const BlockedDomains := ["localhost", "127.0.0.1", "0.0.0.0", "10.", "192.168.", "172."]

  /** Endings of the lower-cased URL that are refused. */
  const SuspiciousExtensions := [".exe", ".bat", ".cmd", ".scr", ".pif"]

  /** The reason returned with the verdict. */
  datatype UrlReason = UrlSafe | UnsupportedProtocol | BlockedDomain | UnsafeFileType | CheckFailed

  predicate HasBlockedDomain(netloc: string)
  {
    exists b :: b in BlockedDomains && Contains(Lower(netloc), b)
  }

  predicate HasSuspiciousExtension(url: string)
  {
    exists e :: e in SuspiciousExtensions && EndsWith(Lower(url), e)
  }

  /** `validate_url_security(url)`, given what `urlparse(url)` returned
      (`None` when it raised). The checks run in order — scheme, then blocked
      network location, then file extension — and the first that fails gives
      the reason. */
  function ValidateUrlSecurity(url: string, parsed: Option<Helpers.ParsedUrl>): (r: (bool, UrlReason))
    ensures r.0 <==> r.1 == UrlSafe
    ensures r.0 <==> parsed.Some? && parsed.value.scheme in AllowedSchemes
                     && !HasBlockedDomain(parsed.value.netloc) && !HasSuspiciousExtension(url)
    ensures r.1 == CheckFailed <==> parsed.None?
    ensures r.1 == UnsupportedProtocol <==> parsed.Some? && parsed.value.scheme !in AllowedSchemes
    ensures r.1 == BlockedDomain <==>
      parsed.Some? && parsed.value.scheme in AllowedSchemes && HasBlockedDomain(parsed.value.netloc)
    ensures r.1 == UnsafeFileType <==>
      parsed.Some? && parsed.value.scheme in AllowedSchemes && !HasBlockedDomain(parsed.value.netloc)
      && HasSuspiciousExtension(url)
  {
    if parsed.None? then (false, CheckFailed)
    else if parsed.value.scheme !in AllowedSchemes then (false, UnsupportedProtocol)
    else if HasBlockedDomain(parsed.value.netloc) then (false, BlockedDomain)
    else if HasSuspiciousExtension(url) then (false, UnsafeFileType)
    else (true, UrlSafe)
  }

  /** The blocked entries are substrings, not hosts: a public name that merely
      contains "10." is refused. */
  lemma LookalikeHostIsBlocked()
    ensures ValidateUrlSecurity("https://web10.example.com/", Some(Helpers.ParsedUrl("https", "web10.example.com", "/")))
            == (false, BlockedDomain)
  {
    assert Lower("web10.example.com") == "web10.example.com";
    ContainsAt("web10.example.com", "10.", 3);
    assert "10." in BlockedDomains;
  }

  /** The extension test ignores case. */
  lemma UpperCaseExecutableIsRefused(host: string, url: string)
    requires !HasBlockedDomain(host) && EndsWith(url, ".EXE")
    ensures ValidateUrlSecurity(url, Some(Helpers.ParsedUrl("http", host, url))) == (false, UnsafeFileType)
  {
    var l := Lower(url);
    assert l[|l| - 4..] == Lower(url[|url| - 4..]);
    assert EndsWith(l, ".exe");
    assert ".exe" in SuspiciousExtensions;
  }

  /** The scheme is checked first: an ftp URL to localhost is refused for its
      protocol, not its host. */
  lemma SchemeIsCheckedFirst(netloc: string, url: string)
    ensures ValidateUrlSecurity(url, Some(Helpers.ParsedUrl("ftp", netloc, ""))) == (false, UnsupportedProtocol)
  {
  }

  // ---------------------------------------------------------------------------
  // The shared moderation state

  /** The containers `user_rate_limits`, `banned_users`, `user_warnings` and
      `suspicious_activity` that a handler creates (or takes from its parent). */
  class Moderation {
    /** `Config.RATE_LIMIT_PER_HOUR`. */
    const rateLimit: int
    var userRateLimits: map<int, seq<int>>
    var bannedUsers: set<int>
    var userWarnings: map<int, nat>
    var suspiciousActivity: map<int, seq<Activity>>

    /** No user ever has more recorded requests than the hourly limit. */
    ghost predicate Valid()
      reads this
    {
      forall u :: u in userRateLimits ==> |userRateLimits[u]| <= Max(rateLimit, 0)
    }

    constructor (rateLimit: int)
      ensures this.rateLimit == rateLimit
      ensures userRateLimits == map[] && bannedUsers == {} && userWarnings == map[]
      ensures suspiciousActivity == map[]
      ensures Valid()
    {
      this.rateLimit := rateLimit;
      userRateLimits := map[];
      bannedUsers := {};
      userWarnings := map[];
      suspiciousActivity := map[];
    }

    /** `check_rate_limit`: the user's window is cut to the last hour; a full
        window refuses without recording, otherwise `now` is recorded. */
    method CheckRateLimit(user: int, now: int) returns (allowed: bool)
      requires Valid()
      modifies this
      ensures Valid()
      ensures var kept := Recent(Requests(old(userRateLimits), user), now, RateWindow);
        allowed == (|kept| < rateLimit)
        && userRateLimits == old(userRateLimits)[user := if allowed then kept + [now] else kept]
      ensures bannedUsers == old(bannedUsers) && userWarnings == old(userWarnings)
      ensures suspiciousActivity == old(suspiciousActivity)
    {
      var kept := Recent(Requests(userRateLimits, user), now, RateWindow);
      if |kept| >= rateLimit {
        userRateLimits := userRateLimits[user := kept];
        allowed := false;
      } else {
        userRateLimits := userRateLimits[user := kept + [now]];
        allowed := true;
      }
    }

    /** `is_user_banned`. */
    predicate IsUserBanned(user: int)
      reads this
    {
      user in bannedUsers
    }

    /** `ban_user`: a set insert. */
    method BanUser(user: int)
      modifies this
      ensures IsUserBanned(user)
      ensures bannedUsers == old(bannedUsers) + {user}
      ensures userRateLimits == old(userRateLimits) && userWarnings == old(userWarnings)
      ensures suspiciousActivity == old(suspiciousActivity)
    {
      bannedUsers := bannedUsers + {user};
    }

    /** `unban_user`: a set discard, so a user who is not banned changes nothing. */
    method UnbanUser(user: int)
      modifies this
      ensures !IsUserBanned(user)
      ensures bannedUsers == old(bannedUsers) - {user}
      ensures user !in old(bannedUsers) ==> bannedUsers == old(bannedUsers)
      ensures userRateLimits == old(userRateLimits) && userWarnings == old(userWarnings)
      ensures suspiciousActivity == old(suspiciousActivity)
    {
      bannedUsers := bannedUsers - {user};
    }

    /** `add_warning`: one more warning; the user is banned, and true returned,
        exactly when the count reaches three. The reason is only logged. */
    method AddWarning(user: int) returns (banned: bool)
      modifies this
      ensures userWarnings == old(userWarnings)[user := Warnings(old(userWarnings), user) + 1]
      ensures banned <==> Warnings(old(userWarnings), user) + 1 >= WarningsToBan
      ensures bannedUsers == if banned then old(bannedUsers) + {user} else old(bannedUsers)
      ensures userRateLimits == old(userRateLimits) && suspiciousActivity == old(suspiciousActivity)
    {
      userWarnings := userWarnings[user := Warnings(userWarnings, user) + 1];
      if userWarnings[user] >= WarningsToBan {
        BanUser(user);
        banned := true;
      } else {
        banned := false;
      }
    }

    /** `detect_suspicious_activity`: the window is cut to ten minutes, the
        activity recorded, and the result is the verdict on the new window. */
    method DetectSuspiciousActivity(user: int, kind: string, now: int) returns (suspicious: bool)
      modifies this
      ensures suspiciousActivity == old(suspiciousActivity)[user := Observe(Activities(old(suspiciousActivity), user), kind, now)]
      ensures suspicious == Suspicious(suspiciousActivity[user], now)
      ensures userRateLimits == old(userRateLimits) && bannedUsers == old(bannedUsers)
      ensures userWarnings == old(userWarnings)
    {
      var acts := Observe(Activities(suspiciousActivity, user), kind, now);
      suspiciousActivity := suspiciousActivity[user := acts];
      suspicious := Suspicious(acts, now);
    }

    /** The rate-limit loop of `periodic_cleanup`: for each user, keep the last
        hour and delete the user if nothing is left. */
    method PruneRateLimits(now: int)
      requires Valid()
      modifies this
      ensures Valid()
      ensures userRateLimits == PruneAll(old(userRateLimits), now, RateWindow)
      ensures bannedUsers == old(bannedUsers) && userWarnings == old(userWarnings)
      ensures suspiciousActivity == old(suspiciousActivity)
    {
      ghost var m0 := userRateLimits;
      var todo := userRateLimits.Keys;
      while todo != {}
        invariant todo <= m0.Keys
        invariant userRateLimits == PrunedExcept(m0, todo, now, RateWindow)
        invariant bannedUsers == old(bannedUsers) && userWarnings == old(userWarnings)
        invariant suspiciousActivity == old(suspiciousActivity)
        decreases |todo|
      {
        ghost var w := Pick(todo);
        var u :| u in todo;
        PruneStep(m0, todo, now, RateWindow, u);
        userRateLimits := userRateLimits[u := Recent(userRateLimits[u], now, RateWindow)];
        if userRateLimits[u] == [] {
          userRateLimits := userRateLimits - {u};
        }
        todo := todo - {u};
      }
      assert userRateLimits == PruneAll(m0, now, RateWindow);
      PruneAllProperties(m0, now, RateWindow);
    }
  }

  /** The handler base class: a root handler owns fresh containers, a handler
      made with a parent shares the parent's and copies its `last_cleanup`. */
  class BaseHandler {
    const parent: Option<BaseHandler>
    const moderation: Moderation
    var lastCleanup: int

    /** `BaseHandler()` at time `now`. */
    constructor Root(rateLimit: int, now: int)
      ensures parent == None && fresh(moderation)
      ensures moderation.rateLimit == rateLimit && moderation.userRateLimits == map[]
      ensures moderation.bannedUsers == {} && moderation.userWarnings == map[]
      ensures moderation.suspiciousActivity == map[] && moderation.Valid()
      ensures lastCleanup == now
    {
      parent := None;
      moderation := new Moderation(rateLimit);
      lastCleanup := now;
    }

    /** `BaseHandler(parent)`. */
    constructor Child(parent: BaseHandler)
      ensures this.parent == Some(parent) && moderation == parent.moderation
      ensures lastCleanup == parent.lastCleanup
    {
      this.parent := Some(parent);
      moderation := parent.moderation;
      lastCleanup := parent.lastCleanup;
    }

    /** `periodic_cleanup` without the file sweeps: prunes every rate-limit
        window and records the time. */
    method PeriodicCleanup(now: int)
      requires moderation.Valid()
      modifies this, moderation
      ensures moderation.Valid()
      ensures moderation.userRateLimits == PruneAll(old(moderation.userRateLimits), now, RateWindow)
      ensures moderation.bannedUsers == old(moderation.bannedUsers)
      ensures moderation.userWarnings == old(moderation.userWarnings)
      ensures moderation.suspiciousActivity == old(moderation.suspiciousActivity)
      ensures lastCleanup == now
    {
      moderation.PruneRateLimits(now);
      lastCleanup := now;
    }
  }
}
