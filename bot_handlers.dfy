/** bot/handlers.py: `BotHandlers`, the monolithic handler. Its moderation
    code (rate limit, warnings, bans, suspicious activity, URL checks and the
    rate-limit pruning) is the same code as bot/handlers/base_handler.py and is
    modelled once, by `BaseHandler.Moderation`; this module adds what only
    `BotHandlers` has: the one-download-per-user gate and the state effects of
    the administrator commands. Telegram replies are the `Reply` values;
    messages, keyboards, the database and the file sweeps are not modelled. */
module BotHandlers {
  import opened Common
  import opened BaseHandler

  /** `context.args` of an administrator command as `int(context.args[0])`
      sees it: no argument, one that is not a number, or a number. */
  datatype Argument = Missing | NotANumber | Number(value: int)

  /** Which reply an administrator command sends. */
  datatype Reply = NotAuthorized | Usage | NotNumeric | CannotBanAdmin | NotBanned | Done

  // ---------------------------------------------------------------------------
  // The active_downloads gate

  /** `start_download`'s check: a user with an active download is refused,
      otherwise the user becomes active. */
  function Begin(active: set<int>, user: int): (r: (bool, set<int>))
    ensures r.0 <==> user !in active
    ensures user in r.1 && r.1 - {user} == active - {user}
  {
    if user in active then (false, active) else (true, active + {user})
  }

  /** The `finally` clause of `start_download`: once its `try` was entered,
      the user's entry is popped whatever the outcome. */
  function Finish(active: set<int>, user: int): (r: set<int>)
    ensures user !in r && r + {user} == active + {user}
  {
    active - {user}
  }

  /** `cancel`: an active user's entry is popped; otherwise nothing changes. */
  function CancelDownload(active: set<int>, user: int): (r: (bool, set<int>))
    ensures r.0 <==> user in active
    ensures user !in r.1 && (r.0 ==> r.1 + {user} == active) && (!r.0 ==> r.1 == active)
  {
    if user in active then (true, active - {user}) else (false, active)
  }

  /** While a user's download runs, a second one is refused; once it has
      finished, the next one starts. Other users are not affected. */
  lemma GateAdmitsOneDownload(active: set<int>, user: int, other: int)
    requires other != user
    ensures !Begin(Begin(active, user).1, user).0
    ensures Begin(Finish(Begin(active, user).1, user), user).0
    ensures Begin(Begin(active, user).1, other).0 == Begin(active, other).0
  {
  }

  /** `cancel` only pops the entry and does not stop the running download, so
      right after a cancel a second download of the same user is admitted
      while the first may still be running. */
  lemma CancelReopensGate(active: set<int>, user: int)
    ensures var during := Begin(active, user).1;
      var (cancelled, after) := CancelDownload(during, user);
      cancelled && Begin(after, user).0 && user in Begin(after, user).1
  {
  }

  /** What happens to the gate: the check of a `start_download`; the
      `finally` of a download whose `try` was entered; a `/cancel`. */
  datatype GateEvent = Start(user: int) | End(user: int) | CancelBy(user: int)

  function Step(active: set<int>, e: GateEvent): set<int>
  {
    match e
    case Start(u) => Begin(active, u).1
    case End(u) => Finish(active, u)
    case CancelBy(u) => CancelDownload(active, u).1
  }

  /** The gate after a run of events, in order. */
  function Run(active: set<int>, events: seq<GateEvent>): set<int>
    decreases |events|
  {
    if |events| == 0 then active
    else Step(Run(active, events[..|events| - 1]), events[|events| - 1])
  }

  /** The progress reply of `start_download` is sent after the user is marked
      active and before the `try` whose `finally` pops the entry, so when that
      reply raises no `End` follows. From then on, until the user's own `End`
      or `/cancel`, the user stays active whatever other users do, and every
      further download of theirs is refused. */
  lemma {:induction false} StrandedUntilCancel(active: set<int>, user: int, events: seq<GateEvent>)
    requires user in active
    requires forall i :: 0 <= i < |events| ==> events[i] != End(user) && events[i] != CancelBy(user)
    ensures user in Run(active, events)
    ensures forall i :: 0 <= i < |events| && events[i] == Start(user) ==> !Begin(Run(active, events[..i]), user).0
    decreases |events|
  {
    if |events| > 0 {
      var prefix := events[..|events| - 1];
      StrandedUntilCancel(active, user, prefix);
      forall i | 0 <= i < |events| && events[i] == Start(user)
        ensures !Begin(Run(active, events[..i]), user).0
      {
        if i < |prefix| {
          assert events[..i] == prefix[..i];
        } else {
          assert events[..i] == prefix;
        }
      }
    }
  }

  // ---------------------------------------------------------------------------
  // Administrator commands

  /** The reply of `ban_command`: only the administrator may ban, a number is
      required, and the administrator cannot be banned. */
  function BanReply(adminId: int, caller: int, arg: Argument): (r: Reply)
    ensures r == Done <==> caller == adminId && arg.Number? && arg.value != adminId
    ensures r == NotAuthorized <==> caller != adminId
    ensures r == CannotBanAdmin <==> caller == adminId && arg == Number(adminId)
    ensures r in {NotAuthorized, Usage, NotNumeric, CannotBanAdmin, Done}
  {
    if caller != adminId then NotAuthorized
    else if arg.Missing? then Usage
    else if arg.NotANumber? then NotNumeric
    else if arg.value == adminId then CannotBanAdmin
    else Done
  }

  /** The reply of `unban_command`: only the administrator may unban, and only
      a user who is banned. */
  function UnbanReply(adminId: int, caller: int, arg: Argument, banned: set<int>): (r: Reply)
    ensures r == Done <==> caller == adminId && arg.Number? && arg.value in banned
    ensures r == NotAuthorized <==> caller != adminId
    ensures r == NotBanned <==> caller == adminId && arg.Number? && arg.value !in banned
    ensures r in {NotAuthorized, Usage, NotNumeric, NotBanned, Done}
  {
    if caller != adminId then NotAuthorized
    else if arg.Missing? then Usage
    else if arg.NotANumber? then NotNumeric
    else if arg.value !in banned then NotBanned
    else Done
  }

  /** `BotHandlers`: its own moderation containers, the active downloads and
      the time of the last cleanup. */
  class BotHandlers {
    /** `Config.ADMIN_ID`. */
    const adminId: int
    const moderation: Moderation
    var activeDownloads: set<int>
    var lastCleanup: int

    constructor (adminId: int, rateLimit: int, now: int)
      ensures this.adminId == adminId && fresh(moderation)
      ensures moderation.rateLimit == rateLimit && moderation.userRateLimits == map[]
      ensures moderation.bannedUsers == {} && moderation.userWarnings == map[]
      ensures moderation.suspiciousActivity == map[] && moderation.Valid()
      ensures activeDownloads == {} && lastCleanup == now
    {
      this.adminId := adminId;
      moderation := new Moderation(rateLimit);
      activeDownloads := {};
      lastCleanup := now;
    }

    /** The gate at the start of `start_download`. */
    method StartDownload(user: int) returns (started: bool)
      modifies this
      ensures (started, activeDownloads) == Begin(old(activeDownloads), user)
      ensures lastCleanup == old(lastCleanup)
    {
      if user in activeDownloads {
        started := false;
      } else {
        activeDownloads := activeDownloads + {user};
        started := true;
      }
    }

    /** The `finally` clause of `start_download`, run whatever the outcome. */
    method FinishDownload(user: int)
      modifies this
      ensures activeDownloads == Finish(old(activeDownloads), user)
      ensures lastCleanup == old(lastCleanup)
    {
      activeDownloads := activeDownloads - {user};
    }

    /** `cancel`. */
    method Cancel(user: int) returns (cancelled: bool)
      modifies this
      ensures (cancelled, activeDownloads) == CancelDownload(old(activeDownloads), user)
      ensures lastCleanup == old(lastCleanup)
    {
      if user in activeDownloads {
        activeDownloads := activeDownloads - {user};
        cancelled := true;
      } else {
        cancelled := false;
      }
    }

    /** `ban_command`: bans the target on `Done` and changes nothing otherwise;
        the administrator is never banned by it. */
    method BanCommand(caller: int, arg: Argument) returns (reply: Reply)
      modifies moderation
      ensures reply == BanReply(adminId, caller, arg)
      ensures moderation.bannedUsers ==
        if reply == Done then old(moderation.bannedUsers) + {arg.value} else old(moderation.bannedUsers)
      ensures adminId in moderation.bannedUsers ==> adminId in old(moderation.bannedUsers)
      ensures moderation.userRateLimits == old(moderation.userRateLimits)
      ensures moderation.userWarnings == old(moderation.userWarnings)
      ensures moderation.suspiciousActivity == old(moderation.suspiciousActivity)
    {
      reply := BanReply(adminId, caller, arg);
      if reply == Done {
        moderation.BanUser(arg.value);
      }
    }

    /** `unban_command`: on `Done` the target is unbanned and its warnings are
        dropped; otherwise nothing changes. */
    method UnbanCommand(caller: int, arg: Argument) returns (reply: Reply)
      modifies moderation
      ensures reply == UnbanReply(adminId, caller, arg, old(moderation.bannedUsers))
      ensures reply == Done ==>
        moderation.bannedUsers == old(moderation.bannedUsers) - {arg.value}
        && moderation.userWarnings == old(moderation.userWarnings) - {arg.value}
      ensures reply != Done ==>
        moderation.bannedUsers == old(moderation.bannedUsers)
        && moderation.userWarnings == old(moderation.userWarnings)
      ensures moderation.userRateLimits == old(moderation.userRateLimits)
      ensures moderation.suspiciousActivity == old(moderation.suspiciousActivity)
    {
      reply := UnbanReply(adminId, caller, arg, moderation.bannedUsers);
      if reply == Done {
        moderation.UnbanUser(arg.value);
        moderation.userWarnings := moderation.userWarnings - {arg.value};
      }
    }

    /** `cleanup_command` without the file sweeps: for the administrator, every
        rate-limit record is dropped, the number of users that had one is
        reported and the cleanup time recorded. */
    method CleanupCommand(caller: int, now: int) returns (reply: Reply, cleared: nat)
      requires moderation.Valid()
      modifies this, moderation
      ensures moderation.Valid()
      ensures reply == (if caller == adminId then Done else NotAuthorized)
      ensures reply == Done ==>
        moderation.userRateLimits == map[] && cleared == |old(moderation.userRateLimits)|
        && lastCleanup == now
      ensures reply != Done ==>
        moderation.userRateLimits == old(moderation.userRateLimits) && cleared == 0
        && lastCleanup == old(lastCleanup)
      ensures moderation.bannedUsers == old(moderation.bannedUsers)
      ensures moderation.userWarnings == old(moderation.userWarnings)
      ensures moderation.suspiciousActivity == old(moderation.suspiciousActivity)
      ensures activeDownloads == old(activeDownloads)
    {
      if caller != adminId {
        return NotAuthorized, 0;
      }
      cleared := |moderation.userRateLimits|;
      moderation.userRateLimits := map[];
      lastCleanup := now;
      reply := Done;
    }

    /** `periodic_cleanup` without the file sweeps. */
    method PeriodicCleanup(now: int)
      requires moderation.Valid()
      modifies this, moderation
      ensures moderation.Valid()
      ensures moderation.userRateLimits == PruneAll(old(moderation.userRateLimits), now, RateWindow)
      ensures moderation.bannedUsers == old(moderation.bannedUsers)
      ensures moderation.userWarnings == old(moderation.userWarnings)
      ensures moderation.suspiciousActivity == old(moderation.suspiciousActivity)
      ensures activeDownloads == old(activeDownloads) && lastCleanup == now
    {
      moderation.PruneRateLimits(now);
      lastCleanup := now;
    }
  }
}
