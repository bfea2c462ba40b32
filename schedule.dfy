/**
 * Deferred work: the calls, intervals and timeouts the accessory sets up,
 * recorded as events with their delays (time itself does not pass here), and
 * what runs of polls and commands add to that record.
 */
module Schedule {
  import opened Wrappers
  import opened Vendor
  import opened Responses
  import opened Commands

  /** The two entry points a timer or a callback can start. */
  datatype Task = RefreshCall | LoginCall(isInitial: bool)

  datatype Scheduled =
    | Now(task: Task)                   // started directly, its response arrives later
    | Interval(ms: nat, task: Task)     // setInterval
    | Timeout(ms: nat, task: Task)      // setTimeout

  const REFRESH_INTERVAL_MS: nat := 600000
  const RELOGIN_INTERVAL_MS: nat := 10800000
  const VERSION_RETRY_DELAY_MS: nat := 30000
  const STATE_REFRESH_DELAY_MS: nat := 2500

  /** What a poll callback schedules: a fresh login, for status 401 only. */
  function RefreshFollowUps(reply: Http<Telemetry>): (r: seq<Scheduled>)
    ensures r != [] <==> reply.Reply? && reply.statusCode == 401
    ensures forall s :: s in r ==> s == Now(LoginCall(false))
  {
    if ClassifyRefresh(reply).TokenExpired? then [Now(LoginCall(false))] else []
  }

  /** What a command schedules: a delayed poll for a target-state write, and the (unreachable) re-login. */
  function SetFollowUps(cmd: Command, reply: Http<ControlResult>): (r: seq<Scheduled>)
    ensures r != [] <==> cmd.name == "TargetHeaterCoolerState"
    ensures forall s :: s in r ==> s == Timeout(STATE_REFRESH_DELAY_MS, RefreshCall)
  {
    (if cmd.name == "TargetHeaterCoolerState" then [Timeout(STATE_REFRESH_DELAY_MS, RefreshCall)] else [])
    + (if SetRelogin(reply) then [Now(LoginCall(false))] else [])
  }

  /**
   * What a login schedules: on an initial login whose device listing arrived,
   * a poll and both intervals; on a version mismatch, an initial login again
   * after 30 seconds; otherwise nothing.
   */
  function LoginFollowUps(isInitial: bool, loginReply: Http<LoginBody>, groupReply: Http<GroupBody>): (r: seq<Scheduled>)
    ensures r != [] ==> (isInitial && LoginSucceeded(loginReply)) || VersionMismatch(loginReply)
    ensures (exists s :: s in r && s.Interval?) ==> isInitial && LoginSucceeded(loginReply) && GroupListed(groupReply)
    ensures Now(LoginCall(false)) !in r
    ensures VersionMismatch(loginReply) ==> r == [Timeout(VERSION_RETRY_DELAY_MS, LoginCall(true))]
    ensures isInitial && LoginSucceeded(loginReply) && GroupListed(groupReply) ==>
      r == [Now(RefreshCall), Interval(REFRESH_INTERVAL_MS, RefreshCall), Interval(RELOGIN_INTERVAL_MS, LoginCall(false))]
  {
    if LoginSucceeded(loginReply) then
      if GroupListed(groupReply) && isInitial then
        [Now(RefreshCall), Interval(REFRESH_INTERVAL_MS, RefreshCall), Interval(RELOGIN_INTERVAL_MS, LoginCall(false))]
      else []
    else if VersionMismatch(loginReply) then [Timeout(VERSION_RETRY_DELAY_MS, LoginCall(true))]
    else []
  }

  /** Intervals are armed by initial logins only, and only after the device listing arrived. */
  lemma IntervalsOnlyOnInitialLogin(isInitial: bool, loginReply: Http<LoginBody>, groupReply: Http<GroupBody>)
    ensures Interval(REFRESH_INTERVAL_MS, RefreshCall) in LoginFollowUps(isInitial, loginReply, groupReply)
        <==> isInitial && LoginSucceeded(loginReply) && GroupListed(groupReply)
    ensures forall s :: s in LoginFollowUps(isInitial, loginReply, groupReply) && s.Interval? ==> isInitial
  {
  }

  /** A failed login retries exactly when the code is 4106; every other failure schedules nothing. */
  lemma RetryOnlyOnVersionMismatch(isInitial: bool, loginReply: Http<LoginBody>, groupReply: Http<GroupBody>)
    requires !LoginSucceeded(loginReply)
    ensures LoginFollowUps(isInitial, loginReply, groupReply) ==
      if FailureCode(loginReply) == Some(VERSION_MISMATCH) then [Timeout(VERSION_RETRY_DELAY_MS, LoginCall(true))] else []
  {
  }

  /**
   * The retry after a version mismatch is always an initial login, even when
   * the failing login was the periodic one: when it succeeds, a second pair
   * of intervals is armed beside the pair already running.
   */
  lemma PeriodicVersionRetryRearmsIntervals(loginReply: Http<LoginBody>, retryReply: Http<LoginBody>, groupReply: Http<GroupBody>)
    requires VersionMismatch(loginReply)
    requires LoginSucceeded(retryReply) && GroupListed(groupReply)
    ensures LoginFollowUps(false, loginReply, groupReply) == [Timeout(VERSION_RETRY_DELAY_MS, LoginCall(true))]
    ensures var retry := LoginFollowUps(false, loginReply, groupReply)[0].task;
      Interval(REFRESH_INTERVAL_MS, RefreshCall) in LoginFollowUps(retry.isInitial, retryReply, groupReply) &&
      Interval(RELOGIN_INTERVAL_MS, LoginCall(false)) in LoginFollowUps(retry.isInitial, retryReply, groupReply)
  {
  }

  /** How often `x` occurs in `xs`. */
  function Occurrences(xs: seq<Scheduled>, x: Scheduled): (n: nat)
    ensures n <= |xs|
    ensures n == 0 <==> x !in xs
  {
    if xs == [] then 0
    else (if xs[0] == x then 1 else 0) + Occurrences(xs[1..], x)
  }

  lemma {:induction false} OccurrencesAppend(xs: seq<Scheduled>, ys: seq<Scheduled>, x: Scheduled)
    ensures Occurrences(xs + ys, x) == Occurrences(xs, x) + Occurrences(ys, x)
  {
    if xs == [] {
      assert xs + ys == ys;
    } else {
      assert (xs + ys)[1..] == xs[1..] + ys;
      OccurrencesAppend(xs[1..], ys, x);
    }
  }

  /** One callback of the running accessory: a poll response, or a command with its response. */
  datatype Event =
    | Polled(pollReply: Http<Telemetry>)
    | Commanded(cmd: Command, controlReply: Http<ControlResult>)

  function EventFollowUps(e: Event): seq<Scheduled>
  {
    match e
    case Polled(reply) => RefreshFollowUps(reply)
    case Commanded(cmd, reply) => SetFollowUps(cmd, reply)
  }

  /** Everything a run of polls and commands schedules, in order. */
  function FollowUpsOf(events: seq<Event>): seq<Scheduled>
  {
    if events == [] then [] else EventFollowUps(events[0]) + FollowUpsOf(events[1..])
  }

  /** The number of polls in a run that were answered with status 401. */
  function ExpiredPolls(events: seq<Event>): nat
  {
    if events == [] then 0
    else (if events[0].Polled? && events[0].pollReply.Reply? && events[0].pollReply.statusCode == 401 then 1 else 0)
         + ExpiredPolls(events[1..])
  }

  /** The number of commands in a run that write the target state. */
  function TargetStateCommands(events: seq<Event>): nat
  {
    if events == [] then 0
    else (if events[0].Commanded? && events[0].cmd.name == "TargetHeaterCoolerState" then 1 else 0)
         + TargetStateCommands(events[1..])
  }

  /**
   * Over any run of polls and commands, the accessory starts exactly one
   * login per poll answered 401, and none for any command, whatever its response.
   */
  lemma {:induction false} ReloginsAreExpiredPolls(events: seq<Event>)
    ensures Occurrences(FollowUpsOf(events), Now(LoginCall(false))) == ExpiredPolls(events)
  {
    if events != [] {
      OccurrencesAppend(EventFollowUps(events[0]), FollowUpsOf(events[1..]), Now(LoginCall(false)));
      ReloginsAreExpiredPolls(events[1..]);
    }
  }

  /** Exactly one delayed poll is scheduled per target-state command, and by nothing else. */
  lemma {:induction false} DelayedPollsAreTargetStateCommands(events: seq<Event>)
    ensures Occurrences(FollowUpsOf(events), Timeout(STATE_REFRESH_DELAY_MS, RefreshCall)) == TargetStateCommands(events)
  {
    if events != [] {
      OccurrencesAppend(EventFollowUps(events[0]), FollowUpsOf(events[1..]), Timeout(STATE_REFRESH_DELAY_MS, RefreshCall));
      DelayedPollsAreTargetStateCommands(events[1..]);
    }
  }

  /** Polls and commands never arm an interval and never start an initial login. */
  lemma {:induction false} SteadyStateArmsNoIntervals(events: seq<Event>)
    ensures forall s :: s in FollowUpsOf(events) ==> !s.Interval? && s.task != LoginCall(true)
  {
    if events != [] {
      SteadyStateArmsNoIntervals(events[1..]);
    }
  }
}
