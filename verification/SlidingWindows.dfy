/**
  Sliding-window limits: the POST rate limiter (warroom/server.py) and the restart supervisor with
  the launcher's backoff (claw_launcher.py). The clock is a parameter of each call.
*/
module SlidingWindows {
  import opened Options

  type Time = real

  // ---- Windows over a history of times ----

  /** The comprehension both components prune with: the times after `cutoff`. */
  function After(times: seq<Time>, cutoff: Time): seq<Time> {
    if times == [] then []
    else
      var kept := After(times[..|times| - 1], cutoff);
      if times[|times| - 1] > cutoff then kept + [times[|times| - 1]] else kept
  }

  /** How many of the times fall in `[from, to)`. */
  function CountIn(times: seq<Time>, from: Time, to: Time): nat {
    if times == [] then 0
    else CountIn(times[..|times| - 1], from, to) + if from <= times[|times| - 1] < to then 1 else 0
  }

  /** The positions of the times after `cutoff`. */
  function Later(times: seq<Time>, cutoff: Time): set<nat> {
    set i: nat | i < |times| && times[i] > cutoff
  }

  lemma LaterAppend(times: seq<Time>, t: Time, cutoff: Time)
    ensures Later(times + [t], cutoff) == Later(times, cutoff) + if t > cutoff then {|times|} else {}
  {
  }

  lemma LaterMeaning(times: seq<Time>, now: Time, window: Time)
    ensures Later(times, now - window) == set i: nat | i < |times| && now - times[i] < window
  {
  }

  /** Pruning keeps as many times as there are after the cutoff. */
  lemma {:induction false} AfterSize(times: seq<Time>, cutoff: Time)
    ensures |After(times, cutoff)| == |Later(times, cutoff)|
  {
    if times != [] {
      var front, last := times[..|times| - 1], times[|times| - 1];
      assert times == front + [last];
      AfterSize(front, cutoff);
      LaterAppend(front, last, cutoff);
    }
  }

  lemma {:induction false} AfterAppend(times: seq<Time>, t: Time, cutoff: Time)
    ensures After(times + [t], cutoff) == if t > cutoff then After(times, cutoff) + [t] else After(times, cutoff)
  {
    assert (times + [t])[..|times|] == times;
  }

  lemma CountAppend(times: seq<Time>, t: Time, from: Time, to: Time)
    ensures CountIn(times + [t], from, to) == CountIn(times, from, to) + if from <= t < to then 1 else 0
  {
    assert (times + [t])[..|times|] == times;
  }

  /** Pruning twice is pruning once with the later cutoff. */
  lemma {:induction false} AfterAfter(times: seq<Time>, early: Time, late: Time)
    requires early <= late
    ensures After(After(times, early), late) == After(times, late)
  {
    if times != [] {
      var last := times[|times| - 1];
      AfterAfter(times[..|times| - 1], early, late);
      if last > early {
        AfterAppend(After(times[..|times| - 1], early), last, late);
      }
    }
  }

  /** Pruning early and then adding `t` loses nothing that a later pruning would keep. */
  lemma PruneThenAdd(bucket: seq<Time>, history: seq<Time>, early: Time, late: Time, t: Time)
    requires early <= late && After(bucket, late) == After(history, late)
    ensures After(After(bucket, early) + [t], late) == After(history + [t], late)
  {
    AfterAppend(After(bucket, early), t, late);
    AfterAfter(bucket, early, late);
    AfterAppend(history, t, late);
  }

  /** A window that starts after the cutoff holds no more than what pruning leaves. */
  lemma {:induction false} CountBound(times: seq<Time>, from: Time, to: Time, cutoff: Time)
    requires cutoff < from
    ensures CountIn(times, from, to) <= |After(times, cutoff)|
  {
    if times != [] {
      CountBound(times[..|times| - 1], from, to, cutoff);
    }
  }

  /** Pruning keeps as many times as are younger than the window. */
  lemma YoungCount(times: seq<Time>, now: Time, window: Time)
    ensures |After(times, now - window)| == |set i: nat | i < |times| && now - times[i] < window|
  {
    AfterSize(times, now - window);
    LaterMeaning(times, now, window);
  }

  // ---- The POST rate limiter ----

  const WINDOW: Time := 60.0
  const MAX_POSTS: nat := 30

  type Buckets = map<string, seq<Time>>

  function Bucket(buckets: Buckets, client: string): seq<Time> {
    if client in buckets then buckets[client] else []
  }

  predicate Allows(buckets: Buckets, client: string, now: Time) {
    |After(Bucket(buckets, client), now - WINDOW)| < MAX_POSTS
  }

  function Posted(buckets: Buckets, client: string, now: Time): Buckets {
    if Allows(buckets, client, now)
    then buckets[client := After(Bucket(buckets, client), now - WINDOW) + [now]]
    else buckets
  }

  class RateLimiter {
    var buckets: Buckets

    constructor ()
      ensures buckets == map[]
    {
      buckets := map[];
    }

    method CheckRateLimit(client: string, now: Time) returns (ok: bool)
      modifies this
      ensures ok == Allows(old(buckets), client, now)
      ensures buckets == Posted(old(buckets), client, now)
    {
      var window := if client in buckets then buckets[client] else [];
      var recent := [];
      for i := 0 to |window|
        invariant recent == After(window[..i], now - WINDOW)
      {
        assert window[..i + 1][..i] == window[..i];
        if now - window[i] < WINDOW {
          recent := recent + [window[i]];
        }
      }
      assert window[..|window|] == window;
      if |recent| >= MAX_POSTS {
        return false;
      }
      buckets := buckets[client := recent + [now]];
      return true;
    }
  }

  datatype Post = Post(client: string, at: Time)

  predicate Follows(posts: seq<Post>, at: Time) {
    posts == [] || posts[|posts| - 1].at <= at
  }

  /** No post is earlier than the one before it. */
  predicate Chronological(posts: seq<Post>) {
    posts == []
    || (Chronological(posts[..|posts| - 1]) && Follows(posts[..|posts| - 1], posts[|posts| - 1].at))
  }

  function BucketsAfter(posts: seq<Post>): Buckets {
    if posts == [] then map[]
    else Posted(BucketsAfter(posts[..|posts| - 1]), posts[|posts| - 1].client, posts[|posts| - 1].at)
  }

  /** The times of the accepted posts of one client, over the whole run. */
  function AcceptedTimes(posts: seq<Post>, client: string): seq<Time> {
    if posts == [] then []
    else
      var last := posts[|posts| - 1];
      var before := AcceptedTimes(posts[..|posts| - 1], client);
      if last.client == client && Allows(BucketsAfter(posts[..|posts| - 1]), client, last.at)
      then before + [last.at] else before
  }

  lemma PostKeepsWindow(buckets: Buckets, client: string, history: seq<Time>, post: Post, now: Time)
    requires post.at <= now
    requires After(Bucket(buckets, client), now - WINDOW) == After(history, now - WINDOW)
    ensures var accepted := post.client == client && Allows(buckets, client, post.at);
      After(Bucket(Posted(buckets, post.client, post.at), client), now - WINDOW)
      == After(if accepted then history + [post.at] else history, now - WINDOW)
  {
    var next := Posted(buckets, post.client, post.at);
    if post.client != client || !Allows(buckets, client, post.at) {
      assert Bucket(next, client) == Bucket(buckets, client);
    } else {
      assert Bucket(next, client) == After(Bucket(buckets, client), post.at - WINDOW) + [post.at];
      PruneThenAdd(Bucket(buckets, client), history, post.at - WINDOW, now - WINDOW, post.at);
    }
  }

  /** From the present on, the pruned bucket is as good as the full history. */
  lemma {:induction false} BucketIsHistory(posts: seq<Post>, client: string, now: Time)
    requires Chronological(posts) && Follows(posts, now)
    ensures After(Bucket(BucketsAfter(posts), client), now - WINDOW)
        == After(AcceptedTimes(posts, client), now - WINDOW)
  {
    if posts != [] {
      var front, last := posts[..|posts| - 1], posts[|posts| - 1];
      assert Follows(front, now);
      BucketIsHistory(front, client, now);
      PostKeepsWindow(BucketsAfter(front), client, AcceptedTimes(front, client), last, now);
    }
  }

  lemma AllowsByHistory(buckets: Buckets, client: string, history: seq<Time>, now: Time)
    requires After(Bucket(buckets, client), now - WINDOW) == After(history, now - WINDOW)
    ensures Allows(buckets, client, now) <==> |After(history, now - WINDOW)| < MAX_POSTS
  {
  }

  /** A post is accepted exactly when its client had fewer than 30 accepted in the last 60 seconds. */
  lemma AcceptanceIsExact(posts: seq<Post>, client: string, now: Time)
    requires Chronological(posts) && Follows(posts, now)
    ensures var accepted := AcceptedTimes(posts, client);
      Allows(BucketsAfter(posts), client, now) <==> |set i: nat | i < |accepted| && now - accepted[i] < 60.0| < 30
  {
    var accepted := AcceptedTimes(posts, client);
    BucketIsHistory(posts, client, now);
    AllowsByHistory(BucketsAfter(posts), client, accepted, now);
    YoungCount(accepted, now, 60.0);
  }

  lemma OneMoreFits(times: seq<Time>, at: Time, from: Time)
    requires CountIn(times, from, from + WINDOW) <= MAX_POSTS && |After(times, at - WINDOW)| < MAX_POSTS
    ensures CountIn(times + [at], from, from + WINDOW) <= MAX_POSTS
  {
    CountAppend(times, at, from, from + WINDOW);
    if from <= at < from + WINDOW {
      CountBound(times, from, from + WINDOW, at - WINDOW);
    }
  }

  /** No 60-second interval, wherever it starts, holds more than 30 accepted posts of a client. */
  lemma {:induction false} WindowsHoldAtMost(posts: seq<Post>, client: string, from: Time)
    requires Chronological(posts)
    ensures CountIn(AcceptedTimes(posts, client), from, from + 60.0) <= 30
  {
    if posts != [] {
      var front, last := posts[..|posts| - 1], posts[|posts| - 1];
      WindowsHoldAtMost(front, client, from);
      if last.client == client && Allows(BucketsAfter(front), client, last.at) {
        BucketIsHistory(front, client, last.at);
        AllowsByHistory(BucketsAfter(front), client, AcceptedTimes(front, client), last.at);
        OneMoreFits(AcceptedTimes(front, client), last.at, from);
      }
    }
  }

  // ---- The restart supervisor ----

  type Restarts = map<string, seq<Time>>

  function RestartsOf(restarts: Restarts, role: string): seq<Time> {
    if role in restarts then restarts[role] else []
  }

  class ProcessSupervisor {
    const maxRestarts: nat
    const window: Time
    var restarts: Restarts

    constructor (maxRestarts: nat, window: Time)
      ensures this.maxRestarts == maxRestarts && this.window == window && restarts == map[]
    {
      this.maxRestarts, this.window := maxRestarts, window;
      restarts := map[];
    }

    /** Denied attempts are recorded as well. */
    method RecordRestart(role: string, now: Time) returns (allowed: bool)
      modifies this
      ensures restarts == old(restarts)[role := After(RestartsOf(old(restarts), role), now - window) + [now]]
      ensures allowed == (|After(RestartsOf(old(restarts), role), now - window)| < maxRestarts)
    {
      restarts := restarts[role := After(RestartsOf(restarts, role), now - window)];
      restarts := restarts[role := restarts[role] + [now]];
      return |restarts[role]| <= maxRestarts;
    }

    /** How many recorded attempts are younger than the window. */
    method RestartCount(role: string, now: Time) returns (count: nat)
      ensures count == |Later(RestartsOf(restarts, role), now - window)|
    {
      var list := if role in restarts then restarts[role] else [];
      var recent := [];
      for i := 0 to |list|
        invariant recent == After(list[..i], now - window)
      {
        assert list[..i + 1][..i] == list[..i];
        if list[i] > now - window {
          recent := recent + [list[i]];
        }
      }
      assert list[..|list|] == list;
      AfterSize(list, now - window);
      return |recent|;
    }

    method IsFlapping(role: string, now: Time) returns (flapping: bool)
      ensures flapping <==> |Later(RestartsOf(restarts, role), now - window)| > maxRestarts
    {
      var count := RestartCount(role, now);
      return count > maxRestarts;
    }

    method Clear(role: string)
      modifies this
      ensures restarts == old(restarts)[role := []]
    {
      restarts := restarts[role := []];
    }
  }

  /** One attempt at a time: `record_restart` on a role's list between two clears. */
  function Attempted(attempts: seq<Time>, window: Time): seq<Time> {
    if attempts == [] then []
    else
      var last := attempts[|attempts| - 1];
      After(Attempted(attempts[..|attempts| - 1], window), last - window) + [last]
  }

  function AllowedTimes(attempts: seq<Time>, window: Time, limit: nat): seq<Time> {
    if attempts == [] then []
    else
      var front, last := attempts[..|attempts| - 1], attempts[|attempts| - 1];
      var before := AllowedTimes(front, window, limit);
      if |Attempted(attempts, window)| <= limit then before + [last] else before
  }

  ghost predicate Ascending(times: seq<Time>) {
    |times| <= 1 || (Ascending(times[..|times| - 1]) && times[|times| - 2] <= times[|times| - 1])
  }

  lemma AscendingFront(times: seq<Time>, next: Time)
    requires Ascending(times + [next])
    ensures Ascending(times) && (times != [] ==> times[|times| - 1] <= next)
  {
    assert (times + [next])[..|times|] == times;
  }

  lemma AttemptedLast(attempts: seq<Time>, next: Time, window: Time)
    ensures Attempted(attempts + [next], window) == After(Attempted(attempts, window), next - window) + [next]
  {
    assert (attempts + [next])[..|attempts|] == attempts;
  }

  /** The pruned list is the part of the full history of attempts that lies in the window. */
  lemma {:induction false} AttemptsInWindow(attempts: seq<Time>, window: Time, now: Time)
    requires Ascending(attempts) && (attempts != [] ==> attempts[|attempts| - 1] <= now)
    ensures After(Attempted(attempts, window), now - window) == After(attempts, now - window)
  {
    if attempts != [] {
      var front, last := attempts[..|attempts| - 1], attempts[|attempts| - 1];
      assert attempts == front + [last];
      AscendingFront(front, last);
      AttemptsInWindow(front, window, now);
      AttemptedLast(front, last, window);
      PruneThenAdd(Attempted(front, window), front, last - window, now - window, last);
    }
  }

  /** What `RestartCount` reports between clears: the attempts of the whole history that fall in the window. */
  lemma CountIsHistory(attempts: seq<Time>, window: Time, now: Time)
    requires Ascending(attempts) && (attempts != [] ==> attempts[|attempts| - 1] <= now)
    ensures |Later(Attempted(attempts, window), now - window)| == |Later(attempts, now - window)|
  {
    AttemptsInWindow(attempts, window, now);
    AfterSize(Attempted(attempts, window), now - window);
    AfterSize(attempts, now - window);
  }

  /** An attempt is allowed exactly when the window, itself included, holds at most the limit of attempts. */
  lemma AllowedIffWindowFits(attempts: seq<Time>, next: Time, window: Time, limit: nat)
    requires Ascending(attempts + [next]) && window > 0.0
    ensures |Attempted(attempts + [next], window)| <= limit <==> |After(attempts + [next], next - window)| <= limit
  {
    AscendingFront(attempts, next);
    AttemptedLast(attempts, next, window);
    AttemptsInWindow(attempts, window, next);
    AfterAppend(attempts, next, next - window);
  }

  lemma {:induction false} AllowedAreAttempts(attempts: seq<Time>, window: Time, limit: nat, from: Time, to: Time)
    ensures CountIn(AllowedTimes(attempts, window, limit), from, to) <= CountIn(attempts, from, to)
  {
    if attempts != [] {
      var front, last := attempts[..|attempts| - 1], attempts[|attempts| - 1];
      AllowedAreAttempts(front, window, limit, from, to);
      CountAppend(AllowedTimes(front, window, limit), last, from, to);
    }
  }

  lemma AllowedFits(attempts: seq<Time>, next: Time, window: Time, limit: nat, from: Time)
    requires Ascending(attempts + [next]) && window > 0.0 && from <= next < from + window
    requires |Attempted(attempts + [next], window)| <= limit
    ensures CountIn(AllowedTimes(attempts + [next], window, limit), from, from + window) <= limit
  {
    var all := attempts + [next];
    AllowedIffWindowFits(attempts, next, window, limit);
    AllowedAreAttempts(all, window, limit, from, from + window);
    CountBound(all, from, from + window, next - window);
  }

  lemma AllowedLast(attempts: seq<Time>, next: Time, window: Time, limit: nat)
    ensures AllowedTimes(attempts + [next], window, limit) ==
      AllowedTimes(attempts, window, limit) + if |Attempted(attempts + [next], window)| <= limit then [next] else []
  {
    assert (attempts + [next])[..|attempts|] == attempts;
  }

  /** Between clears, no window's length of time holds more allowed restarts than the limit. */
  lemma {:induction false} RestartsPerWindow(attempts: seq<Time>, window: Time, limit: nat, from: Time)
    requires Ascending(attempts) && window > 0.0
    ensures CountIn(AllowedTimes(attempts, window, limit), from, from + window) <= limit
  {
    if attempts != [] {
      var front, last := attempts[..|attempts| - 1], attempts[|attempts| - 1];
      assert attempts == front + [last];
      AscendingFront(front, last);
      RestartsPerWindow(front, window, limit, from);
      if |Attempted(attempts, window)| <= limit && from <= last < from + window {
        AllowedFits(front, last, window, limit, from);
      } else {
        AllowedLast(front, last, window, limit);
        CountAppend(AllowedTimes(front, window, limit), last, from, from + window);
      }
    }
  }

  // ---- The launcher ----

  const MAX_RESTARTS: nat := 3
  const RESTART_WINDOW: Time := 3600.0
  const BACKOFF_MAX: real := 60.0

  function Shorter(a: real, b: real): real {
    if a <= b then a else b
  }

  /** `count` restarts in `window` seconds. */
  datatype Limits = Limits(count: nat, window: Time)

  datatype Launcher = Launcher(components: set<string>, restarts: Restarts, backoff: map<string, real>)

  const IDLE := Launcher({}, map[], map[])

  /** A start has an effect when the components come up and none are alive already. */
  predicate Begins(l: Launcher, role: string, alive: bool, comesUp: bool) {
    comesUp && !(role in l.components && alive)
  }

  function Started(l: Launcher, role: string, alive: bool, comesUp: bool): Launcher {
    if Begins(l, role, alive, comesUp)
    then Launcher(l.components + {role}, l.restarts[role := []], l.backoff[role := 1.0])
    else l
  }

  function Stopped(l: Launcher, role: string): Launcher {
    l.(components := l.components - {role})
  }

  function BackoffOf(l: Launcher, role: string): real {
    if role in l.backoff then l.backoff[role] else 1.0
  }

  /** The attempts on record that a stale report at `now` still counts. */
  function Recent(limits: Limits, l: Launcher, role: string, now: Time): seq<Time> {
    After(RestartsOf(l.restarts, role), now - limits.window)
  }

  predicate Records(limits: Limits, l: Launcher, role: string, now: Time) {
    role in l.components && |Recent(limits, l, role, now)| <= limits.count
  }

  predicate Schedules(limits: Limits, l: Launcher, role: string, now: Time) {
    role in l.components && |Recent(limits, l, role, now)| < limits.count
  }

  function Reported(limits: Limits, l: Launcher, role: string, now: Time): Launcher {
    if !Records(limits, l, role, now) then l
    else
      var recorded := l.(restarts := l.restarts[role := Recent(limits, l, role, now) + [now]]);
      if Schedules(limits, l, role, now)
      then recorded.(backoff := l.backoff[role := Shorter(BackoffOf(l, role) * 2.0, BACKOFF_MAX)])
      else recorded
  }

  class ClawLauncher {
    const supervisor: ProcessSupervisor
    var components: set<string>
    var backoff: map<string, real>

    ghost function Now(): Launcher
      reads this, supervisor
    {
      Launcher(components, supervisor.restarts, backoff)
    }

    ghost function Bounds(): Limits {
      Limits(supervisor.maxRestarts, supervisor.window)
    }

    constructor ()
      ensures Bounds() == Limits(3, 3600.0)
      ensures fresh(supervisor) && Now() == IDLE
    {
      supervisor := new ProcessSupervisor(MAX_RESTARTS, RESTART_WINDOW);
      components, backoff := {}, map[];
    }

    /** `alive` and `comesUp` are what the role's components answer; a start forgets past restarts. */
    method StartRole(role: string, alive: bool, comesUp: bool) returns (running: bool)
      modifies this, supervisor
      ensures Now() == Started(old(Now()), role, alive, comesUp)
      ensures running <==> comesUp || (role in old(components) && alive)
    {
      if role in components && alive {
        return true;
      }
      if comesUp {
        components := components + {role};
        supervisor.Clear(role);
        backoff := backoff[role := 1.0];
        return true;
      }
      return false;
    }

    method StopRole(role: string)
      modifies this`components
      ensures Now() == Stopped(old(Now()), role)
    {
      if role !in components {
        assert components - {role} == components;
        return;
      }
      components := components - {role};
    }

    method RestartRole(role: string, comesUp: bool) returns (running: bool)
      modifies this, supervisor
      ensures Now() == Started(Stopped(old(Now()), role), role, false, comesUp)
      ensures running <==> comesUp
    {
      StopRole(role);
      running := StartRole(role, false, comesUp);
    }

    /** The delay after which the role is to be restarted, if it is. */
    method RestartStaleClaw(role: string, now: Time) returns (delay: Option<real>)
      modifies this`backoff, supervisor
      ensures Now() == Reported(Bounds(), old(Now()), role, now)
      ensures delay == if Schedules(Bounds(), old(Now()), role, now) then Some(BackoffOf(old(Now()), role)) else None
    {
      if role !in components {
        return None;
      }
      AfterSize(RestartsOf(supervisor.restarts, role), now - supervisor.window);
      var flapping := supervisor.IsFlapping(role, now);
      if flapping {
        return None;
      }
      var allowed := supervisor.RecordRestart(role, now);
      if !allowed {
        return None;
      }
      var current := if role in backoff then backoff[role] else 1.0;
      backoff := backoff[role := Shorter(current * 2.0, BACKOFF_MAX)];
      return Some(current);
    }
  }

  // ---- Runs of the launcher ----

  /** A scheduled restart comes due later, as a stop and then a start. */
  datatype Event =
    | Start(role: string, alive: bool, comesUp: bool)
    | Stop(role: string)
    | Stale(role: string, now: Time)

  function Handled(limits: Limits, l: Launcher, event: Event): Launcher {
    match event
    case Start(role, alive, comesUp) => Started(l, role, alive, comesUp)
    case Stop(role) => Stopped(l, role)
    case Stale(role, now) => Reported(limits, l, role, now)
  }

  function Managed(limits: Limits, events: seq<Event>): Launcher {
    if events == [] then IDLE
    else Handled(limits, Managed(limits, events[..|events| - 1]), events[|events| - 1])
  }

  ghost predicate ReportedBy(events: seq<Event>, now: Time) {
    forall k :: 0 <= k < |events| && events[k].Stale? ==> events[k].now <= now
  }

  /** Does the event begin or end the role's components? */
  predicate Interrupts(l: Launcher, event: Event, role: string) {
    match event
    case Start(r, alive, comesUp) => r == role && Begins(l, r, alive, comesUp)
    case Stop(r) => r == role
    case Stale(_, _) => false
  }

  /** Every attempt recorded since the role's components last began or ended, none pruned. */
  function Attempts(limits: Limits, events: seq<Event>, role: string): seq<Time> {
    if events == [] then []
    else
      var front, last := events[..|events| - 1], events[|events| - 1];
      var l := Managed(limits, front);
      if Interrupts(l, last, role) then []
      else if last.Stale? && last.role == role && Records(limits, l, role, last.now)
      then Attempts(limits, front, role) + [last.now]
      else Attempts(limits, front, role)
  }

  lemma ReportKeepsHistory(limits: Limits, l: Launcher, role: string, at: Time, history: seq<Time>, now: Time)
    requires at <= now && Records(limits, l, role, at)
    requires Recent(limits, l, role, now) == After(history, now - limits.window)
    ensures Recent(limits, Reported(limits, l, role, at), role, now) == After(history + [at], now - limits.window)
  {
    ReportedList(limits, l, role, at);
    PruneThenAdd(RestartsOf(l.restarts, role), history, at - limits.window, now - limits.window, at);
  }

  lemma ReportedList(limits: Limits, l: Launcher, role: string, at: Time)
    requires Records(limits, l, role, at)
    ensures RestartsOf(Reported(limits, l, role, at).restarts, role) == Recent(limits, l, role, at) + [at]
  {
  }

  /** Every other event leaves the role's list alone, or clears it when the role begins. */
  lemma OtherEvent(limits: Limits, l: Launcher, event: Event, role: string)
    requires !(event.Stale? && event.role == role && Records(limits, l, role, event.now))
    ensures var next := Handled(limits, l, event);
      role in next.components ==>
        if Interrupts(l, event, role) then RestartsOf(next.restarts, role) == []
        else role in l.components && RestartsOf(next.restarts, role) == RestartsOf(l.restarts, role)
  {
  }

  /** While a role has components, the pruned list is the part of its attempts in the window. */
  lemma {:induction false} ListIsHistory(limits: Limits, events: seq<Event>, role: string, now: Time)
    requires ReportedBy(events, now) && role in Managed(limits, events).components
    ensures Recent(limits, Managed(limits, events), role, now)
        == After(Attempts(limits, events, role), now - limits.window)
  {
    if events != [] {
      var front, last := events[..|events| - 1], events[|events| - 1];
      var l := Managed(limits, front);
      if last.Stale? && last.role == role && Records(limits, l, role, last.now) {
        ListIsHistory(limits, front, role, now);
        ReportKeepsHistory(limits, l, role, last.now, Attempts(limits, front, role), now);
      } else {
        OtherEvent(limits, l, last, role);
        if !Interrupts(l, last, role) {
          ListIsHistory(limits, front, role, now);
        }
      }
    }
  }

  /** A stale claw is restarted exactly when fewer than the limit of attempts since it began fall in the window. */
  lemma RestartScheduledIff(limits: Limits, events: seq<Event>, role: string, now: Time)
    requires ReportedBy(events, now)
    ensures Schedules(limits, Managed(limits, events), role, now) <==>
      var attempts := Attempts(limits, events, role);
      role in Managed(limits, events).components
      && |set i: nat | i < |attempts| && now - attempts[i] < limits.window| < limits.count
  {
    if role in Managed(limits, events).components {
      ListIsHistory(limits, events, role, now);
    }
    ScheduledByHistory(limits, Managed(limits, events), role, now, Attempts(limits, events, role));
  }

  lemma ScheduledByHistory(limits: Limits, l: Launcher, role: string, now: Time, attempts: seq<Time>)
    requires role in l.components ==> Recent(limits, l, role, now) == After(attempts, now - limits.window)
    ensures Schedules(limits, l, role, now) <==>
      role in l.components && |set i: nat | i < |attempts| && now - attempts[i] < limits.window| < limits.count
  {
    YoungCount(attempts, now, limits.window);
  }

  function Reports(events: seq<Event>, role: string): nat {
    if events == [] then 0
    else
      var last := events[|events| - 1];
      Reports(events[..|events| - 1], role) + if last.Stale? && last.role == role then 1 else 0
  }

  /** From position `j` on, nothing began or ended the role's components. */
  ghost predicate Uninterrupted(limits: Limits, events: seq<Event>, j: nat, role: string) {
    forall k :: j <= k < |events| ==> !Interrupts(Managed(limits, events[..k]), events[k], role)
  }

  lemma {:induction false} AttemptsWhere(limits: Limits, events: seq<Event>, role: string) returns (j: nat)
    ensures j <= |events| && Uninterrupted(limits, events, j, role)
    ensures |Attempts(limits, events, role)| <= Reports(events[j..], role)
  {
    if events == [] {
      return 0;
    }
    var front, last := events[..|events| - 1], events[|events| - 1];
    if Interrupts(Managed(limits, front), last, role) {
      return |events|;
    }
    j := AttemptsWhere(limits, front, role);
    assert events[j..][..|events[j..]| - 1] == front[j..];
    forall k | j <= k < |events|
      ensures !Interrupts(Managed(limits, events[..k]), events[k], role)
    {
      if k < |front| {
        assert front[..k] == events[..k] && front[k] == events[k];
      }
    }
  }

  lemma {:induction false} AfterNoLonger(times: seq<Time>, cutoff: Time)
    ensures |After(times, cutoff)| <= |times|
  {
    if times != [] {
      AfterNoLonger(times[..|times| - 1], cutoff);
    }
  }

  /**
    The threshold stops a running claw only when as many reports as the limit came in while none
    of the restarts they scheduled had come due: every restart that starts the claw resets the count.
  */
  lemma ThresholdNeedsPileUp(limits: Limits, events: seq<Event>, role: string, now: Time) returns (j: nat)
    requires ReportedBy(events, now)
    requires role in Managed(limits, events).components && !Schedules(limits, Managed(limits, events), role, now)
    ensures j <= |events| && Uninterrupted(limits, events, j, role) && Reports(events[j..], role) >= limits.count
  {
    ListIsHistory(limits, events, role, now);
    AfterNoLonger(Attempts(limits, events, role), now - limits.window);
    j := AttemptsWhere(limits, events, role);
  }

  /** A claw that goes stale right after a start is restarted again, however often that happened before. */
  lemma StaleAfterStartIsScheduled(limits: Limits, l: Launcher, role: string, now: Time)
    requires limits.count > 0
    ensures Schedules(limits, Started(Stopped(l, role), role, false, true), role, now)
  {
  }

  /** The check before recording keeps every list within the limit plus one denied attempt, in every run. */
  lemma {:induction false} ListBounded(limits: Limits, events: seq<Event>, role: string)
    ensures |RestartsOf(Managed(limits, events).restarts, role)| <= limits.count + 1
  {
    if events != [] {
      ListBounded(limits, events[..|events| - 1], role);
    }
  }

  /** The restarts scheduled for a role since it last began. */
  function Scheduled(limits: Limits, events: seq<Event>, role: string): nat {
    if events == [] then 0
    else
      var front, last := events[..|events| - 1], events[|events| - 1];
      var l := Managed(limits, front);
      if last.Start? && Interrupts(l, last, role) then 0
      else if last.Stale? && last.role == role && Schedules(limits, l, role, last.now)
      then Scheduled(limits, front, role) + 1
      else Scheduled(limits, front, role)
  }

  function Power2(n: nat): real {
    if n == 0 then 1.0 else 2.0 * Power2(n - 1)
  }

  /** In every run the backoff doubles with each restart scheduled since the role began, up to the cap. */
  lemma {:induction false} BackoffDoubles(limits: Limits, events: seq<Event>, role: string)
    ensures BackoffOf(Managed(limits, events), role) == Shorter(Power2(Scheduled(limits, events, role)), 60.0)
  {
    if events != [] {
      BackoffDoubles(limits, events[..|events| - 1], role);
    }
  }
}
