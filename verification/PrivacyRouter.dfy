/**
  The privacy router of the solo configuration: locked data types never leave
  the machine, cloud requests are charged against a daily token budget, and a
  request over the budget takes the fallback route instead.
*/
module PrivacyRouter {

  datatype Route = Cloud | Local | Vllm
  datatype Fallback = ToLocal | ToVllm | ToCloud | LighterPrompt
  datatype Reason = LockedRoute | OverBudget | BudgetAlert | CloudQuality | Private

  datatype Decision = Decision(dataType: string, route: Route, reason: Reason, day: int, costTokens: nat,
      budgetExceeded: bool)
  datatype Outcome = Routed(decision: Decision) | PolicyViolation

  datatype Config = Config(overrides: map<string, string>, dailyBudget: int, alertPercent: real, fallback: Fallback)

  /** What the router remembers: the guard's counter and its day, and the log. */
  datatype Ledger = Ledger(used: nat, lastReset: int, log: seq<Decision>)

  const LOCKED: set<string> := {"financial_data", "source_code"}

  const DEFAULTS: map<string, Route> := map[
    "client_facing_drafts" := Cloud,
    "internal_ideation" := Local,
    "client_records" := Local,
    "analytics_synthesis" := Local,
    "public_docs_changelogs" := Cloud
  ]

  predicate KnownRoute(name: string) {
    name == "cloud" || name == "local" || name == "vllm"
  }

  /** An unknown route name counts as local. */
  function RouteNamed(name: string): Route {
    if name == "cloud" then Cloud else if name == "vllm" then Vllm else Local
  }

  function Desired(c: Config, dataType: string): Route {
    if dataType in LOCKED then Local
    else if dataType in c.overrides then RouteNamed(c.overrides[dataType])
    else if dataType in DEFAULTS then DEFAULTS[dataType]
    else Local
  }

  /** A locked type may not be configured to a known route other than its own. */
  predicate Violates(c: Config, dataType: string) {
    dataType in LOCKED && dataType in c.overrides
    && KnownRoute(c.overrides[dataType]) && RouteNamed(c.overrides[dataType]) != Local
  }

  function FallbackRoute(f: Fallback): Route {
    match f
    case ToCloud => Cloud
    case ToVllm => Vllm
    case ToLocal => Local
    case LighterPrompt => Local
  }

  function UsedOn(s: Ledger, today: int): nat {
    if s.lastReset == today then s.used else 0
  }

  predicate Alerting(c: Config, used: nat) {
    used as real >= c.dailyBudget as real * (c.alertPercent / 100.0)
  }

  /** One call of the router, for a request of this size on this day. */
  function Handle(c: Config, s: Ledger, dataType: string, tokens: nat, today: int): (Ledger, Outcome) {
    if Violates(c, dataType) then
      (s, PolicyViolation)
    else if dataType in LOCKED then
      Logged(s, Decision(dataType, Local, LockedRoute, today, 0, false))
    else if Desired(c, dataType) != Cloud then
      Logged(s, Decision(dataType, Desired(c, dataType), Private, today, 0, false))
    else
      var used := UsedOn(s, today);
      if used >= c.dailyBudget then
        Logged(Ledger(used, today, s.log), Decision(dataType, FallbackRoute(c.fallback), OverBudget, today, 0, true))
      else
        var reason := if Alerting(c, used) then BudgetAlert else CloudQuality;
        Logged(Ledger(used + tokens, today, s.log), Decision(dataType, Cloud, reason, today, tokens, false))
  }

  function Logged(s: Ledger, d: Decision): (Ledger, Outcome) {
    (s.(log := s.log + [d]), Routed(d))
  }

  // ---- The objects ----

  class CostGuard {
    const dailyBudget: int
    const alertPercent: real
    const fallback: Fallback
    var usedToday: nat
    var lastReset: int

    constructor (c: Config, today: int)
      ensures dailyBudget == c.dailyBudget && alertPercent == c.alertPercent && fallback == c.fallback
      ensures usedToday == 0 && lastReset == today
    {
      dailyBudget, alertPercent, fallback := c.dailyBudget, c.alertPercent, c.fallback;
      usedToday, lastReset := 0, today;
    }

    method MaybeReset(today: int)
      modifies this
      ensures lastReset == today
      ensures usedToday == if old(lastReset) == today then old(usedToday) else 0
    {
      if lastReset != today {
        usedToday := 0;
        lastReset := today;
      }
    }

    method CheckBudget(today: int) returns (allowed: bool, isAlert: bool)
      modifies this
      ensures lastReset == today
      ensures usedToday == if old(lastReset) == today then old(usedToday) else 0
      ensures allowed <==> usedToday < dailyBudget
      ensures isAlert <==> allowed && usedToday as real >= dailyBudget as real * (alertPercent / 100.0)
    {
      MaybeReset(today);
      if usedToday >= dailyBudget {
        return false, false;
      }
      var threshold := dailyBudget as real * (alertPercent / 100.0);
      return true, usedToday as real >= threshold;
    }

    method RecordUsage(tokens: nat, today: int)
      modifies this
      ensures lastReset == today
      ensures usedToday == (if old(lastReset) == today then old(usedToday) else 0) + tokens
    {
      MaybeReset(today);
      usedToday := usedToday + tokens;
    }
  }

  class SoloPrivacyRouter {
    const overrides: map<string, string>
    const costGuard: CostGuard
    var routingLog: seq<Decision>

    function Settings(): Config {
      Config(overrides, costGuard.dailyBudget, costGuard.alertPercent, costGuard.fallback)
    }

    function Kept(): Ledger
      reads this, costGuard
    {
      Ledger(costGuard.usedToday, costGuard.lastReset, routingLog)
    }

    constructor (c: Config, today: int)
      ensures fresh(costGuard)
      ensures Settings() == c
      ensures Kept() == Ledger(0, today, [])
    {
      overrides := c.overrides;
      costGuard := new CostGuard(c, today);
      routingLog := [];
    }

    method GetFallbackRoute() returns (route: Route)
      ensures route == FallbackRoute(costGuard.fallback)
    {
      if costGuard.fallback == LighterPrompt {
        route := Local;
      } else if costGuard.fallback == ToCloud {
        route := Cloud;
      } else if costGuard.fallback == ToVllm {
        route := Vllm;
      } else {
        route := Local;
      }
    }

    method Route(dataType: string, tokens: nat, today: int) returns (outcome: Outcome)
      modifies this, costGuard
      ensures (Kept(), outcome) == Handle(Settings(), old(Kept()), dataType, tokens, today)
    {
      var decision: Decision;
      if dataType in LOCKED {
        if dataType in overrides && KnownRoute(overrides[dataType]) && RouteNamed(overrides[dataType]) != Local {
          return PolicyViolation;
        }
        decision := Decision(dataType, Local, LockedRoute, today, 0, false);
        routingLog := routingLog + [decision];
        return Routed(decision);
      }
      var desired: Route;
      if dataType in overrides {
        desired := RouteNamed(overrides[dataType]);
      } else if dataType in DEFAULTS {
        desired := DEFAULTS[dataType];
      } else {
        desired := Local;
      }
      if desired == Cloud {
        var allowed, isAlert := costGuard.CheckBudget(today);
        if !allowed {
          var fallback := GetFallbackRoute();
          decision := Decision(dataType, fallback, OverBudget, today, 0, true);
        } else if isAlert {
          costGuard.RecordUsage(tokens, today);
          decision := Decision(dataType, desired, BudgetAlert, today, tokens, false);
        } else {
          costGuard.RecordUsage(tokens, today);
          decision := Decision(dataType, desired, CloudQuality, today, tokens, false);
        }
      } else {
        decision := Decision(dataType, desired, Private, today, 0, false);
      }
      routingLog := routingLog + [decision];
      outcome := Routed(decision);
    }
  }

  // ---- Runs ----

  datatype Request = Request(dataType: string, tokens: nat, today: int)

  function Run(c: Config, start: int, requests: seq<Request>): Ledger {
    if requests == [] then Ledger(0, start, [])
    else
      var last := requests[|requests| - 1];
      Handle(c, Run(c, start, requests[..|requests| - 1]), last.dataType, last.tokens, last.today).0
  }

  lemma {:induction false} LockedStaysLocal(c: Config, start: int, requests: seq<Request>)
    ensures forall d <- Run(c, start, requests).log | d.dataType == "financial_data" || d.dataType == "source_code" ::
      d.route == Local && d.costTokens == 0
  {
    if requests != [] {
      LockedStaysLocal(c, start, requests[..|requests| - 1]);
    }
  }

  /** The decisions that were checked against the budget, whatever came of it. */
  predicate Checked(d: Decision) {
    d.reason == OverBudget || d.reason == BudgetAlert || d.reason == CloudQuality
  }

  /** The tokens charged since the budget was last checked on a day other than this one. */
  function ChargedSince(log: seq<Decision>, day: int): nat {
    if log == [] then 0
    else
      var last := log[|log| - 1];
      if Checked(last) && last.day != day then 0
      else last.costTokens + ChargedSince(log[..|log| - 1], day)
  }

  /** The tokens charged on one day. */
  function SpentOn(log: seq<Decision>, day: int): nat {
    if log == [] then 0
    else
      var last := log[|log| - 1];
      (if last.day == day then last.costTokens else 0) + SpentOn(log[..|log| - 1], day)
  }

  lemma FrontLast(log: seq<Decision>, d: Decision)
    ensures (log + [d])[..|log|] == log && (log + [d])[|log|] == d
  {
  }

  lemma HandleCharges(c: Config, s: Ledger, r: Request, day: int)
    requires ChargedSince(s.log, day) == UsedOn(s, day) && ChargedSince(s.log, r.today) == UsedOn(s, r.today)
    ensures var next := Handle(c, s, r.dataType, r.tokens, r.today).0; ChargedSince(next.log, day) == UsedOn(next, day)
  {
    var next := Handle(c, s, r.dataType, r.tokens, r.today).0;
    if next.log != s.log {
      FrontLast(s.log, next.log[|s.log|]);
    }
  }

  /**
    The guard's counter is the sum of the logged costs since its last reset,
    whatever the clock does. For a day other than the guard's the sum is 0,
    which is why the reset loses nothing.
  */
  lemma {:induction false} UsedIsChargedSince(c: Config, start: int, requests: seq<Request>, day: int)
    ensures var s := Run(c, start, requests);
      ChargedSince(s.log, day) == UsedOn(s, day) && s.used == ChargedSince(s.log, s.lastReset)
  {
    if requests != [] {
      var front, last := requests[..|requests| - 1], requests[|requests| - 1];
      var before, now := Run(c, start, front), Run(c, start, requests);
      UsedIsChargedSince(c, start, front, last.today);
      UsedIsChargedSince(c, start, front, day);
      UsedIsChargedSince(c, start, front, now.lastReset);
      HandleCharges(c, before, last, day);
      HandleCharges(c, before, last, now.lastReset);
    }
  }

  /**
    A cloud request is turned away exactly when the tokens already charged
    that day have reached the budget; otherwise it is charged in full.
  */
  lemma {:induction false} AdmissionIsExact(c: Config, start: int, requests: seq<Request>, k: nat)
    requires k < |Run(c, start, requests).log| && Checked(Run(c, start, requests).log[k])
    ensures var log := Run(c, start, requests).log;
      (log[k].budgetExceeded <==> ChargedSince(log[..k], log[k].day) >= c.dailyBudget)
      && (!log[k].budgetExceeded ==> log[k].route == Cloud)
  {
    var front := requests[..|requests| - 1];
    var before, now := Run(c, start, front), Run(c, start, requests);
    if k < |before.log| {
      AdmissionIsExact(c, start, front, k);
      assert now.log[k] == before.log[k] && now.log[..k] == before.log[..k];
    } else {
      UsedIsChargedSince(c, start, front, now.log[k].day);
      assert now.log[..k] == before.log;
    }
  }

  /** The tokens in use go over the budget by less than the one request that crossed it. */
  lemma {:induction false} OverrunIsBelowOneRequest(c: Config, start: int, requests: seq<Request>)
    ensures var s := Run(c, start, requests);
      s.used == 0
      || exists k :: 0 <= k < |s.log| && s.log[k].day == s.lastReset && s.used - s.log[k].costTokens < c.dailyBudget
  {
    if requests != [] {
      var front := requests[..|requests| - 1];
      OverrunIsBelowOneRequest(c, start, front);
      var before, now := Run(c, start, front), Run(c, start, requests);
      if now.used > 0 {
        if now.used != before.used || now.lastReset != before.lastReset {
          assert now.log[|before.log|].day == now.lastReset;
        } else {
          var k :| 0 <= k < |before.log| && before.log[k].day == before.lastReset
            && before.used - before.log[k].costTokens < c.dailyBudget;
          assert now.log[k] == before.log[k];
        }
      }
    }
  }

  ghost predicate ClockAdvances(start: int, requests: seq<Request>) {
    forall i, j :: 0 <= i <= j < |requests| ==> start <= requests[i].today <= requests[j].today
  }

  lemma {:induction false} ResetIsPast(c: Config, start: int, requests: seq<Request>, now: int)
    requires ClockAdvances(start, requests) && start <= now
    requires forall r <- requests :: r.today <= now
    ensures Run(c, start, requests).lastReset <= now
  {
    if requests != [] {
      ResetIsPast(c, start, requests[..|requests| - 1], now);
    }
  }

  lemma HandleSpends(c: Config, s: Ledger, r: Request, day: int)
    requires s.lastReset <= r.today && forall d :: s.lastReset <= d ==> SpentOn(s.log, d) == UsedOn(s, d)
    ensures var next := Handle(c, s, r.dataType, r.tokens, r.today).0;
      next.lastReset <= day ==> SpentOn(next.log, day) == UsedOn(next, day)
  {
    var next := Handle(c, s, r.dataType, r.tokens, r.today).0;
    if next.log != s.log {
      FrontLast(s.log, next.log[|s.log|]);
    }
  }

  /** Under a clock that never goes back, the counter is what the whole log charges to the day. */
  lemma {:induction false} UsedIsSpentToday(c: Config, start: int, requests: seq<Request>)
    requires ClockAdvances(start, requests)
    ensures var s := Run(c, start, requests); forall day :: s.lastReset <= day ==> SpentOn(s.log, day) == UsedOn(s, day)
  {
    if requests != [] {
      var front, last := requests[..|requests| - 1], requests[|requests| - 1];
      UsedIsSpentToday(c, start, front);
      ResetIsPast(c, start, front, last.today);
      var now := Run(c, start, requests);
      forall day | now.lastReset <= day
        ensures SpentOn(now.log, day) == UsedOn(now, day)
      {
        HandleSpends(c, Run(c, start, front), last, day);
      }
    }
  }

  ghost predicate WithinBudgetBut(c: Config, log: seq<Decision>, day: int, k: nat) {
    k < |log| && log[k].day == day && SpentOn(log, day) - log[k].costTokens < c.dailyBudget
  }

  lemma HandleWithinBudget(c: Config, s: Ledger, r: Request, day: int)
    requires SpentOn(s.log, r.today) == UsedOn(s, r.today)
    requires SpentOn(s.log, day) == 0 || exists k :: WithinBudgetBut(c, s.log, day, k)
    ensures var log := Handle(c, s, r.dataType, r.tokens, r.today).0.log;
      SpentOn(log, day) == 0 || exists k :: WithinBudgetBut(c, log, day, k)
  {
    var next := Handle(c, s, r.dataType, r.tokens, r.today).0;
    if next.log != s.log {
      FrontLast(s.log, next.log[|s.log|]);
      if SpentOn(next.log, day) != SpentOn(s.log, day) {
        assert WithinBudgetBut(c, next.log, day, |s.log|);
      } else if k: nat :| WithinBudgetBut(c, s.log, day, k) {
        assert next.log[k] == s.log[k];
        assert WithinBudgetBut(c, next.log, day, k);
      }
    }
  }

  /** No day of the whole history is charged a full request more than the budget. */
  lemma {:induction false} EveryDayWithinBudget(c: Config, start: int, requests: seq<Request>, day: int)
    requires ClockAdvances(start, requests)
    ensures var log := Run(c, start, requests).log;
      SpentOn(log, day) == 0 || exists k :: WithinBudgetBut(c, log, day, k)
  {
    if requests != [] {
      var front, last := requests[..|requests| - 1], requests[|requests| - 1];
      EveryDayWithinBudget(c, start, front, day);
      UsedIsSpentToday(c, start, front);
      ResetIsPast(c, start, front, last.today);
      HandleWithinBudget(c, Run(c, start, front), last, day);
    }
  }

  lemma {:induction false} ExceededTakesFallback(c: Config, start: int, requests: seq<Request>, d: Decision)
    requires d in Run(c, start, requests).log && d.budgetExceeded
    ensures d.route == FallbackRoute(c.fallback) && d.costTokens == 0
    ensures d.dataType !in LOCKED && Desired(c, d.dataType) == Cloud
  {
    var front := requests[..|requests| - 1];
    if d in Run(c, start, front).log {
      ExceededTakesFallback(c, start, front, d);
    }
  }

  ghost predicate CloudBeyondBudget(c: Config, start: int, requests: seq<Request>) {
    exists d <- Run(c, start, requests).log :: d.budgetExceeded && d.route == Cloud
  }

  /**
    The budget stops cloud use unless the configured fallback is the cloud
    itself: then, and only then, requests keep going out, charged at nothing.
  */
  lemma CloudBeyondBudgetIff(c: Config, start: int)
    ensures (exists requests :: CloudBeyondBudget(c, start, requests))
       <==> c.fallback == ToCloud && exists dataType :: Desired(c, dataType) == Cloud
  {
    if requests :| CloudBeyondBudget(c, start, requests) {
      var d :| d in Run(c, start, requests).log && d.budgetExceeded && d.route == Cloud;
      ExceededTakesFallback(c, start, requests, d);
    }
    if dataType :| c.fallback == ToCloud && Desired(c, dataType) == Cloud {
      var tokens := if c.dailyBudget > 0 then c.dailyBudget else 0;
      var first := [Request(dataType, tokens, start)];
      var both := first + [Request(dataType, 0, start)];
      assert first[..0] == [] && both[..1] == first;
      var middle, end := Run(c, start, first), Run(c, start, both);
      assert middle.used >= c.dailyBudget && middle.lastReset == start;
      var d := end.log[|middle.log|];
      assert d in end.log && d.budgetExceeded && d.route == Cloud;
      assert CloudBeyondBudget(c, start, both);
    }
  }

  // ---- Where each type goes ----

  predicate NeverLeaves(dataType: string) {
    dataType == "financial_data" || dataType == "source_code"
  }

  /** The route that is asked for a type that may leave, by its override or else by the type. */
  predicate Asks(c: Config, dataType: string, route: Route) {
    if dataType in c.overrides then
      match route
      case Cloud => c.overrides[dataType] == "cloud"
      case Vllm => c.overrides[dataType] == "vllm"
      case Local => c.overrides[dataType] != "cloud" && c.overrides[dataType] != "vllm"
    else
      route == if dataType == "client_facing_drafts" || dataType == "public_docs_changelogs" then Cloud else Local
  }

  /** Locked types stay, and configuring one to leave is an error that changes nothing. */
  lemma LockedOutcome(c: Config, s: Ledger, dataType: string, tokens: nat, today: int)
    requires NeverLeaves(dataType)
    ensures var (t, outcome) := Handle(c, s, dataType, tokens, today);
      if dataType in c.overrides && (c.overrides[dataType] == "cloud" || c.overrides[dataType] == "vllm")
      then t == s && outcome == PolicyViolation
      else
        && outcome == Routed(Decision(dataType, Local, LockedRoute, today, 0, false))
        && t == s.(log := s.log + [Decision(dataType, Local, LockedRoute, today, 0, false)])
  {
  }

  /** Any other type goes where it is asked to, the cloud while the day's tokens last and then the fallback. */
  lemma RoutedOutcome(c: Config, s: Ledger, dataType: string, tokens: nat, today: int, route: Route)
    requires !NeverLeaves(dataType) && Asks(c, dataType, route)
    ensures var (t, outcome) := Handle(c, s, dataType, tokens, today);
      var used := if s.lastReset == today then s.used else 0;
      && outcome.Routed? && t.log == s.log + [outcome.decision]
      && outcome.decision.dataType == dataType && outcome.decision.day == today
      && if route != Cloud then
           outcome.decision.route == route && outcome.decision.costTokens == 0
           && t.used == s.used && t.lastReset == s.lastReset
         else if used < c.dailyBudget then
           outcome.decision.route == Cloud && outcome.decision.costTokens == tokens
           && !outcome.decision.budgetExceeded && t.used == used + tokens && t.lastReset == today
         else
           outcome.decision.budgetExceeded && outcome.decision.costTokens == 0 && t.used == used && t.lastReset == today
           && (outcome.decision.route == Cloud <==> c.fallback == ToCloud)
           && (outcome.decision.route == Vllm <==> c.fallback == ToVllm)
  {
  }
}
