/** Budget thresholds, the status of a check, and the alerts it raises. Money is exact. */
module BudgetMonitor {

  /** Unset is the empty string that an unconfigured budget leaves in a status. */
  datatype Threshold = Unset | NoThreshold | Warning | Critical | Exceeded

  datatype Config = Config(
    enabled: bool,
    totalBudget: real,
    sessionBudget: real,
    dailyBudget: real,
    warning: real,
    critical: real,
    blockOnExceed: bool,
    cooldown: int)

  predicate Validates(c: Config) {
    c.enabled ==>
      && !(c.totalBudget <= 0.0 && c.sessionBudget <= 0.0 && c.dailyBudget <= 0.0)
      && 0.0 <= c.warning <= 1.0 && 0.0 <= c.critical <= 1.0
      && c.warning < c.critical
  }

  function CheckThreshold(c: Config, spend: real, limit: real): Threshold {
    if limit <= 0.0 then NoThreshold
    else
      var percentage := spend / limit;
      if percentage >= 1.0 then Exceeded
      else if percentage >= c.critical then Critical
      else if percentage >= c.warning then Warning
      else NoThreshold
  }

  lemma RatioReaches(spend: real, limit: real, share: real)
    requires limit > 0.0
    ensures spend / limit >= share <==> spend >= share * limit
  {
    var ratio := spend / limit;
    assert spend == ratio * limit;
    if ratio >= share {
      assert (ratio - share) * limit >= 0.0;
    } else {
      assert (share - ratio) * limit > 0.0;
    }
  }

  lemma SharesGrow(low: real, high: real, limit: real)
    requires low <= high && limit > 0.0
    ensures low * limit <= high * limit && (low < high ==> low * limit < high * limit)
  {
    var gap := high - low;
    assert gap * limit >= 0.0 && (gap > 0.0 ==> gap * limit > 0.0);
    assert high * limit == low * limit + gap * limit;
  }

  /** A limit is exceeded when it is positive and the spend reaches it. */
  predicate Reaches(spend: real, limit: real) {
    limit > 0.0 && spend >= limit
  }

  /**
   * In a valid configuration the level is a step function of the spend: each level starts at its share of the limit.
   */
  lemma ThresholdMeaning(c: Config, spend: real, limit: real)
    requires Validates(c) && c.enabled && limit > 0.0
    ensures var t := CheckThreshold(c, spend, limit);
            && (t == Exceeded <==> spend >= limit)
            && (t == Critical <==> c.critical * limit <= spend < limit)
            && (t == Warning <==> c.warning * limit <= spend < c.critical * limit)
            && (t == NoThreshold <==> spend < c.warning * limit)
  {
    RatioReaches(spend, limit, 1.0);
    RatioReaches(spend, limit, c.critical);
    RatioReaches(spend, limit, c.warning);
    SharesGrow(c.warning, c.critical, limit);
    SharesGrow(c.critical, 1.0, limit);
  }

  lemma ExceededIffReached(c: Config, spend: real, limit: real)
    ensures CheckThreshold(c, spend, limit) == Exceeded <==> Reaches(spend, limit)
  {
    if limit > 0.0 {
      RatioReaches(spend, limit, 1.0);
    }
  }

  datatype Reason = NotBlocked | TotalExceeded | DailyExceeded | SessionExceeded

  datatype Status = Status(
    totalSpent: real, dailySpent: real, sessionSpent: real,
    total: Threshold, daily: Threshold, session: Threshold,
    reason: Reason)
  {
    predicate Blocked() { reason != NotBlocked }
  }

  function Configured(c: Config, spend: real, limit: real): Threshold {
    if limit > 0.0 then CheckThreshold(c, spend, limit) else Unset
  }

  /** The first budget, in the order total, daily, session, whose limit is reached. */
  function FirstReached(c: Config, total: real, daily: real, session: real): Reason {
    if !c.blockOnExceed then NotBlocked
    else if Reaches(total, c.totalBudget) then TotalExceeded
    else if Reaches(daily, c.dailyBudget) then DailyExceeded
    else if Reaches(session, c.sessionBudget) then SessionExceeded
    else NotBlocked
  }

  method NewStatus(c: Config, total: real, daily: real, session: real) returns (status: Status)
    ensures status == Status(total, daily, session,
                             Configured(c, total, c.totalBudget), Configured(c, daily, c.dailyBudget),
                                 Configured(c, session, c.sessionBudget),
                             FirstReached(c, total, daily, session))
    ensures status.reason == TotalExceeded <==> c.blockOnExceed && c.totalBudget > 0.0 && total >= c.totalBudget
    ensures status.reason == DailyExceeded <==>
              && c.blockOnExceed && !(c.totalBudget > 0.0 && total >= c.totalBudget)
              && c.dailyBudget > 0.0 && daily >= c.dailyBudget
    ensures status.reason == SessionExceeded <==>
              && c.blockOnExceed && !(c.totalBudget > 0.0 && total >= c.totalBudget)
              && !(c.dailyBudget > 0.0 && daily >= c.dailyBudget)
              && c.sessionBudget > 0.0 && session >= c.sessionBudget
  {
    status := Status(total, daily, session, Unset, Unset, Unset, NotBlocked);
    if c.totalBudget > 0.0 {
      status := status.(total := CheckThreshold(c, total, c.totalBudget));
    }
    if c.dailyBudget > 0.0 {
      status := status.(daily := CheckThreshold(c, daily, c.dailyBudget));
    }
    if c.sessionBudget > 0.0 {
      status := status.(session := CheckThreshold(c, session, c.sessionBudget));
    }
    ExceededIffReached(c, total, c.totalBudget);
    ExceededIffReached(c, daily, c.dailyBudget);
    ExceededIffReached(c, session, c.sessionBudget);
    if c.blockOnExceed {
      if status.total == Exceeded {
        status := status.(reason := TotalExceeded);
      } else if status.daily == Exceeded {
        status := status.(reason := DailyExceeded);
      } else if status.session == Exceeded {
        status := status.(reason := SessionExceeded);
      }
    }
  }

  function Rank(t: Threshold): nat {
    match t
    case Warning => 1
    case Critical => 2
    case Exceeded => 3
    case _ => 0
  }

  /** The greatest of the three levels, with an unset one counting as none. */
  method HighestThreshold(s: Status) returns (highest: Threshold)
    ensures highest in {s.total, s.daily, s.session, NoThreshold} && highest != Unset
    ensures forall t :: t in {s.total, s.daily, s.session} ==> Rank(t) <= Rank(highest)
    ensures var levels := {s.total, s.daily, s.session};
            && (highest == Exceeded <==> Exceeded in levels)
            && (highest == Critical <==> Critical in levels && Exceeded !in levels)
            && (highest == Warning <==> Warning in levels && Critical !in levels && Exceeded !in levels)
  {
    var thresholds := [s.total, s.daily, s.session];
    highest := NoThreshold;
    for i := 0 to 3
      invariant highest == NoThreshold || highest in thresholds[..i]
      invariant highest != Unset
      invariant forall j :: 0 <= j < i ==> Rank(thresholds[j]) <= Rank(highest)
    {
      if Rank(thresholds[i]) > Rank(highest) {
        highest := thresholds[i];
      }
    }
    assert Rank(thresholds[0]) <= Rank(highest) && Rank(thresholds[1]) <= Rank(highest)
        && Rank(thresholds[2]) <= Rank(highest);
  }

  // Alerts

  datatype AlertType = TotalAlert | DailyAlert | SessionAlert

  datatype AlertKey = AlertKey(kind: AlertType, threshold: Threshold, session: string)

  datatype Alert = Alert(key: AlertKey, at: int)

  datatype Alerts = Alerts(last: map<AlertKey, int>, sent: seq<Alert>)

  const QUIET := Alerts(map[], [])

  /** One attempt to alert. */
  datatype Attempt = Attempt(key: AlertKey, now: int)

  function Raise(a: Alerts, cooldown: int, x: Attempt): Alerts {
    if x.key.threshold == NoThreshold then a
    else if x.key in a.last && x.now - a.last[x.key] < cooldown then a
    else Alerts(a.last[x.key := x.now], a.sent + [Alert(x.key, x.now)])
  }

  function RaiseAll(a: Alerts, cooldown: int, xs: seq<Attempt>): Alerts {
    if xs == [] then a else Raise(RaiseAll(a, cooldown, xs[..|xs| - 1]), cooldown, xs[|xs| - 1])
  }

  /** The three attempts of one check. */
  function Attempts(c: Config, s: Status, id: string, now: int): seq<Attempt> {
    [Attempt(AlertKey(TotalAlert, s.total, id), now), Attempt(AlertKey(DailyAlert, s.daily, id), now),
        Attempt(AlertKey(SessionAlert, s.session, id), now)]
  }

  predicate ClockRuns(xs: seq<Attempt>) {
    forall i, j :: 0 <= i < j < |xs| ==> xs[i].now <= xs[j].now
  }

  ghost predicate Spaced(a: Alerts, cooldown: int) {
    forall i, j :: 0 <= i < j < |a.sent| && a.sent[i].key == a.sent[j].key ==> a.sent[j].at - a.sent[i].at >= cooldown
  }

  /** `last` holds the latest alert of every key, and no alert lies in the future. */
  ghost predicate LastIsLatest(a: Alerts, now: int) {
    && (forall i :: 0 <= i < |a.sent| ==> a.sent[i].key in a.last && a.sent[i].at <= a.last[a.sent[i].key] <= now)
    && (forall k :: k in a.last ==> Alert(k, a.last[k]) in a.sent)
  }

  lemma RaiseKeepsLatest(a: Alerts, cooldown: int, was: int, x: Attempt)
    requires LastIsLatest(a, was) && was <= x.now
    ensures LastIsLatest(Raise(a, cooldown, x), x.now)
  {
    var a' := Raise(a, cooldown, x);
    forall k | k in a'.last ensures Alert(k, a'.last[k]) in a'.sent {
      if k == x.key && a' != a {
        assert a'.sent[|a.sent|] == Alert(k, x.now);
      } else {
        assert Alert(k, a.last[k]) in a.sent;
      }
    }
  }

  lemma RaiseKeepsSpacing(a: Alerts, cooldown: int, was: int, x: Attempt)
    requires LastIsLatest(a, was) && was <= x.now && Spaced(a, cooldown)
    ensures Spaced(Raise(a, cooldown, x), cooldown)
  {
  }

  /** Over any run of attempts, two alerts of the same type, level and session are at least the cooldown apart. */
  lemma {:induction false} AlertsAreSpaced(cooldown: int, xs: seq<Attempt>)
    requires ClockRuns(xs)
    ensures Spaced(RaiseAll(QUIET, cooldown, xs), cooldown)
    ensures xs != [] ==> LastIsLatest(RaiseAll(QUIET, cooldown, xs), xs[|xs| - 1].now)
  {
    if xs != [] {
      var front, x := xs[..|xs| - 1], xs[|xs| - 1];
      AlertsAreSpaced(cooldown, front);
      var was := if front == [] then x.now else front[|front| - 1].now;
      var a := RaiseAll(QUIET, cooldown, front);
      assert LastIsLatest(a, was);
      RaiseKeepsLatest(a, cooldown, was, x);
      RaiseKeepsSpacing(a, cooldown, was, x);
    }
  }

  /**
   * An attempt alerts exactly when its level is not none and no alert of the same key is more recent than the
   * cooldown.
   */
  lemma AlertsUnlessRecent(cooldown: int, xs: seq<Attempt>, x: Attempt)
    requires ClockRuns(xs + [x])
    ensures var a := RaiseAll(QUIET, cooldown, xs);
            Raise(a, cooldown, x).sent == (
              if x.key.threshold != NoThreshold
                  && (forall i :: 0 <= i < |a.sent| && a.sent[i].key == x.key ==> x.now - a.sent[i].at >= cooldown)
              then a.sent + [Alert(x.key, x.now)] else a.sent)
  {
    var a := RaiseAll(QUIET, cooldown, xs);
    assert ClockRuns(xs) by {
      forall i, j | 0 <= i < j < |xs| ensures xs[i].now <= xs[j].now {
        assert (xs + [x])[i] == xs[i] && (xs + [x])[j] == xs[j];
      }
    }
    AlertsAreSpaced(cooldown, xs);
    if x.key in a.last {
      assert Alert(x.key, a.last[x.key]) in a.sent by { assert xs != []; }
    }
  }

  /**
   * A budget that is not configured alerts as if a level had been crossed; a configured one from its warning share
   * on.
   */
  lemma FirstCheckAlertsIff(c: Config, kind: AlertType, spend: real, limit: real, id: string, now: int)
    requires Validates(c) && c.enabled
    ensures Raise(QUIET, c.cooldown, Attempt(AlertKey(kind, Configured(c, spend, limit), id), now)).sent != []
            <==> limit <= 0.0 || spend >= c.warning * limit
  {
    if limit > 0.0 {
      ThresholdMeaning(c, spend, limit);
    }
  }

  /** The first check of a session sends one alert per budget whose level is not none, with that budget's own level. */
  lemma FirstCheckSends(c: Config, s: Status, id: string, now: int)
    ensures var sent := RaiseAll(QUIET, c.cooldown, Attempts(c, s, id, now)).sent;
            sent ==
              (if s.total != NoThreshold then [Alert(AlertKey(TotalAlert, s.total, id), now)] else [])
              + (if s.daily != NoThreshold then [Alert(AlertKey(DailyAlert, s.daily, id), now)] else [])
              + (if s.session != NoThreshold then [Alert(AlertKey(SessionAlert, s.session, id), now)] else [])
  {
    ThreeRaises(QUIET, c.cooldown, Attempts(c, s, id, now));
  }

  class Monitor {
    const config: Config
    var alerts: Alerts

    constructor (config: Config)
      requires Validates(config)
      ensures this.config == config && alerts == QUIET
    {
      this.config := config;
      alerts := QUIET;
    }

    method CheckAndAlert(x: Attempt)
      modifies this
      ensures alerts == Raise(old(alerts), config.cooldown, x)
    {
      if x.key.threshold == NoThreshold {
        return;
      }
      var recent := x.key in alerts.last && x.now - alerts.last[x.key] < config.cooldown;
      if recent {
        return;
      }
      alerts := alerts.(last := alerts.last[x.key := x.now]);
      alerts := alerts.(sent := alerts.sent + [Alert(x.key, x.now)]);
    }

    /** The status, and whether the caller is told that a budget is exceeded. */
    method Check(total: real, daily: real, session: real, id: string, now: int) returns (status: Status, exceeded: bool)
      modifies this
      ensures exceeded <==> config.enabled && FirstReached(config, total, daily, session) != NotBlocked
      ensures status.totalSpent == total && status.dailySpent == daily && status.sessionSpent == session
      ensures config.enabled ==>
                && status.total == Configured(config, total, config.totalBudget)
                && status.daily == Configured(config, daily, config.dailyBudget)
                && status.session == Configured(config, session, config.sessionBudget)
      ensures status.reason == TotalExceeded <==>
                config.enabled && config.blockOnExceed && config.totalBudget > 0.0 && total >= config.totalBudget
      ensures status.reason == DailyExceeded <==>
                && config.enabled && config.blockOnExceed && !(config.totalBudget > 0.0 && total >= config.totalBudget)
                && config.dailyBudget > 0.0 && daily >= config.dailyBudget
      ensures status.reason == SessionExceeded <==>
                && config.enabled && config.blockOnExceed && !(config.totalBudget > 0.0 && total >= config.totalBudget)
                && !(config.dailyBudget > 0.0 && daily >= config.dailyBudget)
                && config.sessionBudget > 0.0 && session >= config.sessionBudget
      ensures status.reason == if config.enabled then FirstReached(config, total, daily, session) else NotBlocked
      ensures alerts == if config.enabled
          then RaiseAll(old(alerts), config.cooldown, Attempts(config, status, id, now)) else old(alerts)
    {
      if !config.enabled {
        return Status(total, daily, session, Unset, Unset, Unset, NotBlocked), false;
      }
      status := NewStatus(config, total, daily, session);
      var xs := Attempts(config, status, id, now);
      CheckAndAlert(xs[0]);
      CheckAndAlert(xs[1]);
      CheckAndAlert(xs[2]);
      ThreeRaises(old(alerts), config.cooldown, xs);
      exceeded := status.Blocked();
    }
  }

  lemma ThreeRaises(a: Alerts, cooldown: int, xs: seq<Attempt>)
    requires |xs| == 3
    ensures RaiseAll(a, cooldown, xs) == Raise(Raise(Raise(a, cooldown, xs[0]), cooldown, xs[1]), cooldown, xs[2])
  {
    assert xs[..2][..1] == xs[..1] && xs[..1][..0] == [];
    assert RaiseAll(a, cooldown, xs[..1]) == Raise(a, cooldown, xs[0]);
    assert RaiseAll(a, cooldown, xs[..2]) == Raise(RaiseAll(a, cooldown, xs[..1]), cooldown, xs[1]);
  }
}
