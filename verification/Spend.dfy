/** Spend accounting from cumulative cost reports, over every interleaving of sessions. Money is exact. */
module Spend {
  import opened Common
  import opened BudgetMonitor

  /** `resetDay` is the day of the year on which the daily spend was last zeroed; a new hook has 0. */
  datatype Ledger = Ledger(sessions: map<string, real>, daily: real, total: real, resetDay: int)

  const FRESH := Ledger(map[], 0.0, 0.0, 0)

  datatype Date = Date(year: int, yearDay: int)

  datatype Event =
    | Cost(session: string, amount: real, date: Date) // a session reports what it has cost so far
    | Glance(date: Date)                              // the daily spend is read
    | Reset(session: string)

  function SpendOf(l: Ledger, session: string): real {
    if session in l.sessions then l.sessions[session] else 0.0
  }

  function Rolled(l: Ledger, today: int): Ledger {
    if l.resetDay != today then l.(daily := 0.0, resetDay := today) else l
  }

  function Charge(l: Ledger, session: string, cost: real): Ledger {
    var increment := cost - SpendOf(l, session);
    if increment > 0.0 then
      Ledger(l.sessions[session := cost], l.daily + increment, l.total + increment, l.resetDay)
    else l
  }

  function Next(l: Ledger, e: Event): Ledger {
    match e
    case Cost(session, amount, date) => Charge(Rolled(l, date.yearDay), session, amount)
    case Glance(date) => Rolled(l, date.yearDay)
    case Reset(session) => l.(sessions := l.sessions - {session})
  }

  function Run(l: Ledger, events: seq<Event>): Ledger {
    if events == [] then l else Next(Run(l, events[..|events| - 1]), events[|events| - 1])
  }

  lemma {:induction false} RunConcat(l: Ledger, a: seq<Event>, b: seq<Event>)
    ensures Run(l, a + b) == Run(Run(l, a), b)
  {
    if b == [] {
      assert a + b == a;
    } else {
      RunConcat(l, a, b[..|b| - 1]);
      assert (a + b)[..|a + b| - 1] == a + b[..|b| - 1];
    }
  }

  // One session on its own

  /** What one session saw: its reports in order, None for a reset. */
  function Own(events: seq<Event>, session: string): seq<Option<real>> {
    if events == [] then []
    else
      var front := Own(events[..|events| - 1], session);
      match events[|events| - 1]
      case Cost(s, amount, _) => if s == session then front + [Some(amount)] else front
      case Glance(_) => front
      case Reset(s) => if s == session then front + [None] else front
  }

  /** The session's spend since its last reset, and all it was ever charged. */
  datatype Account = Account(current: real, charged: real)

  function Book(a: Account, entry: Option<real>): Account {
    match entry
    case None => Account(0.0, a.charged)
    case Some(amount) => if amount > a.current then Account(amount, a.charged + (amount - a.current)) else a
  }

  function AccountOf(own: seq<Option<real>>): Account {
    if own == [] then Account(0.0, 0.0) else Book(AccountOf(own[..|own| - 1]), own[|own| - 1])
  }

  lemma AccountAppend(own: seq<Option<real>>, entry: Option<real>)
    ensures AccountOf(own + [entry]) == Book(AccountOf(own), entry)
  {
    assert (own + [entry])[..|own|] == own;
  }

  /** A session's spend depends on its own reports alone. */
  lemma {:induction false} SpendIsOwn(events: seq<Event>, session: string)
    ensures SpendOf(Run(FRESH, events), session) == AccountOf(Own(events, session)).current
  {
    if events != [] {
      var front, e := events[..|events| - 1], events[|events| - 1];
      SpendIsOwn(front, session);
      if !e.Glance? && e.session == session {
        AccountAppend(Own(front, session), if e.Cost? then Some(e.amount) else None);
      }
    }
  }

  predicate NoResets(own: seq<Option<real>>) {
    forall i :: 0 <= i < |own| ==> own[i].Some?
  }

  /** Without a reset a session's spend is the highest of its reports, or zero, and that is what it was charged. */
  lemma {:induction false} SpendIsRunningMaximum(own: seq<Option<real>>)
    requires NoResets(own)
    ensures var a := AccountOf(own);
            && a.charged == a.current >= 0.0
            && (forall i :: 0 <= i < |own| ==> own[i].value <= a.current)
            && (a.current == 0.0 || Some(a.current) in own)
  {
    if own != [] {
      SpendIsRunningMaximum(own[..|own| - 1]);
      assert own[|own| - 1] in own;
    }
  }

  // All sessions together

  function Sum(sessions: seq<string>, events: seq<Event>): real {
    if sessions == [] then 0.0
    else Sum(sessions[..|sessions| - 1], events) + AccountOf(Own(events, sessions[|sessions| - 1])).charged
  }

  predicate Concerns(e: Event, session: string) {
    !e.Glance? && e.session == session
  }

  predicate Covers(sessions: seq<string>, events: seq<Event>) {
    forall i :: 0 <= i < |events| && !events[i].Glance? ==> events[i].session in sessions
  }

  /** How much one more event charges. */
  function Increment(events: seq<Event>, e: Event): real {
    if e.Cost? then
      var before := AccountOf(Own(events, e.session));
      Book(before, Some(e.amount)).charged - before.charged
    else 0.0
  }

  lemma OwnAppend(events: seq<Event>, e: Event, session: string)
    ensures AccountOf(Own(events + [e], session)).charged
         == AccountOf(Own(events, session)).charged + if Concerns(e, session) then Increment(events, e) else 0.0
  {
    assert (events + [e])[..|events|] == events;
    if Concerns(e, session) {
      AccountAppend(Own(events, session), if e.Cost? then Some(e.amount) else None);
    }
  }

  lemma {:induction false} SumGrows(sessions: seq<string>, events: seq<Event>, e: Event)
    requires NoDuplicates(sessions) && !e.Glance?
    ensures Sum(sessions, events + [e]) == Sum(sessions, events) + if e.session in sessions then Increment(events, e)
        else 0.0
  {
    if sessions != [] {
      var front := sessions[..|sessions| - 1];
      SumGrows(front, events, e);
      OwnAppend(events, e, sessions[|sessions| - 1]);
      assert e.session in sessions <==> e.session in front || e.session == sessions[|sessions| - 1];
    }
  }

  lemma {:induction false} GlanceChangesNoSum(sessions: seq<string>, events: seq<Event>, e: Event)
    requires e.Glance?
    ensures Sum(sessions, events + [e]) == Sum(sessions, events)
  {
    if sessions != [] {
      GlanceChangesNoSum(sessions[..|sessions| - 1], events, e);
      OwnAppend(events, e, sessions[|sessions| - 1]);
    }
  }

  lemma {:induction false} NothingCharged(sessions: seq<string>)
    ensures Sum(sessions, []) == 0.0
  {
    if sessions != [] {
      NothingCharged(sessions[..|sessions| - 1]);
    }
  }

  lemma TotalStep(events: seq<Event>, e: Event)
    ensures Next(Run(FRESH, events), e).total == Run(FRESH, events).total + Increment(events, e)
  {
    if e.Cost? {
      SpendIsOwn(events, e.session);
    }
  }

  /** The total is the sum of what each session was charged, however their events interleave. */
  lemma {:induction false} TotalIsSumOverSessions(sessions: seq<string>, events: seq<Event>)
    requires NoDuplicates(sessions) && Covers(sessions, events)
    ensures Run(FRESH, events).total == Sum(sessions, events)
  {
    if events == [] {
      NothingCharged(sessions);
    } else {
      var front, e := events[..|events| - 1], events[|events| - 1];
      assert events == front + [e];
      TotalIsSumOverSessions(sessions, front);
      TotalStep(front, e);
      if e.Glance? {
        GlanceChangesNoSum(sessions, front, e);
      } else {
        SumGrows(sessions, front, e);
      }
    }
  }

  function SumSpend(sessions: seq<string>, l: Ledger): real {
    if sessions == [] then 0.0
    else SumSpend(sessions[..|sessions| - 1], l) + SpendOf(l, sessions[|sessions| - 1])
  }

  lemma {:induction false} OwnHasNoResets(events: seq<Event>, session: string)
    requires forall i :: 0 <= i < |events| ==> !events[i].Reset?
    ensures NoResets(Own(events, session))
  {
    if events != [] {
      OwnHasNoResets(events[..|events| - 1], session);
    }
  }

  /** Without resets the total is the sum of the sessions' running maxima. */
  lemma {:induction false} TotalIsSumOfSpends(sessions: seq<string>, events: seq<Event>)
    requires forall i :: 0 <= i < |events| ==> !events[i].Reset?
    ensures Sum(sessions, events) == SumSpend(sessions, Run(FRESH, events))
  {
    if sessions != [] {
      var last := sessions[|sessions| - 1];
      TotalIsSumOfSpends(sessions[..|sessions| - 1], events);
      SpendIsOwn(events, last);
      OwnHasNoResets(events, last);
      SpendIsRunningMaximum(Own(events, last));
    }
  }

  /** The sessions of a run, once each. */
  function SessionsOf(events: seq<Event>): seq<string> {
    if events == [] then []
    else
      var front := SessionsOf(events[..|events| - 1]);
      var e := events[|events| - 1];
      if e.Glance? || e.session in front then front else front + [e.session]
  }

  lemma {:induction false} SessionsOnceEach(events: seq<Event>)
    ensures NoDuplicates(SessionsOf(events))
  {
    if events != [] {
      SessionsOnceEach(events[..|events| - 1]);
    }
  }

  lemma {:induction false} SessionListed(events: seq<Event>, i: nat)
    requires i < |events| && !events[i].Glance?
    ensures events[i].session in SessionsOf(events)
  {
    if i < |events| - 1 {
      SessionListed(events[..|events| - 1], i);
    }
  }

  lemma SessionsCover(events: seq<Event>)
    ensures NoDuplicates(SessionsOf(events)) && Covers(SessionsOf(events), events)
  {
    SessionsOnceEach(events);
    forall i | 0 <= i < |events| && !events[i].Glance? ensures events[i].session in SessionsOf(events) {
      SessionListed(events, i);
    }
  }

  lemma {:induction false} SessionsHaveEvents(events: seq<Event>, session: string)
    ensures session in SessionsOf(events) <==> Own(events, session) != []
  {
    if events != [] {
      SessionsHaveEvents(events[..|events| - 1], session);
    }
  }

  lemma {:induction false} SameSums(sessions: seq<string>, a: seq<Event>, b: seq<Event>)
    requires forall s :: Own(a, s) == Own(b, s)
    ensures Sum(sessions, a) == Sum(sessions, b)
  {
    if sessions != [] {
      SameSums(sessions[..|sessions| - 1], a, b);
    }
  }

  lemma SameSessionsCover(a: seq<Event>, b: seq<Event>)
    requires forall s :: Own(a, s) == Own(b, s)
    ensures Covers(SessionsOf(a), b)
  {
    SessionsCover(b);
    forall s | s in SessionsOf(b) ensures s in SessionsOf(a) {
      SessionsHaveEvents(a, s);
      SessionsHaveEvents(b, s);
    }
  }

  /** Two runs in which every session sees the same events agree on every session's spend and on the total. */
  lemma InterleavingIsIrrelevant(a: seq<Event>, b: seq<Event>, session: string)
    requires forall s :: Own(a, s) == Own(b, s)
    ensures Run(FRESH, a).total == Run(FRESH, b).total
    ensures SpendOf(Run(FRESH, a), session) == SpendOf(Run(FRESH, b), session)
  {
    SpendIsOwn(a, session);
    SpendIsOwn(b, session);
    var sessions := SessionsOf(a);
    SessionsCover(a);
    SameSessionsCover(a, b);
    TotalIsSumOverSessions(sessions, a);
    TotalIsSumOverSessions(sessions, b);
    SameSums(sessions, a, b);
  }

  // The day

  lemma StepGrows(l: Ledger, e: Event)
    requires 0.0 <= l.daily <= l.total
    ensures 0.0 <= Next(l, e).daily <= Next(l, e).total && l.total <= Next(l, e).total
  {
  }

  /** The total never falls, and the daily spend never exceeds it. */
  lemma {:induction false} DailyWithinTotal(l: Ledger, events: seq<Event>)
    requires 0.0 <= l.daily <= l.total
    ensures var l' := Run(l, events); 0.0 <= l'.daily <= l'.total && l.total <= l'.total
  {
    if events != [] {
      DailyWithinTotal(l, events[..|events| - 1]);
      StepGrows(Run(l, events[..|events| - 1]), events[|events| - 1]);
    }
  }

  predicate OnDay(events: seq<Event>, day: int) {
    forall i :: 0 <= i < |events| && !events[i].Reset? ==> events[i].date.yearDay == day
  }

  /** From the first reading of a new day of the year on, the daily spend is what the total grew by. */
  lemma {:induction false} DailyIsGrowthSinceRollover(l: Ledger, events: seq<Event>, day: int)
    requires OnDay(events, day) && events != [] && !events[0].Reset? && l.resetDay != day
    ensures Run(l, events).daily == Run(l, events).total - l.total && Run(l, events).resetDay == day
  {
    var front := events[..|events| - 1];
    if front == [] {
      assert Run(l, front) == l;
    } else {
      DailyIsGrowthSinceRollover(l, front, day);
    }
  }

  /**
   * Only the day of the year is compared: spend of the same day one year earlier still counts when nothing came
   * between.
   */
  lemma SameDayNextYearStillCounts(session: string, year: int, day: int, cost: real)
    requires cost > 0.0 && day != 0
    ensures Run(FRESH, [Cost(session, cost, Date(year, day)), Glance(Date(year + 1, day))]).daily == cost
  {
    var events := [Cost(session, cost, Date(year, day)), Glance(Date(year + 1, day))];
    assert events[..1][..0] == [];
    assert Run(FRESH, events[..1]) == Next(FRESH, events[0]);
  }

  lemma {:induction false} DailyGrowsWithTotal(l: Ledger, events: seq<Event>)
    requires OnDay(events, l.resetDay)
    ensures Run(l, events).daily - l.daily == Run(l, events).total - l.total && Run(l, events).resetDay == l.resetDay
  {
    if events != [] {
      DailyGrowsWithTotal(l, events[..|events| - 1]);
    }
  }

  /**
   * The daily spend is what was spent on the date exactly when the day of the year had changed or nothing was carried
   * over.
   */
  lemma DailyIsTodaysSpendIff(l: Ledger, events: seq<Event>, day: int)
    requires OnDay(events, day) && events != [] && !events[0].Reset?
    ensures Run(l, events).daily == Run(l, events).total - l.total <==> l.resetDay != day || l.daily == 0.0
  {
    if l.resetDay == day {
      DailyGrowsWithTotal(l, events);
    } else {
      DailyIsGrowthSinceRollover(l, events, day);
    }
  }

  // Blocking

  /** Once a check is blocked on the total, so is every check at a later point of the run, whatever comes between. */
  lemma TotalBlockLatches(c: Config, before: seq<Event>, after: seq<Event>, daily: real, session: real, daily': real,
      session': real)
    requires FirstReached(c, Run(FRESH, before).total, daily, session) == TotalExceeded
    ensures FirstReached(c, Run(FRESH, before + after).total, daily', session') == TotalExceeded
  {
    RunConcat(FRESH, before, after);
    DailyWithinTotal(FRESH, before);
    DailyWithinTotal(Run(FRESH, before), after);
  }

  lemma SpendStep(l: Ledger, e: Event, session: string)
    requires e != Reset(session)
    ensures SpendOf(l, session) <= SpendOf(Next(l, e), session)
  {
  }

  /** A session's recorded spend never falls while it is not reset, so a block on it stays. */
  lemma {:induction false} RecordedSessionBlockLatches(l: Ledger, events: seq<Event>, session: string, limit: real)
    requires forall i :: 0 <= i < |events| ==> events[i] != Reset(session)
    requires Reaches(SpendOf(l, session), limit)
    ensures Reaches(SpendOf(Run(l, events), session), limit)
  {
    if events != [] {
      RecordedSessionBlockLatches(l, events[..|events| - 1], session, limit);
      SpendStep(Run(l, events[..|events| - 1]), events[|events| - 1], session);
    }
  }

  /**
   * A direct update is checked against the cost it reports, not against the recorded spend.
   * The two verdicts differ exactly when a session that had reached its limit reports less than the limit.
   */
  lemma ReportedVerdictDiffersIff(l: Ledger, session: string, cost: real, date: Date, limit: real)
    ensures Reaches(cost, limit) != Reaches(SpendOf(Next(l, Cost(session, cost, date)), session), limit)
            <==> cost < limit <= SpendOf(l, session) && limit > 0.0
  {
  }

  /** So with direct updates a session block need not last. */
  lemma ReportedSessionBlockCanLift(c: Config, session: string, date: Date)
    requires c.blockOnExceed && c.sessionBudget == 5.0 && c.totalBudget <= 0.0 && c.dailyBudget <= 0.0
    ensures var l := Run(FRESH, [Cost(session, 6.0, date)]);
            var l' := Run(FRESH, [Cost(session, 6.0, date), Cost(session, 4.0, date)]);
            && FirstReached(c, l.total, l.daily, 6.0) == SessionExceeded
            && FirstReached(c, l'.total, l'.daily, 4.0) == NotBlocked
            && SpendOf(l', session) == 6.0
  {
    var events := [Cost(session, 6.0, date), Cost(session, 4.0, date)];
    assert events[..1] == [events[0]] && events[..1][..0] == [];
    assert Run(FRESH, events[..1]) == Next(FRESH, events[0]);
  }

  class LoopHook {
    const monitor: Monitor?
    var sessionSpend: map<string, real>
    var dailySpend: real
    var dailyResetDay: int
    var totalSpend: real

    function Books(): Ledger
      reads this
    {
      Ledger(sessionSpend, dailySpend, totalSpend, dailyResetDay)
    }

    constructor (monitor: Monitor?)
      ensures this.monitor == monitor && Books() == FRESH
    {
      this.monitor := monitor;
      sessionSpend := map[];
      dailySpend, totalSpend, dailyResetDay := 0.0, 0.0, 0;
    }

    method UpdateSpend(session: string, cost: real, date: Date)
      modifies this
      ensures Books() == Next(old(Books()), Cost(session, cost, date))
    {
      if dailyResetDay != date.yearDay {
        dailySpend := 0.0;
        dailyResetDay := date.yearDay;
      }
      var oldSpend := if session in sessionSpend then sessionSpend[session] else 0.0;
      var increment := cost - oldSpend;
      if increment > 0.0 {
        sessionSpend := sessionSpend[session := cost];
        dailySpend := dailySpend + increment;
        totalSpend := totalSpend + increment;
      }
    }

    /** Handles a loop event; anything but a cost report, and any report without a monitor, is ignored. */
    method HandleEvent(report: Option<(string, real)>, date: Date, now: int) returns (exceeded: bool)
      modifies this, monitor
      ensures Books() == if report.Some? && monitor != null
          then Next(old(Books()), Cost(report.value.0, report.value.1, date)) else old(Books())
      ensures exceeded <==>
                && report.Some? && monitor != null && monitor.config.enabled
                && FirstReached(monitor.config, totalSpend, dailySpend, SpendOf(Books(), report.value.0)) != NotBlocked
    {
      if monitor == null || report.None? {
        return false;
      }
      var session := report.value.0;
      UpdateSpend(session, report.value.1, date);
      var spend := if session in sessionSpend then sessionSpend[session] else 0.0;
      var status;
      status, exceeded := monitor.Check(totalSpend, dailySpend, spend, session, now);
    }

    /** A direct update; the session's own limit is checked against the cost reported. */
    method OnCostUpdated(session: string, cost: real, date: Date, now: int) returns (status: Status, exceeded: bool)
      modifies this, monitor
      ensures Books() == Next(old(Books()), Cost(session, cost, date))
      ensures status.totalSpent == totalSpend && status.dailySpent == dailySpend && status.sessionSpent == cost
      ensures exceeded <==>
                && monitor != null && monitor.config.enabled
                && FirstReached(monitor.config, totalSpend, dailySpend, cost) != NotBlocked
    {
      UpdateSpend(session, cost, date);
      if monitor == null {
        return Status(totalSpend, dailySpend, cost, Unset, Unset, Unset, NotBlocked), false;
      }
      status, exceeded := monitor.Check(totalSpend, dailySpend, cost, session, now);
    }

    method GetDailySpend(date: Date) returns (spend: real)
      modifies this
      ensures Books() == Next(old(Books()), Glance(date)) && spend == dailySpend
    {
      if dailyResetDay != date.yearDay {
        dailySpend := 0.0;
        dailyResetDay := date.yearDay;
      }
      return dailySpend;
    }

    method ResetSession(session: string)
      modifies this
      ensures Books() == Next(old(Books()), Reset(session))
    {
      sessionSpend := sessionSpend - {session};
    }
  }
}
