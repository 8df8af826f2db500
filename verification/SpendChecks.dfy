/** Cost updates and their budget checks as separate steps: the lock is released between them. */
module SpendChecks {
  import opened Common
  import opened BudgetMonitor
  import opened Spend

  /** What an update hands to its check. */
  datatype Capture = Capture(total: real, daily: real, session: real)

  datatype Outcome = Outcome(update: nat, reason: Reason)

  /** Captures are in the order of the updates, outcomes in the order of the checks. */
  datatype State = State(ledger: Ledger, captures: seq<Capture>, checked: set<nat>, outcomes: seq<Outcome>)

  const START := State(FRESH, [], {}, [])

  datatype Label =
    | Update(session: string, cost: real, date: Date, direct: bool) // under the lock
    | Check(update: nat)                                            // after it, at any later time
    | Other(event: Event)                                           // a reset or a reading of the daily spend

  function Captured(l: Ledger, session: string, cost: real, direct: bool): Capture {
    Capture(l.total, l.daily, if direct then cost else SpendOf(l, session))
  }

  function Judge(c: Config, x: Capture): Reason {
    if c.enabled then FirstReached(c, x.total, x.daily, x.session) else NotBlocked
  }

  predicate InFlight(s: State, i: nat) {
    i < |s.captures| && i !in s.checked
  }

  function Next(c: Config, s: State, l: Label): State {
    match l
    case Update(session, cost, date, direct) =>
      var ledger := Spend.Next(s.ledger, Cost(session, cost, date));
      s.(ledger := ledger, captures := s.captures + [Captured(ledger, session, cost, direct)])
    case Check(i) =>
      if InFlight(s, i) then
        s.(checked := s.checked + {i}, outcomes := s.outcomes + [Outcome(i, Judge(c, s.captures[i]))])
      else s
    case Other(event) =>
      if event.Cost? then s else s.(ledger := Spend.Next(s.ledger, event))
  }

  function Run(c: Config, s: State, labels: seq<Label>): State {
    if labels == [] then s else Next(c, Run(c, s, labels[..|labels| - 1]), labels[|labels| - 1])
  }

  /** Checks can be blocked on the total, and this total does block. */
  predicate Blocks(c: Config, total: real) {
    c.enabled && c.blockOnExceed && Reaches(total, c.totalBudget)
  }

  /** Captured totals never fall in update order, and every outcome is the judgement of its update's capture. */
  ghost predicate Inv(c: Config, s: State) {
    && 0.0 <= s.ledger.daily <= s.ledger.total
    && (forall i :: 0 <= i < |s.captures| ==> s.captures[i].total <= s.ledger.total)
    && (forall i, j :: 0 <= i < j < |s.captures| ==> s.captures[i].total <= s.captures[j].total)
    && (forall k :: 0 <= k < |s.outcomes| ==>
          s.outcomes[k].update < |s.captures| && s.outcomes[k].reason == Judge(c, s.captures[s.outcomes[k].update]))
  }

  lemma NextInv(c: Config, s: State, l: Label)
    requires Inv(c, s)
    ensures Inv(c, Next(c, s, l)) && s.captures <= Next(c, s, l).captures && s.outcomes <= Next(c, s, l).outcomes
    ensures s.ledger.total <= Next(c, s, l).ledger.total
  {
    match l
    case Update(session, cost, date, direct) => StepGrows(s.ledger, Cost(session, cost, date));
    case Other(event) => StepGrows(s.ledger, event);
    case Check(_) =>
  }

  lemma {:induction false} RunInv(c: Config, s: State, labels: seq<Label>)
    requires Inv(c, s)
    ensures var s' := Run(c, s, labels);
            && Inv(c, s') && s.captures <= s'.captures && s.outcomes <= s'.outcomes
            && s.ledger.total <= s'.ledger.total
  {
    if labels != [] {
      RunInv(c, s, labels[..|labels| - 1]);
      NextInv(c, Run(c, s, labels[..|labels| - 1]), labels[|labels| - 1]);
    }
  }

  /** The ledger events among the steps, in lock order. */
  function EventsOf(labels: seq<Label>): seq<Event> {
    if labels == [] then []
    else
      var front := EventsOf(labels[..|labels| - 1]);
      match labels[|labels| - 1]
      case Update(session, cost, date, _) => front + [Cost(session, cost, date)]
      case Check(_) => front
      case Other(event) => if event.Cost? then front else front + [event]
  }

  /** However checks are scheduled, the books are those of the updates alone. */
  lemma {:induction false} ChecksDoNotTouchTheBooks(c: Config, labels: seq<Label>)
    ensures Run(c, START, labels).ledger == Spend.Run(FRESH, EventsOf(labels))
  {
    if labels != [] {
      var front := labels[..|labels| - 1];
      ChecksDoNotTouchTheBooks(c, front);
      var events := EventsOf(labels);
      if events != EventsOf(front) {
        assert events[..|events| - 1] == EventsOf(front);
      }
    }
  }

  /**
   * With a session limit alone, the check of a direct update looks at the cost reported, that of an event at the
   * session's spend, which a lower report does not reduce.
   */
  lemma SessionVerdicts(c: Config, l: Ledger, session: string, cost: real, date: Date)
    requires c.enabled && c.blockOnExceed && c.totalBudget <= 0.0 && c.dailyBudget <= 0.0 && c.sessionBudget > 0.0
    ensures var l' := Spend.Next(l, Cost(session, cost, date));
            && (Judge(c, Captured(l', session, cost, true)) == SessionExceeded <==> cost >= c.sessionBudget)
            && (Judge(c, Captured(l', session, cost, false)) == SessionExceeded <==>
                  cost >= c.sessionBudget || SpendOf(l, session) >= c.sessionBudget)
  {
  }

  /** With a daily limit alone, a check looks at the daily spend its update captured. */
  lemma DailyVerdicts(c: Config, l: Ledger, session: string, cost: real, date: Date, direct: bool)
    requires c.enabled && c.blockOnExceed && c.totalBudget <= 0.0 && c.sessionBudget <= 0.0 && c.dailyBudget > 0.0
    ensures var l' := Spend.Next(l, Cost(session, cost, date));
            Judge(c, Captured(l', session, cost, direct)) == DailyExceeded <==> l'.daily >= c.dailyBudget
  {
  }

  /** A check is blocked on the total exactly when the total its update captured reaches the limit. */
  lemma BlockedOnTotalIff(c: Config, labels: seq<Label>, k: nat)
    requires k < |Run(c, START, labels).outcomes|
    ensures var s := Run(c, START, labels);
            && s.outcomes[k].update < |s.captures|
            && (s.outcomes[k].reason == TotalExceeded <==> Blocks(c, s.captures[s.outcomes[k].update].total))
  {
    RunInv(c, START, labels);
  }

  /**
   * Hence if the check of one update is blocked on the total, so is the check of every later update, whichever comes
   * first.
   */
  lemma LaterUpdatesAreBlocked(c: Config, labels: seq<Label>, k: nat, m: nat)
    requires var s := Run(c, START, labels);
             && k < |s.outcomes| && m < |s.outcomes| && s.outcomes[k].update <= s.outcomes[m].update
             && s.outcomes[k].reason == TotalExceeded
    ensures Run(c, START, labels).outcomes[m].reason == TotalExceeded
  {
    RunInv(c, START, labels);
  }

  /** From here on every check is blocked on the total. */
  ghost predicate AllLaterBlocked(c: Config, s: State) {
    forall after, k :: |s.outcomes| <= k < |Run(c, s, after).outcomes| ==>
      Run(c, s, after).outcomes[k].reason == TotalExceeded
  }

  /** No update that captured a total below the limit is still to be checked. */
  ghost predicate NoStragglers(c: Config, s: State) {
    forall i: nat :: InFlight(s, i) ==> Blocks(c, s.captures[i].total)
  }

  lemma RunOne(c: Config, s: State, l: Label)
    ensures Run(c, s, [l]) == Next(c, s, l)
  {
    assert [l][..0] == [];
    assert Run(c, s, []) == s;
  }

  lemma RunTwo(c: Config, s: State, a: Label, b: Label)
    ensures Run(c, s, [a, b]) == Next(c, Next(c, s, a), b)
  {
    assert [a, b][..1] == [a];
    RunOne(c, s, a);
  }

  lemma {:induction false} StaysBlocked(c: Config, s: State, labels: seq<Label>)
    requires Inv(c, s) && Blocks(c, s.ledger.total) && NoStragglers(c, s)
    ensures var s' := Run(c, s, labels);
            && Inv(c, s') && s.outcomes <= s'.outcomes && Blocks(c, s'.ledger.total) && NoStragglers(c, s')
            && (forall k :: |s.outcomes| <= k < |s'.outcomes| ==> s'.outcomes[k].reason == TotalExceeded)
  {
    if labels != [] {
      var front, l := labels[..|labels| - 1], labels[|labels| - 1];
      StaysBlocked(c, s, front);
      NextInv(c, Run(c, s, front), l);
      BlockedStep(c, Run(c, s, front), l);
    }
  }

  lemma BlockedStep(c: Config, s: State, l: Label)
    requires Inv(c, s) && Blocks(c, s.ledger.total) && NoStragglers(c, s)
    ensures var s' := Next(c, s, l);
            && Blocks(c, s'.ledger.total) && NoStragglers(c, s')
            && (s'.outcomes == s.outcomes || exists o :: s'.outcomes == s.outcomes + [o] && o.reason == TotalExceeded)
  {
    var s' := Next(c, s, l);
    NextInv(c, s, l);
    forall i: nat | InFlight(s', i) ensures Blocks(c, s'.captures[i].total) {
      assert i < |s.captures| ==> InFlight(s, i) && s'.captures[i] == s.captures[i];
    }
    if l.Check? && InFlight(s, l.update) {
      var o := Outcome(l.update, Judge(c, s.captures[l.update]));
      assert s'.outcomes == s.outcomes + [o] && o.reason == TotalExceeded;
    }
  }

  /** A check of the straggler, now. */
  lemma StragglerPasses(c: Config, s: State, i: nat)
    requires InFlight(s, i) && !Blocks(c, s.captures[i].total)
    ensures !AllLaterBlocked(c, s)
  {
    RunOne(c, s, Check(i));
    var s' := Run(c, s, [Check(i)]);
    assert s'.outcomes[|s.outcomes|].reason != TotalExceeded;
  }

  /** A report that adds nothing, and its check. */
  lemma NewUpdatePasses(c: Config, s: State, session: string, date: Date)
    requires Inv(c, s) && !Blocks(c, s.ledger.total) && |s.captures| !in s.checked
    ensures !AllLaterBlocked(c, s)
  {
    var update := Update(session, SpendOf(s.ledger, session), date, true);
    var s1 := Next(c, s, update);
    assert s1.ledger.total == s.ledger.total;
    RunTwo(c, s, update, Check(|s.captures|));
    var s' := Run(c, s, [update, Check(|s.captures|)]);
    assert InFlight(s1, |s.captures|);
    assert s'.outcomes[|s.outcomes|].reason != TotalExceeded;
  }

  lemma {:induction false} CheckedAreCaptured(c: Config, labels: seq<Label>)
    ensures forall i :: i in Run(c, START, labels).checked ==> i < |Run(c, START, labels).captures|
  {
    if labels != [] {
      CheckedAreCaptured(c, labels[..|labels| - 1]);
    }
  }

  /**
   * In any reachable state every later check is blocked on the total exactly when the total spent reaches the limit
   * and no update that captured less is still to be checked.
   */
  lemma LaterChecksBlockedIff(c: Config, labels: seq<Label>)
    ensures var s := Run(c, START, labels);
            AllLaterBlocked(c, s) <==> Blocks(c, s.ledger.total) && NoStragglers(c, s)
  {
    var s := Run(c, START, labels);
    RunInv(c, START, labels);
    if !Blocks(c, s.ledger.total) {
      CheckedAreCaptured(c, labels);
      NewUpdatePasses(c, s, "", Date(0, 0));
    } else if !NoStragglers(c, s) {
      var i: nat :| InFlight(s, i) && !Blocks(c, s.captures[i].total);
      StragglerPasses(c, s, i);
    } else {
      forall after, k | |s.outcomes| <= k < |Run(c, s, after).outcomes|
        ensures Run(c, s, after).outcomes[k].reason == TotalExceeded
      {
        StaysBlocked(c, s, after);
      }
    }
  }

  /** For every positive limit, a run in which a check passes after another was blocked on the total. */
  lemma CheckCanPassAfterBlock(c: Config, a: string, b: string, date: Date) returns (labels: seq<Label>)
    requires c.enabled && c.blockOnExceed && c.totalBudget > 0.0 && c.dailyBudget <= 0.0 && c.sessionBudget <= 0.0
        && a != b
    ensures Run(c, START, labels).outcomes == [Outcome(1, TotalExceeded), Outcome(0, NotBlocked)]
  {
    var first, second := Update(a, c.totalBudget / 2.0, date, false), Update(b, c.totalBudget, date, false);
    labels := [first, second, Check(1), Check(0)];
    RunFour(c, START, first, second, Check(1), Check(0));
    TwoUpdates(c, a, b, date);
    TwoChecks(c, Next(c, Next(c, START, first), second));
  }

  lemma RunFour(c: Config, s: State, l1: Label, l2: Label, l3: Label, l4: Label)
    ensures Run(c, s, [l1, l2, l3, l4]) == Next(c, Next(c, Next(c, Next(c, s, l1), l2), l3), l4)
  {
    assert [l1, l2, l3, l4][..3] == [l1, l2, l3] && [l1, l2, l3][..2] == [l1, l2];
    RunTwo(c, s, l1, l2);
  }

  lemma TwoChecks(c: Config, s: State)
    requires c.enabled && c.blockOnExceed && c.dailyBudget <= 0.0 && c.sessionBudget <= 0.0
    requires |s.captures| == 2 && s.checked == {} && s.outcomes == []
    requires !Reaches(s.captures[0].total, c.totalBudget) && Reaches(s.captures[1].total, c.totalBudget)
    ensures Next(c, Next(c, s, Check(1)), Check(0)).outcomes == [Outcome(1, TotalExceeded), Outcome(0, NotBlocked)]
  {
    assert Next(c, s, Check(1)).outcomes == [Outcome(1, TotalExceeded)];
  }

  lemma TwoUpdates(c: Config, a: string, b: string, date: Date)
    requires c.totalBudget > 0.0 && a != b
    ensures var s := Next(c, Next(c, START, Update(a, c.totalBudget / 2.0, date, false)),
        Update(b, c.totalBudget, date, false));
            && |s.captures| == 2 && s.checked == {} && s.outcomes == []
            && s.captures[0].total == c.totalBudget / 2.0 && s.captures[1].total > c.totalBudget
  {
  }
}
