/** The execute operation of the stdio protocol: any provider stream is reduced to one terminal event and one result. */
module TerminalReducer {
  import opened Common
  import opened Multisets

  datatype EventType = Completed | Failed | Cancelled | Inconclusive | Progress(name: string)

  datatype Outcome = Succeeded | OutcomeFailed | OutcomeCancelled | OutcomeInconclusive | OtherOutcome(name: string)

  datatype Reason =
    | NoReason | MaxTurns | BudgetExhausted | RouteFalsified | ProtocolError | ContextCheckpoint
    | OtherReason(text: string)

  datatype Event = Event(kind: EventType, reason: Reason, text: string)

  datatype Result = Result(outcome: Outcome, reason: Reason, finalText: string)

  /** What is written to the caller. */
  datatype Envelope = EventOut(event: Event) | ResultOut(result: Result, error: string)

  predicate IsTerminal(e: Event) {
    !e.kind.Progress?
  }

  predicate ValidInconclusiveReason(r: Reason) {
    r.MaxTurns? || r.BudgetExhausted? || r.RouteFalsified? || r.ProtocolError? || r.ContextCheckpoint?
  }

  predicate TerminalMatchesResult(e: Event, result: Result, err: Option<string>) {
    if err.Some? && result.outcome != OutcomeFailed && result.outcome != OutcomeCancelled then false
    else
      match result.outcome
      case Succeeded => e.kind == Completed && result.reason == NoReason
      case OutcomeFailed => e.kind == Failed && result.reason == NoReason
      case OutcomeCancelled => e.kind == Cancelled && result.reason == NoReason
      case OutcomeInconclusive => e.kind == Inconclusive && e.reason == result.reason
          && ValidInconclusiveReason(result.reason)
      case OtherOutcome(_) => false
  }

  method Reduce(terminals: seq<Event>, given: Result, err: Option<string>) returns (terminal: Event, result: Result)
    ensures (terminal, result) == Reduced(terminals, given, err)
  {
    result := given;
    if |terminals| == 0 && err.Some? {
      result := result.(outcome := OutcomeFailed);
      result := result.(reason := NoReason);
      return Event(Failed, NoReason, err.value), result;
    }
    if |terminals| == 1 {
      if TerminalMatchesResult(terminals[0], result, err) {
        return terminals[0], result;
      }
    }
    result := result.(outcome := OutcomeInconclusive);
    result := result.(reason := ProtocolError);
    return Event(Inconclusive, ProtocolError, ""), result;
  }

  function Reduced(terminals: seq<Event>, given: Result, err: Option<string>): (Event, Result) {
    if terminals == [] && err.Some? then
      (Event(Failed, NoReason, err.value), given.(outcome := OutcomeFailed, reason := NoReason))
    else if |terminals| == 1 && TerminalMatchesResult(terminals[0], given, err) then
      (terminals[0], given)
    else
      (Event(Inconclusive, ProtocolError, ""), given.(outcome := OutcomeInconclusive, reason := ProtocolError))
  }

  function Terminal(): Event -> bool {
    (e: Event) => IsTerminal(e)
  }

  function NonTerminal(): Event -> bool {
    (e: Event) => !IsTerminal(e)
  }

  function Written(): Event -> Envelope {
    (e: Event) => EventOut(e)
  }

  /** The whole output for a provider that emits `stream` and then returns `given` and `err`. */
  function Output(stream: seq<Event>, given: Result, err: Option<string>): seq<Envelope> {
    var (terminal, result) := Reduced(Filtered(stream, Terminal()), given, err);
    Mapped(Filtered(stream, NonTerminal()), Written())
    + [EventOut(terminal), ResultOut(result, if err.Some? && result.outcome == OutcomeFailed then err.value else "")]
  }

  method Execute(stream: seq<Event>, given: Result, err: Option<string>) returns (output: seq<Envelope>)
    ensures output == Output(stream, given, err)
  {
    output := [];
    var terminals := [];
    for i := 0 to |stream|
      invariant terminals == Filtered(stream[..i], Terminal())
      invariant output == Mapped(Filtered(stream[..i], NonTerminal()), Written())
    {
      var e := stream[i];
      var before := stream[..i];
      assert stream[..i + 1][..i] == before;
      assert Filtered(before, Terminal()) + [] == Filtered(before, Terminal());
      assert Filtered(before, NonTerminal()) + [] == Filtered(before, NonTerminal());
      if IsTerminal(e) {
        terminals := terminals + [e];
      } else {
        WriteOne(Filtered(before, NonTerminal()), e);
        output := output + [EventOut(e)];
      }
    }
    assert stream[..|stream|] == stream;
    var terminal, result := Reduce(terminals, given, err);
    output := output + [EventOut(terminal)];
    var error := "";
    if err.Some? && result.outcome == OutcomeFailed {
      error := err.value;
    }
    output := output + [ResultOut(result, error)];
  }

  lemma WriteOne(events: seq<Event>, e: Event)
    ensures Mapped(events + [e], Written()) == Mapped(events, Written()) + [EventOut(e)]
  {
    MappedAppend(events, e, Written());
  }

  // What a caller may rely on

  predicate TypesAgree(terminal: Event, result: Result) {
    match terminal.kind
    case Completed => result.outcome == Succeeded && result.reason == NoReason
    case Failed => result.outcome == OutcomeFailed && result.reason == NoReason
    case Cancelled => result.outcome == OutcomeCancelled && result.reason == NoReason
    case Inconclusive =>
      && result.outcome == OutcomeInconclusive && result.reason == terminal.reason
      && result.reason in {MaxTurns, BudgetExhausted, RouteFalsified, ProtocolError, ContextCheckpoint}
    case Progress(_) => false
  }

  lemma {:induction false} WrittenAreEvents(events: seq<Event>, i: nat)
    requires i < |events|
    ensures |Mapped(events, Written())| == |events| && Mapped(events, Written())[i] == EventOut(events[i])
  {
    if i < |events| - 1 {
      WrittenAreEvents(events[..|events| - 1], i);
    } else if i > 0 {
      WrittenAreEvents(events[..|events| - 1], i - 1);
    }
  }

  lemma ProgressIsWritten(stream: seq<Event>, i: nat)
    requires i < |Filtered(stream, NonTerminal())|
    ensures var events := Filtered(stream, NonTerminal());
            && |Mapped(events, Written())| == |events|
            && Mapped(events, Written())[i] == EventOut(events[i]) && !IsTerminal(events[i])
  {
    var events := Filtered(stream, NonTerminal());
    FilteredMembers(stream, NonTerminal());
    assert events[i] in events;
    WrittenAreEvents(events, i);
  }

  lemma MatchingAgrees(e: Event, result: Result, err: Option<string>)
    requires TerminalMatchesResult(e, result, err)
    ensures IsTerminal(e) && TypesAgree(e, result)
  {
  }

  lemma ReducedAgrees(terminals: seq<Event>, given: Result, err: Option<string>)
    ensures var (terminal, result) := Reduced(terminals, given, err);
            IsTerminal(terminal) && TypesAgree(terminal, result)
  {
    if |terminals| == 1 && TerminalMatchesResult(terminals[0], given, err) {
      MatchingAgrees(terminals[0], given, err);
    }
  }

  /** The output is the stream's progress events in order, one terminal event, and one result that agrees with it. */
  lemma OneTerminalThenOneResult(stream: seq<Event>, given: Result, err: Option<string>)
    ensures var out := Output(stream, given, err); var progress := Filtered(stream, NonTerminal()); var n := |progress|;
            && |out| == n + 2
            && (forall e :: e in progress <==> e in stream && e.kind.Progress?)
            && (forall i :: 0 <= i < n ==> out[i] == EventOut(progress[i]))
            && out[n].EventOut? && !out[n].event.kind.Progress?
            && out[n + 1].ResultOut? && TypesAgree(out[n].event, out[n + 1].result)
  {
    var progress := Filtered(stream, NonTerminal());
    var written := Mapped(progress, Written());
    assert |written| == |progress| by {
      if progress != [] {
        ProgressIsWritten(stream, 0);
      }
    }
    forall i | 0 <= i < |progress| ensures written[i] == EventOut(progress[i]) && !IsTerminal(progress[i]) {
      ProgressIsWritten(stream, i);
    }
    FilteredMembers(stream, NonTerminal());
    ReducedAgrees(Filtered(stream, Terminal()), given, err);
  }

  /**
   * What the caller reads last, case by case: an error before any terminal event is a failure with its cause; a single
   * terminal that agrees with the provider's result is passed on with that result; all else is a protocol error.
   */
  lemma OutputCases(stream: seq<Event>, given: Result, err: Option<string>)
    ensures var out := Output(stream, given, err);
            var n := |out| - 2;
            var terminals := Filtered(stream, Terminal());
            && n >= 0
            && if terminals == [] && err.Some? then
                 && out[n] == EventOut(Event(Failed, NoReason, err.value))
                 && out[n + 1] == ResultOut(Result(OutcomeFailed, NoReason, given.finalText), err.value)
               else if |terminals| == 1 && Stands(terminals[0], given, err) then
                 && out[n] == EventOut(terminals[0])
                 && out[n + 1].ResultOut? && out[n + 1].result == given
                 && out[n + 1].error == (if err.Some? && given.outcome == OutcomeFailed then err.value else "")
               else
                 && out[n] == EventOut(Event(Inconclusive, ProtocolError, ""))
                 && out[n + 1] == ResultOut(Result(OutcomeInconclusive, ProtocolError, given.finalText), "")
  {
    var terminals := Filtered(stream, Terminal());
    if |terminals| == 1 {
      MatchesIffStands(terminals[0], given, err);
    }
  }

  /** The terminal agrees with the result, and with the error if there is one. */
  predicate Stands(e: Event, given: Result, err: Option<string>) {
    TypesAgree(e, given) && (err.None? || e.kind == Failed || e.kind == Cancelled)
  }

  lemma MatchesIffStands(e: Event, given: Result, err: Option<string>)
    ensures TerminalMatchesResult(e, given, err) <==> Stands(e, given, err)
  {
  }

  /**
   * The caller reads success exactly when the provider returned no error, its stream holds one terminal event, a
   * completion, and its result is Succeeded without a reason.
   */
  lemma SuccessIff(stream: seq<Event>, given: Result, err: Option<string>)
    ensures var out := Output(stream, given, err); var terminals := Filtered(stream, Terminal());
            && out != [] && out[|out| - 1].ResultOut?
            && (out[|out| - 1].result.outcome == Succeeded
                <==> && err.None? && |terminals| == 1 && terminals[0].kind == Completed
                     && given.outcome == Succeeded && given.reason == NoReason)
  {
    OutputCases(stream, given, err);
  }

  /**
   * A failure with no terminal event keeps its cause; anything else inconsistent becomes a protocol error, and what
   * was said before the end is kept.
   */
  lemma ReductionCases(terminals: seq<Event>, given: Result, err: Option<string>)
    ensures var (terminal, result) := Reduced(terminals, given, err);
            && result.finalText == given.finalText
            && (terminals == [] && err.Some? ==> terminal.kind == Failed && terminal.text == err.value)
            && (terminals == [] && err.None? ==> result.reason == ProtocolError)
            && (|terminals| > 1 ==> result.reason == ProtocolError)
            && (|terminals| == 1 ==>
                  if TypesAgree(terminals[0], given) && (err.None? || terminals[0].kind in {Failed, Cancelled})
                  then terminal == terminals[0] && result == given
                  else result.reason == ProtocolError)
  {
  }

  /**
   * The reasons of terminal and result differ exactly when a single matching terminal that is not
   * inconclusive carries a reason: it is passed on although the result has none.
   */
  lemma ReasonsDifferIff(terminals: seq<Event>, given: Result, err: Option<string>)
    ensures var (terminal, result) := Reduced(terminals, given, err);
            terminal.reason != result.reason
            <==> && |terminals| == 1 && TerminalMatchesResult(terminals[0], given, err)
                 && terminals[0].kind != Inconclusive && terminals[0].reason != NoReason
  {
  }

  /** For instance a completion that carries a reason. */
  lemma CompletionMayCarryReason(text: string)
    ensures var given := Result(Succeeded, NoReason, text);
            var (terminal, result) := Reduced([Event(Completed, MaxTurns, text)], given, None);
            terminal.reason == MaxTurns && result.reason == NoReason
  {
  }

  /** Reducing the reduced pair again changes nothing. */
  lemma ReductionIsStable(terminals: seq<Event>, given: Result, err: Option<string>)
    ensures var (terminal, result) := Reduced(terminals, given, err);
            Reduced([terminal], result, if result.outcome == OutcomeFailed then err else None) == (terminal, result)
  {
  }
}
