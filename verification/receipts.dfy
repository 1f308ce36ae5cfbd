/** Turns of a conversation under the gateway's guard, and the receipts that keep a command's
    delivery from being dispatched twice. Every step runs between two suspensions. */
module Receipts {
  import opened Wrappers

  type TalkId = nat
  type SessionId = nat
  type ScopeId = nat

  /** One inbound row a surface and platform message id: the unique index of the ledger. */
  datatype Delivery = Delivery(surface: nat, id: string)

  datatype Request = Request(delivery: Delivery, sender: string, agent: string, invocation: string)

  datatype Outcome = Done | Error(message: string)

  const BUSY := Error("This conversation already has an active turn.")
  const ANOTHER := Error("This delivery ID already identifies another request.")
  const NO_OUTCOME :=
    Error("This command delivery was already accepted, but no outcome was recorded; "
          + "its effects may already have occurred.")
  const UNFINISHED := Error("Command execution did not finish; its effects may already have occurred.")
  const FAILED := Error("Command execution failed; its effects may already have occurred.")
  const NO_RUN := Error("The command adapter emitted a run without a conversation.")

  datatype Row =
    | Chat
    | Receipt(request: Request, talk: TalkId, scope: ScopeId, outcome: Option<Outcome>)

  /** Where a turn stands. `Yielded` ones answered from validation and run nothing; `Collided` ones
      ended in an error, their delivery having been recorded since they were validated. */
  datatype Stage =
    | Driving
    | Validating
    | Validated
    | Yielded(answer: Outcome)
    | Collided
    | Accepted
    | Dispatched
    | Streaming(consumed: bool)
    | Finished(outcome: Outcome)
    | Left

  /** One pass through `driving`: a chat turn, or a command's. `talk` is None before a conversation
      exists. `guards` while its entry in the session map is its own to remove. */
  datatype Scope = Scope(
    talk: Option<TalkId>, holder: Option<SessionId>, command: Option<Request>,
    guards: bool, dispatched: bool, stage: Stage)

  datatype State = State(sessions: map<TalkId, Option<SessionId>>, rows: map<Delivery, Row>, scopes: seq<Scope>)

  const IDLE := State(map[], map[], [])

  datatype Result = Returned(outcome: Outcome) | Raised | Interrupted

  datatype Step =
    | Drive(talk: Option<TalkId>, holder: Option<SessionId>)
    | Validate(talk: Option<TalkId>, holder: Option<SessionId>, request: Request)
    | Judge(scope: ScopeId, refusal: Option<Outcome>, objection: Option<Outcome>)
    | Store(scope: ScopeId)
    | Dispatch(scope: ScopeId)
    | Answer(scope: ScopeId, result: Result, recorded: bool)
    | BeginStream(scope: ScopeId, recorded: bool)
    | Consume(scope: ScopeId)
    | EndStream(scope: ScopeId, normal: bool, closed: bool, recorded: bool)
    | Leave(scope: ScopeId)
    | ArriveChat(delivery: Delivery)
    | Restart

  // ---------------------------------------------------------------- the guard

  type Sessions = map<TalkId, Option<SessionId>>

  /** `driving` lets a turn in where the conversation is free, or its session already holds it. */
  predicate Admits(sessions: Sessions, talk: Option<TalkId>, holder: Option<SessionId>) {
    talk.Some? && talk.value in sessions ==> holder.Some? && sessions[talk.value] == holder
  }

  function Entered(sessions: Sessions, talk: Option<TalkId>, holder: Option<SessionId>): Sessions {
    if talk.None? then sessions else sessions[talk.value := holder]
  }

  /** A turn removes its own session's entry; one without a session removes an entry without one. */
  function Exited(sessions: Sessions, talk: Option<TalkId>, holder: Option<SessionId>): Sessions {
    if talk.Some? && talk.value in sessions && sessions[talk.value] == holder then sessions - {talk.value} else sessions
  }

  // ---------------------------------------------------------------- receipts

  /** What a delivery already accepted answers a request with. */
  function Replay(row: Row, request: Request, talk: TalkId): Outcome {
    if row.Chat? || row.request != request || row.talk != talk then ANOTHER
    else if row.outcome.Some? then row.outcome.value
    else NO_OUTCOME
  }

  function Judged(rows: map<Delivery, Row>, request: Request, talk: Option<TalkId>,
                  refusal: Option<Outcome>, objection: Option<Outcome>): Stage {
    if refusal.Some? then Yielded(refusal.value)
    else if talk.Some? && request.delivery in rows then Yielded(Replay(rows[request.delivery], request, talk.value))
    else if objection.Some? then Yielded(objection.value)
    else Validated
  }

  function Recorded(rows: map<Delivery, Row>, delivery: Delivery, outcome: Outcome): map<Delivery, Row> {
    if delivery in rows && rows[delivery].Receipt?
    then rows[delivery := rows[delivery].(outcome := Some(outcome))]
    else rows
  }

  function Reported(result: Result): Outcome {
    match result
    case Returned(outcome) => outcome
    case Raised => FAILED
    case Interrupted => UNFINISHED
  }

  function Streamed(consumed: bool, normal: bool, closed: bool): Outcome {
    if consumed && normal && closed then Done else UNFINISHED
  }

  predicate At(s: State, i: ScopeId, stage: Stage) {
    i < |s.scopes| && s.scopes[i].stage == stage
  }

  function Moved(s: State, i: ScopeId, stage: Stage): State
    requires i < |s.scopes|
  {
    s.(scopes := s.scopes[i := s.scopes[i].(stage := stage)])
  }

  /** A dispatched command is over: its outcome goes to its receipt, if it has one and the write
      goes through. */
  function Settled(s: State, i: ScopeId, outcome: Outcome, recorded: bool): State
    requires i < |s.scopes|
  {
    var scope := s.scopes[i];
    var rows := if recorded && scope.talk.Some? && scope.command.Some?
                then Recorded(s.rows, scope.command.value.delivery, outcome)
                else s.rows;
    Moved(s.(rows := rows), i, Finished(outcome))
  }

  function After(s: State, step: Step): State {
    match step
    case Drive(talk, holder) =>
      if !Admits(s.sessions, talk, holder) then s
      else s.(sessions := Entered(s.sessions, talk, holder),
              scopes := s.scopes + [Scope(talk, holder, None, talk.Some?, false, Driving)])
    case Validate(talk, holder, request) =>
      if talk.Some? && talk.value in s.sessions
      then s.(scopes := s.scopes + [Scope(talk, holder, Some(request), false, false, Yielded(BUSY))])
      else s.(sessions := Entered(s.sessions, talk, holder),
              scopes := s.scopes + [Scope(talk, holder, Some(request), talk.Some?, false, Validating)])
    case Judge(i, refusal, objection) =>
      if At(s, i, Validating) && s.scopes[i].command.Some?
      then Moved(s, i, Judged(s.rows, s.scopes[i].command.value, s.scopes[i].talk, refusal, objection))
      else s
    case Store(i) =>
      if !At(s, i, Validated) || s.scopes[i].command.None? then s
      else if s.scopes[i].talk.None? then Moved(s, i, Accepted)
      else
        var request := s.scopes[i].command.value;
        if request.delivery in s.rows then Moved(s, i, Collided)
        else
          Moved(s.(rows := s.rows[request.delivery := Receipt(request, s.scopes[i].talk.value, i, None)]), i, Accepted)
    case Dispatch(i) =>
      if At(s, i, Accepted)
      then s.(scopes := s.scopes[i := s.scopes[i].(stage := Dispatched, dispatched := true)])
      else s
    case Answer(i, result, recorded) =>
      if At(s, i, Dispatched) then Settled(s, i, Reported(result), recorded) else s
    case BeginStream(i, recorded) =>
      if !At(s, i, Dispatched) then s
      else if s.scopes[i].talk.None? then Settled(s, i, NO_RUN, recorded)
      else Moved(s, i, Streaming(false))
    case Consume(i) => if At(s, i, Streaming(false)) then Moved(s, i, Streaming(true)) else s
    case EndStream(i, normal, closed, recorded) =>
      if i < |s.scopes| && s.scopes[i].stage.Streaming?
      then Settled(s, i, Streamed(s.scopes[i].stage.consumed, normal, closed), recorded)
      else s
    case Leave(i) =>
      if i >= |s.scopes| || s.scopes[i].stage in {Dispatched, Streaming(false), Streaming(true), Left} then s
      else
        var scope := s.scopes[i];
        Moved(s, i, Left)
        .(sessions := if scope.guards then Exited(s.sessions, scope.talk, scope.holder) else s.sessions)
    case ArriveChat(delivery) => if delivery in s.rows then s else s.(rows := s.rows[delivery := Chat])
    case Restart => State(map[], s.rows, seq(|s.scopes|, i requires 0 <= i < |s.scopes| => s.scopes[i].(stage := Left)))
  }

  function Run(s: State, steps: seq<Step>): State
    decreases |steps|
  {
    if steps == [] then s else Run(After(s, steps[0]), steps[1..])
  }

  // ---------------------------------------------------------------- what every step keeps

  /** A dispatched command of a conversation has its receipt; a receipt's outcome is written when
      its scope finishes, and not before. */
  ghost predicate ValidScope(s: State, i: ScopeId)
    requires i < |s.scopes|
  {
    var scope := s.scopes[i];
    && (!scope.stage.Driving? && !scope.stage.Left? ==> scope.command.Some?)
    && (scope.command.None? ==> !scope.dispatched)
    && (scope.dispatched ==>
          scope.stage.Dispatched? || scope.stage.Streaming? || scope.stage.Finished? || scope.stage.Left?)
    && (scope.stage.Dispatched? || scope.stage.Streaming? ==> scope.dispatched)
    && (scope.talk.Some? && scope.command.Some? && (scope.stage.Accepted? || scope.dispatched) ==>
          HasReceipt(s, i))
    && (scope.stage.Streaming? ==> scope.talk.Some?)
  }

  ghost predicate HasReceipt(s: State, i: ScopeId)
    requires i < |s.scopes| && s.scopes[i].command.Some? && s.scopes[i].talk.Some?
  {
    var request := s.scopes[i].command.value;
    && request.delivery in s.rows && s.rows[request.delivery].Receipt?
    && s.rows[request.delivery].scope == i
    && s.rows[request.delivery].request == request
    && s.rows[request.delivery].talk == s.scopes[i].talk.value
    && (s.scopes[i].stage.Accepted? || s.scopes[i].stage.Dispatched? || s.scopes[i].stage.Streaming? ==>
          s.rows[request.delivery].outcome.None?)
    && (s.scopes[i].stage.Finished? ==>
          s.rows[request.delivery].outcome.None? || s.rows[request.delivery].outcome == Some(s.scopes[i].stage.outcome))
  }

  ghost predicate ValidRow(s: State, d: Delivery)
    requires d in s.rows
  {
    s.rows[d].Receipt? ==>
      && s.rows[d].request.delivery == d
      && s.rows[d].scope < |s.scopes|
      && s.scopes[s.rows[d].scope].command == Some(s.rows[d].request)
      && s.scopes[s.rows[d].scope].talk == Some(s.rows[d].talk)
      && !s.scopes[s.rows[d].scope].stage.Validating? && !s.scopes[s.rows[d].scope].stage.Validated?
  }

  ghost predicate Valid(s: State) {
    && (forall i :: 0 <= i < |s.scopes| ==> ValidScope(s, i))
    && (forall d :: d in s.rows ==> ValidRow(s, d))
  }

  /** A step that only moves one scope on, among stages without a receipt at stake. */
  lemma MoveKeepsValid(s: State, i: ScopeId, stage: Stage, sessions: Sessions)
    requires Valid(s) && i < |s.scopes|
    requires stage.Yielded? || stage.Collided? || stage.Validated? || stage.Left?
             || (stage == Accepted && s.scopes[i].talk.None?)
             || (stage == Streaming(false) && s.scopes[i].stage.Dispatched? && s.scopes[i].talk.Some?)
             || (stage == Streaming(true) && s.scopes[i].stage.Streaming?)
    requires !stage.Left? && !stage.Streaming? ==> !s.scopes[i].dispatched && s.scopes[i].command.Some?
    requires stage.Validated? ==> s.scopes[i].stage.Validating?
    ensures Valid(Moved(s, i, stage).(sessions := sessions))
  {
    var after := Moved(s, i, stage).(sessions := sessions);
    forall j | 0 <= j < |after.scopes| ensures ValidScope(after, j) {
      assert ValidScope(s, j);
    }
    forall d | d in after.rows ensures ValidRow(after, d) {
      assert ValidRow(s, d);
    }
  }

  lemma OpenKeepsValid(s: State, scope: Scope, sessions: Sessions)
    requires Valid(s)
    requires !scope.dispatched
    requires scope.stage == Driving || (scope.command.Some? && (scope.stage == Validating || scope.stage.Yielded?))
    ensures Valid(s.(scopes := s.scopes + [scope], sessions := sessions))
  {
    var after := s.(scopes := s.scopes + [scope], sessions := sessions);
    forall j | 0 <= j < |after.scopes| ensures ValidScope(after, j) {
      assert j < |s.scopes| ==> ValidScope(s, j);
    }
    forall d | d in after.rows ensures ValidRow(after, d) {
      assert ValidRow(s, d);
    }
  }

  lemma StoreKeepsValid(s: State, i: ScopeId)
    requires Valid(s)
    ensures Valid(After(s, Store(i)))
  {
    if At(s, i, Validated) && s.scopes[i].command.Some? {
      assert ValidScope(s, i);
      var request := s.scopes[i].command.value;
      if s.scopes[i].talk.None? {
        MoveKeepsValid(s, i, Accepted, s.sessions);
      } else if request.delivery in s.rows {
        MoveKeepsValid(s, i, Collided, s.sessions);
      } else {
        var after := After(s, Store(i));
        forall j | 0 <= j < |after.scopes| ensures ValidScope(after, j) {
          assert ValidScope(s, j);
        }
        forall d | d in after.rows ensures ValidRow(after, d) {
          assert d in s.rows ==> ValidRow(s, d);
        }
      }
    }
  }

  lemma DispatchKeepsValid(s: State, i: ScopeId)
    requires Valid(s)
    ensures Valid(After(s, Dispatch(i)))
  {
    var after := After(s, Dispatch(i));
    forall j | 0 <= j < |after.scopes| ensures ValidScope(after, j) {
      assert ValidScope(s, j);
    }
    forall d | d in after.rows ensures ValidRow(after, d) {
      assert ValidRow(s, d);
    }
  }

  lemma SettledKeepsValid(s: State, i: ScopeId, outcome: Outcome, recorded: bool)
    requires Valid(s) && i < |s.scopes| && s.scopes[i].dispatched
    requires s.scopes[i].stage.Dispatched? || s.scopes[i].stage.Streaming?
    ensures Valid(Settled(s, i, outcome, recorded))
  {
    assert ValidScope(s, i);
    var after := Settled(s, i, outcome, recorded);
    forall j | 0 <= j < |after.scopes| ensures ValidScope(after, j) {
      assert ValidScope(s, j);
    }
    forall d | d in after.rows ensures ValidRow(after, d) {
      assert ValidRow(s, d);
    }
  }

  lemma OutsideKeepsValid(s: State, step: Step)
    requires Valid(s) && (step.ArriveChat? || step.Restart?)
    ensures Valid(After(s, step))
  {
    var after := After(s, step);
    forall j | 0 <= j < |after.scopes| ensures ValidScope(after, j) {
      assert ValidScope(s, j);
    }
    forall d | d in after.rows ensures ValidRow(after, d) {
      assert d in s.rows ==> ValidRow(s, d);
    }
  }

  lemma ScopeIsValid(s: State, i: ScopeId)
    requires Valid(s) && i < |s.scopes|
    ensures ValidScope(s, i)
  {
  }

  lemma StepKeepsValid(s: State, step: Step)
    requires Valid(s)
    ensures Valid(After(s, step))
  {
    hide Valid, Settled, Judged, HasReceipt;
    match step
    case Drive(talk, holder) =>
      if Admits(s.sessions, talk, holder) {
        OpenKeepsValid(s, Scope(talk, holder, None, talk.Some?, false, Driving), Entered(s.sessions, talk, holder));
      }
    case Validate(talk, holder, request) =>
      OpenKeepsValid(s, Scope(talk, holder, Some(request), false, false, Yielded(BUSY)), s.sessions);
      OpenKeepsValid(s, Scope(talk, holder, Some(request), talk.Some?, false, Validating),
                     Entered(s.sessions, talk, holder));
    case Judge(i, refusal, objection) =>
      if At(s, i, Validating) && s.scopes[i].command.Some? {
        ScopeIsValid(s, i);
        var stage := Judged(s.rows, s.scopes[i].command.value, s.scopes[i].talk, refusal, objection);
        JudgedIs(s.rows, s.scopes[i].command.value, s.scopes[i].talk, refusal, objection);
        MoveKeepsValid(s, i, stage, s.sessions);
      }
    case Store(i) => StoreKeepsValid(s, i);
    case Dispatch(i) => DispatchKeepsValid(s, i);
    case Answer(i, result, recorded) =>
      if At(s, i, Dispatched) {
        ScopeIsValid(s, i);
        SettledKeepsValid(s, i, Reported(result), recorded);
      }
    case BeginStream(i, recorded) =>
      if At(s, i, Dispatched) {
        ScopeIsValid(s, i);
        if s.scopes[i].talk.None? {
          SettledKeepsValid(s, i, NO_RUN, recorded);
        } else {
          MoveKeepsValid(s, i, Streaming(false), s.sessions);
        }
      }
    case Consume(i) => if At(s, i, Streaming(false)) { MoveKeepsValid(s, i, Streaming(true), s.sessions); }
    case EndStream(i, normal, closed, recorded) =>
      if After(s, step) != s {
        ScopeIsValid(s, i);
        SettledKeepsValid(s, i, Streamed(s.scopes[i].stage.consumed, normal, closed), recorded);
      }
    case Leave(i) =>
      if After(s, step) != s {
        MoveKeepsValid(s, i, Left, After(s, step).sessions);
      }
    case _ => OutsideKeepsValid(s, step);
  }

  lemma JudgedIs(rows: map<Delivery, Row>, request: Request, talk: Option<TalkId>, refusal: Option<Outcome>,
                 objection: Option<Outcome>)
    ensures var stage := Judged(rows, request, talk, refusal, objection); stage.Yielded? || stage.Validated?
  {
  }

  lemma {:induction false} RunKeepsValid(s: State, steps: seq<Step>)
    requires Valid(s)
    ensures Valid(Run(s, steps))
    decreases |steps|
  {
    if steps != [] {
      hide Valid, After;
      StepKeepsValid(s, steps[0]);
      RunKeepsValid(After(s, steps[0]), steps[1..]);
    }
  }

  // ---------------------------------------------------------------- dispatched once

  lemma {:induction false} RunOn(s: State, first: seq<Step>, rest: seq<Step>)
    ensures Run(s, first + rest) == Run(Run(s, first), rest)
    decreases |first|
  {
    hide After;
    if first == [] {
      assert first + rest == rest;
    } else {
      assert (first + rest)[1..] == first[1..] + rest;
      RunOn(After(s, first[0]), first[1..], rest);
    }
  }

  ghost predicate DispatchedFor(s: State, i: ScopeId, talk: Option<TalkId>, command: Option<Request>) {
    i < |s.scopes| && s.scopes[i].dispatched && s.scopes[i].talk == talk && s.scopes[i].command == command
  }

  lemma StepStaysDispatched(s: State, step: Step, i: ScopeId, talk: Option<TalkId>, command: Option<Request>)
    requires DispatchedFor(s, i, talk, command)
    ensures DispatchedFor(After(s, step), i, talk, command)
  {
    hide Judged, Recorded, Exited, Entered, Admits;
  }

  lemma {:induction false} StaysDispatched(s: State, steps: seq<Step>, i: ScopeId, talk: Option<TalkId>,
                                           command: Option<Request>)
    requires DispatchedFor(s, i, talk, command)
    ensures DispatchedFor(Run(s, steps), i, talk, command)
    decreases |steps|
  {
    if steps != [] {
      StepStaysDispatched(s, steps[0], i, talk, command);
      hide After, DispatchedFor;
      StaysDispatched(After(s, steps[0]), steps[1..], i, talk, command);
    }
  }

  /** The step hands a conversation's command to its runtime. */
  ghost predicate Dispatches(s: State, step: Step, d: Delivery) {
    && step.Dispatch? && At(s, step.scope, Accepted) && s.scopes[step.scope].talk.Some?
    && s.scopes[step.scope].command.Some? && s.scopes[step.scope].command.value.delivery == d
  }

  /** Whatever fails, is cancelled or restarted in between, a conversation's delivery is handed to
      a runtime once. */
  lemma DispatchedOnce(steps: seq<Step>, d: Delivery, a: nat, b: nat)
    requires a < b < |steps|
    requires Dispatches(Run(IDLE, steps[..a]), steps[a], d)
    ensures !Dispatches(Run(IDLE, steps[..b]), steps[b], d)
  {
    var s, later := Run(IDLE, steps[..a]), Run(IDLE, steps[..b]);
    RunKeepsValid(IDLE, steps[..a]);
    RunKeepsValid(IDLE, steps[..b]);
    var i := steps[a].scope;
    var talk, command := s.scopes[i].talk, s.scopes[i].command;
    var next := After(s, steps[a]);
    assert DispatchedFor(next, i, talk, command);
    assert later == Run(next, steps[a + 1..b]) by {
      assert steps[..b] == steps[..a] + steps[a..b];
      RunOn(IDLE, steps[..a], steps[a..b]);
      assert steps[a..b][1..] == steps[a + 1..b];
    }
    StaysDispatched(next, steps[a + 1..b], i, talk, command);
    hide Run, After, Valid;
    ScopeIsValid(later, i);
    if Dispatches(later, steps[b], d) {
      ScopeIsValid(later, steps[b].scope);
      assert false;
    }
  }

  // ---------------------------------------------------------------- what a receipt answers

  /** A row stays, and with it whose it is; an outcome once there stays too. */
  ghost predicate Kept(s: State, after: State, d: Delivery) {
    d in s.rows ==>
      && d in after.rows && (after.rows[d].Chat? <==> s.rows[d].Chat?)
      && (s.rows[d].Receipt? ==>
            && after.rows[d].request == s.rows[d].request && after.rows[d].talk == s.rows[d].talk
            && (s.rows[d].outcome.Some? ==> after.rows[d].outcome == s.rows[d].outcome))
  }

  lemma SettledKeepsRows(s: State, i: ScopeId, outcome: Outcome, recorded: bool, d: Delivery)
    requires Valid(s) && i < |s.scopes| && (s.scopes[i].stage.Dispatched? || s.scopes[i].stage.Streaming?)
    ensures Kept(s, Settled(s, i, outcome, recorded), d)
  {
    ScopeIsValid(s, i);
    hide Valid;
  }

  lemma StepKeepsRows(s: State, step: Step, d: Delivery)
    requires Valid(s)
    ensures Kept(s, After(s, step), d)
  {
    hide Valid, Settled, Judged;
    match step
    case Answer(i, result, recorded) =>
      if At(s, i, Dispatched) { SettledKeepsRows(s, i, Reported(result), recorded, d); }
    case BeginStream(i, recorded) =>
      if At(s, i, Dispatched) { SettledKeepsRows(s, i, NO_RUN, recorded, d); }
    case EndStream(i, normal, closed, recorded) =>
      if i < |s.scopes| && s.scopes[i].stage.Streaming? {
        SettledKeepsRows(s, i, Streamed(s.scopes[i].stage.consumed, normal, closed), recorded, d);
      }
    case _ =>
  }

  lemma {:induction false} RunKeepsRows(s: State, steps: seq<Step>, d: Delivery)
    requires Valid(s)
    ensures Kept(s, Run(s, steps), d)
    decreases |steps|
  {
    if steps != [] {
      StepKeepsValid(s, steps[0]);
      StepKeepsRows(s, steps[0], d);
      hide Valid, After;
      RunKeepsRows(After(s, steps[0]), steps[1..], d);
    }
  }

  /** Once an outcome is recorded, a retry that reaches its receipt is answered with it for good,
      and any other request under that delivery id is refused. */
  lemma RetryYieldsTheOutcome(before: seq<Step>, d: Delivery, later: seq<Step>, j: ScopeId, objection: Option<Outcome>)
    requires var s := Run(IDLE, before); d in s.rows && s.rows[d].Receipt? && s.rows[d].outcome.Some?
    requires var end := Run(Run(IDLE, before), later);
             At(end, j, Validating) && end.scopes[j].command.Some? && end.scopes[j].command.value.delivery == d
             && end.scopes[j].talk.Some?
    ensures var row := Run(IDLE, before).rows[d];
            var end := Run(Run(IDLE, before), later);
            var matching := end.scopes[j].command.value == row.request && end.scopes[j].talk.value == row.talk;
            After(end, Judge(j, None, objection)).scopes[j].stage
            == Yielded(if matching then row.outcome.value else ANOTHER)
  {
    var s := Run(IDLE, before);
    RunKeepsValid(IDLE, before);
    RunKeepsRows(s, later, d);
    hide Run;
  }

  /** The receipt of this very request, with no outcome yet. */
  predicate Pending(row: Row, request: Request, talk: TalkId) {
    row.Receipt? && row.outcome.None? && row.request == request && row.talk == talk
  }

  /** A delivery once accepted is never validated again; while nothing is recorded for it, a
      matching retry is told just that. */
  lemma AcceptedIsNotRepeated(before: seq<Step>, d: Delivery, later: seq<Step>, j: ScopeId,
                              refusal: Option<Outcome>, objection: Option<Outcome>)
    requires d in Run(IDLE, before).rows
    requires var end := Run(Run(IDLE, before), later);
             At(end, j, Validating) && end.scopes[j].command.Some? && end.scopes[j].command.value.delivery == d
             && end.scopes[j].talk.Some?
    ensures var end := Run(Run(IDLE, before), later);
            var scope, stage := end.scopes[j], After(end, Judge(j, refusal, objection)).scopes[j].stage;
            && d in end.rows && stage.Yielded?
            && (refusal.None? && Pending(end.rows[d], scope.command.value, scope.talk.value) ==>
                stage == Yielded(NO_OUTCOME))
  {
    RunKeepsValid(IDLE, before);
    RunKeepsRows(Run(IDLE, before), later, d);
    hide Run;
  }

  /** A request passes exactly if nothing refuses it, its delivery is not recorded for its conversation,
      and the catalog has no objection. A refusal is yielded as it is, before anything else; an
      objection as it is, but only to a delivery that is new; and in between a recorded one is
      answered from its row. */
  lemma JudgedExactly(s: State, i: ScopeId, refusal: Option<Outcome>, objection: Option<Outcome>)
    requires At(s, i, Validating) && s.scopes[i].command.Some?
    ensures var scope, after := s.scopes[i], After(s, Judge(i, refusal, objection));
            var request, stage := scope.command.value, after.scopes[i].stage;
            var recorded := scope.talk.Some? && request.delivery in s.rows;
            && (stage == Validated <==> refusal == None && !recorded && objection == None)
            && (refusal.Some? ==> stage == Yielded(refusal.value))
            && (refusal.None? && recorded ==>
                  stage == Yielded(match s.rows[request.delivery]
                                   case Chat => ANOTHER
                                   case Receipt(original, talk, _, outcome) =>
                                     if original != request || scope.talk != Some(talk) then ANOTHER
                                     else match outcome case None => NO_OUTCOME case Some(known) => known))
            && (refusal.None? && !recorded && objection.Some? ==> stage == Yielded(objection.value))
            && after == s.(scopes := s.scopes[i := scope.(stage := stage)])
  {
  }

  /** Answered from validation, and not handed to any runtime. */
  ghost predicate Dismissed(s: State, i: ScopeId) {
    i < |s.scopes| && !s.scopes[i].dispatched && (s.scopes[i].stage.Yielded? || s.scopes[i].stage.Left?)
  }

  lemma StepKeepsDismissed(s: State, step: Step, i: ScopeId)
    requires Dismissed(s, i)
    ensures Dismissed(After(s, step), i)
  {
    hide Judged, Recorded, Exited, Entered, Admits;
  }

  lemma {:induction false} RunKeepsDismissed(s: State, steps: seq<Step>, i: ScopeId)
    requires Dismissed(s, i)
    ensures Dismissed(Run(s, steps), i)
    decreases |steps|
  {
    if steps != [] {
      StepKeepsDismissed(s, steps[0], i);
      hide After, Dismissed;
      RunKeepsDismissed(After(s, steps[0]), steps[1..], i);
    }
  }

  /** What was refused, objected to, or recorded already when it was judged is never dispatched. */
  lemma JudgedAwayIsNeverDispatched(before: seq<Step>, i: ScopeId, refusal: Option<Outcome>, objection: Option<Outcome>,
                                    later: seq<Step>)
    requires At(Run(IDLE, before), i, Validating)
    ensures var s := Run(IDLE, before);
            s.scopes[i].command.Some?
            && var end := Run(After(s, Judge(i, refusal, objection)), later);
               (refusal.Some? || objection.Some?
                || (s.scopes[i].talk.Some? && s.scopes[i].command.value.delivery in s.rows)) ==>
                 i < |end.scopes| && !end.scopes[i].dispatched
  {
    var s := Run(IDLE, before);
    RunKeepsValid(IDLE, before);
    ScopeIsValid(s, i);
    var next := After(s, Judge(i, refusal, objection));
    JudgedExactly(s, i, refusal, objection);
    hide Run, Valid, After;
    if next.scopes[i].stage.Yielded? {
      RunKeepsDismissed(next, later, i);
    }
  }

  /** A streamed command's receipt says it was done exactly when the consumer came to the end, left
      its block normally, and both generators closed cleanly; and so for good. */
  lemma StreamedIsDoneExactly(before: seq<Step>, i: ScopeId, normal: bool, closed: bool, recorded: bool,
                              later: seq<Step>)
    requires i < |Run(IDLE, before).scopes| && Run(IDLE, before).scopes[i].stage.Streaming?
    ensures var s := Run(IDLE, before);
            s.scopes[i].command.Some?
            && var d := s.scopes[i].command.value.delivery;
               var end := Run(After(s, EndStream(i, normal, closed, recorded)), later);
               d in end.rows && end.rows[d].Receipt? && end.rows[d].request == s.scopes[i].command.value
               && (recorded ==>
                     (end.rows[d].outcome == Some(Done) <==> s.scopes[i].stage.consumed && normal && closed)
                     && (end.rows[d].outcome == Some(UNFINISHED)
                         <==> !(s.scopes[i].stage.consumed && normal && closed)))
  {
    var s := Run(IDLE, before);
    RunKeepsValid(IDLE, before);
    ScopeIsValid(s, i);
    var d := s.scopes[i].command.value.delivery;
    var next := After(s, EndStream(i, normal, closed, recorded));
    StepKeepsValid(s, EndStream(i, normal, closed, recorded));
    RunKeepsRows(next, later, d);
    hide Run, Valid;
    assert HasReceipt(s, i);
  }

  /** What a runtime answered directly, or how it failed, is its receipt's outcome for good. */
  lemma AnswerIsRecorded(before: seq<Step>, i: ScopeId, result: Result, later: seq<Step>)
    requires At(Run(IDLE, before), i, Dispatched) && Run(IDLE, before).scopes[i].talk.Some?
    ensures var s := Run(IDLE, before);
            s.scopes[i].command.Some?
            && var d := s.scopes[i].command.value.delivery;
               var end := Run(After(s, Answer(i, result, true)), later);
               d in end.rows && end.rows[d].Receipt? && end.rows[d].request == s.scopes[i].command.value
               && (match result
                   case Returned(outcome) => end.rows[d].outcome == Some(outcome)
                   case Raised => end.rows[d].outcome == Some(FAILED)
                   case Interrupted => end.rows[d].outcome == Some(UNFINISHED))
  {
    var s := Run(IDLE, before);
    RunKeepsValid(IDLE, before);
    ScopeIsValid(s, i);
    var next := After(s, Answer(i, result, true));
    StepKeepsValid(s, Answer(i, result, true));
    RunKeepsRows(next, later, s.scopes[i].command.value.delivery);
    hide Run, Valid;
    assert HasReceipt(s, i);
  }

  // ---------------------------------------------------------------- how turns come and go

  /** A turn is let in exactly where its conversation is free, or held by its very session; a command
      only where it is free, and told that it is busy otherwise, holding nothing. */
  lemma EntersExactly(s: State, talk: Option<TalkId>, holder: Option<SessionId>, request: Request)
    ensures var taken := talk.Some? && talk.value in s.sessions;
            var sessions := if talk.Some? then s.sessions[talk.value := holder] else s.sessions;
            && After(s, Drive(talk, holder))
               == (if taken && (holder.None? || s.sessions[talk.value] != holder) then s
                   else State(sessions, s.rows, s.scopes + [Scope(talk, holder, None, talk.Some?, false, Driving)]))
            && After(s, Validate(talk, holder, request))
               == if taken
                  then s.(scopes := s.scopes + [Scope(talk, holder, Some(request), false, false, Yielded(BUSY))])
                  else State(sessions, s.rows,
                             s.scopes + [Scope(talk, holder, Some(request), talk.Some?, false, Validating)])
  {
  }

  /** A turn goes unless its command is with a runtime, and takes its own entry with it, no other's. */
  lemma LeavesExactly(s: State, i: ScopeId, c: TalkId)
    requires i < |s.scopes|
    ensures var scope, after := s.scopes[i], After(s, Leave(i));
            var leaves := !scope.stage.Dispatched? && !scope.stage.Streaming? && !scope.stage.Left?;
            && (leaves <==> after.scopes != s.scopes)
            && after.scopes == (if leaves then s.scopes[i := scope.(stage := Left)] else s.scopes)
            && (c in after.sessions <==>
                  && c in s.sessions
                  && !(leaves && scope.guards && scope.talk == Some(c) && s.sessions[c] == scope.holder))
            && (c in after.sessions ==> after.sessions[c] == s.sessions[c])
            && after.rows == s.rows
  {
    assert s.scopes[i] == s.scopes[i].(stage := s.scopes[i].stage);
  }

  /** An accepted command goes to its runtime once; what that streams is handed on, consumed to its end
      or not, unless there is no conversation for a run: then that is its answer. */
  lemma StreamsExactly(s: State, i: ScopeId, recorded: bool)
    requires i < |s.scopes|
    ensures s.scopes[i].stage == Accepted ==>
              After(s, Dispatch(i))
              == s.(scopes := s.scopes[i := s.scopes[i].(stage := Dispatched, dispatched := true)])
    ensures s.scopes[i].stage != Accepted ==> After(s, Dispatch(i)) == s
    ensures s.scopes[i].stage == Dispatched ==>
              After(s, BeginStream(i, recorded)).scopes[i].stage
              == if s.scopes[i].talk.None? then Finished(NO_RUN) else Streaming(false)
    ensures s.scopes[i].stage != Dispatched ==> After(s, BeginStream(i, recorded)) == s
    ensures After(s, Consume(i))
            == if s.scopes[i].stage == Streaming(false)
               then s.(scopes := s.scopes[i := s.scopes[i].(stage := Streaming(true))]) else s
  {
  }

  /** A chat message takes its delivery id like a receipt does: no command is accepted under it. */
  lemma ChatTakesTheId(s: State, d: Delivery, i: ScopeId)
    requires d !in s.rows
    requires i < |s.scopes| && s.scopes[i].talk.Some? && s.scopes[i].command.Some?
    requires s.scopes[i].command.value.delivery == d
    ensures var arrived := After(s, ArriveChat(d));
            && arrived.rows == s.rows[d := Chat] && arrived.scopes == s.scopes && arrived.sessions == s.sessions
            && (s.scopes[i].stage == Validating ==>
                  After(arrived, Judge(i, None, None)).scopes[i].stage == Yielded(ANOTHER))
            && (s.scopes[i].stage == Validated ==> After(arrived, Store(i)).scopes[i].stage == Collided)
            && After(arrived, Store(i)).rows == arrived.rows
  {
  }

  /** Without a conversation there is nothing to tell a retry by. */
  lemma WithoutConversationNothingIsKept(steps: seq<Step>, step: Step)
    requires step.Judge? || step.Store? || step.Dispatch? || step.Answer? || step.BeginStream? || step.Consume?
             || step.EndStream? || step.Leave?
    requires step.scope < |Run(IDLE, steps).scopes| && Run(IDLE, steps).scopes[step.scope].talk.None?
    ensures After(Run(IDLE, steps), step).rows == Run(IDLE, steps).rows
  {
    hide Run;
  }

  // ---------------------------------------------------------------- the guard over whole runs

  ghost predicate Live(s: State, i: ScopeId, c: TalkId) {
    i < |s.scopes| && s.scopes[i].guards && !s.scopes[i].stage.Left? && s.scopes[i].talk == Some(c)
  }

  ghost predicate OneTurn(s: State) {
    forall i: ScopeId, j: ScopeId, c: TalkId :: Live(s, i, c) && Live(s, j, c) ==> i == j
  }

  /** A session drives a conversation it is already driving. */
  predicate Reenters(s: State, step: Step) {
    && step.Drive? && step.talk.Some? && step.talk.value in s.sessions
    && step.holder.Some? && s.sessions[step.talk.value] == step.holder
  }

  /** A conversation is in the map exactly while one turn of it is live, under that turn's session. */
  ghost predicate Guarded(s: State) {
    && OneTurn(s)
    && (forall i: ScopeId, c: TalkId :: Live(s, i, c) ==> c in s.sessions && s.sessions[c] == s.scopes[i].holder)
    && (forall c :: c in s.sessions ==> exists i: ScopeId :: Live(s, i, c))
    && (forall i :: 0 <= i < |s.scopes| && s.scopes[i].talk.Some?
                    && (s.scopes[i].stage.Validating? || s.scopes[i].stage.Validated?)
          ==> s.scopes[i].guards)
  }

  lemma OpenKeepsGuarded(s: State, scope: Scope)
    requires Guarded(s) && !scope.stage.Left? && !scope.stage.Validated?
    requires scope.guards <==> scope.talk.Some?
    requires scope.talk.Some? ==> scope.talk.value !in s.sessions
    ensures Guarded(s.(scopes := s.scopes + [scope], sessions := Entered(s.sessions, scope.talk, scope.holder)))
  {
    var after := s.(scopes := s.scopes + [scope], sessions := Entered(s.sessions, scope.talk, scope.holder));
    forall i: ScopeId, c: TalkId | Live(after, i, c)
      ensures c in after.sessions && after.sessions[c] == after.scopes[i].holder
    {
      assert i < |s.scopes| ==> Live(s, i, c);
    }
    forall c | c in after.sessions ensures exists i: ScopeId :: Live(after, i, c) {
      if scope.talk == Some(c) {
        assert Live(after, |s.scopes|, c);
      } else {
        var i: ScopeId :| Live(s, i, c);
        assert Live(after, i, c);
      }
    }
    forall i: ScopeId, j: ScopeId, c: TalkId | Live(after, i, c) && Live(after, j, c) ensures i == j {
      assert i < |s.scopes| ==> Live(s, i, c);
      assert j < |s.scopes| ==> Live(s, j, c);
    }
  }

  /** Scopes that keep their conversation, holder and liveness keep the guard; so does a scope that
      never guarded anything. */
  lemma SameKeepsGuarded(s: State, after: State)
    requires Guarded(s) && after.sessions == s.sessions && |s.scopes| <= |after.scopes|
    requires forall i :: 0 <= i < |s.scopes| ==> SameTurn(s.scopes[i], after.scopes[i])
    requires forall i :: |s.scopes| <= i < |after.scopes| ==> !after.scopes[i].guards && after.scopes[i].stage.Yielded?
    ensures Guarded(after)
  {
    forall i: ScopeId, c: TalkId | Live(after, i, c) ensures Live(s, i, c) {
    }
    forall c | c in after.sessions ensures exists i: ScopeId :: Live(after, i, c) {
      var i: ScopeId :| Live(s, i, c);
      assert Live(after, i, c);
    }
  }

  lemma LeaveKeepsGuarded(s: State, i: ScopeId)
    requires Guarded(s)
    ensures Guarded(After(s, Leave(i)))
  {
    var after := After(s, Leave(i));
    if after != s {
      var scope := s.scopes[i];
      forall j: ScopeId, c: TalkId | Live(after, j, c)
        ensures Live(s, j, c) && !(scope.guards && scope.talk == Some(c))
      {
        assert Live(s, j, c);
        assert scope.guards && scope.talk == Some(c) ==> Live(s, i, c);
      }
      forall c | c in after.sessions ensures exists j: ScopeId :: Live(after, j, c) {
        var j: ScopeId :| Live(s, j, c);
        assert Live(after, j, c);
      }
    }
  }

  lemma StepKeepsGuarded(s: State, step: Step)
    requires Guarded(s) && !Reenters(s, step)
    ensures Guarded(After(s, step))
  {
    hide Guarded;
    match step
    case Drive(talk, holder) =>
      if Admits(s.sessions, talk, holder) {
        OpenKeepsGuarded(s, Scope(talk, holder, None, talk.Some?, false, Driving));
      }
    case Validate(talk, holder, request) =>
      if talk.Some? && talk.value in s.sessions {
        SameKeepsGuarded(s, After(s, step));
      } else {
        OpenKeepsGuarded(s, Scope(talk, holder, Some(request), talk.Some?, false, Validating));
      }
    case Leave(i) => LeaveKeepsGuarded(s, i);
    case Restart => NobodyIsGuarded(After(s, step));
    case _ =>
      InnerStep(s, step);
      SameKeepsGuarded(s, After(s, step));
  }

  /** Every other step moves one scope on and leaves the guard alone. */
  lemma InnerStep(s: State, step: Step)
    requires !step.Drive? && !step.Validate? && !step.Leave? && !step.Restart?
    ensures var after := After(s, step);
            && after.sessions == s.sessions && |after.scopes| == |s.scopes|
            && forall i :: 0 <= i < |s.scopes| ==> SameTurn(s.scopes[i], after.scopes[i])
  {
    hide Recorded, Entered, Exited, Admits, Reported, Streamed, Replay;
    if !step.ArriveChat? && step.scope < |s.scopes| {
      var i := step.scope;
      var after := After(s, step);
      assert after.sessions == s.sessions && |after.scopes| == |s.scopes|;
      assert after.scopes == s.scopes[i := after.scopes[i]];
      assert SameTurn(s.scopes[i], after.scopes[i]);
    }
  }

  ghost predicate SameTurn(before: Scope, after: Scope) {
    && after.talk == before.talk && after.holder == before.holder && after.guards == before.guards
    && (after.stage.Left? <==> before.stage.Left?)
    && (after.stage.Validated? ==> before.stage.Validated? || before.stage.Validating?)
    && (after.stage.Validating? ==> before.stage.Validating?)
  }

  lemma NobodyIsGuarded(s: State)
    requires s.sessions == map[] && forall i :: 0 <= i < |s.scopes| ==> s.scopes[i].stage == Left
    ensures Guarded(s)
  {
  }

  ghost predicate NeverReenters(steps: seq<Step>) {
    forall n :: 0 <= n < |steps| ==> !Reenters(Run(IDLE, steps[..n]), steps[n])
  }

  lemma RunSnoc(s: State, steps: seq<Step>)
    requires steps != []
    ensures Run(s, steps) == After(Run(s, steps[..|steps| - 1]), steps[|steps| - 1])
  {
    var last := steps[|steps| - 1];
    assert steps == steps[..|steps| - 1] + [last];
    RunOn(s, steps[..|steps| - 1], [last]);
    assert Run(Run(s, steps[..|steps| - 1]), [last]) == Run(After(Run(s, steps[..|steps| - 1]), last), [last][1..]);
  }

  lemma {:induction false} RunIsGuarded(steps: seq<Step>)
    requires NeverReenters(steps)
    ensures Guarded(Run(IDLE, steps))
    decreases |steps|
  {
    hide After, Reenters, Guarded;
    if steps == [] {
      NobodyIsGuarded(IDLE);
    } else {
      var front := steps[..|steps| - 1];
      assert NeverReenters(front) by {
        assert forall n :: 0 <= n < |front| ==> front[..n] == steps[..n] && front[n] == steps[n];
      }
      RunIsGuarded(front);
      RunSnoc(IDLE, steps);
      StepKeepsGuarded(Run(IDLE, front), steps[|steps| - 1]);
    }
  }

  lemma ReenteringDoubles(s: State, step: Step)
    requires Guarded(s) && Reenters(s, step)
    ensures !OneTurn(After(s, step))
  {
    var c := step.talk.value;
    var i: ScopeId :| Live(s, i, c);
    assert Live(After(s, step), i, c) && Live(After(s, step), |s.scopes|, c);
  }

  lemma {:induction false} OneTurnMeansNoReentry(steps: seq<Step>, n: nat)
    requires n <= |steps|
    requires forall k :: 0 <= k <= n ==> OneTurn(Run(IDLE, steps[..k]))
    ensures NeverReenters(steps[..n])
    decreases n
  {
    hide After, Reenters, OneTurn, Guarded, Run;
    if n > 0 {
      OneTurnMeansNoReentry(steps, n - 1);
      RunIsGuarded(steps[..n - 1]);
      var before := Run(IDLE, steps[..n - 1]);
      assert steps[..n][..n - 1] == steps[..n - 1];
      RunSnoc(IDLE, steps[..n]);
      if Reenters(before, steps[n - 1]) {
        ReenteringDoubles(before, steps[n - 1]);
        assert false;
      }
      forall k | 0 <= k < n ensures !Reenters(Run(IDLE, steps[..n][..k]), steps[..n][k]) {
        assert steps[..n][..k] == steps[..k] && (k < n - 1 ==> steps[..n - 1][..k] == steps[..k]);
      }
    }
  }

  /** A conversation has one turn at a time, at every moment of a run, exactly if no session enters
      one that it is driving already. */
  lemma OneTurnAtATimeExactly(steps: seq<Step>)
    ensures (forall k :: 0 <= k <= |steps| ==> OneTurn(Run(IDLE, steps[..k]))) <==> NeverReenters(steps)
  {
    hide After, Run, Reenters, Guarded, OneTurn;
    if forall k :: 0 <= k <= |steps| ==> OneTurn(Run(IDLE, steps[..k])) {
      OneTurnMeansNoReentry(steps, |steps|);
      assert steps[..|steps|] == steps;
    }
    if NeverReenters(steps) {
      forall k | 0 <= k <= |steps| ensures OneTurn(Run(IDLE, steps[..k])) {
        assert NeverReenters(steps[..k]) by {
          assert forall n :: 0 <= n < k ==> steps[..k][..n] == steps[..n] && steps[..k][n] == steps[n];
        }
        RunIsGuarded(steps[..k]);
        GuardedIsOneTurn(Run(IDLE, steps[..k]));
      }
    }
  }

  lemma GuardedIsOneTurn(s: State)
    requires Guarded(s)
    ensures OneTurn(s)
  {
  }

  /** A session that enters twice leaves once too early: the third turn gets in beside the first. */
  lemma ReentryLosesTheGuard(c: TalkId, mine: SessionId, other: SessionId)
    requires mine != other
    ensures var steps := [Drive(Some(c), Some(mine)), Drive(Some(c), Some(mine)), Leave(1),
                          Drive(Some(c), Some(other))];
            var s := Run(IDLE, steps);
            Live(s, 0, c) && Live(s, 2, c) && s.sessions == map[c := Some(other)]
  {
    var turn := Scope(Some(c), Some(mine), None, true, false, Driving);
    var steps := [Drive(Some(c), Some(mine)), Drive(Some(c), Some(mine)), Leave(1), Drive(Some(c), Some(other))];
    var one := After(IDLE, steps[0]);
    assert one == State(map[c := Some(mine)], map[], [turn]);
    var two := After(one, steps[1]);
    assert two == State(map[c := Some(mine)], map[], [turn, turn]);
    var three := After(two, steps[2]);
    assert three == State(map[], map[], [turn, turn.(stage := Left)]);
    assert steps[0..] == steps && steps[4..] == [];
    RunNext(IDLE, steps, 0);
    RunNext(one, steps, 1);
    RunNext(two, steps, 2);
    RunNext(three, steps, 3);
  }

  lemma RunNext(s: State, steps: seq<Step>, n: nat)
    requires n < |steps|
    ensures Run(s, steps[n..]) == Run(After(s, steps[n]), steps[n + 1..])
  {
    hide After;
    assert steps[n..][1..] == steps[n + 1..];
  }

  // ---------------------------------------------------------------- what the guard is for

  /** Nobody has accepted, for the same conversation, what this turn judged to be new. */
  ghost predicate Untaken(s: State, i: ScopeId)
    requires i < |s.scopes|
  {
    var scope := s.scopes[i];
    scope.stage.Validated? && scope.talk.Some? && scope.command.Some? ==>
      var d := scope.command.value.delivery;
      d in s.rows && s.rows[d].Receipt? ==> s.rows[d].talk != scope.talk.value
  }

  ghost predicate NoneTaken(s: State) {
    forall i :: 0 <= i < |s.scopes| ==> Untaken(s, i)
  }

  lemma StoreKeepsUntaken(s: State, j: ScopeId, i: ScopeId)
    requires Valid(s) && Guarded(s) && NoneTaken(s) && i < |s.scopes|
    ensures Untaken(After(s, Store(j)), i)
  {
    assert Untaken(s, i);
    if At(s, j, Validated) && s.scopes[j].talk.Some? && At(s, i, Validated) && s.scopes[i].talk == s.scopes[j].talk {
      var c := s.scopes[j].talk.value;
      assert Live(s, i, c) && Live(s, j, c);
    }
  }

  lemma StepKeepsUntaken(s: State, step: Step)
    requires Valid(s) && Guarded(s) && NoneTaken(s)
    ensures NoneTaken(After(s, step))
  {
    var after := After(s, step);
    if step.Store? {
      forall i | 0 <= i < |after.scopes| ensures Untaken(after, i) {
        StoreKeepsUntaken(s, step.scope, i);
      }
    } else {
      RowsComeByStoring(s, step);
      hide Guarded, Valid, Recorded, Reported, Streamed, Settled;
      forall i | 0 <= i < |after.scopes| ensures Untaken(after, i) {
        assert i < |s.scopes| ==> Untaken(s, i);
      }
    }
  }

  lemma RowsComeByStoring(s: State, step: Step)
    requires Valid(s) && !step.Store?
    ensures forall d :: d in After(s, step).rows && After(s, step).rows[d].Receipt? ==>
              d in s.rows && s.rows[d].Receipt? && s.rows[d].talk == After(s, step).rows[d].talk
    ensures forall i :: 0 <= i < |After(s, step).scopes| && After(s, step).scopes[i].stage.Validated? ==>
              i < |s.scopes| && After(s, step).scopes[i].talk == s.scopes[i].talk
              && After(s, step).scopes[i].command == s.scopes[i].command
              && (s.scopes[i].stage.Validated?
                  || (s.scopes[i].command.Some?
                      && (s.scopes[i].talk.Some? ==> s.scopes[i].command.value.delivery !in s.rows)))
  {
    hide Valid, Reported, Streamed, Replay, Admits, Entered, Exited;
  }

  lemma {:induction false} RunLeavesUntaken(steps: seq<Step>)
    requires NeverReenters(steps)
    ensures NoneTaken(Run(IDLE, steps))
    decreases |steps|
  {
    hide After, Reenters, Guarded, Valid;
    if steps != [] {
      var front := steps[..|steps| - 1];
      assert NeverReenters(front) by {
        assert forall n :: 0 <= n < |front| ==> front[..n] == steps[..n] && front[n] == steps[n];
      }
      RunLeavesUntaken(front);
      RunIsGuarded(front);
      IdleIsValid();
      RunKeepsValid(IDLE, front);
      RunSnoc(IDLE, steps);
      hide Run, NoneTaken;
      StepKeepsUntaken(Run(IDLE, front), steps[|steps| - 1]);
    }
  }

  lemma IdleIsValid()
    ensures Valid(IDLE)
  {
  }

  /** Under the guard a delivery that was judged new is still new to its conversation when its
      receipt is stored: only a message or another conversation can have taken the id meanwhile. */
  lemma JudgedNewIsStored(steps: seq<Step>, i: ScopeId)
    requires NeverReenters(steps) && At(Run(IDLE, steps), i, Validated)
    ensures var s := Run(IDLE, steps);
            var scope := s.scopes[i];
            scope.talk.Some? && scope.command.Some? ==>
              var d := scope.command.value.delivery;
              At(After(s, Store(i)), i, Accepted) <==>
              !(d in s.rows && (s.rows[d].Chat? || s.rows[d].talk != scope.talk.value))
  {
    RunLeavesUntaken(steps);
    assert Untaken(Run(IDLE, steps), i);
    hide Run;
  }

  // ---------------------------------------------------------------- the gateway

  /** A live session at the gateway, and the conversation it belongs to once that is known. */
  datatype GatewaySession = GatewaySession(id: SessionId, talk: Option<TalkId>)

  predicate Names(session: Option<GatewaySession>, talk: Option<TalkId>) {
    session.Some? && session.value.talk.Some? && talk.Some? ==> session.value.talk == talk
  }

  /** The conversation a turn holds: its session's own, or the one its caller supplies. */
  function Held(session: Option<GatewaySession>, talk: Option<TalkId>): Option<TalkId> {
    if session.Some? && session.value.talk.Some? then session.value.talk else talk
  }

  function Holder(session: Option<GatewaySession>): Option<SessionId> {
    if session.Some? && session.value.talk.Some? then Some(session.value.id) else None
  }

  class GatewayManager {
    var sessions: Sessions

    constructor ()
      ensures sessions == map[]
    {
      sessions := map[];
    }

    /** Holds the conversation for the session, first arrival only. */
    method Register(session: GatewaySession) returns (held: bool)
      requires session.talk.Some?
      modifies this
      ensures held <==> Admits(old(sessions), session.talk, Some(session.id))
      ensures held <==>
                session.talk.value in old(sessions) ==> old(sessions)[session.talk.value] == Some(session.id)
      ensures sessions == if held then Entered(old(sessions), session.talk, Some(session.id)) else old(sessions)
    {
      var talk := session.talk.value;
      if talk in sessions && sessions[talk] != Some(session.id) {
        return false;
      }
      sessions := sessions[talk := Some(session.id)];
      return true;
    }

    method Unregister(session: GatewaySession)
      modifies this
      ensures sessions == Exited(old(sessions), session.talk, Some(session.id))
      ensures sessions == map c | c in old(sessions)
                                  && !(session.talk == Some(c) && old(sessions)[c] == Some(session.id))
                              :: old(sessions)[c]
    {
      if session.talk.Some? && session.talk.value in sessions && sessions[session.talk.value] == Some(session.id) {
        sessions := sessions - {session.talk.value};
      }
    }

    /** The way into `driving`; refused, nothing is held. */
    method Enter(session: Option<GatewaySession>, talk: Option<TalkId>) returns (entered: bool)
      modifies this
      ensures entered <==> Names(session, talk) && Admits(old(sessions), Held(session, talk), Holder(session))
      ensures sessions
              == if entered then Entered(old(sessions), Held(session, talk), Holder(session)) else old(sessions)
      ensures match session
              case Some(GatewaySession(id, Some(own))) =>
                && (entered <==> (talk == None || talk == Some(own))
                                 && (own in old(sessions) ==> old(sessions)[own] == Some(id)))
                && (entered ==> sessions == old(sessions)[own := Some(id)])
              case _ =>
                && (entered <==> talk == None || talk.value !in old(sessions))
                && (entered ==> sessions == if talk == None then old(sessions) else old(sessions)[talk.value := None])
    {
      if session.Some? && session.value.talk.Some? {
        if talk.Some? && talk != session.value.talk {
          return false;
        }
        entered := Register(session.value);
      } else if talk.Some? {
        if talk.value in sessions {
          return false;
        }
        sessions := sessions[talk.value := None];
        return true;
      } else {
        return true;
      }
    }

    /** The way out, however the block ended. */
    method Exit(session: Option<GatewaySession>, talk: Option<TalkId>)
      requires Names(session, talk)
      modifies this
      ensures sessions == Exited(old(sessions), Held(session, talk), Holder(session))
      ensures forall c :: c in sessions <==>
                            c in old(sessions)
                            && !(match session
                                 case Some(GatewaySession(id, Some(own))) => c == own && old(sessions)[c] == Some(id)
                                 case _ => talk == Some(c) && old(sessions)[c] == None)
      ensures forall c :: c in sessions ==> sessions[c] == old(sessions)[c]
    {
      if session.Some? && session.value.talk.Some? {
        Unregister(session.value);
      } else if talk.Some? && (talk.value !in sessions || sessions[talk.value].None?) {
        sessions := sessions - {talk.value};
      }
    }
  }

  // ---------------------------------------------------------------- the command's scope

  class CommandManager {
    var rows: map<Delivery, Row>

    constructor ()
      ensures rows == map[]
    {
      rows := map[];
    }

    /** The end of `validate`: what a recorded delivery answers, before the catalog has its say. */
    method Validate(request: Request, talk: Option<TalkId>, refusal: Option<Outcome>, objection: Option<Outcome>)
      returns (stage: Stage)
      ensures stage == Judged(rows, request, talk, refusal, objection)
      ensures stage == Validated <==>
                refusal == None && objection == None && (talk == None || request.delivery !in rows)
      ensures refusal.Some? ==> stage == Yielded(refusal.value)
      ensures refusal.None? && objection.Some? && (talk == None || request.delivery !in rows) ==>
                stage == Yielded(objection.value)
    {
      if refusal.Some? {
        return Yielded(refusal.value);
      }
      if talk.Some? && request.delivery in rows {
        var recorded := rows[request.delivery];
        if recorded.Chat? || recorded.request != request || recorded.talk != talk.value {
          return Yielded(ANOTHER);
        }
        if recorded.outcome.Some? {
          return Yielded(recorded.outcome.value);
        }
        return Yielded(NO_OUTCOME);
      }
      if objection.Some? {
        return Yielded(objection.value);
      }
      return Validated;
    }

    /** From then on this very request is answered with the outcome, and every other is refused; no
        other row is touched. */
    method RecordOutcome(delivery: Delivery, outcome: Outcome)
      requires delivery in rows && rows[delivery].Receipt?
      modifies this
      ensures rows == Recorded(old(rows), delivery, outcome)
      ensures rows.Keys == old(rows).Keys && forall d :: d in rows && d != delivery ==> rows[d] == old(rows)[d]
      ensures forall request, talk ::
                Replay(rows[delivery], request, talk)
                == if old(rows)[delivery].request == request && old(rows)[delivery].talk == talk then outcome
                   else ANOTHER
    {
      rows := rows[delivery := rows[delivery].(outcome := Some(outcome))];
    }

    /** `record_stream` from its consumer's last event on: `finished` when the stream had no more. */
    method RecordStream(delivery: Delivery, finished: bool, normal: bool, closed: bool)
      requires delivery in rows && rows[delivery].Receipt?
      modifies this
      ensures rows == Recorded(old(rows), delivery, Streamed(finished, normal, closed))
    {
      var outcome := UNFINISHED;
      if normal && closed {
        if finished {
          outcome := Done;
        }
      }
      RecordOutcome(delivery, outcome);
    }
  }
}
