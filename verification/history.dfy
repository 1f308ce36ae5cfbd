/** Whole runs of the database: every kind of write, in any order and any number. */
module History {
  import opened Wrappers
  import opened Schema
  import opened Threads
  import opened Conversations
  import opened Forks

  datatype Step =
    | OpenThread(thread: ThreadId)
    | StoreMessage(message: Message)
    | AdvanceCursor(thread: ThreadId, to: MessageId)
    | RedateMessage(id: MessageId, at: Instant)
    | MarkPresented(id: MessageId, platform: string)
    | EnsureConversation(id: ConversationId, conversation: Conversation)
    | SetExternalId(id: ConversationId, session: string)
    | RecordRun(run: RunId, row: AgentRun, handle: Option<string>)
    | RecordExternal(run: RunId, report: Report, look: Look)
    | LinkParent(run: RunId, parent: RunId)
    | BindMessage(id: MessageId, run: RunId)
    | Fork(request: ForkRequest)

  /** A refused step leaves the tables as they were. A conversation's thread is frozen, so a
      request names the one that is stored. */
  ghost function After(db: Db, step: Step): Db {
    match step
    case OpenThread(t) => if t in db.threads then db else Opened(db, t)
    case StoreMessage(message) => (match Stored(db, message) case Success(next) => next case Failure(_) => db)
    case AdvanceCursor(t, to) => Advanced(db, t, to)
    case RedateMessage(m, at) =>
      if m < |db.messages| then db.(messages := db.messages[m := db.messages[m].(happenedAt := at)]) else db
    case MarkPresented(m, platform) =>
      if m < |db.messages| then db.(messages := db.messages[m := db.messages[m].(platform := Some(platform))]) else db
    case EnsureConversation(c, conversation) =>
      if c in db.conversations || conversation.thread !in db.threads then db
      else db.(conversations := db.conversations[c := conversation])
    case SetExternalId(c, handle) =>
      if c in db.conversations then db.(conversations := Rebound(db, c, Some(handle))) else db
    case RecordRun(r, row, handle) =>
      (match Persisted(db, r, row.(variant := Driven), handle) case Some(next) => next case None => db)
    case RecordExternal(r, report, look) =>
      (match Recorded(db, r, report, look) case Some(next) => next case None => db)
    case LinkParent(r, parent) => Linked(db, r, parent)
    case BindMessage(m, r) =>
      if m < |db.messages| && r in db.runs then db.(bindings := db.bindings[m := BoundRuns(db, m) + {r}]) else db
    case Fork(request) => if Current(db, request) && Accepts(db, request) then Outcome(db, request) else db
  }

  ghost function Run(db: Db, steps: seq<Step>): Db
    decreases |steps|
  {
    if steps == [] then db else Run(After(db, steps[0]), steps[1..])
  }

  /** Only what is named changes: nothing in a table but for this. */
  ghost predicate OnlyMessage(db: Db, after: Db, m: MessageId) {
    && after == db.(messages := after.messages) && |after.messages| == |db.messages|
    && forall i :: 0 <= i < |db.messages| && i != m ==> after.messages[i] == db.messages[i]
  }

  /** What the small writes do, table by table. */
  lemma WritesExactly(db: Db, step: Step)
    ensures var after := After(db, step);
            match step
            case OpenThread(t) =>
              if t in db.threads then after == db
              else
                var own: map<ThreadId, Option<MessageId>> := map[t := None];
                after == db.(threads := db.threads[t := None], ledgers := db.ledgers[t := own])
            case StoreMessage(message) =>
              if message.thread in db.threads then after == db.(messages := db.messages + [message]) else after == db
            case AdvanceCursor(t, to) =>
              if t in db.threads then after == db.(threads := db.threads[t := Some(to)]) else after == db
            case RedateMessage(m, at) =>
              && OnlyMessage(db, after, m)
              && (m < |db.messages| ==>
                    && after.messages[m].happenedAt == at
                    && after.messages[m] == db.messages[m].(happenedAt := after.messages[m].happenedAt))
            case MarkPresented(m, platform) =>
              && OnlyMessage(db, after, m)
              && (m < |db.messages| ==>
                    && after.messages[m].platform == Some(platform)
                    && after.messages[m] == db.messages[m].(platform := after.messages[m].platform))
            case EnsureConversation(c, conversation) =>
              if c !in db.conversations && conversation.thread in db.threads
              then after == db.(conversations := db.conversations[c := conversation]) else after == db
            case SetExternalId(c, handle) =>
              if c !in db.conversations then after == db
              else
                && after == db.(conversations := after.conversations)
                && after.conversations
                   == db.conversations[c := Conversation(db.conversations[c].thread, db.conversations[c].agent,
                                                         Some(handle))]
            case RecordRun(r, row, handle) =>
              if r in db.runs || row.conversation !in db.conversations then after == db
              else
                && after.runs.Keys == db.runs.Keys + {r}
                && after.runs[r] == AgentRun(row.conversation, Driven, row.session, row.turn, row.parent, row.messages)
                && (forall q :: q in db.runs ==> after.runs[q] == db.runs[q])
                && row.conversation in after.histories && r in after.histories[row.conversation]
                && after.conversations.Keys == db.conversations.Keys
                && after.conversations[row.conversation].externalId == handle
            case LinkParent(r, parent) =>
              if r !in db.runs then after == db
              else
                && after == db.(runs := after.runs) && after.runs.Keys == db.runs.Keys
                && after.runs[r].parent == Some(parent)
                && after.runs[r] == db.runs[r].(parent := after.runs[r].parent)
                && (forall q :: q in db.runs && q != r ==> after.runs[q] == db.runs[q])
            case BindMessage(m, r) =>
              if m >= |db.messages| || r !in db.runs then after == db
              else
                && after == db.(bindings := after.bindings) && after.bindings.Keys == db.bindings.Keys + {m}
                && after.bindings[m] == {r} + (if m in db.bindings then db.bindings[m] else {})
                && (forall i :: i in db.bindings && i != m ==> after.bindings[i] == db.bindings[i])
            case RecordExternal(_, _, _) => true
            case Fork(request) =>
              after == if Current(db, request) && Accepts(db, request) then Outcome(db, request) else db
  {
    hide Current, Accepts, Outcome;
  }

  // ---------------------------------------------------------------- what every step keeps

  lemma StepKeepsValid(db: Db, step: Step)
    requires Valid(db)
    ensures Valid(After(db, step))
  {
    hide Holds, Insertable, Outcome;
    if step.Fork? && Accepts(db, step.request) {
      ForkKeepsValid(db, step.request);
    }
  }

  ghost predicate ForksInto(step: Step, t: ThreadId) {
    step.Fork? && step.request.targetThread == t
  }

  lemma ForkExtends(db: Db, request: ForkRequest, t: ThreadId)
    requires Accepts(db, request)
    ensures Extends(LedgersOf(db, t), LedgersOf(Outcome(db, request), t))
    ensures t != request.targetThread ==> NothingSplicedInto(db, Outcome(db, request), t)
    ensures Outcome(db, request).messages == db.messages && db.threads.Keys <= Outcome(db, request).threads.Keys
  {
    var rows := Frozen(CutsOf(db, request));
    forall l | l in LedgersOf(db, request.targetThread) ensures l !in rows {
      assert l !in rows.Keys;
    }
  }

  lemma WriteExtends(db: Db, step: Step, t: ThreadId)
    requires Valid(db) && !step.Fork?
    ensures Extends(LedgersOf(db, t), LedgersOf(After(db, step), t))
    ensures t in db.threads ==> NothingSplicedInto(db, After(db, step), t)
  {
  }

  lemma StepExtends(db: Db, step: Step, t: ThreadId)
    requires Valid(db)
    ensures Extends(LedgersOf(db, t), LedgersOf(After(db, step), t))
    ensures t in db.threads && !ForksInto(step, t) ==> NothingSplicedInto(db, After(db, step), t)
  {
    if !step.Fork? {
      WriteExtends(db, step, t);
    } else if Accepts(db, step.request) {
      ForkExtends(db, step.request, t);
    } else {
      assert After(db, step) == db;
    }
  }

  ghost predicate KeepsRows(db: Db, after: Db) {
    && |db.messages| <= |after.messages|
    && (forall m :: 0 <= m < |db.messages| ==>
          && after.messages[m].thread == db.messages[m].thread
          && after.messages[m].kind == db.messages[m].kind
          && after.messages[m].actor == db.messages[m].actor
          && after.messages[m].agent == db.messages[m].agent)
    && db.threads.Keys <= after.threads.Keys
  }

  lemma StepKeepsRows(db: Db, step: Step)
    ensures KeepsRows(db, After(db, step))
  {
    hide Accepts, Outcome;
    if step.Fork? && Accepts(db, step.request) {
      ForkExtends(db, step.request, 0);
    }
  }

  lemma StepGrows(db: Db, step: Step, t: ThreadId)
    requires Valid(db)
    ensures Grows(db, After(db, step))
    ensures t in db.threads && !ForksInto(step, t) ==> NothingSplicedInto(db, After(db, step), t)
  {
    forall u ensures Extends(LedgersOf(db, u), LedgersOf(After(db, step), u)) {
      StepExtends(db, step, u);
    }
    StepKeepsRows(db, step);
    StepExtends(db, step, t);
  }

  /** The thread shows something besides system notices: a fork into it is refused. */
  ghost predicate Spoken(db: Db, t: ThreadId) {
    exists m :: 0 <= m < |db.messages| && Shows(db, t, m) && !db.messages[m].actor.System?
  }

  /** Nothing will be frozen into `t`: it has been spoken in, or no step forks into it. */
  ghost predicate Closed(db: Db, steps: seq<Step>, t: ThreadId) {
    Spoken(db, t) || forall i :: 0 <= i < |steps| ==> !ForksInto(steps[i], t)
  }

  lemma SpokenRefusesForks(db: Db, request: ForkRequest)
    requires Spoken(db, request.targetThread)
    ensures !Accepts(db, request)
  {
    assert Holds(db, request.targetThread, request.target);
  }

  lemma StepKeepsClosed(db: Db, steps: seq<Step>, t: ThreadId)
    requires Valid(db) && t in db.threads && steps != [] && Closed(db, steps, t)
    ensures Later(db, After(db, steps[0]), t) && Closed(After(db, steps[0]), steps[1..], t)
  {
    hide Accepts, Outcome;
    var after := After(db, steps[0]);
    StepGrows(db, steps[0], t);
    if Spoken(db, t) {
      var m :| 0 <= m < |db.messages| && Shows(db, t, m) && !db.messages[m].actor.System?;
      if ForksInto(steps[0], t) {
        SpokenRefusesForks(db, steps[0].request);
      }
      ShownIsSettled(db, after, t, m);
    }
  }

  lemma LaterStill(db: Db, next: Db, end: Db, t: ThreadId)
    requires Later(db, next, t) && Later(next, end, t)
    ensures Later(db, end, t)
  {
    forall u ensures Extends(LedgersOf(db, u), LedgersOf(end, u)) {
      assert Extends(LedgersOf(db, u), LedgersOf(next, u)) && Extends(LedgersOf(next, u), LedgersOf(end, u));
    }
  }

  lemma LaterAtOnce(db: Db, t: ThreadId)
    ensures Later(db, db, t)
  {
  }

  lemma {:induction false} RunIsLater(db: Db, steps: seq<Step>, t: ThreadId)
    requires Valid(db) && t in db.threads && Closed(db, steps, t)
    ensures Valid(Run(db, steps)) && Later(db, Run(db, steps), t)
    decreases |steps|
  {
    hide After, Valid, Later, Closed;
    if steps == [] {
      LaterAtOnce(db, t);
    } else {
      var next := After(db, steps[0]);
      StepKeepsValid(db, steps[0]);
      StepKeepsClosed(db, steps, t);
      LaterKnows(db, next, t);
      RunIsLater(next, steps[1..], t);
      LaterStill(db, next, Run(db, steps), t);
    }
  }

  lemma LaterKnows(db: Db, next: Db, t: ThreadId)
    requires Later(db, next, t) && t in db.threads
    ensures t in next.threads
  {
  }

  // ---------------------------------------------------------------- frozen ledgers

  /** Whatever is written anywhere, by anyone, forks of forks included: of the ledgers it
      inherited a thread shows what it always showed, and it never loses a row of its own. */
  lemma InheritedNeverChanges(db: Db, steps: seq<Step>, t: ThreadId, m: MessageId)
    requires Valid(db) && t in db.threads && Closed(db, steps, t)
    requires m < |Run(db, steps).messages|
    ensures Run(db, steps).messages[m].thread != t ==> (Shows(Run(db, steps), t, m) <==> Shows(db, t, m))
    ensures Run(db, steps).messages[m].thread == t ==> Shows(Run(db, steps), t, m)
  {
    RunIsLater(db, steps, t);
    var end := Run(db, steps);
    if end.messages[m].thread != t {
      InheritedIsFrozen(db, end, t, m);
    } else {
      assert ValidLedgers(end.ledgers[t], t, |end.messages|);
    }
  }

  /** With or without an end offset: what reached the fork is what it inherits ever after. */
  lemma ForkInheritsForever(db: Db, request: ForkRequest, steps: seq<Step>, m: MessageId)
    requires Valid(db) && Accepts(db, request)
    requires Closed(Outcome(db, request), steps, request.targetThread)
    ensures var end, t := Run(Outcome(db, request), steps), request.targetThread;
            m < |end.messages| ==>
            && (end.messages[m].thread != t ==> (Shows(end, t, m) <==> Shows(db, t, m) || Reaches(db, request, m)))
            && (end.messages[m].thread == t ==> Shows(end, t, m))
  {
    ForkKeepsValid(db, request);
    ForkShowsItsSource(db, request, m);
    var after := Outcome(db, request);
    assert request.targetThread in after.threads;
    hide Accepts, Outcome, Run, Valid, Closed;
    if m < |Run(after, steps).messages| {
      InheritedNeverChanges(after, steps, request.targetThread, m);
    }
  }

  /** A fork of a thread that has been spoken in shows, ever after, what its source showed at
      that moment and what is said to the fork itself; and the source shows, ever after, what it
      showed and what is said to it. */
  lemma ForkAndSourceGrowApart(db: Db, request: ForkRequest, steps: seq<Step>, m: MessageId)
    requires Valid(db) && Accepts(db, request) && request.End().None?
    requires Spoken(db, request.sourceThread)
    ensures var end, s, t := Run(Outcome(db, request), steps), request.sourceThread, request.targetThread;
            m < |end.messages| ==>
            && (end.messages[m].thread != t ==>
                  (Shows(end, t, m) <==> Shows(db, t, m) || Shows(db, s, m)))
            && (end.messages[m].thread != s ==> (Shows(end, s, m) <==> Shows(db, s, m)))
            && (end.messages[m].thread == t ==> Shows(end, t, m))
            && (end.messages[m].thread == s ==> Shows(end, s, m))
  {
    var s, t := request.sourceThread, request.targetThread;
    var after := Outcome(db, request);
    ForkKeepsValid(db, request);
    var said :| 0 <= said < |db.messages| && Shows(db, s, said) && !db.messages[said].actor.System?;
    ForkReaches(db, request, said);
    ForkReaches(db, request, m);
    WholeForkShowsAll(db, request, m);
    hide Accepts, Outcome, Run, Valid;
    assert Spoken(after, t) && Spoken(after, s);
    ForkInheritsForever(db, request, steps, m);
    if m < |Run(after, steps).messages| {
      InheritedNeverChanges(after, steps, s, m);
    }
  }

  lemma ForkReaches(db: Db, request: ForkRequest, m: MessageId)
    requires Valid(db) && Accepts(db, request) && request.End().None?
    ensures Shows(Outcome(db, request), request.targetThread, m)
            <==> Shows(db, request.targetThread, m) || Shows(db, request.sourceThread, m)
    ensures Shows(Outcome(db, request), request.sourceThread, m) <==> Shows(db, request.sourceThread, m)
    ensures Outcome(db, request).messages == db.messages
    ensures request.sourceThread in Outcome(db, request).threads && request.targetThread in Outcome(db, request).threads
  {
    ForkShowsItsSource(db, request, m);
    WholeForkShowsAll(db, request, m);
    ForkLeavesOthersAlone(db, request, request.sourceThread, m);
  }

  // ---------------------------------------------------------------- settled runs

  /** A recorded run is settled once its transcript range is known, or when octomate drove it. */
  predicate Settled(run: AgentRun) {
    run.variant.Driven? || Final(run)
  }

  /** Absent, reserved, sketched, final; a driven run stands apart. */
  function Stage(db: Db, r: RunId): nat {
    if r !in db.runs then 0
    else if db.runs[r].variant.Driven? then 4
    else if Final(db.runs[r]) then 3
    else if db.runs[r].messages != [] then 2
    else 1
  }

  lemma ForkKeepsRuns(db: Db, request: ForkRequest)
    requires Accepts(db, request)
    ensures Outcome(db, request).runs == db.runs
  {
  }

  /** A run only moves forward, and a native turn never becomes a driven one. */
  lemma StepMovesForward(db: Db, step: Step, r: RunId)
    ensures Stage(db, r) <= Stage(After(db, step), r)
    ensures Stage(After(db, step), r) == 4 ==> Stage(db, r) == 0 || Stage(db, r) == 4
  {
    hide Accepts, Outcome, Current;
    if step.Fork? && Current(db, step.request) && Accepts(db, step.request) {
      ForkKeepsRuns(db, step.request);
    }
  }

  /** A settled run stands but for its place in the run tree. */
  lemma StepKeepsSettled(db: Db, step: Step, r: RunId)
    requires r in db.runs && Settled(db.runs[r])
    ensures r in After(db, step).runs
    ensures After(db, step).runs[r].(parent := None) == db.runs[r].(parent := None)
  {
    hide Accepts, Outcome, Current;
    if step.Fork? && Current(db, step.request) && Accepts(db, step.request) {
      ForkKeepsRuns(db, step.request);
    }
  }

  lemma {:induction false} SettledForever(db: Db, steps: seq<Step>, r: RunId)
    requires r in db.runs && Settled(db.runs[r])
    ensures r in Run(db, steps).runs
    ensures Run(db, steps).runs[r].(parent := None) == db.runs[r].(parent := None)
    decreases |steps|
  {
    if steps != [] {
      StepKeepsSettled(db, steps[0], r);
      SettledForever(After(db, steps[0]), steps[1..], r);
    }
  }

  /** Every turn of the origin's own session that a fork with an end offset keeps has ended
      by it, and keeps its messages whatever is recorded later on either side. */
  lemma KeptTurnsKeepTheirMessages(db: Db, request: ForkRequest, steps: seq<Step>, r: RunId)
    requires Accepts(db, request) && Current(db, request) && request.End().Some?
    requires r in db.runs && r in HistoryOf(Outcome(db, request), request.target)
    requires db.runs[r].variant.External? && db.runs[r].session == db.conversations[request.source].externalId
    ensures Final(db.runs[r]) && db.runs[r].variant.endOffset.value <= request.End().value
    ensures r in Run(Outcome(db, request), steps).runs
    ensures Run(Outcome(db, request), steps).runs[r].messages == db.runs[r].messages
  {
    ForkSharesTheHistory(db, request, request.target);
    var roots := set q | q in db.runs && Unfinished(db, request.source, request.End().value, q);
    if Unfinished(db, request.source, request.End().value, r) {
      assert Climbs(db.runs, roots, r, 0);
      assert false;
    }
    SettledForever(Outcome(db, request), steps, r);
  }

  /** Whatever is recorded, linked or forked later, the run's messages stay as they are. */
  ghost predicate MessagesStand(db: Db, r: RunId)
    requires r in db.runs
  {
    forall steps: seq<Step> :: r in Run(db, steps).runs && Run(db, steps).runs[r].messages == db.runs[r].messages
  }

  /** A fork and its source share run rows, and what the fork shares is frozen run by run: the
      messages of a shared run stand for ever exactly when it was settled. */
  lemma RunStandsExactlyWhenSettled(db: Db, r: RunId)
    requires r in db.runs && db.runs[r].conversation in db.conversations
    ensures MessagesStand(db, r) <==> Settled(db.runs[r])
  {
    var run := db.runs[r];
    if Settled(run) {
      forall steps: seq<Step> ensures r in Run(db, steps).runs && Run(db, steps).runs[r].messages == run.messages {
        SettledForever(db, steps, r);
      }
    } else {
      var report := Report(run.conversation, "", Some(0), None, run.messages + [ModelMessage("", 0)]);
      var steps := [RecordExternal(r, report, Present)];
      assert steps[1..] == [];
      assert Run(db, steps) == After(db, steps[0]);
      assert Run(db, steps).runs[r].messages == report.messages;
      assert |report.messages| != |run.messages|;
    }
  }

  ghost predicate RecordsInto(step: Step, c: ConversationId) {
    || (step.RecordRun? && step.row.conversation == c)
    || (step.RecordExternal? && step.report.conversation == c)
  }

  lemma ForkKeepsHistories(db: Db, request: ForkRequest, c: ConversationId)
    requires Accepts(db, request) && Current(db, request) && HistoryOf(db, c) != {}
    ensures HistoryOf(Outcome(db, request), c) == HistoryOf(db, c)
  {
    ForkSharesTheHistory(db, request, c);
    assert c == request.target ==> Holds(db, request.targetThread, c);
  }

  /** Once a conversation has a history, only runs recorded into it add to it: a fork's grows
      apart from its source's. */
  lemma {:induction false} HistoriesGrowApart(db: Db, steps: seq<Step>, c: ConversationId)
    requires HistoryOf(db, c) != {}
    requires forall i :: 0 <= i < |steps| ==> !RecordsInto(steps[i], c)
    ensures HistoryOf(Run(db, steps), c) == HistoryOf(db, c)
    decreases |steps|
  {
    hide Accepts, Outcome, Current;
    if steps != [] {
      var step := steps[0];
      if step.Fork? && Current(db, step.request) && Accepts(db, step.request) {
        ForkKeepsHistories(db, step.request, c);
      }
      HistoriesGrowApart(After(db, step), steps[1..], c);
    }
  }

  ghost predicate KeepsAgents(before: map<ConversationId, Conversation>, after: map<ConversationId, Conversation>) {
    forall c :: c in before ==> c in after && after[c].agent == before[c].agent
  }

  lemma ForkKeepsAgents(db: Db, request: ForkRequest)
    requires Accepts(db, request)
    ensures KeepsAgents(db.conversations, Outcome(db, request).conversations)
  {
  }

  lemma StepKeepsAgents(db: Db, step: Step)
    ensures KeepsAgents(db.conversations, After(db, step).conversations)
  {
    hide Accepts, Outcome;
    if step.Fork? && Accepts(db, step.request) {
      ForkKeepsAgents(db, step.request);
    }
  }

  lemma {:induction false} AgentsForever(db: Db, steps: seq<Step>, c: ConversationId)
    requires c in db.conversations
    ensures c in Run(db, steps).conversations && Run(db, steps).conversations[c].agent == db.conversations[c].agent
    decreases |steps|
  {
    if steps != [] {
      StepKeepsAgents(db, steps[0]);
      AgentsForever(After(db, steps[0]), steps[1..], c);
    }
  }

  /** Once a driven run answers a native turn, every later look finds it. */
  lemma DrivenTurnStaysAnswered(db: Db, steps: seq<Step>, agent: string, session: string, turn: RunId)
    requires DrivenRun(db, agent, session, turn)
    ensures DrivenRun(Run(db, steps), agent, session, turn)
  {
    var r :| r in db.runs && db.runs[r].variant.Driven? && db.runs[r].conversation in db.conversations
      && db.conversations[db.runs[r].conversation].agent == agent
      && db.runs[r].session == Some(session) && db.runs[r].turn == Some(turn);
    SettledForever(db, steps, r);
    AgentsForever(db, steps, db.runs[r].conversation);
    var end := Run(db, steps).runs[r];
    assert end.(parent := None) == db.runs[r].(parent := None);
    assert end.turn == end.(parent := None).turn && end.session == end.(parent := None).session
           && end.variant == end.(parent := None).variant && end.conversation == end.(parent := None).conversation;
  }

  // ---------------------------------------------------------------- an ingest, look by look

  /** A native turn to record: the run it becomes, and whose it is. */
  datatype Ingest = Ingest(agent: string, turn: RunId, report: Report)
  {
    ghost predicate Answered(db: Db) {
      DrivenRun(db, agent, report.session, turn)
    }

    /** What it finds: a driven run as of `early`, a stored one as of `late`. */
    ghost function Looked(early: Db, late: Db): Look {
      if Answered(early) then Owned else if turn in late.runs then Present else Absent
    }

    /** Nothing stored, the write is a third transaction, with anything before it; otherwise the second
        look's own. */
    ghost function WritesOn(early: Db, late: Db, further: seq<Step>): Db {
      if Looked(early, late).Absent? then Run(late, further) else late
    }

    /** A stored run that a report may still complete. */
    ghost predicate Completes(db: Db) {
      && turn in db.runs && !report.Reserves() && db.runs[turn].variant.External? && !Final(db.runs[turn])
      && report.conversation in db.conversations
    }
  }

  /** The two looks of an ingest and its write are three transactions, or two, with anything in between.
      The ingest of a turn that a driven run answers by the time of the write records nothing exactly if
      the first look found that run, or the second a run that is not to be completed, or none although
      one has been recorded since. Otherwise the turn is recorded a second time. */
  lemma IngestWritesExactly(db: Db, between: seq<Step>, further: seq<Step>, ingest: Ingest)
    requires ingest.Answered(ingest.WritesOn(db, Run(db, between), further))
    ensures var late := Run(db, between);
            var look, now := ingest.Looked(db, late), ingest.WritesOn(db, late, further);
            var after := After(now, RecordExternal(ingest.turn, ingest.report, look));
            var writes := match look
              case Owned => false
              case Present => ingest.Completes(now)
              case Absent => ingest.turn !in now.runs && ingest.report.conversation in now.conversations;
            && after.messages == now.messages && after.ledgers == now.ledgers && after.threads == now.threads
            && (writes ==>
                  && after.runs == now.runs[ingest.turn := ingest.report.Row(ingest.turn)]
                  && ingest.report.conversation in after.conversations
                  && after.conversations[ingest.report.conversation].externalId == Some(ingest.report.session))
            && (!writes ==> after == now)
            && (look.Absent? && writes ==> after != now)
  {
    hide Run, DrivenRun, Accepts, Outcome;
  }

  /** An ingest that goes in leaves the report's own fields under the turn, its place in the run tree
      included, answers with them, and touches no other run. */
  lemma IngestRecordsTheReport(db: Db, ingest: Ingest, look: Look)
    requires match look
             case Owned => false
             case Absent => ingest.turn !in db.runs
             case Present =>
               && ingest.turn in db.runs && db.runs[ingest.turn].variant == External(None)
               && (ingest.report.messages != [] || ingest.report.endOffset != None)
    requires ingest.report.conversation in db.conversations
    ensures var after := After(db, RecordExternal(ingest.turn, ingest.report, look));
            && Holding(after, ingest.turn, ingest.report)
            && Answer(db, ingest.turn, ingest.report, look) == Some(after.runs[ingest.turn])
            && after.runs.Keys == db.runs.Keys + {ingest.turn}
            && (forall r :: r in db.runs && r != ingest.turn ==> after.runs[r] == db.runs[r])
            && (look.Absent? ==>
                  && ingest.report.conversation in after.histories
                  && after.histories[ingest.report.conversation]
                     == HistoryOf(db, ingest.report.conversation) + {ingest.turn})
  {
    hide Accepts, Outcome, DrivenRun;
  }

  /** A run recorded, or linked, under one that an end-offset fork leaves behind is left behind too,
      whatever it is itself. */
  lemma RecordedUnderStaysBehind(db: Db, step: Step, source: ConversationId, end: nat, r: RunId, parent: RunId)
    requires || step == LinkParent(r, parent)
             || (step.RecordExternal? && step.run == r && step.report.parent == Some(parent)
                 && After(db, step) != db)
    requires r in After(db, step).runs && LeftBehind(After(db, step), source, end, parent)
    ensures LeftBehind(After(db, step), source, end, r)
  {
    var after := After(db, step);
    assert after.runs[r].parent == Some(parent) by {
      hide Accepts, Outcome, LeftBehind;
    }
    SpawnedStaysBehind(after, source, end, r);
  }

  /** Recording a turn again is to be no collision. It is one, for a conversation that was there at the
      first look, exactly if the second finds no run and one of that id is recorded before the write:
      the report is then lost, and what was recorded stands. */
  lemma IngestCollidesExactly(db: Db, between: seq<Step>, further: seq<Step>, ingest: Ingest)
    requires ingest.report.conversation in db.conversations
    ensures var late := Run(db, between);
            var look, now := ingest.Looked(db, late), ingest.WritesOn(db, late, further);
            (Recorded(now, ingest.turn, ingest.report, look).None? <==>
               !ingest.Answered(db) && ingest.turn !in late.runs && ingest.turn in now.runs)
  {
    AgentsForever(db, between, ingest.report.conversation);
    AgentsForever(Run(db, between), further, ingest.report.conversation);
    hide Run, DrivenRun;
  }

  /** It happens: a reservation of the turn comes in between, and the finished turn is refused. */
  lemma ReservationLosesTheTurn(db: Db, ingest: Ingest)
    requires !ingest.Answered(db) && ingest.turn !in db.runs && ingest.report.conversation in db.conversations
    ensures var hook := ingest.report.(endOffset := None, messages := []);
            var further := [RecordExternal(ingest.turn, hook, Absent)];
            var now := ingest.WritesOn(db, Run(db, []), further);
            && ingest.Looked(db, Run(db, [])).Absent? && hook.Reserves()
            && Recorded(now, ingest.turn, ingest.report, Absent).None?
            && ingest.turn in now.runs && now.runs[ingest.turn].messages == []
  {
    var hook := ingest.report.(endOffset := None, messages := []);
    var step := RecordExternal(ingest.turn, hook, Absent);
    hide DrivenRun;
    assert [step][1..] == [];
    assert Run(db, [step]) == Run(After(db, step), []);
  }

  /** And so does the other: the looks find nothing, the driven run of the turn is persisted, and the
      ingest still records the turn, so that both stand for it. */
  lemma EarlyLookRecordsTwice(db: Db, ingest: Ingest, driven: RunId, messages: seq<ModelMessage>)
    requires !ingest.Answered(db) && driven !in db.runs && ingest.turn !in db.runs && driven != ingest.turn
    requires ingest.report.conversation in db.conversations
    requires db.conversations[ingest.report.conversation].agent == ingest.agent
    ensures var c := ingest.report.conversation;
            var row := AgentRun(c, Driven, Some(ingest.report.session), Some(ingest.turn), None, messages);
            var now := After(db, RecordRun(driven, row, Some(ingest.report.session)));
            var after := After(now, RecordExternal(ingest.turn, ingest.report, ingest.Looked(db, db)));
            && ingest.Answered(now) && now.runs == db.runs[driven := row]
            && after.runs == db.runs[driven := row][ingest.turn := ingest.report.Row(ingest.turn)]
            && {driven, ingest.turn} <= HistoryOf(after, c)
  {
    var c := ingest.report.conversation;
    var row := AgentRun(c, Driven, Some(ingest.report.session), Some(ingest.turn), None, messages);
    var step := RecordRun(driven, row, Some(ingest.report.session));
    var now := After(db, step);
    assert driven in now.runs && now.runs[driven] == row;
    assert now.conversations[c].agent == ingest.agent;
    hide DrivenRun;
    assert ingest.Answered(now) by { DrivenIs(now, driven); }
  }

  lemma DrivenIs(db: Db, r: RunId)
    requires r in db.runs && db.runs[r].variant.Driven? && db.runs[r].conversation in db.conversations
    requires db.runs[r].session.Some? && db.runs[r].turn.Some?
    ensures DrivenRun(db, db.conversations[db.runs[r].conversation].agent, db.runs[r].session.value,
                      db.runs[r].turn.value)
  {
  }
}
