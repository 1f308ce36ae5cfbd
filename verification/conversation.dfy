/** Conversations: the runs in their histories, and the fork that shares them. */
module Conversations {
  import opened Wrappers
  import opened Schema
  import Threads

  // ---------------------------------------------------------------- recording runs

  /** A driven run already answers this native turn. */
  predicate DrivenRun(db: Db, agent: string, session: string, turn: string) {
    exists r :: r in db.runs
      && var run := db.runs[r];
         && run.variant.Driven?
         && run.conversation in db.conversations
         && db.conversations[run.conversation].agent == agent
         && run.session == Some(session)
         && run.turn == Some(turn)
  }

  /** A run reported by a native runtime's session: a reservation when it brings neither
      messages nor an end offset. */
  datatype Report = Report(
    conversation: ConversationId, session: string, endOffset: Option<nat>,
    parent: Option<RunId>, messages: seq<ModelMessage>)
  {
    function Row(id: RunId): AgentRun {
      AgentRun(conversation, External(endOffset), Some(session), Some(id), parent, messages)
    }

    predicate Reserves() {
      messages == [] && endOffset.None?
    }
  }

  predicate Final(run: AgentRun) {
    run.variant.External? && run.variant.endOffset.Some?
  }

  function Rebound(db: Db, c: ConversationId, handle: Option<string>): map<ConversationId, Conversation>
    requires c in db.conversations
  {
    db.conversations[c := db.conversations[c].(externalId := handle)]
  }

  /** A new run joins the history of the conversation it ran in, and its handle replaces the
      conversation's, none included. None when the tables refuse the commit: the id is taken,
      or the conversation is gone. */
  function Persisted(db: Db, id: RunId, run: AgentRun, handle: Option<string>): Option<Db> {
    if id in db.runs || run.conversation !in db.conversations then None
    else Some(db.(
      runs := db.runs[id := run],
      histories := db.histories[run.conversation := HistoryOf(db, run.conversation) + {id}],
      conversations := Rebound(db, run.conversation, handle)))
  }

  /** A handle is meant to be replaced only by one that is given. It is, exactly where one is given
      or there was none to lose. */
  lemma HandleIsKeptExactly(db: Db, id: RunId, run: AgentRun, handle: Option<string>)
    requires Persisted(db, id, run, handle).Some?
    ensures var was, became := db.conversations[run.conversation].externalId,
                            Persisted(db, id, run, handle).value.conversations[run.conversation].externalId;
            (became == if handle.Some? then handle else was) <==> handle.Some? || was.None?
  {
  }

  /** A conversation bound to a native session. */
  const BOUND := Db(
    map[0 := None], [], map[0 := map[0 := None]], map[0 := Conversation(0, "a", Some("native"))], map[], map[], map[])

  /** A run that brings no handle unbinds it. */
  lemma HandleIsLost(id: RunId, messages: seq<ModelMessage>)
    ensures var run := AgentRun(0, Driven, None, None, None, messages);
            && Valid(BOUND) && Persisted(BOUND, id, run, None).Some?
            && Persisted(BOUND, id, run, None).value.conversations[0].externalId == None
  {
    HandleIsKeptExactly(BOUND, id, AgentRun(0, Driven, None, None, None, messages), None);
  }

  /** What a report found when it looked: a driven run that answers for the turn; no run of its id,
      so that another transaction is to persist it; or one, which this transaction goes on with. */
  datatype Look = Owned | Absent | Present

  function Recorded(db: Db, id: RunId, report: Report, look: Look): Option<Db> {
    match look
    case Owned => Some(db)
    case Absent => Persisted(db, id, report.Row(id), Some(report.session))
    case Present =>
      if id !in db.runs || report.Reserves() || db.runs[id].variant.Driven? || Final(db.runs[id]) then Some(db)
      else if report.conversation !in db.conversations then None
      else Some(db.(
        runs := db.runs[id := report.Row(id)],
        conversations := Rebound(db, report.conversation, Some(report.session))))
  }

  /** The run a call answers with that goes through: what is stored for it, unless something else
      already answers for the turn. */
  function Answer(db: Db, id: RunId, report: Report, look: Look): Option<AgentRun> {
    match look
    case Owned => None
    case Absent => Some(report.Row(id))
    case Present =>
      if id !in db.runs || db.runs[id].variant.Driven? then None
      else if report.Reserves() then Some(db.runs[id])
      else if Final(db.runs[id]) then None
      else Some(report.Row(id))
  }

  /** What the table holds for a report that went in, field by field. */
  ghost predicate Holding(db: Db, id: RunId, report: Report) {
    && id in db.runs
    && var run := db.runs[id];
       && run.conversation == report.conversation && run.parent == report.parent && run.messages == report.messages
       && run.session == Some(report.session) && run.turn == Some(id)
       && run.variant.External? && run.variant.endOffset == report.endOffset
  }

  /** A call that goes through answers with a run exactly if it recorded the report, or only reserved
      one that is not driven; and then with what is stored. */
  lemma AnswersWithTheStored(db: Db, id: RunId, report: Report, look: Look)
    requires Recorded(db, id, report, look).Some? && (look.Present? ==> id in db.runs)
    ensures var after, answer := Recorded(db, id, report, look).value, Answer(db, id, report, look);
            && (answer.Some? <==>
                  match look
                  case Owned => false
                  case Absent => true
                  case Present =>
                    && db.runs[id].variant != Driven
                    && (db.runs[id].variant == External(None) || (report.messages == [] && report.endOffset == None)))
            && (answer.Some? ==> id in after.runs && answer.value == after.runs[id])
            && (answer.Some? ==> Holding(after, id, report) || after == db)
  {
  }

  method PersistRun(database: Database, id: RunId, run: AgentRun, handle: Option<string>) returns (committed: bool)
    modifies database
    ensures var after := Persisted(old(database.View()), id, run, handle);
            committed == after.Some? && database.View() == if committed then after.value else old(database.View())
  {
    if id in database.runs || run.conversation !in database.conversations {
      return false;
    }
    var c := run.conversation;
    database.histories := database.histories[c := HistoryOf(database.View(), c) + {id}];
    database.runs := database.runs[id := run];
    database.conversations := database.conversations[c := database.conversations[c].(externalId := handle)];
    return true;
  }

  /** Up to the end of the transaction that looks for a stored run; where it finds none, `PersistRun`
      is to record the report's row in one of its own. */
  method RecordExternalRun(database: Database, id: RunId, report: Report, answered: bool)
    returns (look: Look, committed: bool, run: Option<AgentRun>)
    modifies database
    ensures look == if answered then Owned else if id in old(database.runs) then Present else Absent
    ensures look.Absent? ==> database.View() == old(database.View()) && run == None
    ensures !look.Absent? ==>
              && var after := Recorded(old(database.View()), id, report, look);
                 committed == after.Some? && database.View() == if committed then after.value else old(database.View())
    ensures !look.Absent? && committed ==> run == Answer(old(database.View()), id, report, look)
    ensures run.Some? ==> id in database.runs && run.value == database.runs[id]
    ensures database.View() != old(database.View()) ==> Holding(database.View(), id, report)
  {
    if answered {
      return Owned, true, None;
    }
    if id !in database.runs {
      return Absent, false, None;
    }
    look := Present;
    var stored := database.runs[id];
    if report.messages == [] && report.endOffset.None? {
      return look, true, if stored.variant.External? then Some(stored) else None;
    }
    if stored.variant.Driven? || stored.variant.endOffset.Some? {
      return look, true, None;
    }
    if report.conversation !in database.conversations {
      return look, false, None;
    }
    var owner := database.conversations[report.conversation];
    database.runs := database.runs[id := report.Row(id)];
    database.conversations :=
      database.conversations[report.conversation := owner.(externalId := Some(report.session))];
    return look, true, Some(report.Row(id));
  }

  /** `link_parent_run` stamps a run's place in the run tree after the fact. */
  function Linked(db: Db, id: RunId, parent: RunId): Db {
    if id !in db.runs then db else db.(runs := db.runs[id := db.runs[id].(parent := Some(parent))])
  }

  // ---------------------------------------------------------------- unfinished turns

  /** `r`, or an ancestor of it at most `n` spawns up, is one of `roots`. */
  ghost predicate Climbs(runs: map<RunId, AgentRun>, roots: set<RunId>, r: RunId, n: nat)
    decreases n
  {
    && r in runs
    && (r in roots || (n > 0 && runs[r].parent.Some? && Climbs(runs, roots, runs[r].parent.value, n - 1)))
  }

  ghost predicate Descends(runs: map<RunId, AgentRun>, roots: set<RunId>, r: RunId) {
    exists n: nat :: Climbs(runs, roots, r, n)
  }

  ghost function DescendantsOf(runs: map<RunId, AgentRun>, roots: set<RunId>): set<RunId> {
    set r | r in runs && Descends(runs, roots, r)
  }

  lemma {:induction false} ClosedHoldsDescendants(runs: map<RunId, AgentRun>, roots: set<RunId>, closed: set<RunId>,
                                                  r: RunId, n: nat)
    requires roots <= closed && Climbs(runs, roots, r, n)
    requires forall c :: c in runs && runs[c].parent.Some? && runs[c].parent.value in closed ==> c in closed
    ensures r in closed
    decreases n
  {
    if r !in roots {
      ClosedHoldsDescendants(runs, roots, closed, runs[r].parent.value, n - 1);
    }
  }

  /** The recursive union: rows spawned by the last round's rows, until a round adds none.
      It ends, and holds exactly the runs with a root among their ancestors or themselves,
      whatever the parent links form. */
  method UnionOfDescendants(runs: map<RunId, AgentRun>, roots: set<RunId>) returns (all: set<RunId>)
    requires roots <= runs.Keys
    ensures all == DescendantsOf(runs, roots)
  {
    all := roots;
    var latest := roots;
    forall r | r in roots ensures Descends(runs, roots, r) { assert Climbs(runs, roots, r, 0); }
    while latest != {}
      invariant latest <= all <= runs.Keys && roots <= all
      invariant forall r :: r in all ==> Descends(runs, roots, r)
      invariant forall c :: c in runs && runs[c].parent.Some? && runs[c].parent.value in all - latest ==> c in all
      decreases runs.Keys - all, |latest|
    {
      var spawned := set c | c in runs && c !in all && runs[c].parent.Some? && runs[c].parent.value in latest;
      forall c | c in spawned ensures Descends(runs, roots, c) {
        var n: nat :| Climbs(runs, roots, runs[c].parent.value, n);
        assert Climbs(runs, roots, c, n + 1);
      }
      if spawned != {} {
        var c :| c in spawned;
        assert c in runs.Keys - all;
      }
      all := all + spawned;
      latest := spawned;
    }
    forall r | r in DescendantsOf(runs, roots) ensures r in all {
      var n: nat :| Climbs(runs, roots, r, n);
      ClosedHoldsDescendants(runs, roots, all, r, n);
    }
  }

  /** No run the fork keeps was spawned, at any remove, by one it drops. */
  lemma KeptHasNoDroppedAncestor(runs: map<RunId, AgentRun>, roots: set<RunId>, r: RunId)
    requires r in runs && r !in DescendantsOf(runs, roots)
    ensures !Descends(runs, DescendantsOf(runs, roots), r)
  {
    var dropped := DescendantsOf(runs, roots);
    forall n: nat | Climbs(runs, dropped, r, n) ensures false {
      DroppedIsClosed(runs, roots);
      ClosedHoldsDescendants(runs, dropped, dropped, r, n);
    }
  }

  lemma DroppedIsClosed(runs: map<RunId, AgentRun>, roots: set<RunId>)
    ensures forall c :: c in runs && runs[c].parent.Some? && runs[c].parent.value in DescendantsOf(runs, roots)
                        ==> c in DescendantsOf(runs, roots)
  {
    forall c | c in runs && runs[c].parent.Some? && runs[c].parent.value in DescendantsOf(runs, roots)
      ensures c in DescendantsOf(runs, roots)
    {
      var n: nat :| Climbs(runs, roots, runs[c].parent.value, n);
      assert Climbs(runs, roots, c, n + 1);
    }
  }

  // ---------------------------------------------------------------- the fork

  /** What the caller asks for; the threads and the source's handle are as it last read them. */
  datatype ForkRequest = ForkRequest(
    source: ConversationId, sourceThread: ThreadId, sourceHandle: Option<string>,
    target: ConversationId, targetThread: ThreadId,
    carry: bool, handle: Option<string>, transcript: Option<nat>, endOffset: Option<nat>)
  {
    /** An imported transcript ends where it does unless the caller says otherwise. */
    function End(): Option<nat> {
      if endOffset.None? then transcript else endOffset
    }
  }

  datatype ForkError =
    | SameThread | TranscriptNeedsSession | HandleNotNew | UnknownTarget | UnknownTargetThread
    | HoldsHistory | UnknownSourceThread | UnknownSource | LedgerAlreadyShown

  /** A conversation's thread never changes, so the caller's copy of it is the stored one. */
  predicate Current(db: Db, request: ForkRequest) {
    && (request.source in db.conversations ==> db.conversations[request.source].thread == request.sourceThread)
    && (request.target in db.conversations ==> db.conversations[request.target].thread == request.targetThread)
  }

  /** Something besides a system notice is shown, or a conversation has run. */
  predicate Holds(db: Db, t: ThreadId, target: ConversationId) {
    || (exists c :: c in db.conversations && db.conversations[c].thread == t
                    && (c != target || HistoryOf(db, c) != {}))
    || (exists m :: 0 <= m < |db.messages| && Threads.Shows(db, t, m) && !db.messages[m].actor.System?)
  }

  /** The turns of the origin's own session that end past the offset. */
  predicate Unfinished(db: Db, source: ConversationId, end: nat, r: RunId)
    requires source in db.conversations
  {
    && r in db.runs && r in HistoryOf(db, source)
    && var run := db.runs[r];
       && run.variant.External?
       && run.session == db.conversations[source].externalId
       && (run.variant.endOffset.None? || run.variant.endOffset.value > end)
  }

  ghost function Dropped(db: Db, request: ForkRequest): set<RunId>
    requires request.source in db.conversations
  {
    if request.End().None? then {}
    else DescendantsOf(db.runs, set r | r in db.runs && Unfinished(db, request.source, request.End().value, r))
  }

  /** The runs in a history of the source's thread that are not dropped. */
  predicate Kept(db: Db, s: ThreadId, dropped: set<RunId>, r: RunId) {
    && r !in dropped
    && exists c :: c in db.conversations && db.conversations[c].thread == s && r in HistoryOf(db, c)
  }

  /** Said no later than the last message the fork keeps. */
  predicate SaidByThen(db: Db, s: ThreadId, dropped: set<RunId>, at: Instant) {
    exists r, i :: r in db.runs && Kept(db, s, dropped, r) && 0 <= i < |db.runs[r].messages|
                   && at <= db.runs[r].messages[i].timestamp
  }

  predicate BoundTo(db: Db, m: MessageId, dropped: set<RunId>) {
    BoundRuns(db, m) * dropped != {}
  }

  predicate BoundToKept(db: Db, s: ThreadId, dropped: set<RunId>, m: MessageId) {
    exists r :: r in BoundRuns(db, m) && Kept(db, s, dropped, r)
  }

  /** Chat of an unfinished turn: bound to it, or filed under it. */
  predicate ChatOf(db: Db, dropped: set<RunId>, m: MessageId)
    requires m < |db.messages|
  {
    || BoundTo(db, m, dropped)
    || (db.messages[m].platform.Some? && db.messages[m].platform.value in dropped)
  }

  /** Chat of a completed turn: bound to one, or of no unfinished turn and said in time. */
  predicate Completed(db: Db, s: ThreadId, dropped: set<RunId>, m: MessageId)
    requires m < |db.messages|
  {
    || BoundToKept(db, s, dropped, m)
    || (!ChatOf(db, dropped, m) && SaidByThen(db, s, dropped, db.messages[m].happenedAt))
  }

  ghost function OwnCut(db: Db, s: ThreadId, end: Option<nat>, dropped: set<RunId>): Option<MessageId> {
    MaxOf(Cuttable(db, s, end, dropped))
  }

  /** Without an end offset the cut may fall at any row of the ledger; with one, at chat of a
      completed turn. */
  ghost function Cuttable(db: Db, s: ThreadId, end: Option<nat>, dropped: set<RunId>): set<MessageId> {
    set m | 0 <= m < |db.messages| && db.messages[m].thread == s && (end.None? || Completed(db, s, dropped, m))
  }

  /** Every ledger the source shows, its own at the cut and the others where they already stop. */
  function Cuts(db: Db, s: ThreadId, own: Option<MessageId>): map<ThreadId, Option<MessageId>> {
    LedgersOf(db, s)[s := own]
  }

  function Frozen(cuts: map<ThreadId, Option<MessageId>>): map<ThreadId, Option<MessageId>> {
    map l | l in cuts && cuts[l].Some? :: cuts[l]
  }

  ghost function LastShown(cuts: map<ThreadId, Option<MessageId>>): Option<MessageId> {
    MaxOf(CutValues(cuts))
  }

  ghost function CutValues(cuts: map<ThreadId, Option<MessageId>>): set<MessageId> {
    set l | l in cuts && cuts[l].Some? :: cuts[l].value
  }

  function Capped(cursor: Option<MessageId>, shown: Option<MessageId>): Option<MessageId> {
    if cursor.None? || shown.None? then shown
    else if cursor.value < shown.value then cursor else shown
  }

  /** The runtime handle: carried from the source, new, or left as it is. */
  function Handed(conversations: map<ConversationId, Conversation>, request: ForkRequest)
    : map<ConversationId, Conversation>
    requires request.source in conversations && request.target in conversations
  {
    if request.carry then
      conversations[request.target :=
        conversations[request.target].(externalId := conversations[request.source].externalId)]
                   [request.source := conversations[request.source].(externalId := None)]
    else if request.handle.Some? then
      conversations[request.target := conversations[request.target].(externalId := request.handle)]
    else conversations
  }

  function Refusal(db: Db, request: ForkRequest): Option<ForkError> {
    if request.sourceThread == request.targetThread then Some(SameThread)
    else if request.transcript.Some? && (request.handle.None? || request.carry) then Some(TranscriptNeedsSession)
    else if request.handle.Some? && (request.carry || request.handle == request.sourceHandle) then Some(HandleNotNew)
    else if request.target !in db.conversations then Some(UnknownTarget)
    else if request.targetThread !in db.threads then Some(UnknownTargetThread)
    else if Holds(db, request.targetThread, request.target) then Some(HoldsHistory)
    else if request.sourceThread !in db.threads then Some(UnknownSourceThread)
    else if request.source !in db.conversations then Some(UnknownSource)
    else None
  }

  /** Which refusal comes of which request: what the caller got wrong by itself first, then the target,
      then the source. */
  lemma RefusedExactly(db: Db, request: ForkRequest)
    ensures var refusal := Refusal(db, request);
            var apart := request.sourceThread != request.targetThread;
            var imported := request.transcript == None || (request.handle != None && !request.carry);
            var handed := request.handle == None || (!request.carry && request.handle != request.sourceHandle);
            var target := request.target in db.conversations && request.targetThread in db.threads;
            var empty := !Holds(db, request.targetThread, request.target);
            && (refusal == Some(SameThread) <==> !apart)
            && (refusal == Some(TranscriptNeedsSession) <==> apart && !imported)
            && (refusal == Some(HandleNotNew) <==> apart && imported && !handed)
            && (apart && imported && handed ==>
                  && (refusal == Some(UnknownTarget) <==> request.target !in db.conversations)
                  && (refusal == Some(UnknownTargetThread) <==>
                        request.target in db.conversations && request.targetThread !in db.threads)
                  && (refusal == Some(HoldsHistory) <==> target && !empty)
                  && (refusal == Some(UnknownSourceThread) <==>
                        target && empty && request.sourceThread !in db.threads)
                  && (refusal == Some(UnknownSource) <==>
                        target && empty && request.sourceThread in db.threads && request.source !in db.conversations))
            && refusal != Some(LedgerAlreadyShown)
  {
    hide Holds;
  }

  /** What the transaction writes: the frozen ledgers, the kept history, the cursor within what
      is shown, and the handle. */
  function Joined(db: Db, request: ForkRequest, dropped: set<RunId>,
                  rows: map<ThreadId, Option<MessageId>>, shown: Option<MessageId>): Db
    requires request.source in db.conversations && request.target in db.conversations
    requires request.sourceThread in db.threads
  {
    var t, c := request.targetThread, request.target;
    db.(
      ledgers := db.ledgers[t := LedgersOf(db, t) + rows],
      histories := db.histories[c := HistoryOf(db, c) + (HistoryOf(db, request.source) - dropped)],
      threads := db.threads[t := Capped(db.threads[request.sourceThread], shown)],
      conversations := Handed(db.conversations, request))
  }

  ghost function CutsOf(db: Db, request: ForkRequest): map<ThreadId, Option<MessageId>>
    requires request.source in db.conversations
  {
    Cuts(db, request.sourceThread, OwnCut(db, request.sourceThread, request.End(), Dropped(db, request)))
  }

  /** The target does not yet show a ledger the fork would freeze into it. */
  ghost predicate Insertable(db: Db, request: ForkRequest)
    requires request.source in db.conversations
  {
    Frozen(CutsOf(db, request)).Keys !! LedgersOf(db, request.targetThread).Keys
  }

  ghost function Outcome(db: Db, request: ForkRequest): Db
    requires request.source in db.conversations && request.target in db.conversations
    requires request.sourceThread in db.threads
  {
    var cuts := CutsOf(db, request);
    Joined(db, request, Dropped(db, request), Frozen(cuts), LastShown(cuts))
  }

  /** The fork, as one transaction. A ledger the target already shows is a key it cannot insert. */
  ghost function Forked(db: Db, request: ForkRequest): Result<Db, ForkError> {
    var refusal := Refusal(db, request);
    if refusal.Some? then Failure(refusal.value)
    else if !Insertable(db, request) then Failure(LedgerAlreadyShown)
    else Success(Outcome(db, request))
  }

  /** What a caller must meet for the fork to go through. */
  ghost predicate Accepts(db: Db, request: ForkRequest) {
    && request.sourceThread != request.targetThread
    && (request.transcript.Some? ==> request.handle.Some? && !request.carry)
    && (request.handle.Some? ==> !request.carry && request.handle != request.sourceHandle)
    && request.source in db.conversations && request.target in db.conversations
    && request.sourceThread in db.threads && request.targetThread in db.threads
    && !Holds(db, request.targetThread, request.target)
    && Insertable(db, request)
  }

  lemma ForkedExactly(db: Db, request: ForkRequest)
    ensures Accepts(db, request) <==> Forked(db, request).Success?
    ensures Accepts(db, request) ==> Forked(db, request) == Success(Outcome(db, request))
  {
    hide Holds, Insertable, Outcome;
  }

  /** Add a row for every ledger that stops somewhere; none when a key is taken already. */
  method Freeze(cuts: map<ThreadId, Option<MessageId>>, taken: set<ThreadId>)
    returns (rows: Option<map<ThreadId, Option<MessageId>>>, shown: Option<MessageId>)
    ensures rows.None? <==> !(Frozen(cuts).Keys !! taken)
    ensures rows.Some? ==> rows.value == Frozen(cuts) && shown == LastShown(cuts)
  {
    var added: map<ThreadId, Option<MessageId>> := map[];
    shown := None;
    var left := cuts.Keys;
    while left != {}
      invariant left <= cuts.Keys
      invariant forall l :: l in added <==> l in cuts && l !in left && cuts[l].Some?
      invariant forall l :: l in added ==> added[l] == cuts[l] && l !in taken
      invariant shown.None? ==> added == map[]
      invariant shown.Some? ==> exists l :: l in added && added[l] == shown
      invariant shown.Some? ==> forall l :: l in added ==> added[l].value <= shown.value
    {
      var l :| l in left;
      if cuts[l].Some? {
        if l in taken {
          assert l in Frozen(cuts).Keys && l in taken;
          return None, None;
        }
        added := added[l := cuts[l]];
        assert l in added;
        if shown.None? || shown.value < cuts[l].value {
          shown := cuts[l];
        }
      }
      left := left - {l};
    }
    assert added == Frozen(cuts);
    LastShownIs(cuts, shown);
    rows := Some(added);
  }

  method Fork(database: Database, request: ForkRequest) returns (refused: Option<ForkError>)
    modifies database
    ensures match Forked(old(database.View()), request)
            case Failure(error) => refused == Some(error) && database.View() == old(database.View())
            case Success(db) => refused.None? && database.View() == db
  {
    var db := database.View();
    refused := Refusal(db, request);
    if refused.Some? {
      return;
    }
    var s, t, end := request.sourceThread, request.targetThread, request.End();
    var dropped: set<RunId> := {};
    if end.Some? {
      dropped := UnionOfDescendants(db.runs, set r | r in db.runs && Unfinished(db, request.source, end.value, r));
    }
    var own := LastOwn(db, s, end, dropped);
    var cuts := Cuts(db, s, own);
    var rows, shown := Freeze(cuts, LedgersOf(db, t).Keys);
    if rows.None? {
      return Some(LedgerAlreadyShown);
    }
    Commit(database, request, dropped, rows.value, shown);
  }

  method Commit(database: Database, request: ForkRequest, dropped: set<RunId>,
                rows: map<ThreadId, Option<MessageId>>, shown: Option<MessageId>)
    requires request.source in database.conversations && request.target in database.conversations
    requires request.sourceThread in database.threads
    modifies database
    ensures database.View() == Joined(old(database.View()), request, dropped, rows, shown)
  {
    var db, t := database.View(), request.targetThread;
    database.ledgers := database.ledgers[t := LedgersOf(db, t) + rows];
    database.histories :=
      database.histories[request.target := HistoryOf(db, request.target) + (HistoryOf(db, request.source) - dropped)];
    database.threads := database.threads[t := Capped(database.threads[request.sourceThread], shown)];
    database.conversations := Handed(database.conversations, request);
  }

  lemma LastShownIs(cuts: map<ThreadId, Option<MessageId>>, shown: Option<MessageId>)
    requires shown.None? ==> Frozen(cuts) == map[]
    requires shown.Some? ==> exists l :: l in Frozen(cuts) && cuts[l] == shown
    requires shown.Some? ==> forall l :: l in Frozen(cuts) ==> cuts[l].value <= shown.value
    ensures shown == LastShown(cuts)
  {
    if shown.Some? {
      var l :| l in Frozen(cuts) && cuts[l] == shown;
      assert cuts[l].value in CutValues(cuts);
    }
    forall v | v in CutValues(cuts) ensures shown.Some? && v <= shown.value {
      var l :| l in cuts && cuts[l] == Some(v);
      assert l in Frozen(cuts);
    }
  }

  method LastOwn(db: Db, s: ThreadId, end: Option<nat>, dropped: set<RunId>) returns (cut: Option<MessageId>)
    ensures cut == OwnCut(db, s, end, dropped)
  {
    cut := None;
    for m := 0 to |db.messages|
      invariant cut.None? ==> forall i :: 0 <= i < m && db.messages[i].thread == s ==>
                end.Some? && !Completed(db, s, dropped, i)
      invariant cut.Some? ==>
                  && cut.value < m && db.messages[cut.value].thread == s
                  && (end.None? || Completed(db, s, dropped, cut.value))
      invariant cut.Some? ==> forall i :: cut.value < i < m && db.messages[i].thread == s ==>
                end.Some? && !Completed(db, s, dropped, i)
    {
      if db.messages[m].thread == s && (end.None? || Completed(db, s, dropped, m)) {
        cut := Some(m);
      }
    }
    assert cut.Some? ==> cut.value in Cuttable(db, s, end, dropped);
  }
}
