/** What a fork gives its target, and what it leaves alone. */
module Forks {
  import opened Wrappers
  import opened Schema
  import opened Threads
  import opened Conversations

  /** What reaches the fork of what its source shows: the source's own ledger up to the cut,
      and every ledger an earlier fork froze into it as far as it goes. */
  ghost predicate Reaches(db: Db, request: ForkRequest, m: MessageId)
    requires request.source in db.conversations
  {
    && Shows(db, request.sourceThread, m)
    && var own := OwnCut(db, request.sourceThread, request.End(), Dropped(db, request));
       (db.messages[m].thread == request.sourceThread ==> own.Some? && m <= own.value)
  }

  lemma CutOfLedger(db: Db, request: ForkRequest, l: ThreadId)
    requires Valid(db) && request.source in db.conversations && request.sourceThread in db.threads
    ensures var cuts, s := CutsOf(db, request), request.sourceThread;
            && (l in cuts <==> l == s || l in db.ledgers[s])
            && (l == s ==> cuts[l] == OwnCut(db, s, request.End(), Dropped(db, request)))
            && (l in cuts && l != s ==> cuts[l] == db.ledgers[s][l] && cuts[l].Some?)
            && (l in cuts && cuts[l].Some? ==> cuts[l].value < |db.messages|)
  {
    assert ValidLedgers(db.ledgers[request.sourceThread], request.sourceThread, |db.messages|);
  }

  /** The target shows what it showed and what reaches it, and nothing else. */
  lemma ForkShowsItsSource(db: Db, request: ForkRequest, m: MessageId)
    requires Valid(db) && request.source in db.conversations && request.target in db.conversations
    requires request.sourceThread in db.threads && Insertable(db, request)
    ensures Shows(Outcome(db, request), request.targetThread, m)
            <==> Shows(db, request.targetThread, m) || Reaches(db, request, m)
  {
    if m < |db.messages| {
      var t, l := request.targetThread, db.messages[m].thread;
      CutOfLedger(db, request, l);
      var rows := Frozen(CutsOf(db, request));
      assert l in rows ==> l !in LedgersOf(db, t).Keys;
    }
  }

  /** With no end offset, that is all the source showed at that moment. */
  lemma WholeForkShowsAll(db: Db, request: ForkRequest, m: MessageId)
    requires Valid(db) && request.source in db.conversations && request.End().None?
    ensures Reaches(db, request, m) <==> Shows(db, request.sourceThread, m)
  {
    if Shows(db, request.sourceThread, m) && db.messages[m].thread == request.sourceThread {
      assert m in Cuttable(db, request.sourceThread, None, Dropped(db, request));
    }
  }

  /** No other thread, the source included, shows anything more or less. */
  lemma ForkLeavesOthersAlone(db: Db, request: ForkRequest, t: ThreadId, m: MessageId)
    requires Accepts(db, request) && t != request.targetThread
    ensures Shows(Outcome(db, request), t, m) <==> Shows(db, t, m)
  {
  }

  lemma ForkKeepsValid(db: Db, request: ForkRequest)
    requires Valid(db) && request.source in db.conversations && request.target in db.conversations
    requires request.sourceThread in db.threads && request.targetThread in db.threads && Insertable(db, request)
    ensures Valid(Outcome(db, request))
  {
    var t := request.targetThread;
    var rows := Frozen(CutsOf(db, request));
    assert ValidLedgers(db.ledgers[t], t, |db.messages|);
    forall l | l in rows ensures l != t && rows[l].value < |db.messages| {
      CutOfLedger(db, request, l);
      assert l !in LedgersOf(db, t).Keys;
    }
    assert Outcome(db, request).ledgers[t] == db.ledgers[t] + rows;
  }

  /** The target's history is the source's, less the dropped runs; every other history stands. */
  lemma ForkSharesTheHistory(db: Db, request: ForkRequest, c: ConversationId)
    requires Accepts(db, request) && Current(db, request)
    ensures HistoryOf(Outcome(db, request), c)
            == if c == request.target then HistoryOf(db, request.source) - Dropped(db, request)
               else HistoryOf(db, c)
  {
    assert HistoryOf(db, request.target) != {} ==> Holds(db, request.targetThread, request.target);
  }

  // ---------------------------------------------------------------- the prompt cursor

  lemma CapKeepsPending(cuts: map<ThreadId, Option<MessageId>>, l: ThreadId, m: MessageId, cursor: Option<MessageId>)
    requires l in cuts && cuts[l].Some? && m <= cuts[l].value
    ensures Start(Capped(cursor, LastShown(cuts))) <= m <==> cursor.Some? && Start(cursor) <= m
  {
    assert cuts[l].value in CutValues(cuts);
  }

  /** Of what the target inherits, pending for it is what was pending for the source, when the
      source's cursor stood somewhere, and nothing when it did not. */
  lemma InheritedPending(db: Db, request: ForkRequest, m: MessageId, trigger: MessageId, agent: string)
    requires Valid(db) && Accepts(db, request)
    requires Reaches(db, request, m)
    ensures m in Pending(Outcome(db, request), request.targetThread, trigger, agent)
            <==> db.threads[request.sourceThread].Some? && m in Pending(db, request.sourceThread, trigger, agent)
  {
    CursorCarriesOver(db, request, m);
    ForkShowsItsSource(db, request, m);
    var s, t := request.sourceThread, request.targetThread;
    var after := Outcome(db, request);
    assert after.messages == db.messages && t in after.threads;
    hide Accepts, Outcome, Window;
    WindowIsExact(after, t, agent, Start(after.threads[t]), trigger + 1);
    WindowIsExact(db, s, agent, Start(db.threads[s]), trigger + 1);
  }

  lemma CursorCarriesOver(db: Db, request: ForkRequest, m: MessageId)
    requires Valid(db) && Accepts(db, request)
    requires Reaches(db, request, m)
    ensures var cursor := db.threads[request.sourceThread];
            Start(Outcome(db, request).threads[request.targetThread]) <= m <==> cursor.Some? && Start(cursor) <= m
  {
    var l := db.messages[m].thread;
    CutOfLedger(db, request, l);
    CapKeepsPending(CutsOf(db, request), l, m, db.threads[request.sourceThread]);
  }

  /** The target's cursor stops where its source's did, or at the last row a ledger is frozen at, whichever
      comes first; where nothing is frozen there is none. */
  lemma CursorStopsWithin(db: Db, request: ForkRequest)
    requires Valid(db) && Accepts(db, request)
    ensures var after, t := Outcome(db, request), request.targetThread;
            var was := db.threads[request.sourceThread];
            var frozen := set l | l in after.ledgers[t] && l !in db.ledgers[t] && after.ledgers[t][l].Some?
                            :: after.ledgers[t][l].value;
            && t in after.threads
            && (after.threads[t].None? <==> frozen == {})
            && (after.threads[t].Some? ==>
                  && var v := after.threads[t].value;
                     && (was == Some(v) || v in frozen)
                     && (was.Some? ==> v <= was.value)
                     && (exists cut :: cut in frozen && v <= cut)
                     && (was.None? || v != was.value ==> forall cut :: cut in frozen ==> cut <= v))
            && (forall u :: u in db.threads && u != t ==> u in after.threads && after.threads[u] == db.threads[u])
  {
    var after, t := Outcome(db, request), request.targetThread;
    var rows := Frozen(CutsOf(db, request));
    assert ValidLedgers(db.ledgers[t], t, |db.messages|);
    assert after.ledgers[t] == db.ledgers[t] + rows;
    var frozen := set l | l in after.ledgers[t] && l !in db.ledgers[t] && after.ledgers[t][l].Some?
                    :: after.ledgers[t][l].value;
    assert rows.Keys !! db.ledgers[t].Keys;
    forall v ensures v in frozen <==> v in CutValues(CutsOf(db, request)) {
      if v in CutValues(CutsOf(db, request)) {
        var l :| l in CutsOf(db, request) && CutsOf(db, request)[l] == Some(v);
        assert l in rows && after.ledgers[t][l] == Some(v);
      }
      if v in frozen {
        var l :| l in after.ledgers[t] && l !in db.ledgers[t] && after.ledgers[t][l] == Some(v);
        assert l in rows;
      }
    }
    assert frozen == CutValues(CutsOf(db, request));
    hide CutsOf, CutValues, Frozen;
  }

  // ---------------------------------------------------------------- unfinished turns

  /** The cut falls at the last row that may hold it. */
  lemma CutIsGreatest(db: Db, request: ForkRequest, m: MessageId)
    requires request.source in db.conversations
    requires m < |db.messages| && db.messages[m].thread == request.sourceThread
    ensures var dropped := Dropped(db, request);
            var own := OwnCut(db, request.sourceThread, request.End(), dropped);
            (own.Some? && m <= own.value)
            <==> exists c :: m <= c < |db.messages| && db.messages[c].thread == request.sourceThread
                             && (request.End().None? || Completed(db, request.sourceThread, dropped, c))
  {
    var dropped := Dropped(db, request);
    var own := OwnCut(db, request.sourceThread, request.End(), dropped);
    forall c | m <= c < |db.messages| && db.messages[c].thread == request.sourceThread
               && (request.End().None? || Completed(db, request.sourceThread, dropped, c))
      ensures own.Some? && m <= own.value
    {
      assert c in Cuttable(db, request.sourceThread, request.End(), dropped);
    }
    if own.Some? {
      assert own.value in Cuttable(db, request.sourceThread, request.End(), dropped);
    }
  }

  /** Chat of unfinished turns stays behind, all of it, exactly when none of it comes before
      chat of a completed turn in the source's own ledger. */
  lemma UnfinishedChatStaysBehind(db: Db, request: ForkRequest)
    requires Valid(db) && request.source in db.conversations && request.sourceThread in db.threads
    requires request.End().Some?
    ensures var dropped, s := Dropped(db, request), request.sourceThread;
            (forall m :: 0 <= m < |db.messages| && db.messages[m].thread == s && ChatOf(db, dropped, m) ==>
               !Reaches(db, request, m))
            <==> (forall m, c :: 0 <= m <= c < |db.messages| && db.messages[m].thread == s
                                 && db.messages[c].thread == s && ChatOf(db, dropped, m)
                    ==> !Completed(db, s, dropped, c))
  {
    var dropped, s := Dropped(db, request), request.sourceThread;
    forall m | 0 <= m < |db.messages| && db.messages[m].thread == s && ChatOf(db, dropped, m)
      ensures !Reaches(db, request, m)
              <==> forall c :: m <= c < |db.messages| && db.messages[c].thread == s ==> !Completed(db, s, dropped, c)
    {
      CutIsGreatest(db, request, m);
    }
  }

  /** From the run up its parents to one of the origin's own session that had not ended by the
      offset: a turn that ends at the offset had. */
  ghost predicate LeadsToUnfinished(db: Db, source: ConversationId, end: nat, line: seq<RunId>) {
    && source in db.conversations && line != []
    && (forall i :: 0 <= i < |line| ==> line[i] in db.runs)
    && (forall i :: 0 <= i < |line| - 1 ==> db.runs[line[i]].parent == Some(line[i + 1]))
    && var top := db.runs[line[|line| - 1]];
       && source in db.histories && line[|line| - 1] in db.histories[source]
       && top.variant.External? && top.session == db.conversations[source].externalId
       && (match top.variant.endOffset case None => true case Some(offset) => offset > end)
  }

  ghost predicate LeftBehind(db: Db, source: ConversationId, end: nat, r: RunId) {
    exists line :: LeadsToUnfinished(db, source, end, line) && line[0] == r
  }

  lemma {:induction false} LineClimbs(db: Db, source: ConversationId, end: nat, roots: set<RunId>, line: seq<RunId>)
    requires LeadsToUnfinished(db, source, end, line)
    requires forall r :: r in roots <==> r in db.runs && Unfinished(db, source, end, r)
    ensures Climbs(db.runs, roots, line[0], |line| - 1)
    decreases |line|
  {
    if |line| > 1 {
      assert forall i :: 0 <= i < |line| - 1 ==> line[1..][i] == line[i + 1];
      LineClimbs(db, source, end, roots, line[1..]);
    }
  }

  lemma {:induction false} ClimbIsALine(db: Db, source: ConversationId, end: nat, roots: set<RunId>, r: RunId, n: nat)
    requires source in db.conversations && Climbs(db.runs, roots, r, n)
    requires forall q :: q in roots <==> q in db.runs && Unfinished(db, source, end, q)
    ensures LeftBehind(db, source, end, r)
    decreases n
  {
    if r in roots {
      assert LeadsToUnfinished(db, source, end, [r]);
    } else {
      ClimbIsALine(db, source, end, roots, db.runs[r].parent.value, n - 1);
      var line :| LeadsToUnfinished(db, source, end, line) && line[0] == db.runs[r].parent.value;
      var longer := [r] + line;
      assert longer[|longer| - 1] == line[|line| - 1];
      assert LeadsToUnfinished(db, source, end, longer);
    }
  }

  /** The offset a request comes down to: its own, or else where its transcript ends. */
  lemma DroppedIsLeftBehind(db: Db, request: ForkRequest, r: RunId)
    requires request.source in db.conversations
    ensures r in Dropped(db, request) <==>
              match (request.endOffset, request.transcript)
              case (Some(end), _) => LeftBehind(db, request.source, end, r)
              case (None, Some(size)) => LeftBehind(db, request.source, size, r)
              case (None, None) => false
  {
    if request.End().Some? {
      var end := request.End().value;
      var roots := set q | q in db.runs && Unfinished(db, request.source, end, q);
      if r in Dropped(db, request) {
        var n: nat :| Climbs(db.runs, roots, r, n);
        ClimbIsALine(db, request.source, end, roots, r, n);
      }
      if LeftBehind(db, request.source, end, r) {
        var line :| LeadsToUnfinished(db, request.source, end, line) && line[0] == r;
        LineClimbs(db, request.source, end, roots, line);
      }
    }
  }

  /** The target's history is, run by run, what of its source's is not left behind: driven runs, other
      sessions' runs and turns that had ended by the offset all come along, unless an unfinished
      turn spawned them. */
  lemma SharedRunsExactly(db: Db, request: ForkRequest, r: RunId)
    requires Accepts(db, request) && Current(db, request)
    ensures var after := Outcome(db, request);
            (request.target in after.histories && r in after.histories[request.target]) <==>
              && request.source in db.histories && r in db.histories[request.source]
              && match (request.endOffset, request.transcript)
                 case (Some(end), _) => !LeftBehind(db, request.source, end, r)
                 case (None, Some(size)) => !LeftBehind(db, request.source, size, r)
                 case (None, None) => true
  {
    ForkSharesTheHistory(db, request, request.target);
    DroppedIsLeftBehind(db, request, r);
    hide Accepts, LeftBehind, Dropped;
  }

  /** What an unfinished turn's run spawned, recorded or linked under it, is left behind with it. */
  lemma SpawnedStaysBehind(db: Db, source: ConversationId, end: nat, r: RunId)
    requires r in db.runs && db.runs[r].parent.Some? && LeftBehind(db, source, end, db.runs[r].parent.value)
    ensures LeftBehind(db, source, end, r)
  {
    var line :| LeadsToUnfinished(db, source, end, line) && line[0] == db.runs[r].parent.value;
    var longer := [r] + line;
    assert longer[|longer| - 1] == line[|line| - 1];
    assert LeadsToUnfinished(db, source, end, longer);
  }

  /** A run in the history of some conversation of the thread, and not left behind. */
  ghost predicate StaysInThread(db: Db, request: ForkRequest, end: nat, r: RunId) {
    && !LeftBehind(db, request.source, end, r)
    && exists c :: c in db.conversations && db.conversations[c].thread == request.sourceThread
                   && c in db.histories && r in db.histories[c]
  }

  /** A row the cut may fall at: bound to a run that stays; or neither bound to one left behind nor
      filed under one, and said no later than the last message of a run that stays. */
  ghost predicate HoldsTheCut(db: Db, request: ForkRequest, end: nat, m: MessageId)
    requires m < |db.messages|
  {
    || (m in db.bindings && exists r :: r in db.bindings[m] && StaysInThread(db, request, end, r))
    || (&& (m in db.bindings ==> forall r :: r in db.bindings[m] ==> !LeftBehind(db, request.source, end, r))
        && (match db.messages[m].platform
            case None => true
            case Some(id) => !LeftBehind(db, request.source, end, id))
        && exists r, i :: r in db.runs && StaysInThread(db, request, end, r) && 0 <= i < |db.runs[r].messages|
                          && db.messages[m].happenedAt <= db.runs[r].messages[i].timestamp)
  }

  lemma CompletedHoldsTheCut(db: Db, request: ForkRequest, end: nat, m: MessageId)
    requires request.source in db.conversations && request.End() == Some(end) && m < |db.messages|
    ensures Completed(db, request.sourceThread, Dropped(db, request), m) <==> HoldsTheCut(db, request, end, m)
  {
    var dropped, s := Dropped(db, request), request.sourceThread;
    forall r ensures r in dropped <==> LeftBehind(db, request.source, end, r) {
      DroppedIsLeftBehind(db, request, r);
    }
    hide LeftBehind, Dropped;
    forall r ensures Kept(db, s, dropped, r) <==> StaysInThread(db, request, end, r) {
    }
    hide Kept, StaysInThread;
    var platform := db.messages[m].platform;
    assert ChatOf(db, dropped, m) <==>
             || (m in db.bindings && exists r :: r in db.bindings[m] && LeftBehind(db, request.source, end, r))
             || (platform.Some? && LeftBehind(db, request.source, end, platform.value)) by {
      assert forall r :: r in BoundRuns(db, m) * dropped <==> r in BoundRuns(db, m) && r in dropped;
    }
  }

  /** How much of its source's own ledger an accepted fork shows: up to the last row that may hold the
      cut; with no offset, all of it. */
  lemma CutFallsExactly(db: Db, request: ForkRequest, m: MessageId)
    requires Valid(db) && Accepts(db, request)
    requires m < |db.messages| && db.messages[m].thread == request.sourceThread
    ensures var after, s := Outcome(db, request), request.sourceThread;
            var end := if request.endOffset.Some? then request.endOffset else request.transcript;
            Shows(after, request.targetThread, m) <==>
              || Shows(db, request.targetThread, m)
              || exists c :: m <= c < |db.messages| && db.messages[c].thread == s
                             && (end.Some? ==> HoldsTheCut(db, request, end.value, c))
  {
    ForkShowsItsSource(db, request, m);
    CutIsGreatest(db, request, m);
    assert Shows(db, request.sourceThread, m) by {
      assert ValidLedgers(db.ledgers[request.sourceThread], request.sourceThread, |db.messages|);
    }
    if request.End().Some? {
      forall c | 0 <= c < |db.messages|
        ensures Completed(db, request.sourceThread, Dropped(db, request), c)
                <==> HoldsTheCut(db, request, request.End().value, c)
      {
        CompletedHoldsTheCut(db, request, request.End().value, c);
      }
    }
    hide HoldsTheCut, Completed, Accepts, Outcome, Dropped, OwnCut;
  }

  /** The fork would freeze this ledger into its target: one an earlier fork froze into the source, or the
      source's own, if the cut falls anywhere in it. */
  ghost predicate WouldFreeze(db: Db, request: ForkRequest, l: ThreadId) {
    if l != request.sourceThread
    then request.sourceThread in db.ledgers && l in db.ledgers[request.sourceThread]
         && db.ledgers[request.sourceThread][l] != None
    else
      var end := if request.endOffset.Some? then request.endOffset else request.transcript;
      exists m :: 0 <= m < |db.messages| && db.messages[m].thread == l
                  && (end.Some? ==> HoldsTheCut(db, request, end.value, m))
  }

  lemma FrozenExactly(db: Db, request: ForkRequest, l: ThreadId)
    requires request.source in db.conversations
    ensures l in Frozen(CutsOf(db, request)) <==> WouldFreeze(db, request, l)
  {
    var s, dropped := request.sourceThread, Dropped(db, request);
    if l == s {
      var end := request.End();
      forall m | 0 <= m < |db.messages| && db.messages[m].thread == s
        ensures m in Cuttable(db, s, end, dropped) <==> (end.Some? ==> HoldsTheCut(db, request, end.value, m))
      {
        if end.Some? {
          CompletedHoldsTheCut(db, request, end.value, m);
        }
      }
      hide HoldsTheCut, Completed, Dropped;
      assert OwnCut(db, s, end, dropped).Some? <==> Cuttable(db, s, end, dropped) != {};
      if WouldFreeze(db, request, l) {
        var m :| 0 <= m < |db.messages| && db.messages[m].thread == l
                 && (end.Some? ==> HoldsTheCut(db, request, end.value, m));
        assert m in Cuttable(db, s, end, dropped);
      }
    } else {
      hide OwnCut, Dropped;
    }
  }

  lemma InsertableExactly(db: Db, request: ForkRequest)
    requires Valid(db) && request.source in db.conversations && request.targetThread in db.threads
    ensures Insertable(db, request) <==>
              forall l :: WouldFreeze(db, request, l) ==> l !in db.ledgers[request.targetThread]
  {
    var rows := Frozen(CutsOf(db, request));
    forall l ensures l in rows.Keys <==> WouldFreeze(db, request, l) {
      FrozenExactly(db, request, l);
    }
    hide WouldFreeze, CutsOf, Frozen;
  }

  lemma HoldsExactly(db: Db, t: ThreadId, target: ConversationId)
    ensures !Holds(db, t, target) <==>
              && (forall c :: c in db.conversations && db.conversations[c].thread == t ==>
                    c == target && (c in db.histories ==> db.histories[c] == {}))
              && (forall m :: 0 <= m < |db.messages| && db.messages[m].actor != System ==> !Shows(db, t, m))
  {
    hide Shows;
  }

  /** A fork goes through exactly between two threads, with an imported transcript only into a session
      given for it, given only a handle that is new and none when it carries the source's; for
      conversations and threads that exist; into a thread of no other conversation, whose own has not
      run, where nothing but system notices is shown; and which does not show yet what would be frozen
      into it. */
  lemma AcceptedExactly(db: Db, request: ForkRequest)
    requires Valid(db)
    ensures Accepts(db, request) <==>
              && request.sourceThread != request.targetThread
              && (request.transcript != None ==> request.handle != None && !request.carry)
              && (request.handle != None ==> !request.carry && request.handle != request.sourceHandle)
              && request.source in db.conversations && request.target in db.conversations
              && request.sourceThread in db.threads && request.targetThread in db.threads
              && (forall c :: c in db.conversations && db.conversations[c].thread == request.targetThread ==>
                    c == request.target && (c in db.histories ==> db.histories[c] == {}))
              && (forall m :: 0 <= m < |db.messages| && db.messages[m].actor != System ==>
                    !Shows(db, request.targetThread, m))
              && (forall l :: WouldFreeze(db, request, l) ==> l !in db.ledgers[request.targetThread])
  {
    HoldsExactly(db, request.targetThread, request.target);
    if request.source in db.conversations && request.targetThread in db.threads {
      InsertableExactly(db, request);
    }
    hide WouldFreeze, Insertable, Holds, Shows;
  }

  /** A turn left unfinished, then a later one completed. */
  const INTERLEAVED := Db(
    map[0 := None, 1 := None],
    [Message(0, ChatRow, Human, None, None, 0), Message(0, ChatRow, Human, None, None, 1)],
    map[0 := map[0 := None], 1 := map[1 := None]],
    map[0 := Conversation(0, "a", Some("native")), 1 := Conversation(1, "a", None)],
    map[0 := {"begun", "done"}],
    map["begun" := AgentRun(0, External(None), Some("native"), Some("begun"), None, []),
        "done" := AgentRun(0, External(Some(5)), Some("native"), Some("done"), None, [])],
    map[0 := {"begun"}, 1 := {"done"}])

  const IMPORT := ForkRequest(0, 0, Some("native"), 1, 1, false, Some("forked"), None, Some(9))

  lemma InterleavedDrops()
    ensures Dropped(INTERLEAVED, IMPORT) == {"begun"}
  {
    var db := INTERLEAVED;
    var roots := set r | r in db.runs && Unfinished(db, 0, 9, r);
    assert roots == {"begun"};
    assert Climbs(db.runs, roots, "begun", 0);
    assert forall n: nat :: !Climbs(db.runs, roots, "done", n);
  }

  lemma InterleavedIsAccepted()
    ensures Valid(INTERLEAVED) && Current(INTERLEAVED, IMPORT) && Accepts(INTERLEAVED, IMPORT)
  {
    InterleavedDrops();
    CutOfLedger(INTERLEAVED, IMPORT, 1);
    assert forall m :: 0 <= m < 2 ==> !Shows(INTERLEAVED, 1, m);
  }

  /** A fork that goes through: the cut after the later turn's chat brings the unfinished turn's chat
      with it. */
  lemma InterleavedChatIsShown()
    ensures Valid(INTERLEAVED) && Current(INTERLEAVED, IMPORT) && Accepts(INTERLEAVED, IMPORT)
    ensures ChatOf(INTERLEAVED, Dropped(INTERLEAVED, IMPORT), 0) && Reaches(INTERLEAVED, IMPORT, 0)
  {
    InterleavedIsAccepted();
    InterleavedDrops();
    hide Accepts;
    var db, dropped := INTERLEAVED, {"begun"};
    assert "done" in HistoryOf(db, 0) && Kept(db, 0, dropped, "done");
    assert "done" in BoundRuns(db, 1) && "begun" in BoundRuns(db, 0) * dropped;
    assert 1 in Cuttable(db, 0, Some(9), dropped);
  }

  // ---------------------------------------------------------------- the runtime handle

  /** No two conversations resume one session. */
  ghost predicate HandlesApart(db: Db) {
    forall a, b :: a in db.conversations && b in db.conversations && a != b && db.conversations[a].externalId.Some?
      ==> db.conversations[a].externalId != db.conversations[b].externalId
  }

  /** The handle given is another conversation's. */
  ghost predicate HeldElsewhere(db: Db, request: ForkRequest) {
    && request.handle.Some?
    && exists c :: c in db.conversations && c != request.target && db.conversations[c].externalId == request.handle
  }

  lemma HandedStaysApart(db: Db, request: ForkRequest)
    requires HandlesApart(db) && request.source in db.conversations && request.target in db.conversations
    requires request.source != request.target
    ensures HandlesApart(db.(conversations := Handed(db.conversations, request)))
            <==> request.carry || !HeldElsewhere(db, request)
  {
    var after := Handed(db.conversations, request);
    if !request.carry && HeldElsewhere(db, request) {
      var c :| c in db.conversations && c != request.target && db.conversations[c].externalId == request.handle;
      assert after[c].externalId == after[request.target].externalId;
    }
  }

  /** A fork makes two conversations resume one session exactly if it is given a handle that a
      conversation other than its target holds: only the source's own is refused. Otherwise it
      moves the source's handle, takes a new one, or none. */
  lemma HandlesStayApart(db: Db, request: ForkRequest)
    requires Current(db, request) && HandlesApart(db) && Accepts(db, request)
    ensures && (HandlesApart(Outcome(db, request)) <==> request.carry || !HeldElsewhere(db, request))
            && (request.carry ==>
                  Outcome(db, request).conversations[request.target].externalId
                  == db.conversations[request.source].externalId
                  && Outcome(db, request).conversations[request.source].externalId.None?)
            && (!request.carry && request.handle.Some? ==>
                  Outcome(db, request).conversations[request.target].externalId == request.handle)
            && (!request.carry && request.handle.None? ==>
                  Outcome(db, request).conversations[request.target] == db.conversations[request.target])
            && (forall c :: c in db.conversations && c != request.target && (c == request.source ==> !request.carry)
                  ==> Outcome(db, request).conversations[c] == db.conversations[c])
  {
    assert request.source != request.target;
    HandedStaysApart(db, request);
  }
}
