/** The chat ledger: what a thread shows, the prompt window it hands an agent, and the
    pages a reader follows. */
module Threads {
  import opened Wrappers
  import opened Schema

  /** The messages a thread shows: those delivered to one of its ledgers, up to the cut. */
  predicate Shows(db: Db, t: ThreadId, m: MessageId) {
    && m < |db.messages|
    && var cuts, l := LedgersOf(db, t), db.messages[m].thread;
       l in cuts && (cuts[l].None? || m <= cuts[l].value)
  }

  // ---------------------------------------------------------------- writes

  function OwnLedger(t: ThreadId): map<ThreadId, Option<MessageId>> {
    map[t := None]
  }

  function Opened(db: Db, t: ThreadId): Db {
    db.(threads := db.threads[t := None], ledgers := db.ledgers[t := OwnLedger(t)])
  }

  /** A new thread shows its own ledger, whole: whatever was or will be delivered to it, and nothing
      else; no other thread shows more or less. */
  method OpenThread(database: Database, t: ThreadId)
    requires t !in database.threads
    modifies database
    ensures database.View() == Opened(old(database.View()), t)
    ensures t in database.threads && database.threads[t].None?
    ensures forall m: MessageId ::
              Shows(database.View(), t, m) <==> m < |database.messages| && database.messages[m].thread == t
    ensures forall u, m: MessageId :: u != t ==> (Shows(database.View(), u, m) <==> Shows(old(database.View()), u, m))
    ensures Valid(old(database.View())) ==> Valid(database.View())
  {
    database.threads := database.threads[t := None];
    database.ledgers := database.ledgers[t := OwnLedger(t)];
  }

  function Stored(db: Db, message: Message): Result<Db, string> {
    if message.thread !in db.threads then Failure("unknown thread")
    else Success(db.(messages := db.messages + [message]))
  }

  method StoreMessage(database: Database, message: Message) returns (id: Result<MessageId, string>)
    modifies database
    ensures match Stored(old(database.View()), message)
            case Failure(error) => database.View() == old(database.View()) && id == Failure(error)
            case Success(db) => database.View() == db && id == Success(|old(database.messages)|)
    ensures id.Success? <==> message.thread in old(database.threads)
    ensures database.messages == old(database.messages) + if id.Success? then [message] else []
    ensures Valid(old(database.View())) && id.Success? ==>
              Valid(database.View()) && Shows(database.View(), message.thread, id.value)
  {
    if message.thread !in database.threads {
      return Failure("unknown thread");
    }
    id := Success(|database.messages|);
    database.messages := database.messages + [message];
  }

  function Advanced(db: Db, t: ThreadId, m: MessageId): Db {
    if t !in db.threads then db else db.(threads := db.threads[t := Some(m)])
  }

  method AdvancePromptCursor(database: Database, t: ThreadId, m: MessageId) returns (known: bool)
    modifies database
    ensures known <==> t in old(database.threads)
    ensures database.View() == Advanced(old(database.View()), t, m)
    ensures known ==> database.threads == old(database.threads)[t := Some(m)]
  {
    if t !in database.threads {
      return false;
    }
    database.threads := database.threads[t := Some(m)];
    return true;
  }

  // ---------------------------------------------------------------- time passing

  /** `after` holds everything `before` held: rows are only appended, and no thread, ledger
      row or delivery is ever rewritten. */
  ghost predicate Grows(before: Db, after: Db) {
    && |before.messages| <= |after.messages|
    && (forall m :: 0 <= m < |before.messages| ==>
          && after.messages[m].thread == before.messages[m].thread
          && after.messages[m].kind == before.messages[m].kind
          && after.messages[m].actor == before.messages[m].actor
          && after.messages[m].agent == before.messages[m].agent)
    && before.threads.Keys <= after.threads.Keys
    && (forall t :: Extends(LedgersOf(before, t), LedgersOf(after, t)))
  }

  ghost predicate Extends(before: map<ThreadId, Option<MessageId>>, after: map<ThreadId, Option<MessageId>>) {
    forall l :: l in before ==> l in after && after[l] == before[l]
  }

  /** No ledger has been frozen into `t` meanwhile. */
  ghost predicate NothingSplicedInto(before: Db, after: Db, t: ThreadId) {
    LedgersOf(after, t).Keys <= LedgersOf(before, t).Keys
  }

  ghost predicate Later(before: Db, after: Db, t: ThreadId) {
    Grows(before, after) && NothingSplicedInto(before, after, t)
  }

  /** What was written stays shown or hidden, however the tables grow. */
  lemma ShownIsSettled(before: Db, after: Db, t: ThreadId, m: MessageId)
    requires Later(before, after, t)
    requires m < |before.messages|
    ensures Shows(after, t, m) <==> Shows(before, t, m)
  {
    var l := before.messages[m].thread;
    assert l in LedgersOf(after, t) <==> l in LedgersOf(before, t);
  }

  /** Whatever is written later appears only in the ledger it was delivered to, or not at all. */
  lemma InheritedIsFrozen(before: Db, after: Db, t: ThreadId, m: MessageId)
    requires Valid(before) && Later(before, after, t) && t in before.threads
    requires m < |after.messages| && after.messages[m].thread != t
    ensures Shows(after, t, m) <==> Shows(before, t, m)
  {
    if m < |before.messages| {
      ShownIsSettled(before, after, t, m);
    } else {
      assert ValidLedgers(before.ledgers[t], t, |before.messages|);
    }
  }

  // ---------------------------------------------------------------- prompt windows

  /** A row an agent has not said itself, in the chat it answers. */
  predicate Eligible(db: Db, t: ThreadId, agent: string, m: MessageId) {
    && Shows(db, t, m)
    && var row := db.messages[m];
       row.kind.ChatRow? && (!row.actor.Agent? || row.agent != Some(agent))
  }

  /** The eligible rows from `lo` up to `hi`, in id order. */
  function Window(db: Db, t: ThreadId, agent: string, lo: nat, hi: nat): seq<MessageId>
    decreases hi
  {
    if hi <= lo then []
    else Window(db, t, agent, lo, hi - 1) + if Eligible(db, t, agent, hi - 1) then [hi - 1] else []
  }

  function Start(cursor: Option<MessageId>): nat {
    match cursor
    case None => 0
    case Some(m) => m + 1
  }

  /** The rows pending for `agent` when `trigger` wakes it. */
  function Pending(db: Db, t: ThreadId, trigger: MessageId, agent: string): seq<MessageId>
    requires t in db.threads
  {
    Window(db, t, agent, Start(db.threads[t]), trigger + 1)
  }

  /** Exactly the eligible rows past the cursor up to the trigger, ascending. */
  lemma {:induction false} WindowIsExact(db: Db, t: ThreadId, agent: string, lo: nat, hi: nat)
    ensures forall m :: m in Window(db, t, agent, lo, hi) <==> lo <= m < hi && Eligible(db, t, agent, m)
    ensures forall i, j :: 0 <= i < j < |Window(db, t, agent, lo, hi)| ==>
              Window(db, t, agent, lo, hi)[i] < Window(db, t, agent, lo, hi)[j]
    decreases hi
  {
    if lo < hi {
      WindowIsExact(db, t, agent, lo, hi - 1);
      var before := Window(db, t, agent, lo, hi - 1);
      assert forall i :: 0 <= i < |before| ==> before[i] in before;
    }
  }

  /** Row by row, by what the tables hold: chat in a ledger the thread shows, up to where it shows it,
      past the cursor and up to the trigger, that the agent has not said itself. */
  lemma PendingExactly(db: Db, t: ThreadId, trigger: MessageId, agent: string, m: MessageId)
    requires t in db.threads
    ensures m in Pending(db, t, trigger, agent) <==>
              && m <= trigger && (db.threads[t].Some? ==> m > db.threads[t].value)
              && m < |db.messages| && db.messages[m].kind == ChatRow
              && (db.messages[m].actor == Agent ==> db.messages[m].agent != Some(agent))
              && t in db.ledgers && db.messages[m].thread in db.ledgers[t]
              && (match db.ledgers[t][db.messages[m].thread] case None => true case Some(cut) => m <= cut)
  {
    WindowIsExact(db, t, agent, Start(db.threads[t]), trigger + 1);
  }

  /** Once the cursor is moved to a row, what is pending is what comes after it; no other thread's
      window moves. */
  lemma AdvancedIsPast(db: Db, t: ThreadId, to: MessageId, u: ThreadId, trigger: MessageId, agent: string, m: MessageId)
    requires t in db.threads && u in db.threads
    ensures u in Advanced(db, t, to).threads
    ensures m in Pending(Advanced(db, t, to), u, trigger, agent) <==>
              if u == t then to < m <= trigger && Eligible(db, t, agent, m) else m in Pending(db, u, trigger, agent)
  {
    PendingExactly(db, u, trigger, agent, m);
    PendingExactly(Advanced(db, t, to), u, trigger, agent, m);
  }

  lemma {:induction false} WindowSplits(db: Db, t: ThreadId, agent: string, lo: nat, mid: nat, hi: nat)
    requires lo <= mid <= hi
    ensures Window(db, t, agent, lo, hi) == Window(db, t, agent, lo, mid) + Window(db, t, agent, mid, hi)
    decreases hi
  {
    if mid < hi {
      WindowSplits(db, t, agent, lo, mid, hi - 1);
    } else {
      assert Window(db, t, agent, mid, hi) == [];
    }
  }

  lemma {:induction false} WindowIsSettled(before: Db, after: Db, t: ThreadId, agent: string, lo: nat, hi: nat)
    requires Later(before, after, t) && hi <= |before.messages|
    ensures Window(after, t, agent, lo, hi) == Window(before, t, agent, lo, hi)
    decreases hi
  {
    if lo < hi {
      ShownIsSettled(before, after, t, hi - 1);
      WindowIsSettled(before, after, t, agent, lo, hi - 1);
    }
  }

  /** One waking of an agent: what the database held when `trigger` woke it. */
  datatype Waking = Waking(db: Db, trigger: MessageId)

  /** Triggers grow, and between one waking and the next the cursor stands where the first
      left it while anything else may be written. */
  ghost predicate WakesInTurn(wakings: seq<Waking>, t: ThreadId) {
    && (forall i :: 0 <= i < |wakings| ==> t in wakings[i].db.threads && wakings[i].trigger < |wakings[i].db.messages|)
    && (forall i :: 0 <= i < |wakings| - 1 ==> wakings[i].trigger < wakings[i + 1].trigger)
    && (forall i :: 0 <= i < |wakings| - 1 ==>
          && Later(Advanced(wakings[i].db, t, wakings[i].trigger), wakings[i + 1].db, t)
          && wakings[i + 1].db.threads[t] == Some(wakings[i].trigger))
  }

  function Windows(wakings: seq<Waking>, t: ThreadId, agent: string): seq<MessageId>
    requires forall i :: 0 <= i < |wakings| ==> t in wakings[i].db.threads
  {
    if wakings == [] then []
    else Pending(wakings[0].db, t, wakings[0].trigger, agent) + Windows(wakings[1..], t, agent)
  }

  /** The windows laid end to end are the eligible rows up to the last trigger, each once and
      in order: none is missed between two wakings and none is handed over twice. */
  lemma {:induction false} WindowsCover(wakings: seq<Waking>, t: ThreadId, agent: string)
    requires wakings != [] && WakesInTurn(wakings, t)
    requires Start(wakings[0].db.threads[t]) <= wakings[0].trigger + 1
    ensures var last := wakings[|wakings| - 1];
            Windows(wakings, t, agent)
            == Window(last.db, t, agent, Start(wakings[0].db.threads[t]), last.trigger + 1)
    decreases |wakings|
  {
    var first, rest := wakings[0], wakings[1..];
    if rest == [] {
      assert Windows(rest, t, agent) == [];
      return;
    }
    var last := wakings[|wakings| - 1];
    var from, past := Start(first.db.threads[t]), first.trigger + 1;
    NextWaking(wakings, t);
    LastIsLater(wakings, t);
    assert last == rest[|rest| - 1] && rest[0] == wakings[1];
    assert Windows(wakings, t, agent) == Window(first.db, t, agent, from, past) + Windows(rest, t, agent);
    hide WakesInTurn, Later, Eligible, Window, Windows, Pending, Start;
    WindowsCover(rest, t, agent);
    WindowIsSettled(first.db, last.db, t, agent, from, past);
    WindowSplits(last.db, t, agent, from, past, last.trigger + 1);
  }

  /** The next waking reads from where this one left the cursor. */
  lemma NextWaking(wakings: seq<Waking>, t: ThreadId)
    requires |wakings| > 1 && WakesInTurn(wakings, t)
    ensures WakesInTurn(wakings[1..], t)
    ensures Start(wakings[1].db.threads[t]) == wakings[0].trigger + 1 <= wakings[1].trigger
    ensures wakings[0].trigger < |wakings[0].db.messages|
  {
    hide Later, Advanced;
    assert forall i :: 0 <= i < |wakings[1..]| ==> wakings[1..][i] == wakings[i + 1];
  }

  lemma {:induction false} LastIsLater(wakings: seq<Waking>, t: ThreadId)
    requires wakings != [] && WakesInTurn(wakings, t)
    ensures Later(wakings[0].db, wakings[|wakings| - 1].db, t)
    ensures wakings[0].trigger <= wakings[|wakings| - 1].trigger
    decreases |wakings|
  {
    if |wakings| > 1 {
      var rest := wakings[1..];
      assert forall i :: 0 <= i < |rest| ==> rest[i] == wakings[i + 1];
      LastIsLater(rest, t);
      assert Later(wakings[0].db, wakings[1].db, t);
    }
  }

  // ---------------------------------------------------------------- pages

  /** Every row `t` shows below `hi`, newest first. */
  function Newest(db: Db, t: ThreadId, hi: nat): seq<MessageId> {
    if hi == 0 then [] else (if Shows(db, t, hi - 1) then [hi - 1] else []) + Newest(db, t, hi - 1)
  }

  datatype Page = Page(items: seq<MessageId>, next: Option<MessageId>, hasMore: bool)

  function Take<T>(s: seq<T>, n: nat): seq<T> {
    if |s| <= n then s else s[..n]
  }

  function Bound(db: Db, cursor: Option<MessageId>): nat {
    if cursor.None? || |db.messages| < cursor.value then |db.messages| else cursor.value
  }

  /** One page: `limit + 1` rows are read below the cursor, to learn whether more follow. */
  function MessagesPage(db: Db, t: ThreadId, cursor: Option<MessageId>, limit: nat): Page {
    var rows := Take(Newest(db, t, Bound(db, cursor)), limit + 1);
    var items := Take(rows, limit);
    Page(items, if items == [] then None else Some(items[|items| - 1]), |rows| > limit)
  }

  /** A reader following `next` while `hasMore`, one read of the database a page. None when
      the snapshots run out first. */
  function Follow(snapshots: seq<Db>, t: ThreadId, cursor: Option<MessageId>, limit: nat): Option<seq<MessageId>> {
    if snapshots == [] then None
    else
      var page := MessagesPage(snapshots[0], t, cursor, limit);
      if !page.hasMore then Some(page.items)
      else
        match Follow(snapshots[1..], t, page.next, limit)
        case None => None
        case Some(rest) => Some(page.items + rest)
  }

  lemma {:induction false} NewestIsExact(db: Db, t: ThreadId, hi: nat)
    ensures forall m :: m in Newest(db, t, hi) <==> 0 <= m < hi && Shows(db, t, m)
    ensures forall i, j :: 0 <= i < j < |Newest(db, t, hi)| ==> Newest(db, t, hi)[i] > Newest(db, t, hi)[j]
  {
    if hi > 0 {
      NewestIsExact(db, t, hi - 1);
      var below := Newest(db, t, hi - 1);
      assert forall i :: 0 <= i < |below| ==> below[i] in below;
    }
  }

  /** What follows a row of the listing is the listing below that row. */
  lemma {:induction false} NewestResumes(db: Db, t: ThreadId, hi: nat, n: nat)
    requires 0 < n <= |Newest(db, t, hi)|
    ensures Newest(db, t, hi)[n..] == Newest(db, t, Newest(db, t, hi)[n - 1])
  {
    if Shows(db, t, hi - 1) {
      if n > 1 {
        NewestResumes(db, t, hi - 1, n - 1);
        assert Newest(db, t, hi)[n..] == Newest(db, t, hi - 1)[n - 1..];
      } else {
        assert Newest(db, t, hi)[1..] == Newest(db, t, hi - 1);
      }
    } else {
      assert Newest(db, t, hi) == Newest(db, t, hi - 1);
      NewestResumes(db, t, hi - 1, n);
    }
  }

  lemma {:induction false} NewestIsSettled(before: Db, after: Db, t: ThreadId, hi: nat)
    requires Later(before, after, t) && hi <= |before.messages|
    ensures Newest(after, t, hi) == Newest(before, t, hi)
  {
    if hi > 0 {
      ShownIsSettled(before, after, t, hi - 1);
      NewestIsSettled(before, after, t, hi - 1);
    }
  }

  ghost predicate ReadInOrder(snapshots: seq<Db>, t: ThreadId) {
    forall i :: 0 <= i < |snapshots| - 1 ==> Later(snapshots[i], snapshots[i + 1], t)
  }

  /** A page takes the head of the listing, and its cursor resumes at the tail, even when the
      next read finds more rows. */
  lemma PageThenRest(db: Db, after: Db, t: ThreadId, cursor: Option<MessageId>, limit: nat)
    requires limit > 0 && Later(db, after, t)
    ensures var all := Newest(db, t, Bound(db, cursor));
            var page := MessagesPage(db, t, cursor, limit);
            && (page.hasMore <==> |all| > limit)
            && page.items == Take(all, limit)
            && (page.hasMore ==> page.next.Some? && Newest(after, t, Bound(after, page.next)) == all[limit..])
  {
    hide Shows, Newest;
    var hi := Bound(db, cursor);
    var all := Newest(db, t, hi);
    if |all| > limit {
      var last := all[limit - 1];
      assert last < hi by {
        NewestIsExact(db, t, hi);
        assert last in all;
      }
      assert Take(Take(all, limit + 1), limit) == all[..limit];
      NewestResumes(db, t, hi, limit);
      NewestIsSettled(db, after, t, last);
    }
  }

  lemma {:induction false} FollowOnePage(snapshots: seq<Db>, t: ThreadId, cursor: Option<MessageId>, limit: nat,
                                         page: Page, all: seq<MessageId>)
    requires snapshots != [] && page == MessagesPage(snapshots[0], t, cursor, limit)
    requires page.hasMore <==> |all| > limit
    requires page.items == Take(all, limit)
    requires page.hasMore ==> Follow(snapshots[1..], t, page.next, limit) == Some(all[limit..])
    ensures Follow(snapshots, t, cursor, limit) == Some(all)
  {
    hide MessagesPage;
    if page.hasMore {
      assert all[..limit] + all[limit..] == all;
    }
  }

  /** Following the cursor lists what was shown at the first read, each row once and newest
      first, whatever is appended between pages; and it stops. */
  lemma {:induction false} FollowingListsEverything(snapshots: seq<Db>, t: ThreadId, cursor: Option<MessageId>,
                                                    limit: nat)
    requires limit > 0 && ReadInOrder(snapshots, t)
    requires snapshots != [] && |snapshots| > |Newest(snapshots[0], t, Bound(snapshots[0], cursor))|
    ensures Follow(snapshots, t, cursor, limit) == Some(Newest(snapshots[0], t, Bound(snapshots[0], cursor)))
    decreases |snapshots|
  {
    var db := snapshots[0];
    var all := Newest(db, t, Bound(db, cursor));
    var page := MessagesPage(db, t, cursor, limit);
    if page.hasMore {
      assert |all| > limit by { PageThenRest(db, db, t, cursor, limit); }
      var rest := snapshots[1..];
      assert Newest(rest[0], t, Bound(rest[0], page.next)) == all[limit..] by {
        PageThenRest(db, rest[0], t, cursor, limit);
      }
      FollowingListsEverything(rest, t, page.next, limit);
    }
    assert (page.hasMore <==> |all| > limit) && page.items == Take(all, limit) by {
      PageThenRest(db, db, t, cursor, limit);
    }
    FollowOnePage(snapshots, t, cursor, limit, page, all);
  }

  /** With no room on a page the cursor never moves: the reader stops only where there is
      nothing to show. */
  lemma {:induction false} EmptyPagesNeverEnd(snapshots: seq<Db>, t: ThreadId)
    requires ReadInOrder(snapshots, t) && snapshots != []
    ensures Follow(snapshots, t, None, 0)
            == if Newest(snapshots[0], t, |snapshots[0].messages|) == [] then Some([]) else None
    decreases |snapshots|
  {
    if Newest(snapshots[0], t, |snapshots[0].messages|) != [] && |snapshots| > 1 {
      var rest := snapshots[1..];
      var m := Newest(snapshots[0], t, |snapshots[0].messages|)[0];
      NewestIsExact(snapshots[0], t, |snapshots[0].messages|);
      assert m in Newest(snapshots[0], t, |snapshots[0].messages|);
      assert rest[0] == snapshots[1];
      ShownIsSettled(snapshots[0], rest[0], t, m);
      NewestIsExact(rest[0], t, |rest[0].messages|);
      assert m in Newest(rest[0], t, |rest[0].messages|);
      EmptyPagesNeverEnd(rest, t);
    }
  }
}
