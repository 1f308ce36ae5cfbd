/** The rows octomate keeps about threads, their chat ledgers, conversations and agent
    runs, and the database that holds them. One commit is one atomic update of `Database`. */
module Schema {
  import opened Wrappers

  type ThreadId = nat
  type ConversationId = nat
  /** Message ids are uuid7s, minted in order: here, the position of the row in the table. */
  type MessageId = nat
  type RunId = string
  type Instant = int

  datatype Kind = ChatRow | CommandRow | ArtifactRow

  datatype Actor = Human | Agent | Bot | System

  /** A ledger row. `thread` is the thread it was delivered to. */
  datatype Message = Message(
    thread: ThreadId, kind: Kind, actor: Actor, agent: Option<string>,
    platform: Option<string>, happenedAt: Instant)

  datatype Conversation = Conversation(thread: ThreadId, agent: string, externalId: Option<string>)

  datatype ModelMessage = ModelMessage(text: string, timestamp: Instant)

  datatype Variant = Driven | External(endOffset: Option<nat>)

  datatype AgentRun = AgentRun(
    conversation: ConversationId, variant: Variant, session: Option<string>, turn: Option<string>,
    parent: Option<RunId>, messages: seq<ModelMessage>)

  datatype Db = Db(
    threads: map<ThreadId, Option<MessageId>>,                   // each with its prompt cursor
    messages: seq<Message>,
    ledgers: map<ThreadId, map<ThreadId, Option<MessageId>>>,    // the ledgers a thread shows, each to its cut
    conversations: map<ConversationId, Conversation>,
    histories: map<ConversationId, set<RunId>>,                  // the runs of a conversation's history
    runs: map<RunId, AgentRun>,
    bindings: map<MessageId, set<RunId>>)                        // the runs a ledger row is bound to

  function LedgersOf(db: Db, t: ThreadId): map<ThreadId, Option<MessageId>> {
    if t in db.ledgers then db.ledgers[t] else map[]
  }

  function HistoryOf(db: Db, c: ConversationId): set<RunId> {
    if c in db.histories then db.histories[c] else {}
  }

  function BoundRuns(db: Db, m: MessageId): set<RunId> {
    if m in db.bindings then db.bindings[m] else {}
  }

  /** A thread shows its own ledger whole, and every other one up to a row that was written. */
  ghost predicate ValidLedgers(cuts: map<ThreadId, Option<MessageId>>, t: ThreadId, written: nat) {
    && t in cuts
    && forall l :: l in cuts ==> (cuts[l].None? <==> l == t) && (cuts[l].Some? ==> cuts[l].value < written)
  }

  ghost predicate Valid(db: Db) {
    && db.ledgers.Keys == db.threads.Keys
    && (forall t :: t in db.ledgers ==> ValidLedgers(db.ledgers[t], t, |db.messages|))
    && (forall m :: 0 <= m < |db.messages| ==> db.messages[m].thread in db.threads)
  }

  class Database {
    var threads: map<ThreadId, Option<MessageId>>
    var messages: seq<Message>
    var ledgers: map<ThreadId, map<ThreadId, Option<MessageId>>>
    var conversations: map<ConversationId, Conversation>
    var histories: map<ConversationId, set<RunId>>
    var runs: map<RunId, AgentRun>
    var bindings: map<MessageId, set<RunId>>

    function View(): Db
      reads this
    {
      Db(threads, messages, ledgers, conversations, histories, runs, bindings)
    }
  }

  /** The greatest of a set of ids, as `max` reads it over a query. */
  ghost function MaxOf(ids: set<nat>): (top: Option<nat>)
    ensures top.None? <==> ids == {}
    ensures top.Some? ==> top.value in ids && forall i :: i in ids ==> i <= top.value
  {
    if ids == {} then None
    else
      HasGreatest(ids);
      var top :| top in ids && forall i :: i in ids ==> i <= top;
      Some(top)
  }

  lemma {:induction false} HasGreatest(ids: set<nat>)
    requires ids != {}
    ensures exists top :: top in ids && forall i :: i in ids ==> i <= top
  {
    var i :| i in ids;
    var rest := ids - {i};
    if rest == {} {
      assert ids == {i};
    } else {
      HasGreatest(rest);
      var top :| top in rest && forall j :: j in rest ==> j <= top;
      var greatest := if top < i then i else top;
      assert greatest in ids;
      assert forall j :: j in ids ==> j == i || j in rest;
    }
  }
}
