/** One user's OAuth connection to one connector: reads, refreshes, retirements and
    authorizations of it, over the lock they share. Tokens are numbered as the provider mints
    them, so no two are the same. Every step runs between two suspensions. */
module OAuth {
  import opened Wrappers

  type Token = nat
  type TaskId = nat
  type OperationId = nat
  type Instant = int

  datatype Status = Active | Invalid

  datatype Connection = Connection(status: Status, access: Token, refresh: Option<Token>, expires: Option<Instant>)

  /** `code`: authorization code, else device. `exchanges` counts how often its code
      was sent to the provider, `grants` how often what came back was stored. */
  datatype Operation = Operation(code: bool, consumed: bool, expires: Instant, exchanges: nat, grants: nat)

  datatype Goal = Use | Retire(expected: Option<Token>) | Complete(operation: OperationId)

  datatype Grant = Grant(access: Token, refresh: Option<Token>, expires: Option<Instant>)

  /** `Holding` to `Granted` are inside the lock. */
  datatype Phase =
    | Started
    | Waiting
    | Holding
    | Asking(token: Token)
    | Asked(token: Token)
    | Authorizing(operation: OperationId)
    | Authorized(operation: OperationId)
    | Granted(grant: Grant, spent: Option<Token>)
    | Ended(answer: Option<Token>)

  datatype Task = Task(goal: Goal, phase: Phase)

  /** `rotated`: refresh tokens the provider has replaced. `lost`: since the last grant that was
      stored, one that replaced the stored refresh token never was. A credential with less life left than
      `leeway` is refreshed before a run starts on it. */
  datatype State = State(
    connection: Option<Connection>, operations: seq<Operation>, lock: Option<TaskId>, tasks: seq<Task>,
    now: Instant, leeway: nat, minted: nat, rotated: set<Token>, lost: bool)

  function Unconnected(now: Instant, leeway: nat): State {
    State(None, [], None, [], now, leeway, 0, {}, false)
  }

  datatype Reply =
    | Renewed(rotates: bool, expires: Option<Instant>)
    | Rejected
    | Dropped(rotates: bool)

  datatype Authorization = Issued(refreshable: bool, expires: Option<Instant>) | Pending | Failed

  datatype Step =
    | Call(goal: Goal)
    | Open(operation: Operation)
    | Look(task: TaskId)
    | Acquire(task: TaskId)
    | Reread(task: TaskId)
    | Send(task: TaskId)
    | Receive(task: TaskId, reply: Reply)
    | Exchange(task: TaskId)
    | Resolve(task: TaskId, authorization: Authorization)
    | Store(task: TaskId)
    | Abandon(task: TaskId)
    | Tick(seconds: nat)

  predicate Expiring(connection: Connection, now: Instant, leeway: nat) {
    connection.expires.Some? && connection.expires.value <= now + leeway
  }

  predicate InLock(phase: Phase) {
    phase.Holding? || phase.Asking? || phase.Asked? || phase.Authorizing? || phase.Authorized? || phase.Granted?
  }

  predicate At(s: State, t: TaskId) {
    t < |s.tasks|
  }

  function Moved(s: State, t: TaskId, phase: Phase): State
    requires t < |s.tasks|
  {
    s.(tasks := s.tasks[t := s.tasks[t].(phase := phase)])
  }

  /** Out of the lock, with an answer for the caller. */
  function Left(s: State, t: TaskId, answer: Option<Token>): State
    requires t < |s.tasks|
  {
    Moved(s, t, Ended(answer)).(lock := None)
  }

  predicate Usable(s: State, o: OperationId) {
    o < |s.operations| && !s.operations[o].consumed && s.operations[o].expires > s.now
  }

  function Consumed(s: State, o: OperationId): State
    requires o < |s.operations|
  {
    s.(operations := s.operations[o := s.operations[o].(consumed := true)])
  }

  /** The first read, before any lock. Expired and not refreshable, the connection is retired, if
      it is still the one that was read. */
  function Looked(s: State, t: TaskId): State
    requires t < |s.tasks|
  {
    match s.tasks[t].goal
    case Use =>
      if s.connection.None? || s.connection.value.status.Invalid? then Moved(s, t, Ended(None))
      else if !Expiring(s.connection.value, s.now, s.leeway) then Moved(s, t, Ended(Some(s.connection.value.access)))
      else if s.connection.value.refresh.None?
      then s.(tasks := s.tasks[t := Task(Retire(Some(s.connection.value.access)), Waiting)])
      else Moved(s, t, Waiting)
    case Retire(_) => Moved(s, t, Waiting)
    case Complete(o) =>
      if o < |s.operations| && (s.operations[o].code ==> Usable(s, o)) then Moved(s, t, Waiting)
      else Moved(s, t, Ended(None))
  }

  /** `refresh` once it holds the lock: everything is read again. */
  function Refreshing(s: State, t: TaskId): State
    requires t < |s.tasks|
  {
    if s.connection.None? || s.connection.value.status.Invalid? then Left(s, t, None)
    else if !Expiring(s.connection.value, s.now, s.leeway) then Left(s, t, Some(s.connection.value.access))
    else if s.connection.value.refresh.None? then Left(s, t, None)
    else Moved(s, t, Asking(s.connection.value.refresh.value))
  }

  /** `invalidate` once it holds the lock: news of another token than the stored one is none. */
  function Retiring(s: State, t: TaskId, expected: Option<Token>): State
    requires t < |s.tasks|
  {
    if s.connection.None? || s.connection.value.status.Invalid? then Left(s, t, None)
    else if expected.Some? && s.connection.value.access != expected.value then Left(s, t, None)
    else Left(s, t, None).(connection := Some(s.connection.value.(status := Invalid)))
  }

  /** An authorization code is consumed before the provider hears of it; a device code stays until
      its grant is stored, or it has expired. */
  function Completing(s: State, t: TaskId, o: OperationId): State
    requires t < |s.tasks|
  {
    if o >= |s.operations| || s.operations[o].consumed then Left(s, t, None)
    else if !Usable(s, o) then (if s.operations[o].code then Left(s, t, None) else Left(Consumed(s, o), t, None))
    else Moved(if s.operations[o].code then Consumed(s, o) else s, t, Authorizing(o))
  }

  /** The provider's answer to a refresh token. One it has replaced it rejects. */
  function Received(s: State, t: TaskId, token: Token, reply: Reply): State
    requires t < |s.tasks|
  {
    match reply
    case Dropped(rotates) =>
      if rotates && token !in s.rotated
      then Left(s, t, None).(rotated := s.rotated + {token}, lost := true)
      else Left(s, t, None)
    case Renewed(rotates, expires) =>
      if token in s.rotated then Rejection(s, t)
      else
        var grant := Grant(s.minted, Some(if rotates then s.minted + 1 else token), expires);
        Moved(s, t, Granted(grant, Some(token))).(
          minted := s.minted + 2, rotated := if rotates then s.rotated + {token} else s.rotated)
    case Rejected => Rejection(s, t)
  }

  function Rejection(s: State, t: TaskId): State
    requires t < |s.tasks|
  {
    Left(s, t, None).(connection := if s.connection.Some? then Some(s.connection.value.(status := Invalid)) else None)
  }

  function Resolved(s: State, t: TaskId, authorization: Authorization): State
    requires t < |s.tasks|
  {
    match authorization
    case Issued(refreshable, expires) =>
      var grant := Grant(s.minted, if refreshable then Some(s.minted + 1) else None, expires);
      Moved(s, t, Granted(grant, None)).(minted := s.minted + 2)
    case _ => Left(s, t, None)
  }

  function Finished(s: State, goal: Goal): State {
    if goal.Complete? && goal.operation < |s.operations|
    then
      var operation := s.operations[goal.operation];
      s.(operations := s.operations[goal.operation := operation.(consumed := true, grants := operation.grants + 1)])
    else s
  }

  /** The grant's whole envelope replaces the connection; with a device grant goes its operation. */
  function Stored(s: State, t: TaskId, grant: Grant): State
    requires t < |s.tasks|
  {
    Left(Finished(s, s.tasks[t].goal), t, Some(grant.access)).(
      connection := Some(Connection(Active, grant.access, grant.refresh, grant.expires)), lost := false)
  }

  /** Cancelled, crashed or failed: what was not stored is gone. One that waits for the provider's
      answer to a refresh token is `Dropped` instead. */
  function Abandoned(s: State, t: TaskId): State
    requires t < |s.tasks|
  {
    var phase := s.tasks[t].phase;
    if phase.Ended? || phase.Asked? then s
    else if !InLock(phase) then Moved(s, t, Ended(None))
    else
      Left(s, t, None)
      .(lost := s.lost || (phase.Granted? && phase.spent.Some? && phase.grant.refresh != phase.spent))
  }

  function After(s: State, step: Step): State {
    match step
    case Call(goal) => s.(tasks := s.tasks + [Task(goal, Started)])
    case Open(operation) =>
      s.(operations := s.operations + [operation.(consumed := false, exchanges := 0, grants := 0)])
    case Look(t) => if At(s, t) && s.tasks[t].phase.Started? then Looked(s, t) else s
    case Acquire(t) =>
      if At(s, t) && s.tasks[t].phase.Waiting? && s.lock.None? then Moved(s, t, Holding).(lock := Some(t)) else s
    case Reread(t) =>
      if !At(s, t) || !s.tasks[t].phase.Holding? then s
      else (match s.tasks[t].goal
            case Use => Refreshing(s, t)
            case Retire(expected) => Retiring(s, t, expected)
            case Complete(o) => Completing(s, t, o))
    case Send(t) => if At(s, t) && s.tasks[t].phase.Asking? then Moved(s, t, Asked(s.tasks[t].phase.token)) else s
    case Receive(t, reply) =>
      if At(s, t) && s.tasks[t].phase.Asked? then Received(s, t, s.tasks[t].phase.token, reply) else s
    case Exchange(t) =>
      if At(s, t) && s.tasks[t].phase.Authorizing? && s.tasks[t].phase.operation < |s.operations|
      then
        var o := s.tasks[t].phase.operation;
        Moved(s, t, Authorized(o)).(
          operations := s.operations[o := s.operations[o].(exchanges := s.operations[o].exchanges + 1)])
      else s
    case Resolve(t, authorization) =>
      if At(s, t) && s.tasks[t].phase.Authorized? then Resolved(s, t, authorization) else s
    case Store(t) => if At(s, t) && s.tasks[t].phase.Granted? then Stored(s, t, s.tasks[t].phase.grant) else s
    case Abandon(t) => if At(s, t) then Abandoned(s, t) else s
    case Tick(seconds) => s.(now := s.now + seconds)
  }

  function Run(s: State, steps: seq<Step>): State
    decreases |steps|
  {
    if steps == [] then s else Run(After(s, steps[0]), steps[1..])
  }

  // ---------------------------------------------------------------- what every step keeps

  ghost predicate Sound(c: Connection, minted: nat) {
    c.access < minted && (c.refresh.Some? ==> c.refresh.value < minted)
  }

  /** The connection a refresh set out from is still there for as long as its task has the lock. */
  ghost predicate Refreshes(s: State, token: Token) {
    && s.connection.Some? && s.connection.value.status.Active? && s.connection.value.refresh == Some(token)
  }

  ghost predicate ValidGrant(s: State, grant: Grant, spent: Option<Token>) {
    && grant.access < s.minted
    && (grant.refresh.Some? ==> grant.refresh.value < s.minted && grant.refresh.value !in s.rotated)
    && (s.connection.Some? ==> s.connection.value.access < grant.access)
    && (spent.Some? ==>
          Refreshes(s, spent.value) && !s.lost && grant.refresh.Some?
          && (spent.value in s.rotated <==> grant.refresh != spent))
    && (s.connection.Some? && s.connection.value.refresh.Some? && s.connection.value.refresh.value in s.rotated ==>
          s.lost || spent.Some?)
  }

  ghost predicate ValidOperation(s: State, o: OperationId)
    requires o < |s.operations|
  {
    var operation := s.operations[o];
    && operation.grants <= 1 && (operation.grants == 1 ==> operation.consumed)
    && (operation.code ==> operation.exchanges <= 1 && (operation.exchanges == 1 ==> operation.consumed))
  }

  ghost predicate Completes(s: State, t: TaskId, o: OperationId)
    requires t < |s.tasks|
  {
    s.tasks[t].goal == Complete(o) && o < |s.operations| && s.operations[o].grants == 0
    && (s.operations[o].code ==> s.operations[o].consumed)
  }

  ghost predicate ValidHolder(s: State, t: TaskId)
    requires t < |s.tasks|
  {
    var task := s.tasks[t];
    match task.phase
    case Asking(token) => task.goal.Use? && Refreshes(s, token) && Expiring(s.connection.value, s.now, s.leeway)
    case Asked(token) => task.goal.Use? && Refreshes(s, token)
    case Authorizing(o) => Completes(s, t, o) && (s.operations[o].code ==> s.operations[o].exchanges == 0)
    case Authorized(o) => Completes(s, t, o)
    case Granted(grant, spent) =>
      ValidGrant(s, grant, spent)
      && if spent.Some? then task.goal.Use? else task.goal.Complete? && Completes(s, t, task.goal.operation)
    case _ => true
  }

  ghost predicate Valid(s: State) {
    && (forall t :: 0 <= t < |s.tasks| && InLock(s.tasks[t].phase) ==> s.lock == Some(t))
    && (s.lock.Some? ==>
          s.lock.value < |s.tasks| && InLock(s.tasks[s.lock.value].phase) && ValidHolder(s, s.lock.value))
    && (s.connection.Some? ==> Sound(s.connection.value, s.minted))
    && (forall token :: token in s.rotated ==> token < s.minted)
    && (s.lost ==>
          s.connection.Some? && s.connection.value.refresh.Some? && s.connection.value.refresh.value in s.rotated)
    && (s.connection.Some? && s.connection.value.refresh.Some? && s.connection.value.refresh.value in s.rotated ==>
          s.lost || (s.lock.Some? && s.tasks[s.lock.value].phase.Granted?))
    && (forall o :: 0 <= o < |s.operations| ==> ValidOperation(s, o))
  }

  lemma OutsideKeepsValid(s: State, t: TaskId, task: Task)
    requires Valid(s) && t <= |s.tasks| && !InLock(task.phase)
    requires t < |s.tasks| ==> !InLock(s.tasks[t].phase)
    ensures Valid(s.(tasks := if t < |s.tasks| then s.tasks[t := task] else s.tasks + [task]))
  {
    hide ValidOperation, ValidGrant, Refreshes, Expiring, Sound;
    var after := s.(tasks := if t < |s.tasks| then s.tasks[t := task] else s.tasks + [task]);
    forall o | 0 <= o < |after.operations| ensures ValidOperation(after, o) {
      assert ValidOperation(s, o);
      SameOperation(s, after, o);
    }
    if s.lock.Some? {
      assert s.lock.value != t;
      SameHolder(s, after, s.lock.value);
    }
  }

  lemma SameOperation(s: State, after: State, o: OperationId)
    requires o < |s.operations| && after.operations == s.operations && ValidOperation(s, o)
    ensures ValidOperation(after, o)
  {
  }

  lemma SameHolder(s: State, after: State, t: TaskId)
    requires t < |s.tasks| && t < |after.tasks| && after == s.(tasks := after.tasks) && after.tasks[t] == s.tasks[t]
    requires ValidHolder(s, t)
    ensures ValidHolder(after, t)
  {
  }

  /** A task goes on inside the lock, to a stage other than holding a grant. */
  lemma InsideKeepsValid(s: State, t: TaskId, phase: Phase)
    requires Valid(s) && t < |s.tasks| && InLock(phase) && !phase.Granted?
    requires (s.lock == Some(t) && !s.tasks[t].phase.Granted?) || (s.lock.None? && !InLock(s.tasks[t].phase))
    requires ValidHolder(Moved(s, t, phase).(lock := Some(t)), t)
    ensures Valid(Moved(s, t, phase).(lock := Some(t)))
  {
    hide ValidOperation, ValidHolder, Sound;
    var after := Moved(s, t, phase).(lock := Some(t));
    forall o | 0 <= o < |after.operations| ensures ValidOperation(after, o) {
      assert ValidOperation(s, o);
      SameOperation(s, after, o);
    }
  }

  /** A task leaves the lock, whatever becomes of the connection's status and of the token it sent. */
  lemma LeavingKeepsValid(s: State, t: TaskId, answer: Option<Token>, status: Status, rotated: set<Token>, lost: bool)
    requires Valid(s) && t < |s.tasks| && s.lock == Some(t)
    requires s.rotated <= rotated && forall token :: token in rotated ==> token < s.minted
    requires lost <==>
             s.connection.Some? && s.connection.value.refresh.Some? && s.connection.value.refresh.value in rotated
    ensures Valid(Left(s, t, answer).(
      connection := if s.connection.Some? then Some(s.connection.value.(status := status)) else None,
      rotated := rotated, lost := lost))
  {
    hide ValidOperation, ValidHolder;
    var after := Left(s, t, answer).(
      connection := if s.connection.Some? then Some(s.connection.value.(status := status)) else None,
      rotated := rotated, lost := lost);
    forall o | 0 <= o < |after.operations| ensures ValidOperation(after, o) {
      assert ValidOperation(s, o);
      SameOperation(s, after, o);
    }
  }

  /** Outside a grant's way into the row, the stored refresh token is a replaced one exactly when a
      grant was lost. */
  lemma LostExactly(s: State)
    requires Valid(s) && (s.lock.Some? ==> !s.tasks[s.lock.value].phase.Granted?)
    ensures s.lost <==>
            s.connection.Some? && s.connection.value.refresh.Some? && s.connection.value.refresh.value in s.rotated
  {
  }

  lemma JustLeaves(s: State, t: TaskId, answer: Option<Token>)
    requires Valid(s) && t < |s.tasks| && s.lock == Some(t) && !s.tasks[t].phase.Granted?
    ensures Valid(Left(s, t, answer))
  {
    LostExactly(s);
    var status := if s.connection.Some? then s.connection.value.status else Active;
    assert s.connection.Some? ==> s.connection.value.(status := status) == s.connection.value;
    assert Left(s, t, answer) == Left(s, t, answer).(
      connection := if s.connection.Some? then Some(s.connection.value.(status := status)) else None,
      rotated := s.rotated, lost := s.lost);
    LeavingKeepsValid(s, t, answer, status, s.rotated, s.lost);
  }

  lemma RetiringLeaves(s: State, t: TaskId)
    requires Valid(s) && t < |s.tasks| && s.lock == Some(t) && !s.tasks[t].phase.Granted?
    ensures Valid(Rejection(s, t))
  {
    LostExactly(s);
    LeavingKeepsValid(s, t, None, Invalid, s.rotated, s.lost);
  }

  lemma ConsumedKeepsValid(s: State, o: OperationId)
    requires Valid(s) && o < |s.operations|
    ensures Valid(Consumed(s, o))
  {
    var after := Consumed(s, o);
    forall p | 0 <= p < |after.operations| ensures ValidOperation(after, p) {
      assert ValidOperation(s, p);
    }
    hide ValidOperation, ValidGrant, Sound;
    if s.lock.Some? {
      ConsumedHolder(s, o, s.lock.value);
    }
  }

  lemma ConsumedHolder(s: State, o: OperationId, t: TaskId)
    requires o < |s.operations| && t < |s.tasks| && ValidHolder(s, t)
    ensures ValidHolder(Consumed(s, o), t)
  {
  }

  lemma InLockHolds(s: State, t: TaskId)
    requires Valid(s) && t < |s.tasks| && InLock(s.tasks[t].phase)
    ensures s.lock == Some(t) && ValidHolder(s, t)
  {
  }

  lemma RereadKeepsValid(s: State, t: TaskId)
    requires Valid(s) && t < |s.tasks| && s.tasks[t].phase.Holding?
    ensures Valid(After(s, Reread(t)))
  {
    InLockHolds(s, t);
    assert s.lock.value == t;
    match s.tasks[t].goal
    case Use =>
      hide Valid;
      if Refreshing(s, t).lock.None? {
        JustLeaves(s, t, Refreshing(s, t).tasks[t].phase.answer);
      } else {
        assert Refreshing(s, t) == Refreshing(s, t).(lock := Some(t));
        InsideKeepsValid(s, t, Refreshing(s, t).tasks[t].phase);
      }
    case Retire(expected) =>
      hide Valid;
      if Retiring(s, t, expected).connection == s.connection {
        JustLeaves(s, t, None);
      } else {
        RetiringLeaves(s, t);
      }
    case Complete(o) =>
      CompletingKeepsValid(s, t, o);
  }

  lemma CompletingKeepsValid(s: State, t: TaskId, o: OperationId)
    requires Valid(s) && t < |s.tasks| && s.tasks[t].phase.Holding? && s.tasks[t].goal == Complete(o)
    ensures Valid(Completing(s, t, o))
  {
    InLockHolds(s, t);
    if o >= |s.operations| || s.operations[o].consumed {
      JustLeaves(s, t, None);
    } else {
      assert ValidOperation(s, o);
      ConsumedKeepsValid(s, o);
      hide Valid;
      if !Usable(s, o) {
        JustLeaves(s, t, None);
        JustLeaves(Consumed(s, o), t, None);
      } else {
        var current := if s.operations[o].code then Consumed(s, o) else s;
        var after := Moved(current, t, Authorizing(o));
        assert after == after.(lock := Some(t));
        InsideKeepsValid(current, t, Authorizing(o));
      }
    }
  }

  lemma ExchangeKeepsValid(s: State, t: TaskId)
    requires Valid(s) && t < |s.tasks| && s.tasks[t].phase.Authorizing?
    ensures Valid(After(s, Exchange(t)))
  {
    InLockHolds(s, t);
    var after := After(s, Exchange(t));
    forall p | 0 <= p < |after.operations| ensures ValidOperation(after, p) {
      assert ValidOperation(s, p);
    }
  }

  /** A grant in hand, with the tokens it brought newly minted. */
  lemma GrantKeepsValid(s: State, t: TaskId, grant: Grant, spent: Option<Token>, minted: nat, rotated: set<Token>)
    requires Valid(s) && t < |s.tasks| && s.lock == Some(t) && s.minted <= minted
    requires forall token :: token in rotated ==> token < minted
    requires s.rotated <= rotated && (s.lost ==> s.rotated == rotated)
    requires ValidHolder(Moved(s, t, Granted(grant, spent)).(minted := minted, rotated := rotated), t)
    ensures Valid(Moved(s, t, Granted(grant, spent)).(minted := minted, rotated := rotated))
  {
    hide ValidOperation, ValidHolder;
    var after := Moved(s, t, Granted(grant, spent)).(minted := minted, rotated := rotated);
    forall o | 0 <= o < |after.operations| ensures ValidOperation(after, o) {
      assert ValidOperation(s, o);
      SameOperation(s, after, o);
    }
  }

  lemma ReceivedKeepsValid(s: State, t: TaskId, reply: Reply)
    requires Valid(s) && t < |s.tasks| && s.tasks[t].phase.Asked?
    ensures Valid(After(s, Receive(t, reply)))
  {
    InLockHolds(s, t);
    LostExactly(s);
    var token := s.tasks[t].phase.token;
    match reply
    case Dropped(rotates) =>
      if rotates && token !in s.rotated {
        var status := s.connection.value.status;
        assert s.connection.value.(status := status) == s.connection.value;
        LeavingKeepsValid(s, t, None, status, s.rotated + {token}, true);
      } else {
        JustLeaves(s, t, None);
      }
    case Renewed(rotates, expires) =>
      if token in s.rotated {
        RetiringLeaves(s, t);
      } else {
        var grant := Grant(s.minted, Some(if rotates then s.minted + 1 else token), expires);
        GrantKeepsValid(s, t, grant, Some(token), s.minted + 2, if rotates then s.rotated + {token} else s.rotated);
      }
    case Rejected => RetiringLeaves(s, t);
  }

  lemma ResolvedKeepsValid(s: State, t: TaskId, authorization: Authorization)
    requires Valid(s) && t < |s.tasks| && s.tasks[t].phase.Authorized?
    ensures Valid(After(s, Resolve(t, authorization)))
  {
    InLockHolds(s, t);
    LostExactly(s);
    match authorization
    case Issued(refreshable, expires) =>
      var grant := Grant(s.minted, if refreshable then Some(s.minted + 1) else None, expires);
      GrantKeepsValid(s, t, grant, None, s.minted + 2, s.rotated);
    case _ => JustLeaves(s, t, None);
  }

  lemma StoredKeepsValid(s: State, t: TaskId)
    requires Valid(s) && t < |s.tasks| && s.tasks[t].phase.Granted?
    ensures Valid(After(s, Store(t)))
  {
    InLockHolds(s, t);
    var after := After(s, Store(t));
    forall o | 0 <= o < |after.operations| ensures ValidOperation(after, o) {
      assert ValidOperation(s, o);
    }
  }

  lemma AbandonedKeepsValid(s: State, t: TaskId)
    requires Valid(s) && t < |s.tasks|
    ensures Valid(After(s, Abandon(t)))
  {
    var phase := s.tasks[t].phase;
    if InLock(phase) && !phase.Asked? {
      InLockHolds(s, t);
      if phase.Granted? {
        var status := if s.connection.Some? then s.connection.value.status else Active;
        assert s.connection.Some? ==> s.connection.value.(status := status) == s.connection.value;
        LeavingKeepsValid(s, t, None, status, s.rotated,
                          s.lost || (phase.spent.Some? && phase.grant.refresh != phase.spent));
      } else {
        JustLeaves(s, t, None);
      }
    } else if !phase.Ended? && !phase.Asked? {
      OutsideKeepsValid(s, t, s.tasks[t].(phase := Ended(None)));
    }
  }

  lemma LookedKeepsValid(s: State, t: TaskId)
    requires Valid(s) && t < |s.tasks| && s.tasks[t].phase.Started?
    ensures Valid(Looked(s, t))
  {
    hide Valid;
    OutsideKeepsValid(s, t, Looked(s, t).tasks[t]);
  }

  lemma WorldKeepsValid(s: State, step: Step)
    requires Valid(s) && (step.Open? || step.Tick?)
    ensures Valid(After(s, step))
  {
    var after := After(s, step);
    forall o | 0 <= o < |after.operations| ensures ValidOperation(after, o) {
      assert o < |s.operations| ==> ValidOperation(s, o);
    }
  }

  lemma StepKeepsValid(s: State, step: Step)
    requires Valid(s)
    ensures Valid(After(s, step))
  {
    match step
    case Call(goal) => OutsideKeepsValid(s, |s.tasks|, Task(goal, Started));
    case Look(t) => if At(s, t) && s.tasks[t].phase.Started? { LookedKeepsValid(s, t); }
    case Acquire(t) =>
      if At(s, t) && s.tasks[t].phase.Waiting? && s.lock.None? { InsideKeepsValid(s, t, Holding); }
    case Reread(t) => if At(s, t) && s.tasks[t].phase.Holding? { RereadKeepsValid(s, t); }
    case Send(t) =>
      if At(s, t) && s.tasks[t].phase.Asking? {
        InLockHolds(s, t);
        assert After(s, step) == After(s, step).(lock := Some(t));
        InsideKeepsValid(s, t, Asked(s.tasks[t].phase.token));
      }
    case Receive(t, reply) => if At(s, t) && s.tasks[t].phase.Asked? { ReceivedKeepsValid(s, t, reply); }
    case Exchange(t) => if At(s, t) && s.tasks[t].phase.Authorizing? { ExchangeKeepsValid(s, t); }
    case Resolve(t, authorization) =>
      if At(s, t) && s.tasks[t].phase.Authorized? { ResolvedKeepsValid(s, t, authorization); }
    case Store(t) => if At(s, t) && s.tasks[t].phase.Granted? { StoredKeepsValid(s, t); }
    case Abandon(t) => if At(s, t) { AbandonedKeepsValid(s, t); }
    case _ => WorldKeepsValid(s, step);
  }

  lemma {:induction false} RunKeepsValid(s: State, steps: seq<Step>)
    requires Valid(s)
    ensures Valid(Run(s, steps))
    decreases |steps|
  {
    if steps != [] {
      hide Valid, After;
      StepKeepsValid(s, steps[0]);
      RunKeepsValid(After(s, steps[0]), steps[1..]);
    }
  }

  // ---------------------------------------------------------------- refresh tokens over whole runs

  lemma UnconnectedIsValid(now: Instant, leeway: nat)
    ensures Valid(Unconnected(now, leeway))
    ensures var s := Unconnected(now, leeway);
            && s.connection == None && s.operations == [] && s.tasks == [] && s.lock == None
            && s.now == now && s.leeway == leeway && s.rotated == {} && !s.lost
  {
  }

  lemma Reachable(now: Instant, leeway: nat, steps: seq<Step>)
    ensures Valid(Run(Unconnected(now, leeway), steps))
  {
    UnconnectedIsValid(now, leeway);
    RunKeepsValid(Unconnected(now, leeway), steps);
  }

  /** However reads, refreshes, retirements and authorizations interleave, the refresh token that
      goes to the provider is the one stored at that moment, on an active connection that is due,
      and nobody else is inside the lock. */
  lemma SentIsStored(now: Instant, leeway: nat, steps: seq<Step>, t: TaskId)
    ensures var s := Run(Unconnected(now, leeway), steps);
            t < |s.tasks| && s.tasks[t].phase.Asking? ==>
              && s.connection.Some? && s.connection.value.status.Active?
              && s.connection.value.refresh == Some(s.tasks[t].phase.token)
              && s.connection.value.expires.Some? && s.connection.value.expires.value <= s.now + s.leeway
              && (forall u :: 0 <= u < |s.tasks| && u != t ==> !InLock(s.tasks[u].phase))
  {
    Reachable(now, leeway, steps);
    var s := Run(Unconnected(now, leeway), steps);
    if t < |s.tasks| && s.tasks[t].phase.Asking? {
      InLockHolds(s, t);
    }
  }

  /** The provider replaced the stored refresh token, and its answer never came to be stored. */
  ghost predicate Loses(s: State, step: Step) {
    || (step.Abandon? && At(s, step.task) && s.tasks[step.task].phase.Granted? && s.tasks[step.task].phase.spent.Some?
        && s.tasks[step.task].phase.grant.refresh != s.tasks[step.task].phase.spent)
    || (step.Receive? && At(s, step.task) && s.tasks[step.task].phase.Asked? && step.reply == Dropped(true)
        && s.tasks[step.task].phase.token !in s.rotated)
  }

  ghost predicate Stores(s: State, step: Step) {
    step.Store? && At(s, step.task) && s.tasks[step.task].phase.Granted?
  }

  lemma LostStep(s: State, step: Step)
    ensures After(s, step).lost <==> !Stores(s, step) && (s.lost || Loses(s, step))
  {
    hide Usable, Expiring;
  }

  /** A grant was lost, and none has been stored since. */
  ghost predicate LostSince(s: State, steps: seq<Step>)
    decreases |steps|
  {
    steps != [] &&
      var front, last := steps[..|steps| - 1], steps[|steps| - 1];
      !Stores(Run(s, front), last) && (Loses(Run(s, front), last) || LostSince(s, front))
  }

  lemma {:induction false} RunSnoc(s: State, steps: seq<Step>)
    requires steps != []
    ensures Run(s, steps) == After(Run(s, steps[..|steps| - 1]), steps[|steps| - 1])
    decreases |steps|
  {
    hide After;
    if |steps| == 1 {
      assert steps[1..] == [] && steps[..0] == [];
    } else {
      assert steps[..|steps| - 1][1..] == steps[1..][..|steps[1..]| - 1];
      RunSnoc(After(s, steps[0]), steps[1..]);
    }
  }

  lemma {:induction false} LostExactlySince(s: State, steps: seq<Step>)
    requires !s.lost
    ensures Run(s, steps).lost <==> LostSince(s, steps)
    decreases |steps|
  {
    hide After, Loses, Stores;
    if steps != [] {
      var front := steps[..|steps| - 1];
      RunSnoc(s, steps);
      LostExactlySince(s, front);
      LostStep(Run(s, front), steps[|steps| - 1]);
    }
  }

  /** A refresh token the provider has replaced is sent again exactly if a grant was lost on its
      way to the row, and no other has been stored since. */
  lemma ReplacedIsSentExactly(now: Instant, leeway: nat, steps: seq<Step>, t: TaskId)
    ensures var s := Run(Unconnected(now, leeway), steps);
            t < |s.tasks| && s.tasks[t].phase.Asking? ==>
              (s.tasks[t].phase.token in s.rotated <==> LostSince(Unconnected(now, leeway), steps))
  {
    Reachable(now, leeway, steps);
    LostExactlySince(Unconnected(now, leeway), steps);
    var s := Run(Unconnected(now, leeway), steps);
    if t < |s.tasks| && s.tasks[t].phase.Asking? {
      InLockHolds(s, t);
      LostExactly(s);
    }
  }

  /** And it does happen, from any connection that is due: a refresh is granted, its task is
      cancelled before it stores the grant, and the next refresh sends what was replaced. */
  lemma LostGrantIsSentAgain(s: State)
    requires s.lock.None? && s.connection.Some? && s.connection.value.status.Active?
    requires s.connection.value.refresh.Some? && s.connection.value.refresh.value !in s.rotated
    requires s.connection.value.expires.Some? && s.connection.value.expires.value <= s.now + s.leeway
    ensures var t, u := |s.tasks|, |s.tasks| + 1;
            var end := Run(s, [Call(Use), Look(t), Acquire(t), Reread(t), Send(t), Receive(t, Renewed(true, None)),
                               Abandon(t), Call(Use), Look(u), Acquire(u), Reread(u)]);
            && u < |end.tasks| && end.tasks[u].phase == Asking(s.connection.value.refresh.value)
            && s.connection.value.refresh.value in end.rotated
  {
    var t, u := |s.tasks|, |s.tasks| + 1;
    var first := [Call(Use), Look(t), Acquire(t), Reread(t), Send(t), Receive(t, Renewed(true, None)), Abandon(t)];
    var again := [Call(Use), Look(u), Acquire(u), Reread(u)];
    RunOn(s, first, again);
    RunOn(s, first[..4], first[4..]);
    assert first[..4] == [Call(Use), Look(t), Acquire(t), Reread(t)] && first[..4] + first[4..] == first;
    assert first[4..] == [Send(t), Receive(t, Renewed(true, None)), Abandon(t)];
    RefreshGoesOut(s);
    var asking := Run(s, first[..4]);
    GrantIsLost(asking, t);
    var dropped := Run(asking, first[4..]);
    RefreshGoesOut(dropped);
    assert first + again == [Call(Use), Look(t), Acquire(t), Reread(t), Send(t), Receive(t, Renewed(true, None)),
                             Abandon(t), Call(Use), Look(u), Acquire(u), Reread(u)];
  }

  lemma GrantIsLost(s: State, t: TaskId)
    requires t < |s.tasks| && s.tasks[t].phase.Asking? && s.tasks[t].phase.token !in s.rotated
    ensures var end := Run(s, [Send(t), Receive(t, Renewed(true, None)), Abandon(t)]);
            && end.connection == s.connection && end.lock.None? && |end.tasks| == |s.tasks|
            && end.now == s.now && end.leeway == s.leeway && end.rotated == s.rotated + {s.tasks[t].phase.token}
  {
    hide Resolved, Stored, Completing, Retiring, Refreshing, Looked, Expiring;
    var token := s.tasks[t].phase.token;
    var steps := [Send(t), Receive(t, Renewed(true, None)), Abandon(t)];
    assert steps[0..] == steps && steps[3..] == [];
    var sent := After(s, steps[0]);
    var granted := After(sent, steps[1]);
    var dropped := After(granted, steps[2]);
    assert granted.tasks[t].phase == Granted(Grant(s.minted, Some(s.minted + 1), None), Some(token));
    RunNext(s, steps, 0);
    RunNext(sent, steps, 1);
    RunNext(granted, steps, 2);
    assert Run(dropped, []) == dropped;
  }

  lemma RunNext(s: State, steps: seq<Step>, n: nat)
    requires n < |steps|
    ensures Run(s, steps[n..]) == Run(After(s, steps[n]), steps[n + 1..])
  {
    hide After;
    assert steps[n..][1..] == steps[n + 1..];
  }

  lemma {:induction false} RunOn(s: State, first: seq<Step>, rest: seq<Step>)
    ensures Run(s, first + rest) == Run(Run(s, first), rest)
    decreases |first|
  {
    hide After;
    if first == [] {
      assert first + rest == rest;
    } else {
      assert (first + rest)[1..] == first[1..] + rest;
      RunOn(After(s, first[0]), first[1..], rest);
    }
  }

  ghost predicate Due(s: State, token: Token) {
    Refreshes(s, token) && Expiring(s.connection.value, s.now, s.leeway)
  }

  lemma LookWhenDue(s: State, t: TaskId, token: Token)
    requires t < |s.tasks| && s.tasks[t] == Task(Use, Started) && Due(s, token)
    ensures After(s, Look(t)) == s.(tasks := s.tasks[t := Task(Use, Waiting)])
  {
  }

  lemma AcquireWhenFree(s: State, t: TaskId)
    requires t < |s.tasks| && s.tasks[t] == Task(Use, Waiting) && s.lock.None?
    ensures After(s, Acquire(t)) == s.(tasks := s.tasks[t := Task(Use, Holding)], lock := Some(t))
  {
  }

  lemma RereadWhenDue(s: State, t: TaskId, token: Token)
    requires t < |s.tasks| && s.tasks[t] == Task(Use, Holding) && Due(s, token)
    ensures After(s, Reread(t)) == s.(tasks := s.tasks[t := Task(Use, Asking(token))])
  {
  }

  lemma RefreshGoesOut(s: State)
    requires s.lock.None? && s.connection.Some? && s.connection.value.status.Active? && s.connection.value.refresh.Some?
    requires Expiring(s.connection.value, s.now, s.leeway)
    ensures var t := |s.tasks|;
            var asking := s.tasks + [Task(Use, Asking(s.connection.value.refresh.value))];
            Run(s, [Call(Use), Look(t), Acquire(t), Reread(t)]) == s.(tasks := asking, lock := Some(t))
  {
    var t, token := |s.tasks|, s.connection.value.refresh.value;
    var steps := [Call(Use), Look(t), Acquire(t), Reread(t)];
    assert steps[0..] == steps && steps[4..] == [];
    var called := s.(tasks := s.tasks + [Task(Use, Started)]);
    assert After(s, steps[0]) == called;
    hide After, Expiring;
    LookWhenDue(called, t, token);
    var looked := After(called, steps[1]);
    AcquireWhenFree(looked, t);
    var held := After(looked, steps[2]);
    RereadWhenDue(held, t, token);
    RunNext(s, steps, 0);
    RunNext(called, steps, 1);
    RunNext(looked, steps, 2);
    RunNext(held, steps, 3);
    assert After(held, steps[3]).tasks == s.tasks + [Task(Use, Asking(token))];
    assert Run(After(held, steps[3]), []) == After(held, steps[3]);
  }

  /** Whoever sends a lost grant's token and is answered finds the connection ended. */
  lemma LostGrantEndsTheConnection(now: Instant, leeway: nat, steps: seq<Step>, t: TaskId, reply: Reply)
    requires var s := Run(Unconnected(now, leeway), steps); t < |s.tasks| && s.tasks[t].phase.Asked?
    requires LostSince(Unconnected(now, leeway), steps) && !reply.Dropped?
    ensures var after := After(Run(Unconnected(now, leeway), steps), Receive(t, reply));
            after.connection.Some? && after.connection.value.status.Invalid?
  {
    Reachable(now, leeway, steps);
    LostExactlySince(Unconnected(now, leeway), steps);
    var s := Run(Unconnected(now, leeway), steps);
    InLockHolds(s, t);
    LostExactly(s);
  }

  /** Whoever asks for the token is answered, at the first look or inside the lock, with the one
      stored exactly if the connection is active and has no end, or more life left than the leeway;
      with none if it is lost, or ends too soon and cannot be refreshed inside the lock. Otherwise
      the answer is still to come: from the provider, or once the dead token is retired. */
  lemma AnsweredWithTheStored(s: State, t: TaskId, step: Step)
    requires t < |s.tasks| && s.tasks[t].goal.Use?
    requires (step == Look(t) && s.tasks[t].phase.Started?) || (step == Reread(t) && s.tasks[t].phase.Holding?)
    ensures var live := s.connection.Some? && s.connection.value.status == Active;
            var lasts := live && match s.connection.value.expires
                                 case None => true
                                 case Some(end) => end > s.now + s.leeway;
            var after := After(s, step);
            var task := after.tasks[t];
            && (lasts ==> task.phase == Ended(Some(s.connection.value.access)))
            && (task.phase.Ended? && task.phase.answer.Some? ==> lasts)
            && (!live ==> task.phase == Ended(None))
            && (live && !lasts && s.connection.value.refresh.None? ==>
                  task == if step.Look? then Task(Retire(Some(s.connection.value.access)), Waiting)
                          else Task(Use, Ended(None)))
            && (live && !lasts && s.connection.value.refresh.Some? ==>
                  task == Task(Use, if step.Look? then Waiting else Asking(s.connection.value.refresh.value)))
            && (after.lock == if step.Look? || task.phase.Asking? then s.lock else None)
            && after == s.(tasks := s.tasks[t := task], lock := after.lock)
  {
  }

  /** A grant that is stored is what everyone is answered with next, and leaves the connection
      active under it. */
  lemma StoredGrantIsUsed(now: Instant, leeway: nat, steps: seq<Step>, t: TaskId)
    requires var s := Run(Unconnected(now, leeway), steps); t < |s.tasks| && s.tasks[t].phase.Granted?
    ensures var s := Run(Unconnected(now, leeway), steps);
            var grant := s.tasks[t].phase.grant;
            var after := After(s, Store(t));
            && after.connection == Some(Connection(Active, grant.access, grant.refresh, grant.expires))
            && after.lock.None? && after.tasks[t].phase == Ended(Some(grant.access)) && !after.lost
            && (s.tasks[t].goal.Complete? ==>
                  && s.tasks[t].goal.operation < |s.operations|
                  && after.operations[s.tasks[t].goal.operation].consumed)
            && (s.connection.Some? ==> grant.access != s.connection.value.access)
  {
    Reachable(now, leeway, steps);
    var s := Run(Unconnected(now, leeway), steps);
    InLockHolds(s, t);
    hide Run, Valid;
  }

  // ---------------------------------------------------------------- retirement and authorization

  lemma StepMovesAccess(s: State, step: Step)
    requires Valid(s) && s.connection.Some?
    ensures var after := After(s, step);
            after.connection.Some? && after.connection.value.access >= s.connection.value.access
  {
    if step.Store? && At(s, step.task) && s.tasks[step.task].phase.Granted? {
      InLockHolds(s, step.task);
    }
    hide Valid, Expiring, Usable, ValidHolder;
  }

  lemma {:induction false} RunMovesAccess(s: State, steps: seq<Step>)
    requires Valid(s) && s.connection.Some?
    ensures Run(s, steps).connection.Some? && Run(s, steps).connection.value.access >= s.connection.value.access
    decreases |steps|
  {
    if steps != [] {
      StepKeepsValid(s, steps[0]);
      StepMovesAccess(s, steps[0]);
      hide Valid, After;
      RunMovesAccess(After(s, steps[0]), steps[1..]);
    }
  }

  /** Once a token has been replaced, news of its death is void for good: it never retires the
      connection another run has refreshed, or authorized, since. */
  lemma StaleNewsIsVoid(now: Instant, leeway: nat, before: seq<Step>, replacing: seq<Step>, later: seq<Step>, t: TaskId)
    requires var s := Run(Unconnected(now, leeway), before);
             s.connection.Some? && Run(s, replacing).connection != None
             && Run(s, replacing).connection.value.access != s.connection.value.access
    requires var s := Run(Unconnected(now, leeway), before);
             var end := Run(Run(s, replacing), later);
             t < |end.tasks| && end.tasks[t].goal == Retire(Some(s.connection.value.access))
    ensures var end := Run(Run(Run(Unconnected(now, leeway), before), replacing), later);
            After(end, Reread(t)).connection == end.connection
  {
    Reachable(now, leeway, before);
    var s := Run(Unconnected(now, leeway), before);
    RunKeepsValid(s, replacing);
    RunMovesAccess(s, replacing);
    RunMovesAccess(Run(s, replacing), later);
    hide Run;
  }

  /** News of the stored token, or of whichever there is, retires an active connection. */
  lemma FreshNewsRetires(s: State, t: TaskId, expected: Option<Token>)
    requires t < |s.tasks| && s.tasks[t] == Task(Retire(expected), Holding)
    ensures var after := After(s, Reread(t));
            && after.lock.None?
            && (after.connection != s.connection <==>
                  s.connection.Some? && s.connection.value.status.Active?
                  && (expected.None? || expected.value == s.connection.value.access))
            && (after.connection != s.connection ==> after.connection == Some(s.connection.value.(status := Invalid)))
  {
  }

  /** An authorization code goes to the provider at most once, and whichever way an operation is
      authorized, at most one grant is stored for it; nor is one ever usable afterwards. */
  lemma AuthorizedOnce(now: Instant, leeway: nat, steps: seq<Step>, o: OperationId)
    ensures var s := Run(Unconnected(now, leeway), steps);
            o < |s.operations| ==>
              var operation := s.operations[o];
              && operation.grants <= 1 && (operation.grants == 1 ==> operation.consumed)
              && (operation.code ==> operation.exchanges <= 1 && (operation.exchanges == 1 ==> operation.consumed))
  {
    Reachable(now, leeway, steps);
    var s := Run(Unconnected(now, leeway), steps);
    if o < |s.operations| {
      assert ValidOperation(s, o);
    }
  }

  /** What `exchanges` and `grants` count: every time an operation's code goes to the provider, and every
      time what came back for it is stored. Spent, an operation stays so. */
  lemma CountsExactly(s: State, step: Step, o: OperationId)
    requires o < |s.operations|
    ensures var before := s.operations[o];
            && o < |After(s, step).operations|
            && var after := After(s, step).operations[o];
               && after.exchanges == before.exchanges
                  + (if step.Exchange? && At(s, step.task) && s.tasks[step.task].phase == Authorizing(o) then 1 else 0)
               && after.grants == before.grants
                  + (if step.Store? && At(s, step.task) && s.tasks[step.task].phase.Granted?
                        && s.tasks[step.task].goal == Complete(o) then 1 else 0)
               && (before.consumed ==> after.consumed)
               && after.code == before.code && after.expires == before.expires
  {
    hide Expiring;
  }

  /** What the provider grants an authorized operation is a new pair of tokens, to be stored; anything else
      ends the call with nothing. */
  lemma GrantsAreNew(now: Instant, leeway: nat, steps: seq<Step>, t: TaskId, authorization: Authorization)
    requires var s := Run(Unconnected(now, leeway), steps); t < |s.tasks| && s.tasks[t].phase.Authorized?
    ensures var s := Run(Unconnected(now, leeway), steps);
            var after := After(s, Resolve(t, authorization));
            match authorization
            case Issued(refreshable, expires) =>
              && after.tasks[t].phase.Granted? && after.tasks[t].phase.spent == None
              && var grant := after.tasks[t].phase.grant;
                 && grant.expires == expires && (grant.refresh.Some? <==> refreshable)
                 && grant.access !in s.rotated && (grant.refresh.Some? ==> grant.refresh != Some(grant.access))
                 && (s.connection.Some? ==> s.connection.value.access != grant.access)
                 && after == s.(tasks := after.tasks, minted := after.minted)
            case _ => after == s.(tasks := s.tasks[t := s.tasks[t].(phase := Ended(None))], lock := None)
  {
    Reachable(now, leeway, steps);
    hide Run;
  }

  /** Operations begin unspent and uncounted, and time passes as it does. */
  lemma BeginsAnew(s: State, operation: Operation, goal: Goal, seconds: nat)
    ensures After(s, Open(operation)).operations
            == s.operations + [Operation(operation.code, false, operation.expires, 0, 0)]
    ensures After(s, Call(goal)).tasks == s.tasks + [Task(goal, Started)]
    ensures After(s, Tick(seconds)).now == s.now + seconds
    ensures After(s, Open(operation)) == s.(operations := After(s, Open(operation)).operations)
    ensures After(s, Call(goal)) == s.(tasks := After(s, Call(goal)).tasks)
    ensures After(s, Tick(seconds)) == s.(now := After(s, Tick(seconds)).now)
  {
  }

  /** A completion goes for the lock where its operation exists, an authorization code only while it is
      neither spent nor past its time. */
  lemma CompletionWaitsExactly(s: State, t: TaskId, o: OperationId)
    requires t < |s.tasks| && s.tasks[t] == Task(Complete(o), Started)
    ensures var after := After(s, Look(t));
            && (o < |s.operations|
                && (s.operations[o].code ==> !s.operations[o].consumed && s.operations[o].expires > s.now) ==>
                  after == s.(tasks := s.tasks[t := Task(Complete(o), Waiting)]))
            && (!(o < |s.operations|
                  && (s.operations[o].code ==> !s.operations[o].consumed && s.operations[o].expires > s.now)) ==>
                  after == s.(tasks := s.tasks[t := Task(Complete(o), Ended(None))]))
  {
  }

  /** The provider is asked only about an operation that is neither spent nor past its time, and an
      authorization code is spent before that. Past its time a device code is spent, too. */
  lemma OnlyUsableIsAuthorized(s: State, t: TaskId, o: OperationId)
    requires t < |s.tasks| && s.tasks[t] == Task(Complete(o), Holding)
    ensures var after := After(s, Reread(t));
            && (after.tasks[t].phase.Authorizing? <==>
                  o < |s.operations| && !s.operations[o].consumed && s.operations[o].expires > s.now)
            && (after.tasks[t].phase.Authorizing? ==>
                  after.tasks[t].phase.operation == o && (after.operations[o].consumed <==> s.operations[o].code))
            && (!after.tasks[t].phase.Authorizing? ==> after.tasks[t].phase == Ended(None) && after.lock.None?)
            && (o < |s.operations| && !after.tasks[t].phase.Authorizing? ==>
                  (after.operations[o].consumed <==> s.operations[o].consumed || !s.operations[o].code))
            && after.connection == s.connection
  {
  }

  // ---------------------------------------------------------------- the manager

  class OAuthManager {
    var connection: Option<Connection>
    var operations: seq<Operation>
    var lock: Option<TaskId>
    var tasks: seq<Task>
    var now: Instant
    const leeway: nat
    ghost var minted: nat
    ghost var rotated: set<Token>
    ghost var lost: bool

    constructor (now: Instant, leeway: nat)
      ensures View() == Unconnected(now, leeway)
    {
      connection, operations, lock, tasks := None, [], None, [];
      this.now, this.leeway := now, leeway;
      minted, rotated, lost := 0, {}, false;
    }

    ghost function View(): State
      reads this
    {
      State(connection, operations, lock, tasks, now, leeway, minted, rotated, lost)
    }

    method Leave(t: TaskId, answer: Option<Token>)
      requires t < |tasks|
      modifies `tasks, `lock
      ensures View() == Left(old(View()), t, answer)
    {
      tasks := tasks[t := tasks[t].(phase := Ended(answer))];
      lock := None;
    }

    /** Its first read decides whether the caller is answered at once. */
    method AccessToken(t: TaskId)
      requires t < |tasks| && tasks[t] == Task(Use, Started)
      modifies `tasks
      ensures View() == After(old(View()), Look(t))
      ensures tasks[t].phase.Ended? && tasks[t].phase.answer.Some? <==>
                && connection.Some? && connection.value.status == Active
                && (connection.value.expires.Some? ==> connection.value.expires.value > now + leeway)
      ensures tasks[t].phase.Ended? && tasks[t].phase.answer.Some? ==>
                tasks[t].phase.answer.value == connection.value.access
    {
      var answer: Option<Token> := None;
      if connection.Some? && connection.value.status.Active? {
        if connection.value.expires.Some? && connection.value.expires.value <= now + leeway {
          if connection.value.refresh.None? {
            tasks := tasks[t := Task(Retire(Some(connection.value.access)), Waiting)];
          } else {
            tasks := tasks[t := Task(Use, Waiting)];
          }
          return;
        }
        answer := Some(connection.value.access);
      }
      tasks := tasks[t := Task(Use, Ended(answer))];
    }

    /** Inside the lock the connection is read again: who lost the race finds the winner's token. */
    method Refresh(t: TaskId)
      requires t < |tasks| && tasks[t] == Task(Use, Holding)
      modifies `tasks, `lock
      ensures View() == After(old(View()), Reread(t))
      ensures tasks[t].phase.Ended? && tasks[t].phase.answer.Some? <==>
                && connection.Some? && connection.value.status == Active
                && (connection.value.expires.Some? ==> connection.value.expires.value > now + leeway)
      ensures tasks[t].phase.Ended? && tasks[t].phase.answer.Some? ==>
                tasks[t].phase.answer.value == connection.value.access
    {
      if connection.None? || connection.value.status.Invalid? {
        Leave(t, None);
        return;
      }
      if connection.value.expires.None? || !(connection.value.expires.value <= now + leeway) {
        Leave(t, Some(connection.value.access));
        return;
      }
      if connection.value.refresh.None? {
        Leave(t, None);
        return;
      }
      tasks := tasks[t := Task(Use, Asking(connection.value.refresh.value))];
    }

    method Invalidate(t: TaskId, expected: Option<Token>)
      requires t < |tasks| && tasks[t] == Task(Retire(expected), Holding)
      modifies `tasks, `lock, `connection
      ensures View() == After(old(View()), Reread(t))
    {
      if connection.Some? && connection.value.status.Active? {
        if expected.None? || connection.value.access == expected.value {
          connection := Some(connection.value.(status := Invalid));
        }
      }
      Leave(t, None);
    }

    method Complete(t: TaskId, o: OperationId)
      requires t < |tasks| && tasks[t] == Task(Goal.Complete(o), Holding)
      modifies `tasks, `lock, `operations
      ensures View() == After(old(View()), Reread(t))
    {
      if o >= |operations| || operations[o].consumed {
        Leave(t, None);
        return;
      }
      var expired := operations[o].expires <= now;
      if expired && operations[o].code {
        Leave(t, None);
        return;
      }
      if expired || operations[o].code {
        operations := operations[o := operations[o].(consumed := true)];
      }
      if expired {
        Leave(t, None);
      } else {
        tasks := tasks[t := tasks[t].(phase := Authorizing(o))];
      }
    }

    /** The grant in hand is stored, with the device operation it came from, in one commit. */
    method GrantedConnection(t: TaskId)
      requires t < |tasks| && tasks[t].phase.Granted?
      modifies this
      ensures View() == After(old(View()), Store(t))
    {
      var grant := tasks[t].phase.grant;
      connection := Some(Connection(Active, grant.access, grant.refresh, grant.expires));
      if tasks[t].goal.Complete? && tasks[t].goal.operation < |operations| {
        var o := tasks[t].goal.operation;
        operations := operations[o := operations[o].(consumed := true, grants := operations[o].grants + 1)];
      }
      lost := false;
      Leave(t, Some(grant.access));
    }
  }
}
