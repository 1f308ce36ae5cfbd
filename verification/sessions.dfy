/** Signed-in sessions: sign-in, refresh, sign-out, revocation and password change as transactions
    that read first and commit later, each row checked then against the version that was read. */
module Sessions {
  import opened Wrappers

  type SessionId = nat
  type UserId = nat
  /** Tokens are numbered as they are drawn, and a hash stands for its token. */
  type Token = nat
  type Instant = int
  type TxId = nat

  /** `signIn` is the transaction that checked the password the session was opened with. */
  datatype Row = Row(
    user: UserId, access: Token, refresh: Token, accessExpires: Instant, refreshExpires: Instant,
    revoked: Option<Instant>, version: nat, signIn: TxId)

  datatype Write = Write(version: nat, row: Row)

  datatype Password = Password(user: UserId, secret: string)

  /** A sign-in that finds the stored hash out of date writes it anew, from the password it checked. */
  datatype Kind =
    | SignIn(password: Password, rehash: bool)
    | Refresh(session: SessionId, token: Token)
    | Revoke
    | ChangePassword(password: Password)

  /** `Checked`: the current password was right, and the sessions are yet to be listed. */
  datatype Stage = Checked | Open | Committed | Refused

  datatype Tx = Tx(kind: Kind, writes: map<SessionId, Write>, stage: Stage)

  /** `owners` names, for each token drawn, the session it was drawn for. */
  datatype State = State(
    rows: seq<Row>, passwords: map<UserId, string>, txs: seq<Tx>, now: Instant, owners: seq<SessionId>)

  datatype Lifetimes = Lifetimes(access: nat, session: nat)

  function NoSessions(now: Instant): State {
    State([], map[], [], now, [])
  }

  datatype Step =
    | Register(password: Password)
    | ReadLogin(password: Password, rehash: bool)
    | ReadRefresh(session: SessionId, token: Token)
    | ReadRevoke(user: UserId, session: SessionId)
    | ReadLogout(access: Option<Token>, refresh: Option<Token>)
    | CheckPassword(password: Password, current: Option<string>)
    | ListSessions(tx: TxId)
    | Commit(tx: TxId)
    | Abandon(tx: TxId)
    | Tick(seconds: nat)

  function Min(a: Instant, b: Instant): Instant {
    if a < b then a else b
  }

  predicate Refreshable(s: State, session: SessionId, token: Token) {
    && session < |s.rows| && s.rows[session].refresh == token
    && s.rows[session].revoked.None? && s.rows[session].refreshExpires > s.now
  }

  /** The row as a refresh leaves it: new tokens, the same deadline, and access within it. */
  function Renewed(row: Row, access: Token, refresh: Token, now: Instant, lifetimes: Lifetimes): Row {
    row.(access := access, refresh := refresh, accessExpires := Min(now + lifetimes.access, row.refreshExpires))
  }

  /** The revocation of every live session that `chosen` picks. */
  function Revocations(rows: seq<Row>, chosen: set<SessionId>, now: Instant): map<SessionId, Write> {
    map id | id in chosen && id < |rows| && rows[id].revoked.None? ::
      Write(rows[id].version, rows[id].(revoked := Some(now)))
  }

  function OfUser(rows: seq<Row>, user: UserId): set<SessionId> {
    set id | 0 <= id < |rows| && rows[id].user == user
  }

  function Presented(rows: seq<Row>, access: Option<Token>, refresh: Option<Token>): set<SessionId> {
    set id | 0 <= id < |rows| && (access == Some(rows[id].access) || refresh == Some(rows[id].refresh))
  }

  /** Every row still has the version that was read. */
  predicate Current(rows: seq<Row>, writes: map<SessionId, Write>) {
    forall id :: id in writes ==> id < |rows| && rows[id].version == writes[id].version
  }

  function Written(rows: seq<Row>, writes: map<SessionId, Write>): seq<Row> {
    seq(|rows|, id requires 0 <= id < |rows| =>
      if id in writes then writes[id].row.(version := rows[id].version + 1) else rows[id])
  }

  predicate Checks(s: State, password: Password) {
    password.user in s.passwords && s.passwords[password.user] == password.secret
  }

  function Renamed(s: State, password: Password): map<UserId, string> {
    s.passwords[password.user := password.secret]
  }

  function Finished(s: State, i: TxId, stage: Stage): seq<Tx>
    requires i < |s.txs|
  {
    s.txs[i := s.txs[i].(stage := stage)]
  }

  /** A sign-in's commit: the session and its tokens date from now, whenever the password was read. */
  function SignedIn(s: State, i: TxId, password: Password, rehash: bool, lifetimes: Lifetimes): State
    requires i < |s.txs|
  {
    var n := |s.owners|;
    var row := Row(password.user, n, n + 1, s.now + lifetimes.access, s.now + lifetimes.session, None, 1, i);
    s.(rows := s.rows + [row], owners := s.owners + [|s.rows|, |s.rows|], txs := Finished(s, i, Committed),
       passwords := if rehash then Renamed(s, password) else s.passwords)
  }

  /** All of a transaction lands, or none of it. */
  function Flushed(s: State, i: TxId, lifetimes: Lifetimes): State
    requires i < |s.txs|
  {
    var tx := s.txs[i];
    if !Current(s.rows, tx.writes) then s.(txs := Finished(s, i, Refused))
    else if tx.kind.SignIn? then SignedIn(s, i, tx.kind.password, tx.kind.rehash, lifetimes)
    else s.(rows := Written(s.rows, tx.writes), txs := Finished(s, i, Committed),
            passwords := if tx.kind.ChangePassword? then Renamed(s, tx.kind.password) else s.passwords)
  }

  function Began(s: State, tx: Tx): State {
    s.(txs := s.txs + [tx])
  }

  /** A password change goes on to the sessions its user has by now. */
  function Listed(s: State, i: TxId): State
    requires i < |s.txs| && s.txs[i].kind.ChangePassword?
  {
    var chosen := OfUser(s.rows, s.txs[i].kind.password.user);
    s.(txs := s.txs[i := s.txs[i].(writes := Revocations(s.rows, chosen, s.now), stage := Open)])
  }

  function After(s: State, step: Step, lifetimes: Lifetimes): State {
    match step
    case Register(password) => if password.user in s.passwords then s else s.(passwords := Renamed(s, password))
    case ReadLogin(password, rehash) =>
      Began(s, Tx(SignIn(password, rehash), map[], if Checks(s, password) then Open else Refused))
    case ReadRefresh(id, token) =>
      if !Refreshable(s, id, token) then Began(s, Tx(Refresh(id, token), map[], Refused))
      else
        var n := |s.owners|;
        var row := Renewed(s.rows[id], n, n + 1, s.now, lifetimes);
        Began(s, Tx(Refresh(id, token), map[id := Write(s.rows[id].version, row)], Open))
        .(owners := s.owners + [id, id])
    case ReadRevoke(user, id) =>
      if id < |s.rows| && s.rows[id].user == user
      then Began(s, Tx(Revoke, Revocations(s.rows, {id}, s.now), Open))
      else Began(s, Tx(Revoke, map[], Refused))
    case ReadLogout(access, refresh) =>
      Began(s, Tx(Revoke, Revocations(s.rows, Presented(s.rows, access, refresh), s.now), Open))
    case CheckPassword(password, current) =>
      var wrong := password.user !in s.passwords || (current.Some? && current.value != s.passwords[password.user]);
      Began(s, Tx(ChangePassword(password), map[], if wrong then Refused else Checked))
    case ListSessions(i) =>
      if i < |s.txs| && s.txs[i].stage.Checked? && s.txs[i].kind.ChangePassword? then Listed(s, i) else s
    case Commit(i) => if i < |s.txs| && s.txs[i].stage.Open? then Flushed(s, i, lifetimes) else s
    case Abandon(i) =>
      if i < |s.txs| && (s.txs[i].stage.Open? || s.txs[i].stage.Checked?) then s.(txs := Finished(s, i, Refused)) else s
    case Tick(seconds) => s.(now := s.now + seconds)
  }

  function Run(s: State, steps: seq<Step>, lifetimes: Lifetimes): State
    decreases |steps|
  {
    if steps == [] then s else Run(After(s, steps[0], lifetimes), steps[1..], lifetimes)
  }

  // ---------------------------------------------------------------- what every step keeps

  predicate Owned(owners: seq<SessionId>, token: Token, id: SessionId) {
    token < |owners| && owners[token] == id
  }

  ghost predicate ValidRow(s: State, id: SessionId)
    requires id < |s.rows|
  {
    var row := s.rows[id];
    && Owned(s.owners, row.access, id) && Owned(s.owners, row.refresh, id)
    && row.signIn < |s.txs| && s.txs[row.signIn].kind.SignIn? && s.txs[row.signIn].kind.password.user == row.user
    && s.txs[row.signIn].stage.Committed?
  }

  /** As long as the row was not written since it was read, what will be written over it is that
      row with newer tokens, or revoked: live it was, and its deadline it keeps. */
  ghost predicate ValidWrite(s: State, tx: Tx, id: SessionId)
    requires id in tx.writes
  {
    var write := tx.writes[id];
    && id < |s.rows| && write.version <= s.rows[id].version
    && (write.version == s.rows[id].version ==>
          var row := s.rows[id];
          && row.revoked.None? && write.row.user == row.user && write.row.signIn == row.signIn
          && write.row.refreshExpires == row.refreshExpires
          && (if tx.kind.Refresh? then
                && row.refresh == tx.kind.token && write.row.revoked.None?
                && row.access < write.row.access && row.refresh < write.row.refresh
                && Owned(s.owners, write.row.access, id) && Owned(s.owners, write.row.refresh, id)
                && write.row.accessExpires <= row.refreshExpires
              else
                write.row.revoked.Some? && write.row == row.(revoked := write.row.revoked)))
  }

  ghost predicate ValidTx(s: State, i: TxId)
    requires i < |s.txs|
  {
    var tx := s.txs[i];
    && (tx.stage.Open? ==> forall id :: id in tx.writes ==> ValidWrite(s, tx, id))
    && (tx.kind.Refresh? && !tx.stage.Refused? ==>
          tx.writes.Keys == {tx.kind.session} && Owned(s.owners, tx.kind.token, tx.kind.session))
    && (tx.kind.SignIn? ==> tx.writes == map[])
    && (tx.stage.Checked? ==> tx.kind.ChangePassword?)
    && (tx.stage.Committed? ==> Landed(s, tx))
  }

  /** What a committed transaction did that nothing later undoes. */
  ghost predicate Landed(s: State, tx: Tx) {
    forall id :: id in tx.writes ==>
      && id < |s.rows|
      && (if tx.kind.Refresh? then
            s.rows[id].refresh > tx.kind.token && s.rows[id].accessExpires <= s.rows[id].refreshExpires
          else s.rows[id].revoked.Some?)
  }

  /** A refresh token is spent by one committed transaction. */
  ghost predicate SpentOnce(s: State) {
    forall i, j :: 0 <= i < j < |s.txs| && Exchanged(s, i) && Exchanged(s, j) ==>
      s.txs[i].kind.token != s.txs[j].kind.token
  }

  /** A refresh that went through. */
  predicate Exchanged(s: State, i: TxId) {
    i < |s.txs| && s.txs[i].stage.Committed? && s.txs[i].kind.Refresh?
  }

  ghost predicate Valid(s: State) {
    && (forall id :: 0 <= id < |s.rows| ==> ValidRow(s, id))
    && (forall i :: 0 <= i < |s.txs| ==> ValidTx(s, i))
    && SpentOnce(s)
  }

  /** Tokens drawn, time passed and rows added change nothing for the transactions there are. */
  lemma GrownKeepsTx(s: State, after: State, i: TxId)
    requires i < |s.txs| && ValidTx(s, i) && i < |after.txs| && after.txs[i] == s.txs[i]
    requires s.rows <= after.rows && s.owners <= after.owners
    ensures ValidTx(after, i)
  {
    var tx := s.txs[i];
    if tx.stage.Open? {
      forall id | id in tx.writes ensures ValidWrite(after, tx, id) {
        assert ValidWrite(s, tx, id);
        assert after.rows[id] == s.rows[id];
      }
    }
    if tx.stage.Committed? {
      forall id | id in tx.writes ensures id < |s.rows| && after.rows[id] == s.rows[id] {
        assert Landed(s, tx);
      }
    }
  }

  lemma BeginKeepsValid(s: State, tx: Tx, owners: seq<SessionId>)
    requires Valid(s) && s.owners <= owners && !tx.stage.Committed?
    requires ValidTx(Began(s, tx).(owners := owners), |s.txs|)
    ensures Valid(Began(s, tx).(owners := owners))
  {
    var after := Began(s, tx).(owners := owners);
    forall i | 0 <= i < |after.txs| ensures ValidTx(after, i) {
      if i < |s.txs| {
        GrownKeepsTx(s, after, i);
      }
    }
    hide ValidTx;
    forall id | 0 <= id < |after.rows| ensures ValidRow(after, id) {
      assert ValidRow(s, id);
    }
  }

  lemma RefreshBegins(s: State, id: SessionId, token: Token, lifetimes: Lifetimes)
    requires Valid(s)
    ensures Valid(After(s, ReadRefresh(id, token), lifetimes))
  {
    if Refreshable(s, id, token) {
      assert ValidRow(s, id);
      var n := |s.owners|;
      var tx := Tx(Refresh(id, token),
                   map[id := Write(s.rows[id].version, Renewed(s.rows[id], n, n + 1, s.now, lifetimes))], Open);
      var after := Began(s, tx).(owners := s.owners + [id, id]);
      assert after.txs[|s.txs|] == tx;
      assert ValidWrite(after, tx, id);
      BeginKeepsValid(s, tx, s.owners + [id, id]);
    } else {
      EmptyBegins(s, Refresh(id, token), Refused);
    }
  }

  lemma RevocationBegins(s: State, kind: Kind, chosen: set<SessionId>)
    requires Valid(s) && !kind.Refresh? && !kind.SignIn?
    ensures Valid(Began(s, Tx(kind, Revocations(s.rows, chosen, s.now), Open)))
  {
    var tx := Tx(kind, Revocations(s.rows, chosen, s.now), Open);
    var after := Began(s, tx);
    assert after.(owners := s.owners) == after;
    assert after.txs[|s.txs|] == tx;
    forall id | id in tx.writes ensures ValidWrite(after, tx, id) {
    }
    BeginKeepsValid(s, tx, s.owners);
  }

  lemma ListingKeepsValid(s: State, i: TxId)
    requires Valid(s) && i < |s.txs| && s.txs[i].stage.Checked? && s.txs[i].kind.ChangePassword?
    ensures Valid(Listed(s, i))
  {
    var after := Listed(s, i);
    forall id | id in after.txs[i].writes ensures ValidWrite(after, after.txs[i], id) {
    }
    forall j | 0 <= j < |after.txs| ensures ValidTx(after, j) {
      if j != i {
        GrownKeepsTx(s, after, j);
      }
    }
    hide ValidTx;
    forall id | 0 <= id < |after.rows| ensures ValidRow(after, id) {
      assert ValidRow(s, id);
    }
  }

  lemma EmptyBegins(s: State, kind: Kind, stage: Stage)
    requires Valid(s) && !stage.Committed? && (kind.Refresh? ==> stage.Refused?)
    requires stage.Checked? ==> kind.ChangePassword?
    ensures Valid(Began(s, Tx(kind, map[], stage)))
  {
    var tx := Tx(kind, map[], stage);
    assert Began(s, tx).(owners := s.owners) == Began(s, tx);
    BeginKeepsValid(s, tx, s.owners);
  }

  // ---------------------------------------------------------------- commits

  /** What a commit leaves of a row. */
  lemma WrittenRow(s: State, i: TxId, id: SessionId)
    requires Valid(s) && i < |s.txs| && s.txs[i].stage.Open? && Current(s.rows, s.txs[i].writes) && id < |s.rows|
    ensures var tx, rows := s.txs[i], Written(s.rows, s.txs[i].writes);
            && (id !in tx.writes ==> rows[id] == s.rows[id])
            && (id in tx.writes ==>
                  && ValidWrite(s, tx, id) && rows[id].version == s.rows[id].version + 1
                  && rows[id] == tx.writes[id].row.(version := rows[id].version))
            && rows[id].user == s.rows[id].user && rows[id].signIn == s.rows[id].signIn
            && rows[id].refreshExpires == s.rows[id].refreshExpires
            && rows[id].access >= s.rows[id].access && rows[id].refresh >= s.rows[id].refresh
            && (s.rows[id].revoked.Some? ==> rows[id] == s.rows[id])
  {
    assert ValidTx(s, i);
  }

  lemma CommitKeepsOpen(s: State, i: TxId, j: TxId, id: SessionId, lifetimes: Lifetimes)
    requires Valid(s) && i < |s.txs| && s.txs[i].stage.Open? && Current(s.rows, s.txs[i].writes)
    requires !s.txs[i].kind.SignIn?
    requires j < |s.txs| && s.txs[j].stage.Open? && id in s.txs[j].writes
    ensures ValidWrite(Flushed(s, i, lifetimes), s.txs[j], id)
  {
    assert ValidTx(s, j);
    assert ValidWrite(s, s.txs[j], id);
    WrittenRow(s, i, id);
  }

  lemma CommitKeepsLanded(s: State, i: TxId, j: TxId, lifetimes: Lifetimes)
    requires Valid(s) && i < |s.txs| && s.txs[i].stage.Open? && Current(s.rows, s.txs[i].writes)
    requires !s.txs[i].kind.SignIn?
    requires j < |s.txs| && s.txs[j].stage.Committed?
    ensures Landed(Flushed(s, i, lifetimes), s.txs[j])
  {
    assert ValidTx(s, j);
    var after := Flushed(s, i, lifetimes);
    forall id | id in s.txs[j].writes
      ensures id < |after.rows|
      ensures if s.txs[j].kind.Refresh? then
                && after.rows[id].refresh > s.txs[j].kind.token
                && after.rows[id].accessExpires <= after.rows[id].refreshExpires
              else after.rows[id].revoked.Some?
    {
      assert Landed(s, s.txs[j]);
      WrittenRow(s, i, id);
    }
  }

  lemma CommitLands(s: State, i: TxId, lifetimes: Lifetimes)
    requires Valid(s) && i < |s.txs| && s.txs[i].stage.Open? && Current(s.rows, s.txs[i].writes)
    requires !s.txs[i].kind.SignIn?
    ensures Landed(Flushed(s, i, lifetimes), s.txs[i])
  {
    var after := Flushed(s, i, lifetimes);
    forall id | id in s.txs[i].writes
      ensures id < |after.rows|
      ensures if s.txs[i].kind.Refresh? then
                && after.rows[id].refresh > s.txs[i].kind.token
                && after.rows[id].accessExpires <= after.rows[id].refreshExpires
              else after.rows[id].revoked.Some?
    {
      WrittenRow(s, i, id);
    }
  }

  /** A token one transaction has spent is no row's any more, so no open one can still commit it. */
  lemma CommitSpendsOnce(s: State, i: TxId, j: TxId)
    requires Valid(s) && i < |s.txs| && s.txs[i].stage.Open? && s.txs[i].kind.Refresh?
    requires Current(s.rows, s.txs[i].writes)
    requires j < |s.txs| && s.txs[j].stage.Committed? && s.txs[j].kind.Refresh?
    ensures s.txs[i].kind.token != s.txs[j].kind.token
  {
    assert ValidTx(s, i) && ValidTx(s, j);
    var id, other := s.txs[i].kind.session, s.txs[j].kind.session;
    assert id in s.txs[i].writes && other in s.txs[j].writes;
    assert ValidWrite(s, s.txs[i], id) && s.rows[id].refresh == s.txs[i].kind.token;
    assert Landed(s, s.txs[j]) && s.rows[other].refresh > s.txs[j].kind.token;
  }

  lemma CommitKeepsValid(s: State, i: TxId, lifetimes: Lifetimes)
    requires Valid(s) && i < |s.txs| && s.txs[i].stage.Open? && Current(s.rows, s.txs[i].writes)
    requires !s.txs[i].kind.SignIn?
    ensures Valid(Flushed(s, i, lifetimes))
  {
    var after := Flushed(s, i, lifetimes);
    forall id | 0 <= id < |after.rows| ensures ValidRow(after, id) {
      assert ValidRow(s, id);
      WrittenRow(s, i, id);
    }
    CommitLands(s, i, lifetimes);
    forall j | 0 <= j < |after.txs| ensures ValidTx(after, j) {
      assert ValidTx(s, j);
      if s.txs[j].stage.Committed? {
        CommitKeepsLanded(s, i, j, lifetimes);
      } else if s.txs[j].stage.Open? && j != i {
        forall id | id in s.txs[j].writes ensures ValidWrite(after, s.txs[j], id) {
          CommitKeepsOpen(s, i, j, id, lifetimes);
        }
      }
    }
    hide ValidTx, ValidRow, Current, Written;
    forall a, b | 0 <= a < b < |after.txs| && Exchanged(after, a) && Exchanged(after, b)
      ensures after.txs[a].kind.token != after.txs[b].kind.token
    {
      assert (a != i ==> Exchanged(s, a)) && (b != i ==> Exchanged(s, b));
      if a == i {
        CommitSpendsOnce(s, i, b);
      } else if b == i {
        CommitSpendsOnce(s, i, a);
      }
    }
  }

  lemma SignInKeepsValid(s: State, i: TxId, lifetimes: Lifetimes)
    requires Valid(s) && i < |s.txs| && s.txs[i].stage.Open? && s.txs[i].kind.SignIn?
    ensures Valid(SignedIn(s, i, s.txs[i].kind.password, s.txs[i].kind.rehash, lifetimes))
  {
    var after := SignedIn(s, i, s.txs[i].kind.password, s.txs[i].kind.rehash, lifetimes);
    assert ValidTx(s, i);
    forall j | 0 <= j < |after.txs| ensures ValidTx(after, j) {
      if j != i {
        GrownKeepsTx(s, after, j);
      }
    }
    hide ValidTx;
    forall id | 0 <= id < |after.rows| ensures ValidRow(after, id) {
      assert id < |s.rows| ==> ValidRow(s, id);
    }
    assert forall j: TxId :: Exchanged(after, j) ==> Exchanged(s, j) && after.txs[j] == s.txs[j];
  }

  lemma RefuseKeepsValid(s: State, i: TxId)
    requires Valid(s) && i < |s.txs| && (s.txs[i].stage.Open? || s.txs[i].stage.Checked?)
    ensures Valid(s.(txs := Finished(s, i, Refused)))
  {
    var after := s.(txs := Finished(s, i, Refused));
    assert ValidTx(s, i);
    forall j | 0 <= j < |after.txs| ensures ValidTx(after, j) {
      if j != i {
        GrownKeepsTx(s, after, j);
      }
    }
    hide ValidTx;
    forall id | 0 <= id < |after.rows| ensures ValidRow(after, id) {
      assert ValidRow(s, id);
    }
  }

  lemma ElsewhereKeepsValid(s: State, now: Instant, passwords: map<UserId, string>)
    requires Valid(s)
    ensures Valid(s.(now := now, passwords := passwords))
  {
    var after := s.(now := now, passwords := passwords);
    forall j | 0 <= j < |after.txs| ensures ValidTx(after, j) {
      GrownKeepsTx(s, after, j);
    }
    hide ValidTx;
    forall id | 0 <= id < |after.rows| ensures ValidRow(after, id) {
      assert ValidRow(s, id);
    }
  }

  lemma StepKeepsValid(s: State, step: Step, lifetimes: Lifetimes)
    requires Valid(s)
    ensures Valid(After(s, step, lifetimes))
  {
    hide Valid;
    match step
    case Register(password) =>
      assert After(s, step, lifetimes) == s.(now := s.now, passwords := After(s, step, lifetimes).passwords);
      ElsewhereKeepsValid(s, s.now, After(s, step, lifetimes).passwords);
    case ReadLogin(password, rehash) =>
      EmptyBegins(s, SignIn(password, rehash), if Checks(s, password) then Open else Refused);
    case ReadRefresh(id, token) => RefreshBegins(s, id, token, lifetimes);
    case ReadRevoke(user, id) =>
      RevocationBegins(s, Revoke, {id});
      EmptyBegins(s, Revoke, Refused);
    case ReadLogout(access, refresh) => RevocationBegins(s, Revoke, Presented(s.rows, access, refresh));
    case CheckPassword(password, current) =>
      EmptyBegins(s, ChangePassword(password), Refused);
      EmptyBegins(s, ChangePassword(password), Checked);
    case ListSessions(i) =>
      if i < |s.txs| && s.txs[i].stage.Checked? && s.txs[i].kind.ChangePassword? { ListingKeepsValid(s, i); }
    case Commit(i) =>
      if i < |s.txs| && s.txs[i].stage.Open? {
        if !Current(s.rows, s.txs[i].writes) {
          RefuseKeepsValid(s, i);
        } else if s.txs[i].kind.SignIn? {
          SignInKeepsValid(s, i, lifetimes);
        } else {
          CommitKeepsValid(s, i, lifetimes);
        }
      }
    case Abandon(i) =>
      if i < |s.txs| && (s.txs[i].stage.Open? || s.txs[i].stage.Checked?) { RefuseKeepsValid(s, i); }
    case Tick(seconds) =>
      assert After(s, step, lifetimes) == s.(now := s.now + seconds, passwords := s.passwords);
      ElsewhereKeepsValid(s, s.now + seconds, s.passwords);
  }

  lemma {:induction false} RunKeepsValid(s: State, steps: seq<Step>, lifetimes: Lifetimes)
    requires Valid(s)
    ensures Valid(Run(s, steps, lifetimes))
    decreases |steps|
  {
    if steps != [] {
      hide Valid, After;
      StepKeepsValid(s, steps[0], lifetimes);
      RunKeepsValid(After(s, steps[0], lifetimes), steps[1..], lifetimes);
    }
  }

  lemma Reachable(now: Instant, steps: seq<Step>, lifetimes: Lifetimes)
    ensures Valid(Run(NoSessions(now), steps, lifetimes))
    ensures NoSessions(now).now == now && NoSessions(now).rows == [] && NoSessions(now).passwords == map[]
  {
    RunKeepsValid(NoSessions(now), steps, lifetimes);
  }

  // ---------------------------------------------------------------- over whole runs

  /** With reads and commits interleaved freely, a refresh token is exchanged by one refresh. */
  lemma ExchangedOnce(now: Instant, steps: seq<Step>, lifetimes: Lifetimes, i: TxId, j: TxId)
    ensures var s := Run(NoSessions(now), steps, lifetimes);
            Exchanged(s, i) && Exchanged(s, j) && s.txs[i].kind.token == s.txs[j].kind.token ==> i == j
  {
    Reachable(now, steps, lifetimes);
    hide Run;
  }

  /** What stays of a session whatever happens: whose it is, its deadline, and everything once it
      is revoked. Its tokens only ever move on. */
  ghost predicate Endures(row: Row, after: Row) {
    && after.user == row.user && after.signIn == row.signIn && after.refreshExpires == row.refreshExpires
    && after.access >= row.access && after.refresh >= row.refresh
    && (row.revoked.Some? ==> after == row)
  }

  lemma StepEndures(s: State, step: Step, lifetimes: Lifetimes, id: SessionId)
    requires Valid(s) && id < |s.rows|
    ensures id < |After(s, step, lifetimes).rows| && Endures(s.rows[id], After(s, step, lifetimes).rows[id])
  {
    hide Valid, Current, Refreshable;
    if step.Commit? && step.tx < |s.txs| && s.txs[step.tx].stage.Open? && Current(s.rows, s.txs[step.tx].writes) {
      WrittenRow(s, step.tx, id);
    }
  }

  lemma {:induction false} RunEndures(s: State, steps: seq<Step>, lifetimes: Lifetimes, id: SessionId)
    requires Valid(s) && id < |s.rows|
    ensures id < |Run(s, steps, lifetimes).rows| && Endures(s.rows[id], Run(s, steps, lifetimes).rows[id])
    decreases |steps|
  {
    if steps != [] {
      StepKeepsValid(s, steps[0], lifetimes);
      StepEndures(s, steps[0], lifetimes, id);
      hide Valid, After;
      RunEndures(After(s, steps[0], lifetimes), steps[1..], lifetimes, id);
    }
  }

  /** No refresh, racing or not, undoes a revocation or moves a session's deadline. */
  lemma RevokedForGood(now: Instant, before: seq<Step>, later: seq<Step>, lifetimes: Lifetimes, id: SessionId)
    requires id < |Run(NoSessions(now), before, lifetimes).rows|
    ensures var s := Run(NoSessions(now), before, lifetimes);
            var end := Run(s, later, lifetimes);
            && id < |end.rows| && end.rows[id].refreshExpires == s.rows[id].refreshExpires
            && (s.rows[id].revoked.Some? ==> end.rows[id] == s.rows[id])
  {
    Reachable(now, before, lifetimes);
    RunEndures(Run(NoSessions(now), before, lifetimes), later, lifetimes, id);
  }

  lemma {:induction false} CommittedStays(s: State, steps: seq<Step>, lifetimes: Lifetimes, i: TxId)
    requires i < |s.txs| && s.txs[i].stage.Committed?
    ensures i < |Run(s, steps, lifetimes).txs| && Run(s, steps, lifetimes).txs[i] == s.txs[i]
    decreases |steps|
  {
    if steps != [] {
      CommittedStaysAStep(s, steps[0], lifetimes, i);
      hide After;
      CommittedStays(After(s, steps[0], lifetimes), steps[1..], lifetimes, i);
    }
  }

  lemma CommittedStaysAStep(s: State, step: Step, lifetimes: Lifetimes, i: TxId)
    requires i < |s.txs| && s.txs[i].stage.Committed?
    ensures i < |After(s, step, lifetimes).txs| && After(s, step, lifetimes).txs[i] == s.txs[i]
  {
    hide Current, Refreshable, Written;
  }

  /** The session an access token stands for, as `authenticate_session` looks it up. */
  predicate Authenticates(s: State, token: Token, id: SessionId) {
    && id < |s.rows| && s.rows[id].access == token && s.rows[id].revoked.None?
    && s.rows[id].accessExpires > s.now && s.rows[id].refreshExpires > s.now
  }

  /** As long as a session has a given access token it has the expiry it got with it. */
  ghost predicate SameAccess(row: Row, after: Row) {
    Endures(row, after) && (after.access == row.access ==> after.accessExpires == row.accessExpires)
  }

  lemma StepSameAccess(s: State, step: Step, lifetimes: Lifetimes, id: SessionId)
    requires Valid(s) && id < |s.rows|
    ensures id < |After(s, step, lifetimes).rows| && SameAccess(s.rows[id], After(s, step, lifetimes).rows[id])
  {
    StepEndures(s, step, lifetimes, id);
    hide Valid, Current, Refreshable;
    if step.Commit? && step.tx < |s.txs| && s.txs[step.tx].stage.Open? && Current(s.rows, s.txs[step.tx].writes) {
      WrittenRow(s, step.tx, id);
    }
  }

  lemma {:induction false} RunSameAccess(s: State, steps: seq<Step>, lifetimes: Lifetimes, id: SessionId)
    requires Valid(s) && id < |s.rows|
    ensures id < |Run(s, steps, lifetimes).rows| && SameAccess(s.rows[id], Run(s, steps, lifetimes).rows[id])
    decreases |steps|
  {
    if steps != [] {
      StepKeepsValid(s, steps[0], lifetimes);
      StepSameAccess(s, steps[0], lifetimes, id);
      hide Valid, After;
      RunSameAccess(After(s, steps[0], lifetimes), steps[1..], lifetimes, id);
    }
  }

  /** A sign-in's access token stands for its session until a refresh replaces it, the session is
      revoked, or one of the two lifetimes it was given is over: exactly so long. */
  lemma SignedInExactly(now: Instant, before: seq<Step>, i: TxId, later: seq<Step>, lifetimes: Lifetimes)
    requires var s := Run(NoSessions(now), before, lifetimes);
             i < |s.txs| && s.txs[i].stage.Open? && s.txs[i].kind.SignIn?
    ensures var s := Run(NoSessions(now), before, lifetimes);
            var id, token := |s.rows|, |s.owners|;
            var end := Run(After(s, Commit(i), lifetimes), later, lifetimes);
            && id < |end.rows| && end.rows[id].user == s.txs[i].kind.password.user && end.rows[id].signIn == i
            && (Authenticates(end, token, id) <==>
                  && end.rows[id].access == token && end.rows[id].revoked.None?
                  && end.now < s.now + lifetimes.access && end.now < s.now + lifetimes.session)
  {
    Reachable(now, before, lifetimes);
    var s := Run(NoSessions(now), before, lifetimes);
    assert ValidTx(s, i);
    var next := After(s, Commit(i), lifetimes);
    StepKeepsValid(s, Commit(i), lifetimes);
    RunSameAccess(next, later, lifetimes, |s.rows|);
    hide Run, Valid;
  }

  /** At the `k`th step the transaction's password was given, and what had to be right was: the
      password itself to sign in, and to change it the current one, where one was asked for. */
  ghost predicate GivenAt(s: State, steps: seq<Step>, lifetimes: Lifetimes, kind: Kind, k: nat)
    requires k < |steps|
  {
    var stored := Run(s, steps[..k], lifetimes).passwords;
    match kind
    case SignIn(password, _) =>
      && steps[k].ReadLogin? && steps[k].password == password
      && password.user in stored && stored[password.user] == password.secret
    case ChangePassword(password) =>
      && steps[k].CheckPassword? && steps[k].password == password
      && password.user in stored && (steps[k].current.Some? ==> stored[password.user] == steps[k].current.value)
    case _ => false
  }

  ghost predicate WasGiven(s: State, steps: seq<Step>, lifetimes: Lifetimes, kind: Kind) {
    exists k :: 0 <= k < |steps| && GivenAt(s, steps, lifetimes, kind, k)
  }

  /** Only the right password signs in: whatever happened, whoever has a session was let in with what
      was the password when it was given. */
  lemma SessionsWereSignedInTo(now: Instant, steps: seq<Step>, lifetimes: Lifetimes, id: SessionId)
    requires id < |Run(NoSessions(now), steps, lifetimes).rows|
    ensures var end := Run(NoSessions(now), steps, lifetimes);
            var row := end.rows[id];
            && row.signIn < |end.txs| && end.txs[row.signIn].kind.SignIn?
            && end.txs[row.signIn].kind.password.user == row.user
            && WasGiven(NoSessions(now), steps, lifetimes, end.txs[row.signIn].kind)
  {
    Reachable(now, steps, lifetimes);
    var end := Run(NoSessions(now), steps, lifetimes);
    assert ValidRow(end, id);
    hide Run, WasGiven, Valid;
    PasswordsWereGiven(NoSessions(now), steps, lifetimes, end.rows[id].signIn);
  }

  /** And none is changed without the current one, where one is asked for. */
  lemma ChangesWereVerified(now: Instant, steps: seq<Step>, lifetimes: Lifetimes, i: TxId)
    requires var end := Run(NoSessions(now), steps, lifetimes);
             i < |end.txs| && end.txs[i].kind.ChangePassword? && end.txs[i].stage.Committed?
    ensures WasGiven(NoSessions(now), steps, lifetimes, Run(NoSessions(now), steps, lifetimes).txs[i].kind)
  {
    PasswordsWereGiven(NoSessions(now), steps, lifetimes, i);
  }

  lemma {:induction false} PasswordsWereGiven(s: State, steps: seq<Step>, lifetimes: Lifetimes, i: TxId)
    requires var end := Run(s, steps, lifetimes);
             && |s.txs| <= i < |end.txs| && !end.txs[i].stage.Refused?
             && (end.txs[i].kind.SignIn? || end.txs[i].kind.ChangePassword?)
    ensures WasGiven(s, steps, lifetimes, Run(s, steps, lifetimes).txs[i].kind)
    decreases |steps|
  {
    if steps != [] {
      var next := After(s, steps[0], lifetimes);
      var kind := Run(s, steps, lifetimes).txs[i].kind;
      assert Run(s, steps, lifetimes) == Run(next, steps[1..], lifetimes);
      if i < |next.txs| {
        Begun(s, steps[0], lifetimes, i);
        KindStays(next, steps[1..], lifetimes, i);
        assert steps[..0] == [];
        assert GivenAt(s, steps, lifetimes, kind, 0);
      } else {
        PasswordsWereGiven(next, steps[1..], lifetimes, i);
        var k :| 0 <= k < |steps[1..]| && GivenAt(next, steps[1..], lifetimes, kind, k);
        assert steps[..k + 1][0] == steps[0] && steps[..k + 1][1..] == steps[1..][..k];
        assert GivenAt(s, steps, lifetimes, kind, k + 1);
      }
    }
  }

  /** The one transaction a step can begin. */
  lemma Begun(s: State, step: Step, lifetimes: Lifetimes, i: TxId)
    requires |s.txs| <= i < |After(s, step, lifetimes).txs|
    ensures var tx := After(s, step, lifetimes).txs[i];
            && (tx.kind.SignIn? <==> step.ReadLogin?) && (tx.kind.ChangePassword? <==> step.CheckPassword?)
            && (step.ReadLogin? ==>
                  && tx.kind == SignIn(step.password, step.rehash)
                  && (tx.stage.Refused? <==>
                        !(step.password.user in s.passwords
                          && s.passwords[step.password.user] == step.password.secret)))
            && (step.CheckPassword? ==>
                  && tx.kind == ChangePassword(step.password)
                  && (tx.stage.Refused? <==>
                        !(step.password.user in s.passwords
                          && (step.current.Some? ==> s.passwords[step.password.user] == step.current.value))))
  {
    hide Current, Refreshable, Written, Revocations;
  }

  lemma {:induction false} KindStays(s: State, steps: seq<Step>, lifetimes: Lifetimes, i: TxId)
    requires i < |s.txs|
    ensures i < |Run(s, steps, lifetimes).txs| && Run(s, steps, lifetimes).txs[i].kind == s.txs[i].kind
    ensures s.txs[i].stage.Refused? ==> Run(s, steps, lifetimes).txs[i].stage.Refused?
    decreases |steps|
  {
    if steps != [] {
      KindStaysAStep(s, steps[0], lifetimes, i);
      hide After;
      KindStays(After(s, steps[0], lifetimes), steps[1..], lifetimes, i);
    }
  }

  lemma KindStaysAStep(s: State, step: Step, lifetimes: Lifetimes, i: TxId)
    requires i < |s.txs|
    ensures var after := After(s, step, lifetimes);
            && i < |after.txs| && after.txs[i].kind == s.txs[i].kind
            && (s.txs[i].stage.Refused? ==> after.txs[i].stage.Refused?)
  {
    hide Current, Refreshable, Written, Revocations;
  }

  /** Once a refresh went through, its session's access ends within the deadline, and neither token
      it replaced is any session's again. */
  lemma ExchangedTokensAreDead(now: Instant, before: seq<Step>, i: TxId, later: seq<Step>, lifetimes: Lifetimes,
                               id: SessionId)
    requires var s := Run(NoSessions(now), before, lifetimes);
             i < |s.txs| && s.txs[i].stage.Open? && s.txs[i].kind.Refresh? && Current(s.rows, s.txs[i].writes)
    ensures var s := Run(NoSessions(now), before, lifetimes);
            var end := Run(After(s, Commit(i), lifetimes), later, lifetimes);
            var session := s.txs[i].kind.session;
            && session < |s.rows| && session < |end.rows|
            && end.rows[session].accessExpires <= end.rows[session].refreshExpires
            && !Authenticates(end, s.rows[session].access, id)
            && !Refreshable(end, id, s.txs[i].kind.token)
  {
    Reachable(now, before, lifetimes);
    var s := Run(NoSessions(now), before, lifetimes);
    assert ValidTx(s, i);
    var session := s.txs[i].kind.session;
    assert ValidWrite(s, s.txs[i], session);
    var next := After(s, Commit(i), lifetimes);
    StepKeepsValid(s, Commit(i), lifetimes);
    WrittenRow(s, i, session);
    RunEndures(next, later, lifetimes, session);
    RunKeepsValid(next, later, lifetimes);
    CommittedStays(next, later, lifetimes, i);
    var end := Run(next, later, lifetimes);
    DrawnForOne(s, next, session);
    OwnersGrow(next, later, lifetimes);
    hide Run, After;
    assert ValidTx(end, i);
    assert Landed(end, s.txs[i]) && session in s.txs[i].writes;
    if id < |end.rows| {
      assert ValidRow(end, id);
    }
  }

  lemma DrawnForOne(s: State, after: State, id: SessionId)
    requires Valid(s) && id < |s.rows| && s.owners <= after.owners
    ensures Owned(after.owners, s.rows[id].access, id) && Owned(after.owners, s.rows[id].refresh, id)
  {
    assert ValidRow(s, id);
  }

  lemma {:induction false} OwnersGrow(s: State, steps: seq<Step>, lifetimes: Lifetimes)
    ensures s.owners <= Run(s, steps, lifetimes).owners
    decreases |steps|
  {
    if steps != [] {
      OwnersGrowAStep(s, steps[0], lifetimes);
      hide After;
      OwnersGrow(After(s, steps[0], lifetimes), steps[1..], lifetimes);
    }
  }

  lemma OwnersGrowAStep(s: State, step: Step, lifetimes: Lifetimes)
    ensures s.owners <= After(s, step, lifetimes).owners
  {
    hide Current, Refreshable, Written;
  }

  /** A refresh gets past its look exactly with the refresh token of a session that is neither revoked nor
      past its deadline. */
  lemma RefreshStartsExactly(s: State, id: SessionId, token: Token, lifetimes: Lifetimes)
    ensures var after := After(s, ReadRefresh(id, token), lifetimes);
            && |after.txs| == |s.txs| + 1 && after.rows == s.rows && after.passwords == s.passwords
            && (after.txs[|s.txs|].stage == Open <==>
                  && id < |s.rows| && s.rows[id].refresh == token && s.rows[id].revoked == None
                  && s.now < s.rows[id].refreshExpires)
            && (after.txs[|s.txs|].stage != Open ==> after == s.(txs := after.txs))
  {
  }

  /** A refresh that nothing overtakes gives its session a new access token, good for its lifetime
      but not past the deadline, and a new refresh token in place of the one it took. */
  lemma RefreshedStands(now: Instant, before: seq<Step>, id: SessionId, token: Token, lifetimes: Lifetimes)
    requires Refreshable(Run(NoSessions(now), before, lifetimes), id, token)
    ensures var s := Run(NoSessions(now), before, lifetimes);
            var after := After(After(s, ReadRefresh(id, token), lifetimes), Commit(|s.txs|), lifetimes);
            && id < |after.rows| && Exchanged(after, |s.txs|)
            && after.rows[id].accessExpires
               == (if s.now + lifetimes.access > s.rows[id].refreshExpires then s.rows[id].refreshExpires
                   else s.now + lifetimes.access)
            && Refreshable(after, id, |s.owners| + 1) && !Refreshable(after, id, token)
            && (lifetimes.access > 0 ==> Authenticates(after, |s.owners|, id))
            && forall other :: 0 <= other < |s.rows| && other != id ==> after.rows[other] == s.rows[other]
  {
    Reachable(now, before, lifetimes);
    var s := Run(NoSessions(now), before, lifetimes);
    hide Run;
    assert ValidRow(s, id);
    var n := |s.owners|;
    var tx := Tx(Refresh(id, token),
                 map[id := Write(s.rows[id].version, Renewed(s.rows[id], n, n + 1, s.now, lifetimes))], Open);
    var read := After(s, ReadRefresh(id, token), lifetimes);
    assert read.txs[|s.txs|] == tx && read.rows == s.rows;
    assert Current(read.rows, tx.writes);
  }

  /** A sign-out that nothing overtakes ends exactly the sessions either token names. */
  lemma SignedOutExactly(s: State, access: Option<Token>, refresh: Option<Token>, lifetimes: Lifetimes, id: SessionId)
    requires id < |s.rows|
    ensures var after := After(After(s, ReadLogout(access, refresh), lifetimes), Commit(|s.txs|), lifetimes);
            var named := access == Some(s.rows[id].access) || refresh == Some(s.rows[id].refresh);
            && id < |after.rows|
            && (after.rows[id].revoked.Some? <==> s.rows[id].revoked.Some? || named)
            && (!named ==> after.rows[id] == s.rows[id])
  {
    var tx := Tx(Revoke, Revocations(s.rows, Presented(s.rows, access, refresh), s.now), Open);
    var read := After(s, ReadLogout(access, refresh), lifetimes);
    assert read.txs[|s.txs|] == tx && read.rows == s.rows;
    assert Current(read.rows, tx.writes);
  }

  /** A revocation that nothing overtakes ends exactly the session named, if it is the user's own. */
  lemma RevokedExactly(s: State, user: UserId, named: SessionId, lifetimes: Lifetimes, id: SessionId)
    requires id < |s.rows|
    ensures var after := After(After(s, ReadRevoke(user, named), lifetimes), Commit(|s.txs|), lifetimes);
            && id < |after.rows|
            && (after.rows[id].revoked.Some? <==>
                  s.rows[id].revoked.Some? || (id == named && s.rows[id].user == user))
            && (s.rows[id].revoked.Some? || id != named || s.rows[id].user != user ==> after.rows[id] == s.rows[id])
            && after.passwords == s.passwords
  {
    var read := After(s, ReadRevoke(user, named), lifetimes);
    assert read.rows == s.rows && Current(read.rows, read.txs[|s.txs|].writes);
  }

  // ---------------------------------------------------------------- password changes

  /** A change that nothing overtakes ends exactly the sessions of its user, nobody else's, and puts the new
      password in place of the old. */
  lemma PasswordChangedExactly(s: State, i: TxId, lifetimes: Lifetimes, id: SessionId)
    requires i < |s.txs| && s.txs[i].stage.Checked? && s.txs[i].kind.ChangePassword? && id < |s.rows|
    ensures var password := s.txs[i].kind.password;
            var after := After(After(s, ListSessions(i), lifetimes), Commit(i), lifetimes);
            && id < |after.rows|
            && (after.rows[id].revoked.Some? <==> s.rows[id].revoked.Some? || s.rows[id].user == password.user)
            && (s.rows[id].user != password.user ==> after.rows[id] == s.rows[id])
            && after.passwords == s.passwords[password.user := password.secret]
  {
    var listed := After(s, ListSessions(i), lifetimes);
    assert listed.rows == s.rows && Current(listed.rows, listed.txs[i].writes);
  }

  /** What a commit that comes too late leaves, and an abandoned transaction: nothing, and it is over. */
  lemma StaleChangesNothing(s: State, i: TxId, lifetimes: Lifetimes)
    requires i < |s.txs|
    ensures var dropped := s.(txs := s.txs[i := s.txs[i].(stage := Refused)]);
            && (s.txs[i].stage == Open
                && (exists id :: id in s.txs[i].writes
                                 && (id >= |s.rows| || s.rows[id].version != s.txs[i].writes[id].version)) ==>
                  After(s, Commit(i), lifetimes) == dropped)
            && (s.txs[i].stage != Open ==> After(s, Commit(i), lifetimes) == s)
            && After(s, Abandon(i), lifetimes)
               == if s.txs[i].stage == Open || s.txs[i].stage == Checked then dropped else s
  {
  }

  /** A sign-in opens a session of its user with two new tokens, its lifetimes beginning now. */
  lemma SignInOpens(now: Instant, before: seq<Step>, i: TxId, lifetimes: Lifetimes)
    requires var s := Run(NoSessions(now), before, lifetimes);
             i < |s.txs| && s.txs[i].stage.Open? && s.txs[i].kind.SignIn?
    ensures var s := Run(NoSessions(now), before, lifetimes);
            var after := After(s, Commit(i), lifetimes);
            && |after.rows| == |s.rows| + 1 && after.rows[..|s.rows|] == s.rows
            && var row := after.rows[|s.rows|];
               && row.user == s.txs[i].kind.password.user && row.revoked == None && row.access != row.refresh
               && row.accessExpires == s.now + lifetimes.access && row.refreshExpires == s.now + lifetimes.session
               && (forall id :: 0 <= id < |s.rows| ==>
                     && s.rows[id].access != row.access && s.rows[id].refresh != row.access
                     && s.rows[id].access != row.refresh && s.rows[id].refresh != row.refresh)
  {
    Reachable(now, before, lifetimes);
    var s := Run(NoSessions(now), before, lifetimes);
    hide Run;
    assert ValidTx(s, i);
    forall id | 0 <= id < |s.rows| ensures s.rows[id].access < |s.owners| && s.rows[id].refresh < |s.owners| {
      assert ValidRow(s, id);
    }
  }

  /** Registering gives a user a password, once. */
  lemma RegistersOnce(s: State, password: Password, lifetimes: Lifetimes)
    ensures var after := After(s, Register(password), lifetimes);
            after == if password.user in s.passwords then s
                     else s.(passwords := s.passwords[password.user := password.secret])
  {
  }

  /** A password change that goes through has ended, for good, every session its user had when it
      listed them; one that does not has changed neither the password nor any session. */
  lemma PasswordChangeEndsSessions(s: State, i: TxId, meanwhile: seq<Step>, later: seq<Step>, lifetimes: Lifetimes,
                                   id: SessionId)
    requires Valid(s) && i < |s.txs| && s.txs[i].stage.Checked? && s.txs[i].kind.ChangePassword?
    requires id < |s.rows| && s.rows[id].user == s.txs[i].kind.password.user
    ensures var due := Run(After(s, ListSessions(i), lifetimes), meanwhile, lifetimes);
            var done := After(due, Commit(i), lifetimes);
            && i < |due.txs|
            && (due.txs[i].stage.Open? && done.txs[i].stage.Committed? ==>
                  && Checks(done, s.txs[i].kind.password)
                  && id < |Run(done, later, lifetimes).rows| && Run(done, later, lifetimes).rows[id].revoked.Some?)
            && (due.txs[i].stage.Open? && !done.txs[i].stage.Committed? ==>
                  done.passwords == due.passwords && done.rows == due.rows)
  {
    hide Current, Written, Revocations;
    var started := After(s, ListSessions(i), lifetimes);
    StepKeepsValid(s, ListSessions(i), lifetimes);
    RunKeepsValid(started, meanwhile, lifetimes);
    RunEndures(started, meanwhile, lifetimes, id);
    assert started == Listed(s, i) && started.rows == s.rows;
    ListsTheLive(s, i, id);
    KeptTx(started, meanwhile, lifetimes, i);
    var due := Run(started, meanwhile, lifetimes);
    var done := After(due, Commit(i), lifetimes);
    StepKeepsValid(due, Commit(i), lifetimes);
    hide Run, Valid, Listed;
    if due.txs[i].stage.Open? {
      CommittedChangeEnds(due, i, id, lifetimes);
      hide After;
      if done.txs[i].stage.Committed? {
        RunEndures(done, later, lifetimes, id);
      }
    }
  }

  lemma ListsTheLive(s: State, i: TxId, id: SessionId)
    requires i < |s.txs| && s.txs[i].kind.ChangePassword?
    requires id < |s.rows| && s.rows[id].user == s.txs[i].kind.password.user
    ensures id in Listed(s, i).txs[i].writes || s.rows[id].revoked.Some?
  {
  }

  lemma CommittedChangeEnds(s: State, i: TxId, id: SessionId, lifetimes: Lifetimes)
    requires Valid(s) && i < |s.txs| && s.txs[i].stage.Open? && s.txs[i].kind.ChangePassword?
    requires id < |s.rows| && (id in s.txs[i].writes || s.rows[id].revoked.Some?)
    ensures var done := After(s, Commit(i), lifetimes);
            && (done.txs[i].stage.Committed? ==>
                  Checks(done, s.txs[i].kind.password) && id < |done.rows| && done.rows[id].revoked.Some?)
            && (!done.txs[i].stage.Committed? ==> done.passwords == s.passwords && done.rows == s.rows)
  {
    if Current(s.rows, s.txs[i].writes) {
      WrittenRow(s, i, id);
    }
    hide Current, Written, Valid;
  }

  /** The step lets in a sign-in of `user` that read the password before the `seen`th transaction began. */
  ghost predicate LetsIn(s: State, step: Step, user: UserId, seen: nat) {
    && step.Commit? && step.tx < |s.txs| && step.tx < seen && s.txs[step.tx].stage.Open?
    && s.txs[step.tx].kind.SignIn? && s.txs[step.tx].kind.password.user == user
  }

  ghost predicate EverLetsIn(s: State, steps: seq<Step>, lifetimes: Lifetimes, user: UserId, seen: nat)
    decreases |steps|
  {
    steps != [] &&
    (LetsIn(s, steps[0], user, seen) || EverLetsIn(After(s, steps[0], lifetimes), steps[1..], lifetimes, user, seen))
  }

  /** From the `n`th session on, one of `user` was let in by such a sign-in. */
  ghost predicate HasLate(s: State, n: nat, user: UserId, seen: nat) {
    exists id :: n <= id < |s.rows| && s.rows[id].user == user && s.rows[id].signIn < seen
  }

  lemma LateStep(s: State, step: Step, lifetimes: Lifetimes, n: nat, user: UserId, seen: nat)
    requires Valid(s) && n <= |s.rows|
    ensures n <= |After(s, step, lifetimes).rows|
    ensures HasLate(After(s, step, lifetimes), n, user, seen)
            <==> HasLate(s, n, user, seen) || LetsIn(s, step, user, seen)
  {
    var after := After(s, step, lifetimes);
    forall id | 0 <= id < |s.rows|
      ensures id < |after.rows| && after.rows[id].user == s.rows[id].user && after.rows[id].signIn == s.rows[id].signIn
    {
      StepEndures(s, step, lifetimes, id);
    }
    if step.Commit? && step.tx < |s.txs| && s.txs[step.tx].stage.Open? && s.txs[step.tx].kind.SignIn? {
      assert ValidTx(s, step.tx);
      assert |after.rows| == |s.rows| + 1 && after.rows[|s.rows|].signIn == step.tx;
    } else {
      assert |after.rows| == |s.rows|;
    }
    hide After, Valid;
  }

  lemma {:induction false} LateRun(s: State, steps: seq<Step>, lifetimes: Lifetimes, n: nat, user: UserId, seen: nat)
    requires Valid(s) && n <= |s.rows|
    ensures n <= |Run(s, steps, lifetimes).rows|
    ensures HasLate(Run(s, steps, lifetimes), n, user, seen)
            <==> HasLate(s, n, user, seen) || EverLetsIn(s, steps, lifetimes, user, seen)
    decreases |steps|
  {
    if steps != [] {
      LateStep(s, steps[0], lifetimes, n, user, seen);
      StepKeepsValid(s, steps[0], lifetimes);
      hide Valid, After, LetsIn, HasLate;
      LateRun(After(s, steps[0], lifetimes), steps[1..], lifetimes, n, user, seen);
    }
  }

  /** A password change ends every session opened with a password read before it was committed,
      exactly if no such sign-in commits after the change has listed the sessions there are: one
      that does opens a session the change never hears of. */
  lemma OldPasswordIsOutExactly(now: Instant, before: seq<Step>, i: TxId, meanwhile: seq<Step>, later: seq<Step>,
                                lifetimes: Lifetimes)
    requires var s := Run(NoSessions(now), before, lifetimes);
             var due := Run(After(s, ListSessions(i), lifetimes), meanwhile, lifetimes);
             && i < |s.txs| && s.txs[i].stage.Checked? && i < |due.txs| && due.txs[i].stage.Open?
             && After(due, Commit(i), lifetimes).txs[i].stage.Committed?
    ensures var s := Run(NoSessions(now), before, lifetimes);
            var started := After(s, ListSessions(i), lifetimes);
            var due := Run(started, meanwhile, lifetimes);
            var done := After(due, Commit(i), lifetimes);
            var end, seen := Run(done, later, lifetimes), |due.txs|;
            && s.txs[i].kind.ChangePassword?
            && var user := s.txs[i].kind.password.user;
            && (forall id :: 0 <= id < |s.rows| && s.rows[id].user == user ==>
                  id < |end.rows| && end.rows[id].revoked.Some?)
            && ((forall id :: 0 <= id < |end.rows| && end.rows[id].user == user && end.rows[id].signIn < seen ==>
                   id < |s.rows|)
                <==> !EverLetsIn(started, meanwhile, lifetimes, user, seen)
                     && !EverLetsIn(done, later, lifetimes, user, seen))
  {
    Reachable(now, before, lifetimes);
    var s := Run(NoSessions(now), before, lifetimes);
    assert ValidTx(s, i);
    var started := After(s, ListSessions(i), lifetimes);
    var due := Run(started, meanwhile, lifetimes);
    var user, seen := s.txs[i].kind.password.user, |due.txs|;
    var done := After(due, Commit(i), lifetimes);
    StepKeepsValid(s, ListSessions(i), lifetimes);
    RunKeepsValid(started, meanwhile, lifetimes);
    StepKeepsValid(due, Commit(i), lifetimes);
    KeptTx(started, meanwhile, lifetimes, i);
    assert started.rows == s.rows && started.txs[i].kind == s.txs[i].kind;
    LateRun(started, meanwhile, lifetimes, |s.rows|, user, seen);
    LateStep(due, Commit(i), lifetimes, |s.rows|, user, seen);
    LateRun(done, later, lifetimes, |s.rows|, user, seen);
    forall id | 0 <= id < |s.rows| && s.rows[id].user == user
      ensures id < |Run(done, later, lifetimes).rows| && Run(done, later, lifetimes).rows[id].revoked.Some?
    {
      PasswordChangeEndsSessions(s, i, meanwhile, later, lifetimes, id);
    }
    hide Run, After, Valid, EverLetsIn;
    assert !HasLate(started, |s.rows|, user, seen);
  }

  /** It happens from any state in which the old password is the user's: read, changed, committed.
      The session stands though its password is gone; and where the sign-in writes the hash anew,
      it is the new password that is gone. */
  lemma OldSignInOutlivesTheChange(now: Instant, before: seq<Step>, user: UserId, was: string, becomes: string,
                                   rehash: bool, lifetimes: Lifetimes)
    requires Checks(Run(NoSessions(now), before, lifetimes), Password(user, was))
    requires lifetimes.access > 0 && lifetimes.session > 0
    ensures var s := Run(NoSessions(now), before, lifetimes);
            var looked := After(s, ReadLogin(Password(user, was), rehash), lifetimes);
            var checked := After(looked, CheckPassword(Password(user, becomes), Some(was)), lifetimes);
            var listed := After(checked, ListSessions(|s.txs| + 1), lifetimes);
            var changed := After(listed, Commit(|s.txs| + 1), lifetimes);
            var end := After(changed, Commit(|s.txs|), lifetimes);
            && Checks(changed, Password(user, becomes))
            && Authenticates(end, |s.owners|, |s.rows|) && end.rows[|s.rows|].user == user
            && Checks(end, Password(user, if rehash then was else becomes))
  {
    Reachable(now, before, lifetimes);
    var s := Run(NoSessions(now), before, lifetimes);
    hide Run, Valid;
    var looked := After(s, ReadLogin(Password(user, was), rehash), lifetimes);
    var checked := After(looked, CheckPassword(Password(user, becomes), Some(was)), lifetimes);
    var listed := After(checked, ListSessions(|s.txs| + 1), lifetimes);
    assert looked.rows == s.rows && looked.txs[|s.txs|] == Tx(SignIn(Password(user, was), rehash), map[], Open);
    var change := Tx(ChangePassword(Password(user, becomes)), Revocations(s.rows, OfUser(s.rows, user), s.now), Open);
    assert checked.txs[|s.txs| + 1] == Tx(ChangePassword(Password(user, becomes)), map[], Checked);
    assert listed.rows == s.rows && listed.txs[|s.txs| + 1] == change;
    assert Current(listed.rows, change.writes);
    var changed := After(listed, Commit(|s.txs| + 1), lifetimes);
    assert changed.txs[|s.txs|] == looked.txs[|s.txs|] && |changed.rows| == |s.rows| && changed.owners == s.owners;
  }

  /** A user's password moves exactly when a change of it is committed, or a sign-in that writes its
      hash anew, with another secret than the stored one. */
  lemma PasswordMovesExactly(s: State, step: Step, lifetimes: Lifetimes, user: UserId)
    requires Valid(s) && user in s.passwords
    ensures var after := After(s, step, lifetimes);
            && user in after.passwords
            && (after.passwords[user] != s.passwords[user] <==>
                  && step.Commit? && step.tx < |s.txs| && s.txs[step.tx].stage.Open?
                  && Current(s.rows, s.txs[step.tx].writes)
                  && var kind := s.txs[step.tx].kind;
                     && (kind.ChangePassword? || (kind.SignIn? && kind.rehash))
                     && kind.password.user == user && kind.password.secret != s.passwords[user])
  {
    hide Valid, Current, Written, Refreshable;
  }

  /** A transaction keeps what it read and means to write. */
  lemma {:induction false} KeptTx(s: State, steps: seq<Step>, lifetimes: Lifetimes, i: TxId)
    requires i < |s.txs| && !s.txs[i].stage.Checked?
    ensures i < |Run(s, steps, lifetimes).txs|
    ensures Run(s, steps, lifetimes).txs[i].kind == s.txs[i].kind
    ensures Run(s, steps, lifetimes).txs[i].writes == s.txs[i].writes
    decreases |steps|
  {
    if steps != [] {
      KeptTxAStep(s, steps[0], lifetimes, i);
      hide After;
      KeptTx(After(s, steps[0], lifetimes), steps[1..], lifetimes, i);
    }
  }

  lemma KeptTxAStep(s: State, step: Step, lifetimes: Lifetimes, i: TxId)
    requires i < |s.txs| && !s.txs[i].stage.Checked?
    ensures var after := After(s, step, lifetimes);
            && i < |after.txs| && after.txs[i].kind == s.txs[i].kind && after.txs[i].writes == s.txs[i].writes
            && !after.txs[i].stage.Checked?
  {
    hide Current, Refreshable, Written, Revocations;
  }

  lemma OneMoreWritten(rows: seq<Row>, writes: map<SessionId, Write>, todo: set<SessionId>, id: SessionId)
    requires id in todo && id in writes && id < |rows| && rows[id].version == writes[id].version
    requires Current(rows, writes - todo)
    ensures Current(rows, writes - (todo - {id}))
    ensures Written(rows, writes - (todo - {id}))
            == Written(rows, writes - todo)[id := writes[id].row.(version := rows[id].version + 1)]
  {
    var fewer, more := writes - todo, writes - (todo - {id});
    forall k | k in more ensures k < |rows| && rows[k].version == more[k].version {
      assert k != id ==> k in fewer;
    }
  }

  // ---------------------------------------------------------------- the manager

  class AuthManager {
    var rows: seq<Row>
    var passwords: map<UserId, string>
    var txs: seq<Tx>
    var now: Instant
    ghost var owners: seq<SessionId>
    const lifetimes: Lifetimes

    constructor (now: Instant, lifetimes: Lifetimes)
      ensures View() == NoSessions(now) && this.lifetimes == lifetimes
    {
      rows, passwords, txs, owners := [], map[], [], [];
      this.now, this.lifetimes := now, lifetimes;
    }

    ghost function View(): State
      reads this
    {
      State(rows, passwords, txs, now, owners)
    }

    /** Reads the session and stages its new tokens; the two are fresh draws. */
    method RefreshSession(session: SessionId, token: Token, access: Token, refresh: Token)
      requires access == |owners| && refresh == |owners| + 1
      modifies this
      ensures View() == After(old(View()), ReadRefresh(session, token), lifetimes)
    {
      if session >= |rows| || rows[session].refresh != token || rows[session].revoked.Some?
         || rows[session].refreshExpires <= now {
        txs := txs + [Tx(Refresh(session, token), map[], Refused)];
        return;
      }
      var current := rows[session];
      var deadline := current.refreshExpires;
      var expires := if now + lifetimes.access < deadline then now + lifetimes.access else deadline;
      current := current.(access := access, refresh := refresh, accessExpires := expires);
      txs := txs + [Tx(Refresh(session, token), map[session := Write(current.version, current)], Open)];
      owners := owners + [session, session];
    }

    /** Marks every live session of a list revoked. */
    method Revoking(chosen: set<SessionId>) returns (writes: map<SessionId, Write>)
      ensures writes == Revocations(rows, chosen, now)
    {
      writes := map[];
      for id := 0 to |rows|
        invariant writes == map k | k in chosen && k < id && rows[k].revoked.None? ::
                              Write(rows[k].version, rows[k].(revoked := Some(now)))
      {
        if id in chosen && rows[id].revoked.None? {
          writes := writes[id := Write(rows[id].version, rows[id].(revoked := Some(now)))];
        }
      }
    }

    method Logout(access: Option<Token>, refresh: Option<Token>)
      modifies `txs
      ensures View() == After(old(View()), ReadLogout(access, refresh), lifetimes)
    {
      var writes := Revoking(Presented(rows, access, refresh));
      txs := txs + [Tx(Revoke, writes, Open)];
    }

    /** The read half of a sign-in: nothing tells it from another until it commits. */
    method Login(password: Password, rehash: bool) returns (verified: bool)
      modifies `txs
      ensures verified <==> Checks(old(View()), password)
      ensures View() == After(old(View()), ReadLogin(password, rehash), lifetimes)
    {
      verified := password.user in passwords && passwords[password.user] == password.secret;
      txs := txs + [Tx(SignIn(password, rehash), map[], if verified then Open else Refused)];
    }

    /** Up to the wait for the hasher. */
    method SetPassword(password: Password, current: Option<string>) returns (verified: bool)
      modifies `txs
      ensures verified <==>
                && password.user in passwords
                && (current.Some? ==> Checks(old(View()), Password(password.user, current.value)))
      ensures View() == After(old(View()), CheckPassword(password, current), lifetimes)
    {
      verified := password.user in passwords && (current.Some? ==> current.value == passwords[password.user]);
      txs := txs + [Tx(ChangePassword(password), map[], if verified then Checked else Refused)];
    }

    /** And on from there: every live session of the user is staged with the password. */
    method EndSessions(i: TxId)
      requires i < |txs| && txs[i].stage.Checked? && txs[i].kind.ChangePassword?
      modifies `txs
      ensures View() == After(old(View()), ListSessions(i), lifetimes)
    {
      var writes := Revoking(OfUser(rows, txs[i].kind.password.user));
      txs := txs[i := txs[i].(writes := writes, stage := Open)];
    }

    /** Each update names the version it read, and one that matches no row stops them all. */
    method Update(writes: map<SessionId, Write>) returns (updated: Option<seq<Row>>)
      ensures updated == if Current(rows, writes) then Some(Written(rows, writes)) else None
    {
      var todo, written := writes.Keys, rows;
      while todo != {}
        invariant todo <= writes.Keys && Current(rows, writes - todo) && written == Written(rows, writes - todo)
        decreases |todo|
      {
        var id :| id in todo;
        if id >= |rows| || rows[id].version != writes[id].version {
          return None;
        }
        written := written[id := writes[id].row.(version := rows[id].version + 1)];
        OneMoreWritten(rows, writes, todo, id);
        todo := todo - {id};
      }
      assert writes - {} == writes;
      return Some(written);
    }

    /** `access` and `refresh` are the fresh draws of a sign-in. */
    method Flush(i: TxId, access: Token, refresh: Token)
      requires i < |txs| && txs[i].stage.Open?
      requires access == |owners| && refresh == |owners| + 1
      modifies this
      ensures View() == After(old(View()), Commit(i), lifetimes)
    {
      hide Current, Written, Revocations;
      var tx := txs[i];
      var updated := Update(tx.writes);
      if updated.None? {
        txs := txs[i := tx.(stage := Refused)];
        return;
      }
      if tx.kind.SignIn? {
        var user := tx.kind.password.user;
        txs := txs[i := tx.(stage := Committed)];
        owners := owners + [|rows|, |rows|];
        rows := rows + [Row(user, access, refresh, now + lifetimes.access, now + lifetimes.session, None, 1, i)];
        if tx.kind.rehash {
          passwords := passwords[user := tx.kind.password.secret];
        }
        return;
      }
      rows := updated.value;
      txs := txs[i := tx.(stage := Committed)];
      if tx.kind.ChangePassword? {
        passwords := passwords[tx.kind.password.user := tx.kind.password.secret];
      }
    }
  }
}
