/** Browser sessions and OAuth states of the account service, over whole runs. */
module AuthSessions {
  import opened Wrappers
  import opened Sanitization
  import opened ContextBudget

  datatype UserStatus = Active | Disabled | Deleted

  datatype Session = Session(userId: string, expiresAt: int, revokedAt: Option<int>)

  datatype OAuthState = OAuthState(nonce: string, provider: string, purpose: string,
                                   expiresAt: int, consumedAt: Option<int>)

  /** Users by id, sessions by token, OAuth states by state token. */
  datatype Db = Db(users: map<string, UserStatus>, sessions: map<string, Session>, states: map<string, OAuthState>)

  /** What a caller presents to consume a state; an absent or empty purpose matches every purpose. */
  datatype Ticket = Ticket(state: string, nonce: string, provider: string, purpose: Option<string>)

  /** The operations; `at` is the time reading each one makes, and a generated token is an argument. */
  datatype Op =
    | Register(userId: string, at: int)
    | EnsureDevUser(userId: string, at: int)
    | CreateSession(token: string, userId: string, ttlSeconds: int, at: int)
    | Authenticate(token: string, at: int)
    | Revoke(token: string, at: int)
    | RevokeAll(userId: string, at: int)
    | Disable(userId: string, at: int)
    | SoftDelete(userId: string, at: int)
    | CreateState(state: string, nonce: string, provider: string, purpose: string, ttlSeconds: int, at: int)
    | Consume(ticket: Ticket, at: int)
    | CleanSessions(at: int)
    | CleanStates(at: int)

  datatype Error =
    | NotFound | UserDisabled | Conflict
    | ProviderMismatch | PurposeMismatch | AlreadyConsumed | Expired | NonceMismatch

  datatype Reply = Done | Failed(error: Error) | User(userId: Option<string>) | Flag(value: bool) | Count(n: nat)

  // ---- One operation ---------------------------------------------------------------------------

  function ProviderName(value: string): string {
    var name := Lower(Strip(value));
    seq(|name|, i requires 0 <= i < |name| => if name[i] == '-' then '_' else name[i])
  }

  function LiveTokens(sessions: map<string, Session>, userId: string): set<string> {
    set token | token in sessions && sessions[token].userId == userId && sessions[token].revokedAt.None?
  }

  function RevokedAllOf(sessions: map<string, Session>, userId: string, at: int): map<string, Session> {
    map token | token in sessions ::
      if token in LiveTokens(sessions, userId) then sessions[token].(revokedAt := Some(at)) else sessions[token]
  }

  function LoginError(db: Db, token: string, userId: string): Option<Error> {
    if userId !in db.users then Some(NotFound)
    else if db.users[userId] in {Disabled, Deleted} then Some(UserDisabled)
    else if token in db.sessions then Some(Conflict)
    else None
  }

  function Authenticated(db: Db, token: string, at: int): Option<string> {
    if token == "" || token !in db.sessions then None
    else
      var s := db.sessions[token];
      if s.revokedAt.Some? || s.expiresAt <= at then None
      else if s.userId !in db.users || db.users[s.userId] != Active then None
      else Some(s.userId)
  }

  function ConsumeError(db: Db, ticket: Ticket, at: int): Option<Error> {
    if ticket.state !in db.states then Some(NotFound)
    else
      var r := db.states[ticket.state];
      if r.provider != ProviderName(ticket.provider) then Some(ProviderMismatch)
      else if ticket.purpose.Some? && ticket.purpose.value != "" && r.purpose != ticket.purpose.value then
        Some(PurposeMismatch)
      else if r.consumedAt.Some? then Some(AlreadyConsumed)
      else if r.expiresAt <= at then Some(Expired)
      else if r.nonce != ticket.nonce then Some(NonceMismatch)
      else None
  }

  function Revocable(db: Db, token: string): bool {
    token != "" && token in db.sessions && db.sessions[token].revokedAt.None?
  }

  function ExpiredSessions(db: Db, at: int): set<string> {
    set token | token in db.sessions && db.sessions[token].expiresAt <= at
  }

  function SpentStates(db: Db, at: int): set<string> {
    set state | state in db.states && (db.states[state].expiresAt <= at || db.states[state].consumedAt.Some?)
  }

  function After(db: Db, op: Op): Db {
    match op
    case Register(userId, _) => if userId in db.users then db else db.(users := db.users[userId := Active])
    case EnsureDevUser(userId, _) => db.(users := db.users[userId := Active])
    case CreateSession(token, userId, ttl, at) =>
      if LoginError(db, token, userId).Some? then db
      else db.(sessions := db.sessions[token := Session(userId, at + ttl * 1000, None)])
    case Authenticate(_, _) => db
    case Revoke(token, at) =>
      if !Revocable(db, token) then db
      else db.(sessions := db.sessions[token := db.sessions[token].(revokedAt := Some(at))])
    case RevokeAll(userId, at) => db.(sessions := RevokedAllOf(db.sessions, userId, at))
    case Disable(userId, at) =>
      if userId !in db.users then db
      else db.(users := db.users[userId := Disabled], sessions := RevokedAllOf(db.sessions, userId, at))
    case SoftDelete(userId, at) =>
      if userId !in db.users then db
      else db.(users := db.users[userId := Deleted], sessions := RevokedAllOf(db.sessions, userId, at))
    case CreateState(state, nonce, provider, purpose, ttl, at) =>
      if state in db.states then db
      else db.(states := db.states[state := OAuthState(nonce, ProviderName(provider), purpose, at + ttl * 1000, None)])
    case Consume(ticket, at) =>
      if ConsumeError(db, ticket, at).Some? then db
      else db.(states := db.states[ticket.state := db.states[ticket.state].(consumedAt := Some(at))])
    case CleanSessions(at) => db.(sessions := db.sessions - ExpiredSessions(db, at))
    case CleanStates(at) => db.(states := db.states - SpentStates(db, at))
  }

  function Verdict(error: Option<Error>): Reply {
    if error.Some? then Failed(error.value) else Done
  }

  function Answer(db: Db, op: Op): Reply {
    match op
    case Register(userId, _) => Verdict(if userId in db.users then Some(Conflict) else None)
    case EnsureDevUser(userId, _) => User(Some(userId))
    case CreateSession(token, userId, _, _) => Verdict(LoginError(db, token, userId))
    case Authenticate(token, at) => User(Authenticated(db, token, at))
    case Revoke(token, _) => Flag(Revocable(db, token))
    case RevokeAll(userId, _) => Count(|LiveTokens(db.sessions, userId)|)
    case Disable(userId, _) => Flag(userId in db.users)
    case SoftDelete(userId, _) => Flag(userId in db.users)
    case CreateState(state, _, _, _, _, _) => Verdict(if state in db.states then Some(Conflict) else None)
    case Consume(ticket, at) => Verdict(ConsumeError(db, ticket, at))
    case CleanSessions(at) => Count(|ExpiredSessions(db, at)|)
    case CleanStates(at) => Count(|SpentStates(db, at)|)
  }

  function Run(db: Db, ops: seq<Op>): Db {
    if ops == [] then db else After(Run(db, ops[..|ops| - 1]), ops[|ops| - 1])
  }

  // ---- Users --------------------------------------------------------------------------------------

  /** The status of a user after a run: the one the last operation on that user gave. */
  function LastUserStatus(db: Db, ops: seq<Op>, userId: string): Option<UserStatus> {
    if ops == [] then if userId in db.users then Some(db.users[userId]) else None
    else
      var before, last := LastUserStatus(db, ops[..|ops| - 1], userId), ops[|ops| - 1];
      if last.EnsureDevUser? && last.userId == userId then Some(Active)
      else if last.Register? && last.userId == userId && before == None then Some(Active)
      else if last.Disable? && last.userId == userId && before != None then Some(Disabled)
      else if last.SoftDelete? && last.userId == userId && before != None then Some(Deleted)
      else before
  }

  lemma {:induction false} UsersFollowTheRun(db: Db, ops: seq<Op>, userId: string)
    ensures var users := Run(db, ops).users;
            LastUserStatus(db, ops, userId) == if userId in users then Some(users[userId]) else None
    decreases |ops|
  {
    if ops != [] {
      UsersFollowTheRun(db, ops[..|ops| - 1], userId);
      UserStep(Run(db, ops[..|ops| - 1]), ops[|ops| - 1], userId);
    }
  }

  lemma UserStep(db: Db, op: Op, userId: string)
    ensures var before, after := db.users, After(db, op).users;
            && (userId in after <==>
                  userId in before || ((op.EnsureDevUser? || op.Register?) && op.userId == userId))
            && (userId in after ==>
                  after[userId] ==
                    if op.EnsureDevUser? && op.userId == userId then Active
                    else if op.Disable? && op.userId == userId then Disabled
                    else if op.SoftDelete? && op.userId == userId then Deleted
                    else if userId in before then before[userId]
                    else Active)
  {
  }

  /** In every run a login succeeds exactly for a user who is active then, with a token not in use; else it says why. */
  lemma LoginSucceedsExactlyWhen(db: Db, ops: seq<Op>, token: string, userId: string, ttlSeconds: int, at: int)
    ensures var before := Run(db, ops);
            var status := LastUserStatus(db, ops, userId);
            var reply := Answer(before, CreateSession(token, userId, ttlSeconds, at));
            && (reply == Done <==> status == Some(Active) && token !in before.sessions)
            && (reply == Failed(NotFound) <==> status == None)
            && (reply == Failed(UserDisabled) <==> status == Some(Disabled) || status == Some(Deleted))
  {
    UsersFollowTheRun(db, ops, userId);
    match LastUserStatus(db, ops, userId)
    case None =>
    case Some(Active) =>
    case Some(Disabled) =>
    case Some(Deleted) =>
  }

  /** A registration succeeds exactly for a user who is not there yet. */
  lemma RegistersExactlyOnce(db: Db, ops: seq<Op>, userId: string, at: int)
    ensures Answer(Run(db, ops), Register(userId, at)) == Done <==> LastUserStatus(db, ops, userId) == None
  {
    UsersFollowTheRun(db, ops, userId);
  }

  // ---- Sessions ----------------------------------------------------------------------------------

  /** Every session has an owner, and the owner of a live one is active. */
  ghost predicate Sound(db: Db) {
    forall token :: token in db.sessions ==>
      && db.sessions[token].userId in db.users
      && (db.sessions[token].revokedAt.None? ==> db.users[db.sessions[token].userId] == Active)
  }

  lemma StaysSound(db: Db, op: Op)
    requires Sound(db)
    ensures Sound(After(db, op))
  {
  }

  lemma {:induction false} RunsStaySound(db: Db, ops: seq<Op>)
    requires Sound(db)
    ensures Sound(Run(db, ops))
    decreases |ops|
  {
    if ops != [] {
      RunsStaySound(db, ops[..|ops| - 1]);
      StaysSound(Run(db, ops[..|ops| - 1]), ops[|ops| - 1]);
    }
  }

  /** The operations that end this session. */
  predicate Ends(op: Op, token: string, s: Session) {
    match op
    case Revoke(revoked, _) => revoked == token
    case RevokeAll(userId, _) => userId == s.userId
    case Disable(userId, _) => userId == s.userId
    case SoftDelete(userId, _) => userId == s.userId
    case CleanSessions(at) => s.expiresAt <= at
    case _ => false
  }

  predicate Live(db: Db, token: string, s: Session) {
    token in db.sessions && db.sessions[token] == s && s.revokedAt.None?
  }

  predicate Gone(db: Db, token: string) {
    token !in db.sessions || db.sessions[token].revokedAt.Some?
  }

  predicate Issues(op: Op, token: string) {
    op.CreateSession? && op.token == token
  }

  lemma LiveStep(db: Db, op: Op, token: string, s: Session)
    requires Sound(db) && Live(db, token, s) && token != ""
    ensures if Ends(op, token, s) then Gone(After(db, op), token) else Live(After(db, op), token, s)
  {
  }

  lemma GoneStep(db: Db, op: Op, token: string)
    requires Gone(db, token) && !Issues(op, token)
    ensures Gone(After(db, op), token)
  {
  }

  /** In every run, a session lives on until the first operation that ends it, and never comes back. */
  lemma {:induction false} SessionLives(db: Db, ops: seq<Op>, token: string, s: Session)
    requires Sound(db) && Live(db, token, s) && token != ""
    requires forall i :: 0 <= i < |ops| ==> !Issues(ops[i], token)
    ensures if exists i :: 0 <= i < |ops| && Ends(ops[i], token, s) then Gone(Run(db, ops), token)
            else Live(Run(db, ops), token, s)
    decreases |ops|
  {
    if ops != [] {
      var init, last := ops[..|ops| - 1], ops[|ops| - 1];
      SessionLives(db, init, token, s);
      RunsStaySound(db, init);
      if i :| 0 <= i < |init| && Ends(init[i], token, s) {
        assert Ends(ops[i], token, s);
        GoneStep(Run(db, init), last, token);
      } else {
        assert forall i :: 0 <= i < |init| ==> ops[i] == init[i];
        LiveStep(Run(db, init), last, token, s);
      }
    }
  }

  /** The record of the session, if it is still there. */
  predicate Keeps(db: Db, token: string, s: Session) {
    token in db.sessions ==> db.sessions[token] == s
  }

  lemma EndStep(db: Db, end: Op, token: string, s: Session)
    requires Sound(db) && Live(db, token, s) && token != "" && Ends(end, token, s) && !end.CleanSessions?
    ensures Keeps(After(db, end), token, s.(revokedAt := Some(end.at)))
  {
  }

  lemma RecordStays(db: Db, op: Op, token: string, s: Session)
    requires Keeps(db, token, s) && s.revokedAt.Some? && !Issues(op, token)
    ensures Keeps(After(db, op), token, s)
  {
  }

  /** What ended a session is kept: the time of the first operation that revoked it. */
  lemma {:induction false} EndIsRecorded(db: Db, end: Op, ops: seq<Op>, token: string, s: Session)
    requires Sound(db) && Live(db, token, s) && token != "" && Ends(end, token, s) && !end.CleanSessions?
    requires forall i :: 0 <= i < |ops| ==> !Issues(ops[i], token)
    ensures Keeps(Run(After(db, end), ops), token, s.(revokedAt := Some(end.at)))
    decreases |ops|
  {
    EndStep(db, end, token, s);
    if ops != [] {
      var init, last := ops[..|ops| - 1], ops[|ops| - 1];
      EndIsRecorded(db, end, init, token, s);
      RecordStays(Run(After(db, end), init), last, token, s.(revokedAt := Some(end.at)));
    }
  }

  /**
   A session authenticates its owner exactly until it expires or one of the ending operations ran.
   Reactivating the owner does not bring it back.
   */
  lemma AuthenticatesExactlyWhen(db: Db, ops: seq<Op>, token: string, s: Session, at: int)
    requires Sound(db) && Live(db, token, s) && token != ""
    requires forall i :: 0 <= i < |ops| ==> !Issues(ops[i], token)
    ensures Authenticated(Run(db, ops), token, at) in {None, Some(s.userId)}
    ensures Authenticated(Run(db, ops), token, at) == Some(s.userId)
            <==> at < s.expiresAt && forall i :: 0 <= i < |ops| ==> !Ends(ops[i], token, s)
  {
    SessionLives(db, ops, token, s);
    RunsStaySound(db, ops);
  }

  /** From a successful login on: the session works for its lifetime, until it is ended. */
  lemma LoginLasts(db: Db, login: Op, ops: seq<Op>, at: int)
    requires Sound(db) && login.CreateSession? && login.token != "" && Answer(db, login) == Done
    requires forall i :: 0 <= i < |ops| ==> !Issues(ops[i], login.token)
    ensures var s := Session(login.userId, login.at + login.ttlSeconds * 1000, None);
            Authenticated(Run(After(db, login), ops), login.token, at) == Some(login.userId)
            <==> at < s.expiresAt && forall i :: 0 <= i < |ops| ==> !Ends(ops[i], login.token, s)
  {
    StaysSound(db, login);
    var s := Session(login.userId, login.at + login.ttlSeconds * 1000, None);
    assert Live(After(db, login), login.token, s);
    AuthenticatesExactlyWhen(After(db, login), ops, login.token, s, at);
  }

  // ---- OAuth states ------------------------------------------------------------------------------

  predicate Unspent(db: Db, state: string, r: OAuthState) {
    state in db.states && db.states[state] == r && r.consumedAt.None?
  }

  predicate Spent(db: Db, state: string) {
    state !in db.states || db.states[state].consumedAt.Some?
  }

  /** The ticket fits the record, in time. */
  predicate Redeems(ticket: Ticket, at: int, state: string, r: OAuthState) {
    && ticket.state == state && ticket.nonce == r.nonce && ProviderName(ticket.provider) == r.provider
    && (ticket.purpose.None? || ticket.purpose.value == "" || ticket.purpose.value == r.purpose)
    && at < r.expiresAt
  }

  /** The operations that use the state up. */
  predicate Uses(op: Op, state: string, r: OAuthState) {
    (op.Consume? && Redeems(op.ticket, op.at, state, r)) || (op.CleanStates? && r.expiresAt <= op.at)
  }

  predicate IssuesState(op: Op, state: string) {
    op.CreateState? && op.state == state
  }

  lemma UnspentStep(db: Db, op: Op, state: string, r: OAuthState)
    requires Unspent(db, state, r)
    ensures if Uses(op, state, r) then Spent(After(db, op), state) else Unspent(After(db, op), state, r)
  {
  }

  lemma SpentStep(db: Db, op: Op, state: string)
    requires Spent(db, state) && !IssuesState(op, state)
    ensures Spent(After(db, op), state)
  {
  }

  lemma {:induction false} StateLives(db: Db, ops: seq<Op>, state: string, r: OAuthState)
    requires Unspent(db, state, r)
    requires forall i :: 0 <= i < |ops| ==> !IssuesState(ops[i], state)
    ensures if exists i :: 0 <= i < |ops| && Uses(ops[i], state, r) then Spent(Run(db, ops), state)
            else Unspent(Run(db, ops), state, r)
    decreases |ops|
  {
    if ops != [] {
      var init, last := ops[..|ops| - 1], ops[|ops| - 1];
      StateLives(db, init, state, r);
      if i :| 0 <= i < |init| && Uses(init[i], state, r) {
        assert Uses(ops[i], state, r);
        SpentStep(Run(db, init), last, state);
      } else {
        assert forall i :: 0 <= i < |init| ==> ops[i] == init[i];
        UnspentStep(Run(db, init), last, state, r);
      }
    }
  }

  /** The record of the state, if it is still there. */
  predicate KeepsState(db: Db, state: string, r: OAuthState) {
    state in db.states ==> db.states[state] == r
  }

  lemma StateRecordStays(db: Db, op: Op, state: string, r: OAuthState)
    requires KeepsState(db, state, r) && r.consumedAt.Some? && !IssuesState(op, state)
    ensures KeepsState(After(db, op), state, r)
  {
  }

  lemma ConsumeRecords(db: Db, ticket: Ticket, at: int, r: OAuthState)
    requires Unspent(db, ticket.state, r) && Redeems(ticket, at, ticket.state, r)
    ensures KeepsState(After(db, Consume(ticket, at)), ticket.state, r.(consumedAt := Some(at)))
  {
  }

  /** The time of the consume is kept, and nothing else of the state changes. */
  lemma {:induction false} ConsumeIsRecorded(db: Db, ticket: Ticket, at: int, r: OAuthState, ops: seq<Op>)
    requires Unspent(db, ticket.state, r) && Redeems(ticket, at, ticket.state, r)
    requires forall i :: 0 <= i < |ops| ==> !IssuesState(ops[i], ticket.state)
    ensures KeepsState(Run(After(db, Consume(ticket, at)), ops), ticket.state, r.(consumedAt := Some(at)))
    decreases |ops|
  {
    ConsumeRecords(db, ticket, at, r);
    if ops != [] {
      var init, last := ops[..|ops| - 1], ops[|ops| - 1];
      ConsumeIsRecorded(db, ticket, at, r, init);
      StateRecordStays(Run(After(db, Consume(ticket, at)), init), last, ticket.state, r.(consumedAt := Some(at)));
    }
  }

  /** A consume succeeds exactly when its ticket fits in time and nothing used the state before. */
  lemma ConsumeSucceedsExactlyWhen(db: Db, ops: seq<Op>, ticket: Ticket, at: int, r: OAuthState)
    requires Unspent(db, ticket.state, r)
    requires forall i :: 0 <= i < |ops| ==> !IssuesState(ops[i], ticket.state)
    ensures Answer(Run(db, ops), Consume(ticket, at)) == Done
            <==> Redeems(ticket, at, ticket.state, r)
                 && forall i :: 0 <= i < |ops| ==> !Uses(ops[i], ticket.state, r)
  {
    StateLives(db, ops, ticket.state, r);
  }

  lemma IssuedStateIsKept(db: Db, issue: Op, ops: seq<Op>, ticket: Ticket, at: int)
    requires issue.CreateState? && Answer(db, issue) == Done && ticket.state == issue.state
    requires forall i :: 0 <= i < |ops| ==> !IssuesState(ops[i], issue.state)
    ensures Answer(Run(After(db, issue), ops), Consume(ticket, at)) == Done
            <==> Redeems(ticket, at, issue.state, IssuedRecord(issue))
                 && forall i :: 0 <= i < |ops| ==> !Uses(ops[i], issue.state, IssuedRecord(issue))
  {
    assert Unspent(After(db, issue), issue.state, IssuedRecord(issue));
    ConsumeSucceedsExactlyWhen(After(db, issue), ops, ticket, at, IssuedRecord(issue));
  }

  /** At most once: between two successful consumes of one state lies a new issue of it. */
  lemma ConsumedAtMostOnce(db: Db, ops: seq<Op>, i: nat, j: nat)
    requires i < j < |ops| && ops[i].Consume? && ops[j].Consume? && ops[i].ticket.state == ops[j].ticket.state
    requires Answer(Run(db, ops[..i]), ops[i]) == Done
    requires forall k :: i < k < j ==> !IssuesState(ops[k], ops[i].ticket.state)
    ensures Answer(Run(db, ops[..j]), ops[j]) != Done
  {
    var after := ops[i + 1..j];
    assert ops[..j] == ops[..i + 1] + after;
    RunConcat(db, ops[..i + 1], after);
    RunNext(db, ops, i);
    SuccessSpends(Run(db, ops[..i]), ops[i]);
    SpentStays(Run(db, ops[..i + 1]), after, ops[i].ticket.state);
  }

  lemma {:induction false} SpentStays(db: Db, ops: seq<Op>, state: string)
    requires Spent(db, state) && forall i :: 0 <= i < |ops| ==> !IssuesState(ops[i], state)
    ensures Spent(Run(db, ops), state)
    decreases |ops|
  {
    if ops != [] {
      SpentStays(db, ops[..|ops| - 1], state);
      SpentStep(Run(db, ops[..|ops| - 1]), ops[|ops| - 1], state);
    }
  }

  lemma {:induction false} RunConcat(db: Db, a: seq<Op>, b: seq<Op>)
    ensures Run(db, a + b) == Run(Run(db, a), b)
    decreases |b|
  {
    if b == [] {
      assert a + b == a;
    } else {
      assert (a + b)[..|a + b| - 1] == a + b[..|b| - 1];
      RunConcat(db, a, b[..|b| - 1]);
    }
  }

  lemma RunNext(db: Db, ops: seq<Op>, k: nat)
    requires k < |ops|
    ensures Run(db, ops[..k + 1]) == After(Run(db, ops[..k]), ops[k])
  {
    assert ops[..k + 1][..k] == ops[..k];
  }

  lemma SuccessSpends(db: Db, op: Op)
    requires op.Consume? && Answer(db, op) == Done
    ensures Spent(After(db, op), op.ticket.state)
  {
  }

  // ---- Provider names -----------------------------------------------------------------------------

  /** The same character up to ASCII case, a dash counting as an underscore. */
  predicate SameCharacter(a: char, b: char) {
    || a == b
    || ('a' <= a <= 'z' && b == a - 'a' + 'A') || ('a' <= b <= 'z' && a == b - 'a' + 'A')
    || (a == '-' && b == '_') || (a == '_' && b == '-')
  }

  predicate SameCharacters(a: string, b: string) {
    |a| == |b| && forall i :: 0 <= i < |a| ==> SameCharacter(a[i], b[i])
  }

  /** Two spellings of one provider: with outer white space cut, the same characters. */
  ghost predicate SameProvider(p: string, q: string) {
    exists i: nat, j: nat, k: nat, l: nat ::
      IsTrimmed(p, i, j) && IsTrimmed(q, k, l) && SameCharacters(p[i..j], q[k..l])
  }

  function Canonical(c: char): char {
    var small := if 'A' <= c <= 'Z' then c - 'A' + 'a' else c;
    if small == '-' then '_' else small
  }

  lemma CanonicalExactly(a: char, b: char)
    ensures Canonical(a) == Canonical(b) <==> SameCharacter(a, b)
  {
  }

  lemma ProviderNameIs(value: string)
    ensures |ProviderName(value)| == |Strip(value)|
    ensures forall i :: 0 <= i < |Strip(value)| ==> ProviderName(value)[i] == Canonical(Strip(value)[i])
  {
  }

  lemma SameNameExactly(p: string, q: string)
    ensures ProviderName(p) == ProviderName(q) <==> SameCharacters(Strip(p), Strip(q))
  {
    ProviderNameIs(p);
    ProviderNameIs(q);
    if |Strip(p)| == |Strip(q)| {
      forall i | 0 <= i < |Strip(p)|
        ensures ProviderName(p)[i] == ProviderName(q)[i] <==> SameCharacter(Strip(p)[i], Strip(q)[i])
      {
        CanonicalExactly(Strip(p)[i], Strip(q)[i]);
      }
    }
  }

  /** Provider names are compared as spellings of one name. */
  lemma SameProviderExactly(p: string, q: string)
    ensures ProviderName(p) == ProviderName(q) <==> SameProvider(p, q)
  {
    SameNameExactly(p, q);
    var i, j := StripTrims(p);
    var k, l := StripTrims(q);
    if SameProvider(p, q) {
      var i': nat, j': nat, k': nat, l': nat :|
        IsTrimmed(p, i', j') && IsTrimmed(q, k', l') && SameCharacters(p[i'..j'], q[k'..l']);
      StripExactly(p, i', j');
      StripExactly(q, k', l');
    }
  }

  /** A refused consume names the first thing wrong, in this order. */
  lemma ConsumeTellsWhy(db: Db, ticket: Ticket, at: int, provider: string)
    requires ticket.state in db.states ==> db.states[ticket.state].provider == ProviderName(provider)
    ensures ConsumeError(db, ticket, at) == Some(NotFound) <==> ticket.state !in db.states
    ensures ticket.state in db.states ==>
      var r, error := db.states[ticket.state], ConsumeError(db, ticket, at);
      var named := ticket.purpose.Some? && ticket.purpose.value != "";
      var known := SameProvider(provider, ticket.provider) && !(named && r.purpose != ticket.purpose.value);
      && (error == Some(ProviderMismatch) <==> !SameProvider(provider, ticket.provider))
      && (error == Some(PurposeMismatch) <==>
            SameProvider(provider, ticket.provider) && named && r.purpose != ticket.purpose.value)
      && (error == Some(AlreadyConsumed) <==> known && r.consumedAt.Some?)
      && (error == Some(Expired) <==> known && r.consumedAt.None? && r.expiresAt <= at)
      && (error == Some(NonceMismatch) <==> known && r.consumedAt.None? && at < r.expiresAt && r.nonce != ticket.nonce)
  {
    SameProviderExactly(provider, ticket.provider);
  }

  /** What a ticket has to carry to redeem an issue, in the issuer's terms. */
  ghost predicate Fits(issue: Op, ticket: Ticket, at: int)
    requires issue.CreateState?
  {
    && ticket.state == issue.state && ticket.nonce == issue.nonce && SameProvider(issue.provider, ticket.provider)
    && (ticket.purpose.None? || ticket.purpose.value == "" || ticket.purpose.value == issue.purpose)
    && at < issue.at + issue.ttlSeconds * 1000
  }

  /** The operations that use an issue up: a fitting consume, or a cleanup after its end. */
  ghost predicate UsesIssue(issue: Op, op: Op)
    requires issue.CreateState?
  {
    || (op.Consume? && Fits(issue, op.ticket, op.at))
    || (op.CleanStates? && issue.at + issue.ttlSeconds * 1000 <= op.at)
  }

  /**
   From a successful issue on: a consume succeeds exactly when its ticket carries the state, the nonce,
   a spelling of the provider and the purpose or none, in time, and no use came before.
   */
  lemma IssuedStateIsRedeemed(db: Db, issue: Op, ops: seq<Op>, ticket: Ticket, at: int)
    requires issue.CreateState? && Answer(db, issue) == Done && ticket.state == issue.state
    requires forall i :: 0 <= i < |ops| ==> !IssuesState(ops[i], issue.state)
    ensures Answer(Run(After(db, issue), ops), Consume(ticket, at)) == Done
            <==> Fits(issue, ticket, at) && forall i :: 0 <= i < |ops| ==> !UsesIssue(issue, ops[i])
  {
    IssuedStateIsKept(db, issue, ops, ticket, at);
    var r := IssuedRecord(issue);
    FitsIsRedeems(issue, ticket, at);
    forall i | 0 <= i < |ops| ensures Uses(ops[i], issue.state, r) <==> UsesIssue(issue, ops[i]) {
      if ops[i].Consume? {
        FitsIsRedeems(issue, ops[i].ticket, ops[i].at);
      }
    }
  }

  function IssuedRecord(issue: Op): OAuthState
    requires issue.CreateState?
  {
    OAuthState(issue.nonce, ProviderName(issue.provider), issue.purpose, issue.at + issue.ttlSeconds * 1000, None)
  }

  lemma FitsIsRedeems(issue: Op, ticket: Ticket, at: int)
    requires issue.CreateState?
    ensures Redeems(ticket, at, issue.state, IssuedRecord(issue)) <==> Fits(issue, ticket, at)
  {
    SameProviderExactly(issue.provider, ticket.provider);
  }

  // ---- Cleanup ------------------------------------------------------------------------------------

  predicate Cleanup(op: Op) { op.CleanSessions? || op.CleanStates? }

  function WithoutCleanup(ops: seq<Op>): seq<Op> {
    if ops == [] then []
    else WithoutCleanup(ops[..|ops| - 1]) + (if Cleanup(ops[|ops| - 1]) then [] else [ops[|ops| - 1]])
  }

  /** What a caller relies on: replies without counts, and of a consume only whether it succeeded. */
  function Seen(op: Op, reply: Reply): Option<Reply> {
    match op
    case Consume(_, _) => Some(if reply.Failed? then Failed(NotFound) else reply)
    case Revoke(_, _) => None
    case RevokeAll(_, _) => None
    case CleanSessions(_) => None
    case CleanStates(_) => None
    case _ => Some(reply)
  }

  /** The replies of a run, cleanups left out. */
  function Replies(db: Db, ops: seq<Op>): seq<Option<Reply>> {
    if ops == [] then []
    else
      var init, last := ops[..|ops| - 1], ops[|ops| - 1];
      Replies(db, init) + (if Cleanup(last) then [] else [Seen(last, Answer(Run(db, init), last))])
  }

  /** Sessions and states issued by a run. */
  function Tokens(ops: seq<Op>): set<string> {
    if ops == [] then {}
    else
      var last := ops[|ops| - 1];
      Tokens(ops[..|ops| - 1]) + if last.CreateSession? then {last.token} else {}
  }

  function StateTokens(ops: seq<Op>): set<string> {
    if ops == [] then {}
    else
      var last := ops[|ops| - 1];
      StateTokens(ops[..|ops| - 1]) + if last.CreateState? then {last.state} else {}
  }

  /** Generated tokens are new: none is in the tables at the start, and none is generated twice. */
  predicate FreshTokens(db: Db, ops: seq<Op>) {
    ops == [] ||
    (var init, last := ops[..|ops| - 1], ops[|ops| - 1];
     && FreshTokens(db, init)
     && (last.CreateSession? ==> last.token !in db.sessions && last.token !in Tokens(init))
     && (last.CreateState? ==> last.state !in db.states && last.state !in StateTokens(init)))
  }

  /** The clock does not run backwards. */
  predicate Rising(ops: seq<Op>) {
    forall i, j :: 0 <= i < j < |ops| ==> ops[i].at <= ops[j].at
  }

  /** `lean` is `full` without sessions that expired by `now`. */
  ghost predicate SessionsShadow(lean: map<string, Session>, full: map<string, Session>, now: int) {
    && (forall token :: token in lean ==> token in full && lean[token] == full[token])
    && (forall token :: token in full && token !in lean ==> full[token].expiresAt <= now)
  }

  /** `lean` is `full` without states that expired by `now` or were consumed. */
  ghost predicate StatesShadow(lean: map<string, OAuthState>, full: map<string, OAuthState>, now: int) {
    && (forall state :: state in lean ==> state in full && lean[state] == full[state])
    && (forall state :: state in full && state !in lean ==>
          full[state].expiresAt <= now || full[state].consumedAt.Some?)
  }

  /** `lean` is `full` without rows that time or use has made worthless. */
  ghost predicate Shadows(lean: Db, full: Db, now: int) {
    && lean.users == full.users
    && SessionsShadow(lean.sessions, full.sessions, now)
    && StatesShadow(lean.states, full.states, now)
  }

  lemma CleanupShadows(lean: Db, full: Db, op: Op, now: int)
    requires Shadows(lean, full, now) && now <= op.at && Cleanup(op)
    ensures Shadows(After(lean, op), full, op.at)
  {
  }

  lemma RevokedAllShadows(lean: map<string, Session>, full: map<string, Session>, userId: string, at: int, now: int)
    requires SessionsShadow(lean, full, now)
    ensures SessionsShadow(RevokedAllOf(lean, userId, at), RevokedAllOf(full, userId, at), now)
  {
  }

  lemma SameUsers(lean: Db, full: Db, op: Op)
    requires lean.users == full.users
    ensures After(lean, op).users == After(full, op).users
  {
  }

  lemma CreatedShadows(lean: map<string, Session>, full: map<string, Session>, token: string, s: Session, now: int)
    requires SessionsShadow(lean, full, now) && token !in full
    ensures SessionsShadow(lean[token := s], full[token := s], now)
  {
  }

  lemma CreateStep(lean: Db, full: Db, op: Op, now: int)
    requires lean.users == full.users && SessionsShadow(lean.sessions, full.sessions, now)
    requires op.CreateSession? && op.token !in full.sessions
    ensures SessionsShadow(After(lean, op).sessions, After(full, op).sessions, now)
  {
    assert LoginError(lean, op.token, op.userId) == LoginError(full, op.token, op.userId);
    CreatedShadows(lean.sessions, full.sessions, op.token, Session(op.userId, op.at + op.ttlSeconds * 1000, None), now);
  }

  lemma RevokeStep(lean: Db, full: Db, op: Op, now: int)
    requires SessionsShadow(lean.sessions, full.sessions, now) && op.Revoke?
    ensures SessionsShadow(After(lean, op).sessions, After(full, op).sessions, now)
  {
  }

  lemma RevokeAllStep(lean: Db, full: Db, op: Op, now: int)
    requires lean.users == full.users && SessionsShadow(lean.sessions, full.sessions, now)
    requires op.RevokeAll? || op.Disable? || op.SoftDelete?
    ensures SessionsShadow(After(lean, op).sessions, After(full, op).sessions, now)
  {
    RevokedAllShadows(lean.sessions, full.sessions, op.userId, op.at, now);
  }

  lemma OtherStep(lean: Db, op: Op)
    requires !op.CreateSession? && !op.Revoke? && !op.RevokeAll? && !op.Disable? && !op.SoftDelete? && !op.CleanSessions?
    ensures After(lean, op).sessions == lean.sessions
  {
  }

  lemma SessionsStep(lean: Db, full: Db, op: Op, now: int)
    requires lean.users == full.users && SessionsShadow(lean.sessions, full.sessions, now)
    requires now <= op.at && !Cleanup(op)
    requires op.CreateSession? ==> op.token !in full.sessions
    ensures SessionsShadow(After(lean, op).sessions, After(full, op).sessions, op.at)
  {
    if op.CreateSession? {
      CreateStep(lean, full, op, now);
    } else if op.Revoke? {
      RevokeStep(lean, full, op, now);
    } else if op.RevokeAll? || op.Disable? || op.SoftDelete? {
      RevokeAllStep(lean, full, op, now);
    } else {
      OtherStep(lean, op);
      OtherStep(full, op);
    }
    LaterShadows(After(lean, op).sessions, After(full, op).sessions, now, op.at);
  }

  lemma LaterShadows(lean: map<string, Session>, full: map<string, Session>, now: int, later: int)
    requires SessionsShadow(lean, full, now) && now <= later
    ensures SessionsShadow(lean, full, later)
  {
  }

  lemma SameConsume(lean: Db, full: Db, ticket: Ticket, at: int, now: int)
    requires StatesShadow(lean.states, full.states, now) && now <= at
    ensures ConsumeError(lean, ticket, at).None? <==> ConsumeError(full, ticket, at).None?
    ensures ConsumeError(full, ticket, at).None? ==>
      ticket.state in lean.states && lean.states[ticket.state] == full.states[ticket.state]
  {
  }

  lemma StatesStep(lean: Db, full: Db, op: Op, now: int)
    requires StatesShadow(lean.states, full.states, now) && now <= op.at && !Cleanup(op)
    requires op.CreateState? ==> op.state !in full.states
    ensures StatesShadow(After(lean, op).states, After(full, op).states, op.at)
  {
    if op.Consume? {
      SameConsume(lean, full, op.ticket, op.at, now);
    } else if !op.CreateState? {
      assert After(lean, op).states == lean.states && After(full, op).states == full.states;
    }
  }

  lemma SeenStep(lean: Db, full: Db, op: Op, now: int)
    requires Shadows(lean, full, now) && now <= op.at && !Cleanup(op)
    requires op.CreateSession? ==> op.token !in full.sessions
    requires op.CreateState? ==> op.state !in full.states
    ensures Seen(op, Answer(lean, op)) == Seen(op, Answer(full, op))
  {
    if op.Consume? {
      SameConsume(lean, full, op.ticket, op.at, now);
    }
  }

  lemma CreatesOnlyTokens(db: Db, op: Op)
    ensures After(db, op).sessions.Keys <= db.sessions.Keys + if op.CreateSession? then {op.token} else {}
    ensures After(db, op).states.Keys <= db.states.Keys + if op.CreateState? then {op.state} else {}
  {
  }

  lemma {:induction false} RunIssuesTokens(db: Db, ops: seq<Op>)
    ensures Run(db, ops).sessions.Keys <= db.sessions.Keys + Tokens(ops)
    ensures Run(db, ops).states.Keys <= db.states.Keys + StateTokens(ops)
    decreases |ops|
  {
    if ops != [] {
      RunIssuesTokens(db, ops[..|ops| - 1]);
      CreatesOnlyTokens(Run(db, ops[..|ops| - 1]), ops[|ops| - 1]);
    }
  }

  lemma {:induction false} CleanupIssuesNothing(ops: seq<Op>)
    ensures Tokens(WithoutCleanup(ops)) == Tokens(ops) && StateTokens(WithoutCleanup(ops)) == StateTokens(ops)
    decreases |ops|
  {
    if ops != [] {
      var init, last := ops[..|ops| - 1], ops[|ops| - 1];
      CleanupIssuesNothing(init);
      if Cleanup(last) {
        assert WithoutCleanup(ops) == WithoutCleanup(init);
      } else {
        assert WithoutCleanup(ops)[..|WithoutCleanup(ops)| - 1] == WithoutCleanup(init);
      }
    }
  }

  lemma Extended(db: Db, ops: seq<Op>, op: Op)
    ensures Run(db, ops + [op]) == After(Run(db, ops), op)
    ensures !Cleanup(op) ==> Replies(db, ops + [op]) == Replies(db, ops) + [Seen(op, Answer(Run(db, ops), op))]
  {
    assert (ops + [op])[..|ops|] == ops;
  }

  lemma {:induction false} RunShadows(db: Db, ops: seq<Op>)
    requires Rising(ops) && FreshTokens(db, ops)
    ensures ops != [] ==> Shadows(Run(db, ops), Run(db, WithoutCleanup(ops)), ops[|ops| - 1].at)
    ensures Replies(db, ops) == Replies(db, WithoutCleanup(ops))
    decreases |ops|
  {
    if ops != [] {
      var init, last := ops[..|ops| - 1], ops[|ops| - 1];
      RunShadows(db, init);
      var lean, full := Run(db, init), Run(db, WithoutCleanup(init));
      var now := if init == [] then last.at else init[|init| - 1].at;
      if Cleanup(last) {
        CleanupShadows(lean, full, last, now);
        assert WithoutCleanup(ops) == WithoutCleanup(init);
      } else {
        RunIssuesTokens(db, WithoutCleanup(init));
        CleanupIssuesNothing(init);
        SameUsers(lean, full, last);
        SessionsStep(lean, full, last, now);
        StatesStep(lean, full, last, now);
        SeenStep(lean, full, last, now);
        Extended(db, WithoutCleanup(init), last);
      }
    }
  }

  /** Cleanups, inserted anywhere in a run, change no reply a caller relies on. */
  lemma CleanupIsInvisible(db: Db, ops: seq<Op>, others: seq<Op>)
    requires Rising(ops) && FreshTokens(db, ops) && Rising(others) && FreshTokens(db, others)
    requires WithoutCleanup(ops) == WithoutCleanup(others)
    ensures Replies(db, ops) == Replies(db, others)
  {
    RunShadows(db, ops);
    RunShadows(db, others);
  }

  /** With a time of its own choosing, a cleanup logs out exactly the sessions that expire by then. */
  lemma EarlyCleanupLogsOut(db: Db, token: string, cutoff: int, at: int)
    ensures Authenticated(After(db, CleanSessions(cutoff)), token, at) != Authenticated(db, token, at)
            <==> Authenticated(db, token, at).Some? && db.sessions[token].expiresAt <= cutoff
  {
  }

  // ---- The service ----------------------------------------------------------------------------------

  class AuthService {
    const defaultTtlSeconds: int
    var users: map<string, UserStatus>
    var sessions: map<string, Session>
    var states: map<string, OAuthState>

    constructor (defaultTtlSeconds: int)
      ensures this.defaultTtlSeconds == defaultTtlSeconds
      ensures Tables() == Db(map[], map[], map[]) && Sound(Tables())
    {
      this.defaultTtlSeconds := defaultTtlSeconds;
      users, sessions, states := map[], map[], map[];
    }

    ghost function Tables(): Db
      reads this
    {
      Db(users, sessions, states)
    }

    /** The new session expires `ttlSeconds` after `at`; without a lifetime, or with 0, the default applies. */
    method CreateSession(token: string, userId: string, ttlSeconds: Option<int>, at: int) returns (error: Option<Error>)
      modifies this`sessions
      ensures var ttl := if ttlSeconds in {None, Some(0)} then defaultTtlSeconds else ttlSeconds.value;
              var op := Op.CreateSession(token, userId, ttl, at);
              Tables() == After(old(Tables()), op) && Verdict(error) == Answer(old(Tables()), op)
    {
      var ttl := if ttlSeconds.Some? && ttlSeconds.value != 0 then ttlSeconds.value else defaultTtlSeconds;
      var record := Session(userId, at + ttl * 1000, None);
      if userId !in users {
        return Some(NotFound);
      }
      if users[userId] == Disabled || users[userId] == Deleted {
        return Some(UserDisabled);
      }
      if token in sessions {
        return Some(Conflict);
      }
      sessions := sessions[token := record];
      error := None;
    }

    method GetUserBySessionToken(token: string, at: int) returns (user: Option<string>)
      ensures user == Authenticated(Tables(), token, at)
    {
      if token == "" || token !in sessions {
        return None;
      }
      var record := sessions[token];
      if record.revokedAt.Some? || record.expiresAt <= at {
        return None;
      }
      if record.userId !in users || users[record.userId] != Active {
        return None;
      }
      user := Some(record.userId);
    }

    method RevokeSession(token: string, at: int) returns (revoked: bool)
      modifies this`sessions
      ensures Tables() == After(old(Tables()), Revoke(token, at))
      ensures Flag(revoked) == Answer(old(Tables()), Revoke(token, at))
    {
      if token == "" || token !in sessions || sessions[token].revokedAt.Some? {
        return false;
      }
      sessions := sessions[token := sessions[token].(revokedAt := Some(at))];
      revoked := true;
    }

    method RevokeAllSessions(userId: string, at: int) returns (count: nat)
      modifies this`sessions
      ensures Tables() == After(old(Tables()), RevokeAll(userId, at))
      ensures Reply.Count(count) == Answer(old(Tables()), RevokeAll(userId, at))
    {
      count := |LiveTokens(sessions, userId)|;
      sessions := map token | token in sessions ::
        if sessions[token].userId == userId && sessions[token].revokedAt.None?
        then sessions[token].(revokedAt := Some(at)) else sessions[token];
    }

    method DisableUser(userId: string, at: int) returns (found: bool)
      modifies this`users, this`sessions
      ensures Tables() == After(old(Tables()), Disable(userId, at))
      ensures Flag(found) == Answer(old(Tables()), Disable(userId, at))
    {
      if userId !in users {
        return false;
      }
      users := users[userId := Disabled];
      var _ := RevokeAllSessions(userId, at);
      found := true;
    }

    method SoftDeleteUser(userId: string, at: int) returns (found: bool)
      modifies this`users, this`sessions
      ensures Tables() == After(old(Tables()), SoftDelete(userId, at))
      ensures Flag(found) == Answer(old(Tables()), SoftDelete(userId, at))
    {
      if userId !in users {
        return false;
      }
      users := users[userId := Deleted];
      var _ := RevokeAllSessions(userId, at);
      found := true;
    }

    method EnsureDevUser(userId: string, at: int)
      modifies this`users
      ensures Tables() == After(old(Tables()), Op.EnsureDevUser(userId, at))
    {
      if userId in users {
        if users[userId] != Active {
          users := users[userId := Active];
        }
        return;
      }
      users := users[userId := Active];
    }

    method CreateUser(userId: string, at: int) returns (error: Option<Error>)
      modifies this`users
      ensures Tables() == After(old(Tables()), Register(userId, at))
      ensures Verdict(error) == Answer(old(Tables()), Register(userId, at))
    {
      if userId in users {
        return Some(Conflict);
      }
      users := users[userId := Active];
      error := None;
    }

    method CreateOAuthState(state: string, nonce: string, provider: string, purpose: string, ttlSeconds: int, at: int)
      returns (error: Option<Error>)
      modifies this`states
      ensures var op := CreateState(state, nonce, provider, purpose, ttlSeconds, at);
              Tables() == After(old(Tables()), op) && Verdict(error) == Answer(old(Tables()), op)
    {
      var record := OAuthState(nonce, ProviderName(provider), purpose, at + ttlSeconds * 1000, None);
      if state in states {
        return Some(Conflict);
      }
      states := states[state := record];
      error := None;
    }

    method ConsumeOAuthState(ticket: Ticket, at: int) returns (error: Option<Error>)
      modifies this`states
      ensures Tables() == After(old(Tables()), Consume(ticket, at))
      ensures Verdict(error) == Answer(old(Tables()), Consume(ticket, at))
    {
      if ticket.state !in states {
        return Some(NotFound);
      }
      var record := states[ticket.state];
      if record.provider != ProviderName(ticket.provider) {
        return Some(ProviderMismatch);
      }
      if ticket.purpose.Some? && ticket.purpose.value != "" && record.purpose != ticket.purpose.value {
        return Some(PurposeMismatch);
      }
      if record.consumedAt.Some? {
        return Some(AlreadyConsumed);
      }
      if record.expiresAt <= at {
        return Some(Expired);
      }
      if record.nonce != ticket.nonce {
        return Some(NonceMismatch);
      }
      states := states[ticket.state := record.(consumedAt := Some(at))];
      error := None;
    }

    method CleanupExpiredSessions(at: int) returns (count: nat)
      modifies this`sessions
      ensures Tables() == After(old(Tables()), CleanSessions(at))
      ensures Reply.Count(count) == Answer(old(Tables()), CleanSessions(at))
    {
      var rows := set token | token in sessions && sessions[token].expiresAt <= at;
      count := |rows|;
      assert rows == ExpiredSessions(Tables(), at);
      sessions := sessions - rows;
    }

    method CleanupExpiredOAuthStates(at: int) returns (count: nat)
      modifies this`states
      ensures Tables() == After(old(Tables()), CleanStates(at))
      ensures Reply.Count(count) == Answer(old(Tables()), CleanStates(at))
    {
      var rows := set state | state in states && (states[state].expiresAt <= at || states[state].consumedAt.Some?);
      count := |rows|;
      assert rows == SpentStates(Tables(), at);
      states := states - rows;
    }
  }
}
