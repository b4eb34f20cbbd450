/**
 Local accounts: the store's transactions on users and sessions, the request
 handlers with their role floors and per-target checks, and what holds over
 every sequence of requests.
 */
module LocalAuth {
  import opened Prelude
  import opened GoTime
  import opened Authz

  type UserId = nat
  type Token = nat

  /** A member of the default tenant; an account provisioned by single sign-on has no local username. */
  datatype User = User(username: Option<string>, hash: string, role: Role)

  /** The role is a snapshot taken at login. */
  datatype Session = Session(userId: UserId, role: Role, expiresAt: Instant)

  datatype Db = Db(users: map<UserId, User>, sessions: map<Token, Session>)

  datatype Status =
    | Done | Created | BadRequest | Unauthorized | Forbidden | NotFound | Conflict | TooManyRequests | Failed

  datatype Reply = Reply(db: Db, status: Status)

  /** The role a request names: none, one a local account may have, or any other text. */
  datatype RoleText = Unset | Named(role: Role) | Unknown

  predicate ValidRole(r: RoleText) {
    r.Named? && !r.role.Service?
  }

  // ---------------------------------------------------------------------
  // Store transactions
  // ---------------------------------------------------------------------

  ghost predicate UsernameTaken(db: Db, name: string) {
    exists id :: id in db.users && db.users[id].username == Some(name)
  }

  /** Usernames are unique. */
  ghost predicate UniqueNames(db: Db) {
    forall i, j :: i in db.users && j in db.users && db.users[i].username.Some? &&
                   db.users[i].username == db.users[j].username ==>
                   i == j
  }

  ghost function Lookup(db: Db, name: string): (found: Option<UserId>)
    ensures found.Some? <==> UsernameTaken(db, name)
    ensures found.Some? ==> found.value in db.users && db.users[found.value].username == Some(name)
  {
    if UsernameTaken(db, name) then
      var id :| id in db.users && db.users[id].username == Some(name); Some(id)
    else None
  }

  predicate Local(db: Db, id: UserId) {
    id in db.users && db.users[id].username.Some?
  }

  function WithRole(db: Db, role: Role): set<UserId> {
    set id | id in db.users && db.users[id].role == role
  }

  function Revoked(sessions: map<Token, Session>, id: UserId): map<Token, Session> {
    map t | t in sessions && sessions[t].userId != id :: sessions[t]
  }

  /** Any unique violation, of the name or of the generated id, reads as a taken username. */
  ghost function AfterCreateUser(db: Db, id: UserId, name: string, hash: string, role: Role): Option<Db> {
    if UsernameTaken(db, name) || id in db.users then None
    else Some(db.(users := db.users[id := User(Some(name), hash, role)]))
  }

  function AfterDeleteUser(db: Db, id: UserId): Option<Db> {
    if Local(db, id) then Some(Db(db.users - {id}, Revoked(db.sessions, id))) else None
  }

  function AfterSetHash(db: Db, id: UserId, hash: string): Option<Db> {
    if Local(db, id)
    then Some(Db(db.users[id := db.users[id].(hash := hash)], Revoked(db.sessions, id)))
    else None
  }

  function AfterSetRole(db: Db, id: UserId, role: Role): Option<Db> {
    if Local(db, id)
    then Some(Db(db.users[id := db.users[id].(role := role)], Revoked(db.sessions, id)))
    else None
  }

  function AfterCreateSession(db: Db, token: Token, s: Session): Option<Db> {
    if token in db.sessions || s.userId !in db.users then None
    else Some(db.(sessions := db.sessions[token := s]))
  }

  /** A session past its expiry reads as absent. */
  function GetSession(db: Db, token: Option<Token>, now: Instant): Option<Session> {
    if token.Some? && token.value in db.sessions && db.sessions[token.value].expiresAt >= now
    then Some(db.sessions[token.value])
    else None
  }

  // ---------------------------------------------------------------------
  // Requests
  // ---------------------------------------------------------------------

  /**
   A request with what its handling draws from outside: generated ids and
   tokens, the new password hash, the rate limiter's verdict, and whether the
   account can be read back after its role was set.
   */
  datatype Request =
    | Login(name: string, password: string, admitted: bool, token: Token, expiresAt: Instant)
    | Logout
    | CreateUser(name: string, password: string, role: RoleText, id: UserId, hash: string)
    | DeleteUser(id: UserId)
    | SetRole(id: UserId, role: RoleText, reread: bool)
    | ResetPassword(id: UserId, password: string, hash: string)
    | ChangePassword(current: string, new_: string, hash: string)

  datatype Call = Call(token: Option<Token>, now: Instant, request: Request)

  function Floor(r: Request): Option<Role> {
    match r
    case Login(_, _, _, _, _) => None
    case Logout => None
    case CreateUser(_, _, _, _, _) => Some(Admin)
    case DeleteUser(_) => Some(Admin)
    case SetRole(_, _, _) => Some(Owner)
    case ResetPassword(_, _, _) => Some(Admin)
    case ChangePassword(_, _, _) => Some(Viewer)
  }

  type Compare = (string, string) -> bool

  function Or(db: Db, after: Option<Db>, done: Status, otherwise: Status): Reply {
    if after.Some? then Reply(after.value, done) else Reply(db, otherwise)
  }

  ghost function HandleLogin(db: Db, compare: Compare, r: Request): Reply
    requires r.Login?
  {
    if !r.admitted then Reply(db, TooManyRequests)
    else if r.name == "" || r.password == "" then Reply(db, BadRequest)
    else
      var found := Lookup(db, r.name);
      if found.None? || !compare(db.users[found.value].hash, r.password) then Reply(db, Unauthorized)
      else
        var session := Session(found.value, db.users[found.value].role, r.expiresAt);
        Or(db, AfterCreateSession(db, r.token, session), Done, Failed)
  }

  ghost function HandleCreate(db: Db, me: Session, r: Request): Reply
    requires r.CreateUser?
  {
    var role := if r.role.Unset? then Named(Editor) else r.role;
    if r.name == "" || |r.password| < 8 || !ValidRole(role) then Reply(db, BadRequest)
    else if !Satisfies(me.role, Owner) && (role.role.Admin? || role.role.Owner?) then Reply(db, Forbidden)
    else Or(db, AfterCreateUser(db, r.id, r.name, r.hash, role.role), Created, Conflict)
  }

  function HandleDelete(db: Db, me: Session, r: Request): Reply
    requires r.DeleteUser?
  {
    if r.id == me.userId then Reply(db, Conflict)
    else if !Local(db, r.id) then Reply(db, NotFound)
    else
      var target := db.users[r.id];
      if !Satisfies(me.role, Owner) && (target.role.Admin? || target.role.Owner?) then Reply(db, Forbidden)
      else if target.role.Owner? && |WithRole(db, Owner)| <= 1 then Reply(db, Conflict)
      else Or(db, AfterDeleteUser(db, r.id), Done, NotFound)
  }

  function HandleSetRole(db: Db, r: Request): Reply
    requires r.SetRole?
  {
    if !ValidRole(r.role) then Reply(db, BadRequest)
    else if !Local(db, r.id) then Reply(db, NotFound)
    else if db.users[r.id].role.Owner? && !r.role.role.Owner? && |WithRole(db, Owner)| <= 1 then Reply(db, Conflict)
    else Or(db, AfterSetRole(db, r.id, r.role.role), if r.reread then Done else Failed, NotFound)
  }

  /** An empty password asks for a generated one. */
  function HandleReset(db: Db, me: Session, r: Request): Reply
    requires r.ResetPassword?
  {
    if r.id == me.userId then Reply(db, BadRequest)
    else if !Local(db, r.id) then Reply(db, NotFound)
    else if db.users[r.id].role.Owner? && !Satisfies(me.role, Owner) then Reply(db, Forbidden)
    else if r.password != "" && |r.password| < 8 then Reply(db, BadRequest)
    else Or(db, AfterSetHash(db, r.id, r.hash), Done, NotFound)
  }

  function HandleChange(db: Db, compare: Compare, me: Session, r: Request): Reply
    requires r.ChangePassword?
  {
    if |r.new_| < 8 then Reply(db, BadRequest)
    else if !Local(db, me.userId) then Reply(db, NotFound)
    else if !compare(db.users[me.userId].hash, r.current) then Reply(db, BadRequest)
    else Or(db, AfterSetHash(db, me.userId, r.hash), Done, NotFound)
  }

  ghost function Dispatch(db: Db, compare: Compare, me: Session, r: Request): Reply
    requires Floor(r).Some?
  {
    match r
    case CreateUser(_, _, _, _, _) => HandleCreate(db, me, r)
    case DeleteUser(_) => HandleDelete(db, me, r)
    case SetRole(_, _, _) => HandleSetRole(db, r)
    case ResetPassword(_, _, _) => HandleReset(db, me, r)
    case ChangePassword(_, _, _) => HandleChange(db, compare, me, r)
  }

  /** Login and logout are open; everything else needs a live session at or above its floor. */
  ghost function Serve(db: Db, compare: Compare, call: Call): Reply {
    match call.request
    case Login(_, _, _, _, _) => HandleLogin(db, compare, call.request)
    case Logout =>
      Reply(if call.token.Some? then db.(sessions := db.sessions - {call.token.value}) else db, Done)
    case _ =>
      var me := GetSession(db, call.token, call.now);
      if me.None? then Reply(db, Unauthorized)
      else if !Satisfies(me.value.role, Floor(call.request).value) then Reply(db, Forbidden)
      else Dispatch(db, compare, me.value, call.request)
  }

  ghost function ServeAll(db: Db, compare: Compare, calls: seq<Call>): Db
    decreases |calls|
  {
    if calls == [] then db else ServeAll(Serve(db, compare, calls[0]).db, compare, calls[1..])
  }

  // ---------------------------------------------------------------------
  // Every run keeps an owner and fresh sessions
  // ---------------------------------------------------------------------

  ghost predicate FreshSessions(db: Db) {
    forall t :: t in db.sessions ==>
      db.sessions[t].userId in db.users && db.users[db.sessions[t].userId].role == db.sessions[t].role
  }

  ghost predicate Governed(db: Db) {
    WithRole(db, Owner) != {} && FreshSessions(db) && UniqueNames(db)
  }

  lemma DeleteKeepsOwner(db: Db, me: Session, r: Request)
    requires r.DeleteUser? && Governed(db)
    ensures Governed(HandleDelete(db, me, r).db)
  {
    var db' := HandleDelete(db, me, r).db;
    if db' != db {
      var owners := WithRole(db, Owner);
      assert WithRole(db', Owner) == owners - {r.id};
      if r.id in owners {
        assert |owners - {r.id}| == |owners| - 1;
      }
    }
  }

  lemma SetRoleKeepsOwner(db: Db, r: Request)
    requires r.SetRole? && Governed(db)
    ensures Governed(HandleSetRole(db, r).db)
  {
    var db' := HandleSetRole(db, r).db;
    if db' != db {
      var owners := WithRole(db, Owner);
      if r.role.role.Owner? {
        assert r.id in WithRole(db', Owner);
      } else {
        assert WithRole(db', Owner) == owners - {r.id};
        if r.id in owners {
          assert |owners - {r.id}| == |owners| - 1;
        }
      }
    }
  }

  lemma HashKeepsOwner(db: Db, id: UserId, hash: string)
    requires Governed(db) && AfterSetHash(db, id, hash).Some?
    ensures Governed(AfterSetHash(db, id, hash).value)
  {
    assert WithRole(AfterSetHash(db, id, hash).value, Owner) == WithRole(db, Owner);
  }

  lemma CreateKeepsOwner(db: Db, me: Session, r: Request)
    requires r.CreateUser? && Governed(db)
    ensures Governed(HandleCreate(db, me, r).db)
  {
    assert WithRole(db, Owner) <= WithRole(HandleCreate(db, me, r).db, Owner);
  }

  lemma ServeKeepsGoverned(db: Db, compare: Compare, call: Call)
    requires Governed(db)
    ensures Governed(Serve(db, compare, call).db)
  {
    var me := GetSession(db, call.token, call.now);
    var r := call.request;
    var db' := Serve(db, compare, call).db;
    assert db'.users == db.users ==> WithRole(db', Owner) == WithRole(db, Owner);
    if me.Some? {
      match r {
        case CreateUser(_, _, _, _, _) => CreateKeepsOwner(db, me.value, r);
        case DeleteUser(_) => DeleteKeepsOwner(db, me.value, r);
        case SetRole(_, _, _) => SetRoleKeepsOwner(db, r);
        case ResetPassword(id, _, hash) => if Local(db, id) { HashKeepsOwner(db, id, hash); }
        case ChangePassword(_, _, hash) => if Local(db, me.value.userId) { HashKeepsOwner(db, me.value.userId, hash); }
        case Login(_, _, _, _, _) =>
        case Logout =>
      }
    }
  }

  /** Requests that do not overlap never remove the last owner, and no session outlives a change of its user's role. */
  lemma {:induction false} RunsKeepAnOwner(db: Db, compare: Compare, calls: seq<Call>)
    requires Governed(db)
    ensures Governed(ServeAll(db, compare, calls))
    decreases |calls|
  {
    if calls != [] {
      ServeKeepsGoverned(db, compare, calls[0]);
      RunsKeepAnOwner(Serve(db, compare, calls[0]).db, compare, calls[1..]);
    }
  }

  /**
   Two demotions that each pass the last-owner check before either is applied
   leave no owner exactly when they hit the only two.
   */
  lemma OverlappingDemotions(db: Db, a: UserId, b: UserId, r: Role)
    requires a != b && Local(db, a) && Local(db, b) && !r.Owner? && !r.Service?
    requires db.users[a].role.Owner? && db.users[b].role.Owner?
    ensures HandleSetRole(db, SetRole(a, Named(r), true)).status.Done?
    ensures HandleSetRole(db, SetRole(b, Named(r), true)).status.Done?
    ensures WithRole(AfterSetRole(AfterSetRole(db, a, r).value, b, r).value, Owner) == {} <==>
            |WithRole(db, Owner)| == 2
  {
    var owners := WithRole(db, Owner);
    assert WithRole(AfterSetRole(AfterSetRole(db, a, r).value, b, r).value, Owner) == owners - {a} - {b};
    assert |owners - {a}| == |owners| - 1;
    assert |owners - {a} - {b}| == |owners| - 2;
  }

  /**
   A login stores its session with the role it read earlier. Whatever happened in
   between, the sessions stay fresh exactly when the account still has that role.
   */
  lemma LateLogin(db: Db, token: Token, s: Session)
    requires FreshSessions(db) && AfterCreateSession(db, token, s).Some?
    ensures FreshSessions(AfterCreateSession(db, token, s).value) <==> db.users[s.userId].role == s.role
  {
    var db' := AfterCreateSession(db, token, s).value;
    assert db'.sessions[token] == s;
  }

  /**
   So a login that overlaps a change of its account's role leaves a session with
   the old role behind, exactly when the change was one; a deleted account gets none.
   */
  lemma OverlappingLogin(db: Db, id: UserId, role: Role, token: Token, expiresAt: Instant)
    requires FreshSessions(db) && Local(db, id) && token !in db.sessions
    ensures var session := Session(id, db.users[id].role, expiresAt);
            var late := AfterCreateSession(AfterSetRole(db, id, role).value, token, session);
            late.Some? && (FreshSessions(late.value) <==> role == db.users[id].role)
    ensures AfterCreateSession(AfterDeleteUser(db, id).value, token, Session(id, db.users[id].role, expiresAt)).None?
  {
    var changed := AfterSetRole(db, id, role).value;
    assert FreshSessions(changed);
    LateLogin(changed, token, Session(id, db.users[id].role, expiresAt));
  }

  // ---------------------------------------------------------------------
  // What one request may change
  // ---------------------------------------------------------------------

  /**
   A request not answered with success changed nothing, with one exception: a
   role that was set although reading the account back failed.
   */
  lemma RefusalsChangeNothing(db: Db, compare: Compare, call: Call)
    ensures var reply := Serve(db, compare, call);
            !reply.status.Done? && !reply.status.Created? && !(call.request.SetRole? && reply.status.Failed?) ==>
              reply.db == db
    ensures var reply := Serve(db, compare, call);
            call.request.SetRole? && reply.status.Failed? ==>
              !call.request.reread && call.request.role.Named? &&
              AfterSetRole(db, call.request.id, call.request.role.role) == Some(reply.db)
  {
  }

  /** A login adds at most one session: under the account's own password, with the account's current role. */
  lemma LoginNeedsThePassword(db: Db, compare: Compare, call: Call)
    requires call.request.Login? && UniqueNames(db) && Serve(db, compare, call).db != db
    ensures exists id :: && id in db.users && db.users[id].username == Some(call.request.name)
                         && compare(db.users[id].hash, call.request.password) && call.request.admitted
                         && Serve(db, compare, call).db
                            == db.(sessions := db.sessions[call.request.token :=
                                     Session(id, db.users[id].role, call.request.expiresAt)])
                         && call.request.token !in db.sessions
  {
    var id := Lookup(db, call.request.name).value;
    assert id in db.users && db.users[id].username == Some(call.request.name);
  }

  /** The account a request acts on. */
  function TargetOf(me: Session, r: Request): Option<UserId> {
    match r
    case CreateUser(_, _, _, id, _) => Some(id)
    case DeleteUser(id) => Some(id)
    case SetRole(id, _, _) => Some(id)
    case ResetPassword(id, _, _) => Some(id)
    case ChangePassword(_, _, _) => Some(me.userId)
    case _ => None
  }

  /**
   A request that goes through touches only its target account, leaves no old
   session of a changed or deleted account alive, and takes no one else's.
   */
  lemma OnlyTheTarget(db: Db, compare: Compare, me: Session, r: Request)
    requires Floor(r).Some?
    ensures var db', id := Dispatch(db, compare, me, r).db, TargetOf(me, r).value;
            && (forall u :: u != id ==>
                  (u in db'.users <==> u in db.users) && (u in db.users ==> db'.users[u] == db.users[u]))
            && (forall t :: t in db'.sessions ==> t in db.sessions && db'.sessions[t] == db.sessions[t])
            && (forall t :: t in db.sessions && db.sessions[t].userId != id ==> t in db'.sessions)
            && (db' != db && !r.CreateUser? ==> forall t :: t in db'.sessions ==> db'.sessions[t].userId != id)
  {
  }

  // ---------------------------------------------------------------------
  // Exactly which requests go through
  // ---------------------------------------------------------------------

  /** The request is made under a stored session that has not expired. */
  predicate Live(db: Db, call: Call) {
    call.token.Some? && call.token.value in db.sessions && call.now <= db.sessions[call.token.value].expiresAt
  }

  /** The session the request is made under. */
  function Caller(db: Db, call: Call): Session
    requires Live(db, call)
  {
    db.sessions[call.token.value]
  }

  predicate ByOwner(db: Db, call: Call) {
    Live(db, call) && Caller(db, call).role == Owner
  }

  predicate ByManager(db: Db, call: Call) {
    Live(db, call) && (Caller(db, call).role == Admin || Caller(db, call).role == Owner)
  }

  predicate IsManager(r: Role) {
    r == Admin || r == Owner
  }

  /** Admins and owners create accounts, editors unless another role is named; only owners create admins and owners. */
  lemma CreatesExactly(db: Db, compare: Compare, call: Call)
    requires call.request.CreateUser?
    ensures var reply, r := Serve(db, compare, call), call.request;
            var role := if r.role.Unset? then Editor else if r.role.Named? then r.role.role else Service;
            && (reply.status.Created? <==>
                  && ByManager(db, call) && r.name != "" && |r.password| >= 8
                  && role != Service && (IsManager(role) ==> ByOwner(db, call))
                  && !UsernameTaken(db, r.name) && r.id !in db.users)
            && (reply.status.Created? ==> reply.db == db.(users := db.users[r.id := User(Some(r.name), r.hash, role)]))
  {
  }

  /** Admins and owners delete other local accounts; only owners delete admins and owners, and never the last owner. */
  lemma DeletesExactly(db: Db, compare: Compare, call: Call)
    requires call.request.DeleteUser?
    ensures var reply, id := Serve(db, compare, call), call.request.id;
            && (reply.status.Done? <==>
                  && ByManager(db, call) && id != Caller(db, call).userId && Local(db, id)
                  && (IsManager(db.users[id].role) ==> ByOwner(db, call))
                  && (db.users[id].role == Owner ==> |WithRole(db, Owner)| > 1))
            && (reply.status.Done? ==> reply.db.users == db.users - {id})
  {
  }

  /** Only owners set roles, of local accounts, and never of the last owner to another one. */
  lemma SetsRoleExactly(db: Db, compare: Compare, call: Call)
    requires call.request.SetRole?
    ensures var reply, r := Serve(db, compare, call), call.request;
            && (reply.status.Done? <==>
                  && ByOwner(db, call) && r.role.Named? && r.role.role != Service && Local(db, r.id) && r.reread
                  && (db.users[r.id].role == Owner && r.role.role != Owner ==> |WithRole(db, Owner)| > 1))
            && (reply.status.Done? ==>
                  reply.db.users == db.users[r.id := db.users[r.id].(role := r.role.role)])
  {
  }

  /** Admins and owners reset the passwords of other local accounts; an owner's only owners do. */
  lemma ResetsExactly(db: Db, compare: Compare, call: Call)
    requires call.request.ResetPassword?
    ensures var reply, r := Serve(db, compare, call), call.request;
            && (reply.status.Done? <==>
                  && ByManager(db, call) && r.id != Caller(db, call).userId && Local(db, r.id)
                  && (db.users[r.id].role == Owner ==> ByOwner(db, call))
                  && (r.password == "" || |r.password| >= 8))
            && (reply.status.Done? ==> reply.db.users == db.users[r.id := db.users[r.id].(hash := r.hash)])
  {
  }

  /** Anyone signed in to a local account changes its password, knowing the current one. */
  lemma ChangesExactly(db: Db, compare: Compare, call: Call)
    requires call.request.ChangePassword?
    ensures var reply, r := Serve(db, compare, call), call.request;
            && (reply.status.Done? <==>
                  && Live(db, call) && Caller(db, call).role != Service && Local(db, Caller(db, call).userId)
                  && |r.new_| >= 8 && compare(db.users[Caller(db, call).userId].hash, r.current))
            && (reply.status.Done? ==>
                  var id := Caller(db, call).userId;
                  reply.db.users == db.users[id := db.users[id].(hash := r.hash)])
  {
  }

  /** An attempt the limiter lets through signs in exactly with the account's name and password. */
  lemma SignsInExactly(db: Db, compare: Compare, call: Call, id: UserId)
    requires call.request.Login? && UniqueNames(db)
    requires id in db.users && db.users[id].username == Some(call.request.name)
    ensures var reply, r := Serve(db, compare, call), call.request;
            && (reply.status.Done? <==>
                  && r.admitted && r.name != "" && r.password != "" && r.token !in db.sessions
                  && compare(db.users[id].hash, r.password))
            && (reply.status.Done? ==>
                  reply.db == db.(sessions := db.sessions[r.token := Session(id, db.users[id].role, r.expiresAt)]))
  {
    assert Lookup(db, call.request.name).Some?;
  }

  /** The request stored a new password hash for account `id`. */
  ghost predicate StoresHash(db: Db, compare: Compare, call: Call, id: UserId) {
    var reply, r := Serve(db, compare, call), call.request;
    || (r.CreateUser? && reply.status.Created? && r.id == id)
    || (r.ResetPassword? && reply.status.Done? && r.id == id)
    || (r.ChangePassword? && reply.status.Done? && Caller(db, call).userId == id)
  }

  function HashOf(r: Request): string
    requires r.CreateUser? || r.ResetPassword? || r.ChangePassword?
  {
    r.hash
  }

  /** From then on signing in to the account needs the new password. */
  lemma NewPasswordIsNeeded(db: Db, compare: Compare, call: Call, id: UserId, login: Call)
    requires Governed(db) && Floor(call.request).Some? && (call.request.ChangePassword? ==> Live(db, call))
    requires StoresHash(db, compare, call, id) && login.request.Login?
    requires id in Serve(db, compare, call).db.users
    requires Serve(db, compare, call).db.users[id].username == Some(login.request.name)
    ensures var after, r := Serve(db, compare, call).db, login.request;
            Serve(after, compare, login).status.Done? <==>
              && r.admitted && r.name != "" && r.password != "" && r.token !in after.sessions
              && compare(HashOf(call.request), r.password)
  {
    ServeKeepsGoverned(db, compare, call);
    match call.request {
      case CreateUser(_, _, _, _, _) => CreatesExactly(db, compare, call);
      case ResetPassword(_, _, _) => ResetsExactly(db, compare, call);
      case ChangePassword(_, _, _) => ChangesExactly(db, compare, call);
      case _ =>
    }
    SignsInExactly(Serve(db, compare, call).db, compare, login, id);
  }

  /** Signing out ends the session it is made under and no other. */
  lemma SignsOut(db: Db, compare: Compare, call: Call, other: Call)
    requires call.request.Logout? && call.token.Some?
    ensures var after := Serve(db, compare, call).db;
            && after.users == db.users
            && (Live(after, other) <==> Live(db, other) && other.token != call.token)
            && (Live(after, other) ==> Caller(after, other) == Caller(db, other))
  {
  }

  /** Who has an account, under which name and with which role. */
  function Accounts(db: Db): map<UserId, (Option<string>, Role)> {
    map id | id in db.users :: (db.users[id].username, db.users[id].role)
  }

  ghost predicate RunNotByManager(db: Db, compare: Compare, calls: seq<Call>)
    decreases |calls|
  {
    calls == [] ||
    (!ByManager(db, calls[0]) && RunNotByManager(Serve(db, compare, calls[0]).db, compare, calls[1..]))
  }

  lemma AccountsKept(db: Db, compare: Compare, call: Call)
    requires !ByManager(db, call)
    ensures Accounts(Serve(db, compare, call).db) == Accounts(db)
  {
    if call.request.ChangePassword? {
      ChangesExactly(db, compare, call);
      RefusalsChangeNothing(db, compare, call);
    }
  }

  /** Without a request under an admin's or an owner's session no account appears, disappears or changes its role. */
  lemma {:induction false} AccountsPreserved(db: Db, compare: Compare, calls: seq<Call>)
    requires RunNotByManager(db, compare, calls)
    ensures Accounts(ServeAll(db, compare, calls)) == Accounts(db)
    decreases |calls|
  {
    if calls != [] {
      AccountsKept(db, compare, calls[0]);
      AccountsPreserved(Serve(db, compare, calls[0]).db, compare, calls[1..]);
    }
  }

  // ---------------------------------------------------------------------
  // Runs without an owner's session
  // ---------------------------------------------------------------------

  /** Who holds admin or owner. */
  function Privileged(db: Db): map<UserId, Role> {
    map id | id in db.users && (db.users[id].role.Admin? || db.users[id].role.Owner?) :: db.users[id].role
  }

  function OwnerHashes(db: Db): map<UserId, string> {
    map id | id in db.users && db.users[id].role.Owner? :: db.users[id].hash
  }

  /** The request is not made under a live session with the owner role. */
  predicate NotByOwner(db: Db, call: Call) {
    var me := GetSession(db, call.token, call.now);
    me.Some? ==> !me.value.role.Owner?
  }

  ghost predicate RunNotByOwner(db: Db, compare: Compare, calls: seq<Call>)
    decreases |calls|
  {
    calls == [] || (NotByOwner(db, calls[0]) && RunNotByOwner(Serve(db, compare, calls[0]).db, compare, calls[1..]))
  }

  lemma SamePrivilege(db: Db, db': Db)
    requires forall id :: id in db.users && (db.users[id].role.Admin? || db.users[id].role.Owner?) ==>
               id in db'.users && db'.users[id].role == db.users[id].role &&
               (db.users[id].role.Owner? ==> db'.users[id].hash == db.users[id].hash)
    requires forall id :: id in db'.users && (db'.users[id].role.Admin? || db'.users[id].role.Owner?) ==>
               id in db.users && db.users[id].role == db'.users[id].role
    ensures Privileged(db') == Privileged(db) && OwnerHashes(db') == OwnerHashes(db)
  {
  }

  lemma ServeKeepsPrivilege(db: Db, compare: Compare, call: Call)
    requires Governed(db) && NotByOwner(db, call)
    ensures Privileged(Serve(db, compare, call).db) == Privileged(db)
    ensures OwnerHashes(Serve(db, compare, call).db) == OwnerHashes(db)
  {
    var me := GetSession(db, call.token, call.now);
    var db' := Serve(db, compare, call).db;
    match call.request
    case Login(_, _, _, _, _) => SameUsers(db, db');
    case Logout => SameUsers(db, db');
    case SetRole(_, _, _) => SameUsers(db, db');
    case _ =>
      if me.Some? {
        assert db.users[me.value.userId].role == me.value.role;
        DispatchKeepsPrivilege(db, compare, me.value, call.request);
      }
  }

  lemma SameUsers(db: Db, db': Db)
    requires db'.users == db.users
    ensures Privileged(db') == Privileged(db) && OwnerHashes(db') == OwnerHashes(db)
  {
  }

  lemma HashKeepsPrivilege(db: Db, id: UserId, hash: string)
    requires Local(db, id) && !db.users[id].role.Owner?
    ensures var db' := AfterSetHash(db, id, hash).value;
            Privileged(db') == Privileged(db) && OwnerHashes(db') == OwnerHashes(db)
  {
    SamePrivilege(db, AfterSetHash(db, id, hash).value);
  }

  lemma DispatchKeepsPrivilege(db: Db, compare: Compare, me: Session, r: Request)
    requires Floor(r).Some? && !r.SetRole? && !me.role.Owner?
    requires me.userId in db.users ==> db.users[me.userId].role == me.role
    ensures Privileged(Dispatch(db, compare, me, r).db) == Privileged(db)
    ensures OwnerHashes(Dispatch(db, compare, me, r).db) == OwnerHashes(db)
  {
    match r
    case CreateUser(_, _, _, _, _) => SamePrivilege(db, HandleCreate(db, me, r).db);
    case DeleteUser(_) => SamePrivilege(db, HandleDelete(db, me, r).db);
    case ResetPassword(id, _, hash) =>
      if Local(db, id) && !db.users[id].role.Owner? {
        HashKeepsPrivilege(db, id, hash);
      }
    case ChangePassword(_, _, hash) =>
      if Local(db, me.userId) {
        HashKeepsPrivilege(db, me.userId, hash);
      }
  }

  /**
   Without a request under an owner's session, nobody gains or loses the admin
   or owner role, and no owner's password changes.
   */
  lemma {:induction false} PrivilegePreserved(db: Db, compare: Compare, calls: seq<Call>)
    requires Governed(db) && RunNotByOwner(db, compare, calls)
    ensures Privileged(ServeAll(db, compare, calls)) == Privileged(db)
    ensures OwnerHashes(ServeAll(db, compare, calls)) == OwnerHashes(db)
    decreases |calls|
  {
    if calls != [] {
      ServeKeepsGoverned(db, compare, calls[0]);
      ServeKeepsPrivilege(db, compare, calls[0]);
      PrivilegePreserved(Serve(db, compare, calls[0]).db, compare, calls[1..]);
    }
  }

  // ---------------------------------------------------------------------
  // The store and the handlers
  // ---------------------------------------------------------------------

  class Store {
    var users: map<UserId, User>
    var sessions: map<Token, Session>

    ghost function Now(): Db
      reads this
    {
      Db(users, sessions)
    }

    constructor (db: Db)
      ensures Now() == db
    {
      users, sessions := db.users, db.sessions;
    }

    method GetUserByName(name: string) returns (found: Option<UserId>)
      requires UniqueNames(Now())
      ensures found == Lookup(Now(), name)
    {
      if id :| id in users && users[id].username == Some(name) {
        return Some(id);
      }
      return None;
    }

    method InsertUser(id: UserId, name: string, hash: string, role: Role) returns (ok: bool)
      requires UniqueNames(Now())
      modifies `users
      ensures ok == AfterCreateUser(old(Now()), id, name, hash, role).Some?
      ensures Now() == if ok then AfterCreateUser(old(Now()), id, name, hash, role).value else old(Now())
    {
      var taken := GetUserByName(name);
      if taken.Some? || id in users {
        return false;
      }
      users := users[id := User(Some(name), hash, role)];
      return true;
    }

    /** Removes the row; its sessions go with it. */
    method DeleteUser(id: UserId) returns (ok: bool)
      modifies this
      ensures ok == AfterDeleteUser(old(Now()), id).Some?
      ensures Now() == if ok then AfterDeleteUser(old(Now()), id).value else old(Now())
    {
      if id !in users || users[id].username.None? {
        return false;
      }
      users := users - {id};
      RevokeSessions(id);
      return true;
    }

    method RevokeSessions(id: UserId)
      modifies `sessions
      ensures sessions == Revoked(old(sessions), id)
    {
      sessions := map t | t in sessions && sessions[t].userId != id :: sessions[t];
    }

    method SetPasswordHash(id: UserId, hash: string) returns (ok: bool)
      modifies this
      ensures ok == AfterSetHash(old(Now()), id, hash).Some?
      ensures Now() == if ok then AfterSetHash(old(Now()), id, hash).value else old(Now())
    {
      if id !in users || users[id].username.None? {
        return false;
      }
      users := users[id := users[id].(hash := hash)];
      RevokeSessions(id);
      return true;
    }

    method SetRole(id: UserId, role: Role) returns (ok: bool)
      modifies this
      ensures ok == AfterSetRole(old(Now()), id, role).Some?
      ensures Now() == if ok then AfterSetRole(old(Now()), id, role).value else old(Now())
    {
      if id !in users || users[id].username.None? {
        return false;
      }
      users := users[id := users[id].(role := role)];
      RevokeSessions(id);
      return true;
    }

    method CreateSession(token: Token, s: Session) returns (ok: bool)
      modifies `sessions
      ensures ok == AfterCreateSession(old(Now()), token, s).Some?
      ensures Now() == if ok then AfterCreateSession(old(Now()), token, s).value else old(Now())
    {
      if token in sessions || s.userId !in users {
        return false;
      }
      sessions := sessions[token := s];
      return true;
    }

    method CountUsersWithRole(role: Role) returns (n: nat)
      ensures n == |WithRole(Now(), role)|
    {
      n := |WithRole(Db(users, sessions), role)|;
    }
  }

  class Handler {
    const store: Store
    const compare: Compare

    constructor (store: Store, compare: Compare)
      ensures this.store == store && this.compare == compare
    {
      this.store, this.compare := store, compare;
    }

    method LogIn(r: Request) returns (status: Status)
      requires r.Login? && UniqueNames(store.Now())
      modifies store
      ensures Reply(store.Now(), status) == HandleLogin(old(store.Now()), compare, r)
    {
      if !r.admitted {
        return TooManyRequests;
      }
      if r.name == "" || r.password == "" {
        return BadRequest;
      }
      var found := store.GetUserByName(r.name);
      if found.None? {
        return Unauthorized;
      }
      var user := store.users[found.value];
      if !compare(user.hash, r.password) {
        return Unauthorized;
      }
      var ok := store.CreateSession(r.token, Session(found.value, user.role, r.expiresAt));
      return if ok then Done else Failed;
    }

    method Create(me: Session, r: Request) returns (status: Status)
      requires r.CreateUser? && UniqueNames(store.Now())
      modifies store
      ensures Reply(store.Now(), status) == HandleCreate(old(store.Now()), me, r)
    {
      if r.name == "" {
        return BadRequest;
      }
      if |r.password| < 8 {
        return BadRequest;
      }
      var role := r.role;
      if role.Unset? {
        role := Named(Editor);
      }
      if !ValidRole(role) {
        return BadRequest;
      }
      if !Satisfies(me.role, Owner) {
        if role.role.Admin? || role.role.Owner? {
          return Forbidden;
        }
      }
      var ok := store.InsertUser(r.id, r.name, r.hash, role.role);
      return if ok then Created else Conflict;
    }

    method Delete(me: Session, r: Request) returns (status: Status)
      requires r.DeleteUser?
      modifies store
      ensures Reply(store.Now(), status) == HandleDelete(old(store.Now()), me, r)
    {
      if r.id == me.userId {
        return Conflict;
      }
      if !Local(Db(store.users, store.sessions), r.id) {
        return NotFound;
      }
      var target := store.users[r.id];
      if !Satisfies(me.role, Owner) {
        if target.role.Admin? || target.role.Owner? {
          return Forbidden;
        }
      }
      if target.role.Owner? {
        var owners := store.CountUsersWithRole(Owner);
        if owners <= 1 {
          return Conflict;
        }
      }
      var ok := store.DeleteUser(r.id);
      return if ok then Done else NotFound;
    }

    method ChangeRole(r: Request) returns (status: Status)
      requires r.SetRole?
      modifies store
      ensures Reply(store.Now(), status) == HandleSetRole(old(store.Now()), r)
    {
      if !ValidRole(r.role) {
        return BadRequest;
      }
      if !Local(Db(store.users, store.sessions), r.id) {
        return NotFound;
      }
      if store.users[r.id].role.Owner? && !r.role.role.Owner? {
        var owners := store.CountUsersWithRole(Owner);
        if owners <= 1 {
          return Conflict;
        }
      }
      var ok := store.SetRole(r.id, r.role.role);
      if !ok {
        return NotFound;
      }
      return if r.reread then Done else Failed;
    }

    method Reset(me: Session, r: Request) returns (status: Status)
      requires r.ResetPassword?
      modifies store
      ensures Reply(store.Now(), status) == HandleReset(old(store.Now()), me, r)
    {
      if r.id == me.userId {
        return BadRequest;
      }
      if !Local(Db(store.users, store.sessions), r.id) {
        return NotFound;
      }
      if store.users[r.id].role.Owner? && !Satisfies(me.role, Owner) {
        return Forbidden;
      }
      if r.password != "" && |r.password| < 8 {
        return BadRequest;
      }
      var ok := store.SetPasswordHash(r.id, r.hash);
      return if ok then Done else NotFound;
    }

    method ChangeOwn(me: Session, r: Request) returns (status: Status)
      requires r.ChangePassword?
      modifies store
      ensures Reply(store.Now(), status) == HandleChange(old(store.Now()), compare, me, r)
    {
      if |r.new_| < 8 {
        return BadRequest;
      }
      if !Local(Db(store.users, store.sessions), me.userId) {
        return NotFound;
      }
      if !compare(store.users[me.userId].hash, r.current) {
        return BadRequest;
      }
      var ok := store.SetPasswordHash(me.userId, r.hash);
      return if ok then Done else NotFound;
    }

    /** A request through its route: authentication, role floor, handler. */
    method Handle(call: Call) returns (status: Status)
      requires UniqueNames(store.Now())
      modifies store
      ensures Reply(store.Now(), status) == Serve(old(store.Now()), compare, call)
    {
      var r := call.request;
      if r.Login? {
        status := LogIn(r);
        return;
      }
      if r.Logout? {
        if call.token.Some? {
          store.sessions := store.sessions - {call.token.value};
        }
        return Done;
      }
      var me := GetSession(Db(store.users, store.sessions), call.token, call.now);
      if me.None? {
        return Unauthorized;
      }
      if !Satisfies(me.value.role, Floor(r).value) {
        return Forbidden;
      }
      match r
      case CreateUser(_, _, _, _, _) => status := Create(me.value, r);
      case DeleteUser(_) => status := Delete(me.value, r);
      case SetRole(_, _, _) => status := ChangeRole(r);
      case ResetPassword(_, _, _) => status := Reset(me.value, r);
      case ChangePassword(_, _, _) => status := ChangeOwn(me.value, r);
    }
  }
}
