/**
 * The account endpoints under `/api/auth`: sign-in with the optional
 * remember-me, e-mail sign-up, the current-user probe and sign-out.
 */
module UserController {
  import opened Js
  import opened Entities
  import opened Spring
  import opened UserService

  /** The JSON body of `login`; `rememberMe` is read as a `Boolean` when present. */
  datatype LoginRequest = LoginRequest(email: Option<string>, password: Option<string>, rememberMe: Option<bool>)

  /** `60 * 60 * 24`: one day, in seconds. */
  const REMEMBER_ME_SECONDS: int := 86400

  const DUPLICATE_EMAIL := "이메일이 중복되었습니다."
  const CHECK_CREDENTIALS := "이메일 또는 비밀번호를 확인하세요."
  const LOGGED_OUT := "로그아웃 성공"

  /** The entity `register` builds: name, e-mail and password from the body, sign-in kind 0, nothing else. */
  function NewUser(request: UserEntity): (u: UserEntity)
    ensures u.name == request.name && u.email == request.email && u.password == request.password
    ensures u.oAuth == Some(0) && u.userIdx == None
    ensures u.depart == None && u.phone == None && u.level == None && u.joinedAt == None
  {
    BlankUser.(name := request.name, email := request.email, password := request.password, oAuth := Some(0))
  }

  /**
   * The status `register` answers with, as written: 409 when the body's
   * own (email, OAuth) pair is taken; otherwise the service is asked to
   * register the new entity with OAuth 0, which answers 200 when that pair
   * is free and 400 when it is taken.
   */
  function RegisterStatus(users: seq<UserEntity>, request: UserEntity): (status: int)
    ensures status in {OK, BAD_REQUEST, CONFLICT}
    ensures status == CONFLICT <==> ExistsLogin(users, request.email, request.oAuth)
    ensures status == OK <==> !ExistsLogin(users, request.email, request.oAuth) && !ExistsLogin(users, request.email, Some(0))
  {
    if ExistsLogin(users, request.email, request.oAuth) then CONFLICT
    else if ExistsLogin(users, NewUser(request).email, NewUser(request).oAuth) then BAD_REQUEST
    else OK
  }

  /**
   * A sign-up body carries no `OAuth` field, so the duplicate check looks
   * for a row whose sign-in kind is `NULL`; no stored row has one, and an
   * e-mail that is already registered is answered with 400, never 409.
   */
  lemma DuplicateSignUpIsBadRequest(users: seq<UserEntity>, request: UserEntity)
    requires request.oAuth == None
    requires forall i :: 0 <= i < |users| ==> users[i].oAuth.Some?
    ensures RegisterStatus(users, request) != CONFLICT
    ensures ExistsLogin(users, request.email, Some(0)) ==> RegisterStatus(users, request) == BAD_REQUEST
  {
  }

  /** The same on one concrete table: an e-mail account exists and the same e-mail signs up again. */
  lemma DuplicateSignUpExample()
    ensures RegisterStatus([BlankUser.(userIdx := Some(1), email := Some("a@b.c"), oAuth := Some(0))], BlankUser.(email := Some("a@b.c"))) == BAD_REQUEST
  {
    var u := BlankUser.(userIdx := Some(1), email := Some("a@b.c"), oAuth := Some(0));
    assert HasLogin([u][0], Some("a@b.c"), Some(0));
  }

  /** The evidently intended status: check the pair that is actually stored, (email, 0). */
  function RegisterStatusIntended(users: seq<UserEntity>, request: UserEntity): (status: int)
    ensures status == CONFLICT <==> ExistsLogin(users, request.email, Some(0))
    ensures status == OK <==> !ExistsLogin(users, request.email, Some(0))
  {
    if ExistsLogin(users, request.email, Some(0)) then CONFLICT else OK
  }

  /**
   * With the intended check, a duplicate e-mail sign-up is reported as a
   * conflict, and every sign-up that gets 200 is one the service saves.
   */
  lemma RegisterIntendedMatchesService(users: seq<UserEntity>, request: UserEntity)
    ensures RegisterStatusIntended(users, request) == CONFLICT <==> ExistsLogin(users, NewUser(request).email, NewUser(request).oAuth)
    ensures RegisterStatusIntended(users, request) == OK ==> !ExistsLogin(users, NewUser(request).email, NewUser(request).oAuth)
    ensures request.oAuth == Some(0) ==> RegisterStatus(users, request) == RegisterStatusIntended(users, request)
  {
  }

  /**
   * `login`: the body's e-mail and password are looked up. One match: the
   * user is put in the session (and with remember-me the session lasts a
   * day) and the answer is 200 with that user. No match: 401 with an empty
   * list and the session untouched. Several matches: the lookup throws
   * (500), the session untouched.
   */
  method Login(users: UserStore, session: Session, req: LoginRequest) returns (status: int, body: seq<UserEntity>)
    modifies session
    ensures FindAllByEmailAndPassword(users.users, req.email, req.password).OneRow? ==>
      var user := FindAllByEmailAndPassword(users.users, req.email, req.password).row;
      status == OK && body == [user] && session.user == Some(user) &&
      session.maxInactiveInterval == (if IsTrue(req.rememberMe) then REMEMBER_ME_SECONDS else old(session.maxInactiveInterval))
    ensures FindAllByEmailAndPassword(users.users, req.email, req.password).NoRow? ==> status == UNAUTHORIZED && body == []
    ensures FindAllByEmailAndPassword(users.users, req.email, req.password).ManyRows? ==> status == INTERNAL_SERVER_ERROR && body == []
    ensures status != OK ==> session.user == old(session.user) && session.maxInactiveInterval == old(session.maxInactiveInterval)
    ensures session.invalidated == old(session.invalidated)
    ensures status == OK ==> body[0] in users.users && body[0].email == req.email && body[0].password == req.password
  {
    var rememberMe := IsTrue(req.rememberMe);
    var found := users.Login(BlankUser.(email := req.email, password := req.password));
    match found
    case OneRow(user) =>
      session.user := Some(user);
      if rememberMe {
        session.maxInactiveInterval := REMEMBER_ME_SECONDS;
      }
      status, body := OK, [user];
    case NoRow =>
      status, body := UNAUTHORIZED, [];
    case ManyRows =>
      status, body := INTERNAL_SERVER_ERROR, [];
  }

  /**
   * `register`: 409 and nothing saved when `check` finds the body's own
   * (email, OAuth) pair; otherwise the new entity with OAuth 0 goes to the
   * service, and its `"success"` becomes 200, anything else 400. The status
   * is `RegisterStatus`; only a 200 changes the table, and registration
   * keeps logins unique.
   */
  method Register(users: UserStore, request: UserEntity) returns (status: int, message: string)
    requires users.Valid()
    modifies users
    ensures status == RegisterStatus(old(users.users), request)
    ensures status == CONFLICT ==> message == DUPLICATE_EMAIL
    ensures status == OK ==> message == "success" && users.users == AfterSave(old(users.users), old(users.nextIdx), NewUser(request))
    ensures status == BAD_REQUEST ==> message == CHECK_CREDENTIALS
    ensures status != OK ==> users.users == old(users.users) && users.nextIdx == old(users.nextIdx)
    ensures old(UniqueLogins(users.users)) ==> UniqueLogins(users.users)
    ensures users.Valid()
  {
    var check := users.Check(request);
    if check {
      return CONFLICT, DUPLICATE_EMAIL;
    }
    var entity := NewUser(request);
    var result := users.Register(entity);
    if result == "success" {
      status, message := OK, "success";
    } else {
      status, message := BAD_REQUEST, CHECK_CREDENTIALS;
    }
  }

  /** `/me`: 200 with the session user exactly when there is one, otherwise 401 with an empty list. */
  method GetCurrentUser(session: Session) returns (status: int, body: seq<UserEntity>)
    ensures session.user.Some? <==> status == OK
    ensures session.user.Some? ==> body == [session.user.value]
    ensures session.user.None? ==> status == UNAUTHORIZED && body == []
  {
    if session.user.Some? {
      return OK, [session.user.value];
    }
    return UNAUTHORIZED, [];
  }

  /** `logout`: the session is invalidated, which drops its user; the answer is 200 with its message. */
  method Logout(session: Session) returns (status: int, message: string)
    modifies session
    ensures session.invalidated && session.user == None && status == OK && message == LOGGED_OUT
    ensures session.maxInactiveInterval == old(session.maxInactiveInterval)
  {
    session.invalidated := true;
    session.user := None;
    status, message := OK, LOGGED_OUT;
  }
}
