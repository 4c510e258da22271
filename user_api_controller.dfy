/**
 * The credential endpoints under `/api/auth`: add a key, list the caller's
 * keys, delete one by URL. Each handler checks the session first, then its
 * input, and only then touches the table.
 */
module UserApiController {
  import opened Js
  import opened Entities
  import opened Spring
  import opened UserApiService
  import ApiKeyModal

  /** The JSON body of `addApi`; either field may be missing. */
  datatype AddApiRequest = AddApiRequest(apiTitle: Option<string>, apiURL: Option<string>)

  /** A status code with the `"message"` of a single-entry JSON body. */
  datatype Reply = Reply(status: int, message: string)

  const LOGIN_REQUIRED := "로그인이 필요합니다."
  const FIELDS_REQUIRED := "API 이름과 URL을 모두 입력해주세요."
  const SAVED := "API가 성공적으로 저장되었습니다."
  const DELETED := "API 키가 삭제되었습니다."
  const NOT_FOUND := "API 키를 찾을 수 없습니다."

  /** `addApi`'s field check: a missing or empty title or URL is refused; nothing is trimmed. */
  predicate FieldsPresent(req: AddApiRequest) {
    HasText(req.apiTitle) && HasText(req.apiURL)
  }

  /**
   * The field check accepts a title of white space only, which the add-key
   * dialog's trimmed guard would never send.
   */
  lemma BlankTitlePasses(title: string, url: string)
    requires title != "" && url != "" && AllWhitespace(title)
    ensures FieldsPresent(AddApiRequest(Some(title), Some(url)))
    ensures ApiKeyModal.SaveBlocked(url, title)
  {
    ApiKeyModal.SaveBlockedIffBlank(url, title);
  }

  /**
   * `addApi`: without a session user, 401 and nothing saved; with one, a
   * missing or empty field gives 400 and nothing saved; otherwise one row
   * is saved for the session user and the answer is 200.
   */
  method AddApi(store: UserApiStore, session: Session, req: AddApiRequest, now: int) returns (reply: Reply)
    requires store.Valid()
    modifies store
    ensures session.user.None? ==> reply == Reply(UNAUTHORIZED, LOGIN_REQUIRED)
    ensures session.user.Some? && !FieldsPresent(req) ==> reply == Reply(BAD_REQUEST, FIELDS_REQUIRED)
    ensures session.user.Some? && FieldsPresent(req) ==> reply == Reply(OK, SAVED)
    ensures reply.status != OK ==> store.rows == old(store.rows) && store.nextIdx == old(store.nextIdx)
    ensures reply.status == OK ==>
      store.rows == old(store.rows) + [UserApiEntity(Some(old(store.nextIdx)), session.user.value.userIdx, req.apiTitle, req.apiURL, Some(now), None)]
    ensures store.Valid()
  {
    if session.user.None? {
      return Reply(UNAUTHORIZED, LOGIN_REQUIRED);
    }
    if !FieldsPresent(req) {
      return Reply(BAD_REQUEST, FIELDS_REQUIRED);
    }
    var saved := store.SaveUserApi(session.user.value.userIdx, req.apiTitle, req.apiURL.value, now);
    reply := Reply(OK, SAVED);
  }

  /** `getUserApis`: 401 without a session user, otherwise 200 with exactly that user's rows in table order. */
  method GetUserApis(store: UserApiStore, session: Session) returns (status: int, apis: Option<seq<UserApiEntity>>)
    ensures session.user.None? ==> status == UNAUTHORIZED && apis == None
    ensures session.user.Some? ==> status == OK && apis == Some(ApisOf(store.rows, session.user.value.userIdx))
    ensures apis.Some? ==> forall x :: x in apis.value <==> x in store.rows && x.userIdx == session.user.value.userIdx
  {
    if session.user.None? {
      return UNAUTHORIZED, None;
    }
    var list := store.GetApisByUser(session.user.value.userIdx);
    return OK, Some(list);
  }

  /**
   * `deleteApi(apiURL)`: status 200 with a message. Without a session user the
   * message asks to sign in and nothing is deleted; otherwise the message
   * says deleted exactly when the service deleted the caller's row, and
   * not found when the caller had no row with that URL. When the caller
   * has several, the lookup throws and the answer is 500.
   */
  method DeleteApi(store: UserApiStore, session: Session, apiURL: string) returns (reply: Reply)
    requires store.Valid()
    modifies store
    ensures session.user.None? ==> reply == Reply(OK, LOGIN_REQUIRED) && store.rows == old(store.rows)
    ensures session.user.Some? ==>
      var n := |Matching(old(store.rows), session.user.value.userIdx, apiURL)|;
      (reply == Reply(OK, DELETED) <==> n == 1) &&
      (reply == Reply(OK, NOT_FOUND) <==> n == 0) &&
      (reply.status == INTERNAL_SERVER_ERROR <==> n > 1)
    ensures reply.message != DELETED ==> store.rows == old(store.rows)
    ensures session.user.Some? && reply == Reply(OK, DELETED) ==>
      store.rows == WithoutId(old(store.rows), Matching(old(store.rows), session.user.value.userIdx, apiURL)[0].apiIdx)
    ensures session.user.Some? ==> forall x :: x in old(store.rows) && x.userIdx != session.user.value.userIdx ==> x in store.rows
    ensures store.Valid()
  {
    if session.user.None? {
      return Reply(OK, LOGIN_REQUIRED);
    }
    var deleted := store.Delete(apiURL, session.user.value.userIdx);
    match deleted
    case Some(true) => reply := Reply(OK, DELETED);
    case Some(false) => reply := Reply(OK, NOT_FOUND);
    case None => reply := Reply(INTERNAL_SERVER_ERROR, "");
  }
}
