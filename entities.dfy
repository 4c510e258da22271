/**
 * The two persisted records. Every reference-typed column may hold SQL
 * `NULL`, so each is an `Option`; the generated identity column is `None`
 * until the row is first saved.
 */
module Entities {
  import opened Js

  /** A row of `userAPIs`: one stored credential (a drive token) of one user. */
  datatype UserApiEntity = UserApiEntity(
    apiIdx: Option<int>,
    userIdx: Option<int>,
    apiTitle: Option<string>,
    apiURL: Option<string>,
    createdDate: Option<int>,
    isConnected: Option<bool>)

  /** A row of `users`. `oAuth` is 0 for an e-mail sign-up and 1 for a Google sign-in. */
  datatype UserEntity = UserEntity(
    userIdx: Option<int>,
    name: Option<string>,
    email: Option<string>,
    password: Option<string>,
    oAuth: Option<int>,
    depart: Option<string>,
    phone: Option<string>,
    level: Option<string>,
    joinedAt: Option<string>)

  /** `new UserEntity()`: every column `NULL`. */
  const BlankUser := UserEntity(None, None, None, None, None, None, None, None, None)
}
