/** What a handler answers, and the token response shared by the password and Google logins. */
module Responses {
  import opened Wrappers
  import opened Records
  import opened Crypto

  /** The data part of a 200 response. */
  datatype Body =
    | Session(token: string, user: User)
    | Verification(emailVerified: bool, phoneVerified: bool)
    | Profile(user: User)
    | Note(message: string)

  /**
   * `Ok`: a 200 response. `Fail`: `next(new AppError(message, status))`.
   * `Throw`: an exception that reaches the global error handler, whose
   * answer is not part of this model.
   */
  datatype Reply = Ok(body: Body) | Fail(status: int, message: string) | Throw(reason: string)

  /** `signToken`: a JWT whose payload is the user's id. */
  function SignToken(j: Jwt, id: nat): (token: string)
    ensures SoundJwt(j) ==> j.verify(token) == Some(id)
  {
    j.sign(id)
  }

  /**
   * `createSendToken`: sign the id, blank the password of the user being
   * returned, answer 200. Only the response copy loses its password.
   */
  function CreateSendToken(j: Jwt, user: User): (r: Reply)
    ensures r.Ok? && r.body.Session?
    ensures r.body.token == SignToken(j, user.id)
    ensures r.body.user.password == None
    ensures r.body.user.(password := user.password) == user
  {
    Ok(Session(SignToken(j, user.id), user.(password := None)))
  }

  /** The token handed out names the user it was issued for. */
  lemma SessionNamesUser(j: Jwt, user: User)
    requires SoundJwt(j)
    ensures j.verify(CreateSendToken(j, user).body.token) == Some(user.id)
  {
  }
}
