/**
 * controllers/authController.js: password login, the email check that
 * creates users and issues email codes, setting the first password and PIN,
 * PIN verification, the profile update and the `protect` middleware.
 * Handlers that sit behind `protect` receive its user as `user`.
 */
module AuthController {
  import opened Wrappers
  import opened Records
  import opened Crypto
  import opened Responses
  import opened Store
  import opened OtpModel
  import opened BearerHeader

  /** The outcome of `protect`: `next()` with `req.user` set, or an error. */
  datatype Access = Granted(user: User) | Denied(reply: Reply)

  /**
   * `user.correctPassword(candidate, user.password)`, taken to be bcrypt's
   * comparison with the stored digest; a user without a password never matches.
   */
  predicate CorrectPassword(b: Bcrypt, candidate: string, user: User): (r: bool)
    ensures r ==> user.password.Some?
    ensures DigestShaped(b) && user.password.Some? && |user.password.value| != DigestLength ==> !r
  {
    user.password.Some? && b.compare(candidate, user.password.value)
  }

  /** After a password is stored as its digest, that password is correct. */
  lemma StoredPasswordIsCorrect(b: Bcrypt, candidate: string, u: User)
    requires Sound(b)
    ensures CorrectPassword(b, candidate, ApplyPatch(u, ReplacePassword(b.hash(candidate))))
  {
  }

  /**
   * `login`: 400 unless both fields are given; an unknown email and a wrong
   * password get the same 401; otherwise the token response. Nothing is written.
   */
  method Login(db: Db, env: Env, email: Option<string>, password: Option<string>) returns (reply: Reply)
    ensures !Present(email) || !Present(password) ==> reply == Fail(400, "Please provide email and password")
    ensures Present(email) && Present(password) ==>
      if email.value in db.users && CorrectPassword(env.bcrypt, password.value, db.users[email.value])
      then reply == CreateSendToken(env.jwt, db.users[email.value])
      else reply == Fail(401, "Incorrect email or password")
  {
    if !Present(email) || !Present(password) {
      return Fail(400, "Please provide email and password");
    }
    if email.value !in db.users {
      return Fail(401, "Incorrect email or password");
    }
    var user := db.users[email.value];
    var correct := CorrectPassword(env.bcrypt, password.value, user);
    if !correct {
      return Fail(401, "Incorrect email or password");
    }
    reply := CreateSendToken(env.jwt, user);
  }

  /**
   * `checkEmail`: find or create the user; while the email is unverified or
   * no password is set, issue an "email" code (`code` is the generator's
   * output, `now` the clock); answer with the two verification flags.
   */
  method CheckEmail(db: Db, b: Bcrypt, email: Option<string>, code: string, now: int) returns (reply: Reply)
    requires db.Valid()
    requires IsGeneratedCode(code)
    modifies db
    ensures db.Valid()
    ensures !Present(email) ==>
      && reply == Fail(400, "Please provide email")
      && db.users == old(db.users) && db.nextId == old(db.nextId) && db.otps == old(db.otps)
    ensures Present(email) ==>
      var found := FindOrCreate(old(db.users), old(db.nextId), email.value);
      var u := found.0[email.value];
      && db.users == found.0 && db.nextId == found.1
      && reply == Ok(Verification(u.emailVerified, u.phoneVerified))
      && db.otps == if !u.emailVerified || !Present(u.password)
                    then IssueCode(old(db.otps), b, OtpKey(email.value, Email), code, now)
                    else old(db.otps)
  {
    if !Present(email) {
      return Fail(400, "Please provide email");
    }
    var e := email.value;
    FindOrCreateValid(db.users, db.nextId, e);
    if e !in db.users {
      db.users := db.users[e := NewUser(db.nextId, e)];
      db.nextId := db.nextId + 1;
    }
    var user := db.users[e];
    if !user.emailVerified || !Present(user.password) {
      var key := OtpKey(e, Email);
      if key in db.otps {
        var existing := new OtpDocument.Load(db.otps[key]);
        existing.otp := code;
        existing.createdAt := now;
        db.Save(existing, b);
      } else {
        var created := new OtpDocument.Create(e, Email, code, now);
        db.Save(created, b);
      }
    }
    reply := Ok(Verification(user.emailVerified, user.phoneVerified));
  }

  /**
   * `setPassword`: 400 for a missing field, 404 for an unknown email, 400 for
   * an unverified email, 400 when a password is already set, in that order;
   * otherwise the password becomes its digest and nothing else changes.
   */
  method SetPassword(db: Db, env: Env, email: Option<string>, password: Option<string>) returns (reply: Reply)
    requires db.Valid()
    modifies db
    ensures db.Valid()
    ensures db.otps == old(db.otps) && db.nextId == old(db.nextId)
    ensures !Present(email) || !Present(password) ==>
      reply == Fail(400, "Please provide email and password") && db.users == old(db.users)
    ensures Present(email) && Present(password) && email.value !in old(db.users) ==>
      reply == Fail(404, "User not found") && db.users == old(db.users)
    ensures Present(email) && Present(password) && email.value in old(db.users) ==>
      var u := old(db.users)[email.value];
      if !u.emailVerified then
        reply == Fail(400, "Email not verified") && db.users == old(db.users)
      else if Present(u.password) then
        reply == Fail(400, "Password already set! use reset password") && db.users == old(db.users)
      else
        && reply == CreateSendToken(env.jwt, u)
        && db.users == FindOneAndUpdate(old(db.users), email.value, ReplacePassword(env.bcrypt.hash(password.value)))
  {
    if !Present(email) || !Present(password) {
      return Fail(400, "Please provide email and password");
    }
    var e := email.value;
    if e !in db.users {
      return Fail(404, "User not found");
    }
    var user := db.users[e];
    if !user.emailVerified {
      return Fail(400, "Email not verified");
    }
    if Present(user.password) {
      return Fail(400, "Password already set! use reset password");
    }
    var hashedPassword := env.bcrypt.hash(password.value);
    FindOneAndUpdateValid(db.users, db.nextId, e, ReplacePassword(hashedPassword));
    db.users := FindOneAndUpdate(db.users, e, ReplacePassword(hashedPassword));
    reply := CreateSendToken(env.jwt, user);
  }

  /** `updateProfile`: all three fields or 400; otherwise they overwrite the user's and the updated user is returned. */
  method UpdateProfile(db: Db, user: User, name: Option<string>, gender: Option<string>, dateOfBirth: Option<string>)
    returns (reply: Reply)
    requires db.Valid()
    requires Authenticated(db, user)
    modifies db
    ensures db.Valid()
    ensures db.otps == old(db.otps) && db.nextId == old(db.nextId)
    ensures !Present(name) || !Present(gender) || !Present(dateOfBirth) ==>
      reply == Fail(400, "Please provide name, gender and date_of_birth") && db.users == old(db.users)
    ensures Present(name) && Present(gender) && Present(dateOfBirth) ==>
      var p := ReplaceProfile(name.value, gender.value, dateOfBirth.value);
      db.users == FindOneAndUpdate(old(db.users), user.email, p) && reply == Ok(Profile(ApplyPatch(user, p)))
  {
    if !Present(name) || !Present(gender) || !Present(dateOfBirth) {
      return Fail(400, "Please provide name, gender and date_of_birth");
    }
    var p := ReplaceProfile(name.value, gender.value, dateOfBirth.value);
    FindOneAndUpdateValid(db.users, db.nextId, user.email, p);
    db.users := FindOneAndUpdate(db.users, user.email, p);
    reply := Ok(Profile(db.users[user.email]));
  }

  /**
   * `setLoginPinFirst`: 400 for a missing PIN, then 400 for a PIN whose
   * length is not 4, then 400 when a PIN is already set; otherwise the PIN
   * becomes its digest and the updated user is returned.
   */
  method SetLoginPinFirst(db: Db, b: Bcrypt, user: User, pin: Option<string>) returns (reply: Reply)
    requires db.Valid()
    requires Authenticated(db, user)
    modifies db
    ensures db.Valid()
    ensures db.otps == old(db.otps) && db.nextId == old(db.nextId)
    ensures !Present(pin) ==> reply == Fail(400, "Please provide login pin") && db.users == old(db.users)
    ensures Present(pin) && |pin.value| != 4 ==>
      reply == Fail(400, "Please provide 4 digit pin") && db.users == old(db.users)
    ensures Present(pin) && |pin.value| == 4 && Present(user.loginPin) ==>
      reply == Fail(400, "Pin already set! use reset pin") && db.users == old(db.users)
    ensures Present(pin) && |pin.value| == 4 && !Present(user.loginPin) ==>
      var p := ReplacePin(b.hash(pin.value));
      db.users == FindOneAndUpdate(old(db.users), user.email, p) && reply == Ok(Profile(ApplyPatch(user, p)))
  {
    if !Present(pin) {
      return Fail(400, "Please provide login pin");
    }
    if |pin.value| != 4 {
      return Fail(400, "Please provide 4 digit pin");
    }
    var hashedPin := b.hash(pin.value);
    if Present(user.loginPin) {
      return Fail(400, "Pin already set! use reset pin");
    }
    FindOneAndUpdateValid(db.users, db.nextId, user.email, ReplacePin(hashedPin));
    db.users := FindOneAndUpdate(db.users, user.email, ReplacePin(hashedPin));
    reply := Ok(Profile(db.users[user.email]));
  }

  /**
   * `verifyLoginPin`: the same two input checks as `setLoginPinFirst`, then
   * success exactly when bcrypt matches the PIN with the stored digest. bcrypt
   * throws when no PIN is stored. It reads only `req.user` and writes nothing.
   */
  method VerifyLoginPin(b: Bcrypt, user: User, pin: Option<string>) returns (reply: Reply)
    ensures !Present(pin) ==> reply == Fail(400, "Please provide login pin")
    ensures Present(pin) && |pin.value| != 4 ==> reply == Fail(400, "Please provide 4 digit pin")
    ensures Present(pin) && |pin.value| == 4 && user.loginPin.None? ==> reply.Throw?
    ensures Present(pin) && |pin.value| == 4 && user.loginPin.Some? ==>
      reply == if b.compare(pin.value, user.loginPin.value) then Ok(Profile(user)) else Fail(401, "Incorrect pin")
  {
    if !Present(pin) {
      return Fail(400, "Please provide login pin");
    }
    if |pin.value| != 4 {
      return Fail(400, "Please provide 4 digit pin");
    }
    if user.loginPin.None? {
      return Throw("Illegal arguments: string, undefined");
    }
    var correct := b.compare(pin.value, user.loginPin.value);
    if !correct {
      return Fail(401, "Incorrect pin");
    }
    reply := Ok(Profile(user));
  }

  /** Some stored user has this id. */
  ghost predicate HasUserWithId(users: map<string, User>, id: nat)
  {
    exists e :: e in users && users[e].id == id
  }

  /**
   * `protect`: 401 without a bearer token; a token jsonwebtoken rejects is
   * thrown; 401 when no user has the decoded id; otherwise access is granted
   * to the stored user with that id.
   */
  method Protect(db: Db, j: Jwt, authorization: Option<string>) returns (access: Access)
    requires db.Valid()
    ensures BearerToken(authorization).None? ==>
      access == Denied(Fail(401, "You are not logged in! Please log in to get access."))
    ensures BearerToken(authorization).Some? && j.verify(BearerToken(authorization).value).None? ==>
      access.Denied? && access.reply.Throw?
    ensures BearerToken(authorization).Some? && j.verify(BearerToken(authorization).value).Some? ==>
      var id := j.verify(BearerToken(authorization).value).value;
      if HasUserWithId(db.users, id)
      then access.Granted? && access.user.id == id && Authenticated(db, access.user)
      else access == Denied(Fail(401, "The user belonging to this token does no longer exist."))
  {
    var token := BearerToken(authorization);
    if token.None? {
      return Denied(Fail(401, "You are not logged in! Please log in to get access."));
    }
    var decoded := j.verify(token.value);
    if decoded.None? {
      return Denied(Throw("JsonWebTokenError"));
    }
    if e :| e in db.users && db.users[e].id == decoded.value {
      access := Granted(db.users[e]);
    } else {
      access := Denied(Fail(401, "The user belonging to this token does no longer exist."));
    }
  }

  /** The user `protect` grants access to is the only one with the decoded id. */
  lemma GrantedUserIsUnique(db: Db, u: User, v: User)
    requires db.Valid()
    requires Authenticated(db, u) && Authenticated(db, v) && u.id == v.id
    ensures u == v
  {
  }
}
