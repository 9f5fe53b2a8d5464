/**
 * controllers/oauthController.js: Google sign-in. The verified token's email
 * and name go into one `findOneAndUpdate` with `upsert: true`, and the
 * resulting user gets the usual token response.
 */
module OauthController {
  import opened Wrappers
  import opened Records
  import opened Crypto
  import opened Responses
  import opened Store

  /**
   * The upsert `{ email } -> { name, email_verified: true, email }`:
   * afterwards exactly the old emails plus this one are keyed, this user is
   * verified and carries the name, and every other field of an existing user,
   * and every other user, is as before.
   */
  function GoogleUpsert(users: map<string, User>, nextId: nat, email: string, name: string)
    : (r: (map<string, User>, nat))
    ensures r.0.Keys == users.Keys + {email}
    ensures forall e :: e in users && e != email ==> r.0[e] == users[e]
    ensures r.0[email].emailVerified && r.0[email].name == Some(name)
    ensures email in users ==>
      && r.1 == nextId
      && r.0[email].(name := users[email].name, emailVerified := users[email].emailVerified) == users[email]
    ensures email !in users ==> r.1 == nextId + 1 && r.0[email].id == nextId && r.0[email].email == email
  {
    if email in users then (FindOneAndUpdate(users, email, GoogleProfile(name)), nextId)
    else (users[email := ApplyPatch(NewUser(nextId, email), GoogleProfile(name))], nextId + 1)
  }

  /** The upsert keeps the user table's invariant. */
  lemma GoogleUpsertValid(users: map<string, User>, nextId: nat, email: string, name: string)
    requires UsersValid(users, nextId)
    ensures UsersValid(GoogleUpsert(users, nextId, email, name).0, GoogleUpsert(users, nextId, email, name).1)
  {
    if email in users {
      FindOneAndUpdateValid(users, nextId, email, GoogleProfile(name));
    }
  }

  /** Signing in twice with the same payload leaves the same state as signing in once. */
  lemma GoogleUpsertIdempotent(users: map<string, User>, nextId: nat, email: string, name: string)
    ensures var r := GoogleUpsert(users, nextId, email, name); GoogleUpsert(r.0, r.1, email, name) == r
  {
    var r := GoogleUpsert(users, nextId, email, name);
    var u := r.0[email];
    assert ApplyPatch(u, GoogleProfile(name)) == u;
    assert r.0[email := u] == r.0;
  }

  /**
   * `googleLogin`: a token the verifier rejects (or no token) is thrown;
   * otherwise the upsert, then the token response for the updated user.
   * The OTP store is untouched.
   */
  method GoogleLogin(db: Db, env: Env, tokenId: Option<string>) returns (reply: Reply)
    requires db.Valid()
    modifies db
    ensures db.Valid()
    ensures db.otps == old(db.otps)
    ensures (!Present(tokenId) || env.google(tokenId.value).None?) ==>
      reply.Throw? && db.users == old(db.users) && db.nextId == old(db.nextId)
    ensures Present(tokenId) && env.google(tokenId.value).Some? ==>
      var p := env.google(tokenId.value).value;
      && (db.users, db.nextId) == GoogleUpsert(old(db.users), old(db.nextId), p.email, p.name)
      && reply == CreateSendToken(env.jwt, db.users[p.email])
  {
    if !Present(tokenId) {
      return Throw("The verifyIdToken method requires an ID Token");
    }
    var ticket := env.google(tokenId.value);
    if ticket.None? {
      return Throw("Invalid Google ID token");
    }
    var payload := ticket.value;
    GoogleUpsertValid(db.users, db.nextId, payload.email, payload.name);
    var r := GoogleUpsert(db.users, db.nextId, payload.email, payload.name);
    db.users, db.nextId := r.0, r.1;
    reply := CreateSendToken(env.jwt, db.users[payload.email]);
  }
}
