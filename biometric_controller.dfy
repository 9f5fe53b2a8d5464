/** controllers/biometricController.js: registering a device's public key for the signed-in user. */
module BiometricController {
  import opened Wrappers
  import opened Records
  import opened Responses
  import opened Store

  /**
   * `uploadBiometric`: 400 without a key; otherwise the key replaces the
   * signed-in user's previous one, nothing else changes, and the updated
   * user is returned.
   */
  method UploadBiometric(db: Db, user: User, publicKey: Option<string>) returns (reply: Reply)
    requires db.Valid()
    requires Authenticated(db, user)
    modifies db
    ensures db.Valid()
    ensures db.otps == old(db.otps) && db.nextId == old(db.nextId)
    ensures !Present(publicKey) ==> reply == Fail(400, "Public key is required") && db.users == old(db.users)
    ensures Present(publicKey) ==>
      && db.users == FindOneAndUpdate(old(db.users), user.email, ReplaceBiometricKey(publicKey.value))
      && db.users[user.email].biometricKey == publicKey
      && reply == Ok(Profile(db.users[user.email]))
  {
    if !Present(publicKey) {
      return Fail(400, "Public key is required");
    }
    var p := ReplaceBiometricKey(publicKey.value);
    FindOneAndUpdateValid(db.users, db.nextId, user.email, p);
    db.users := FindOneAndUpdate(db.users, user.email, p);
    reply := Ok(Profile(db.users[user.email]));
  }
}
