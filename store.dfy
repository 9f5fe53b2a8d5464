/**
 * The two collections the controllers share: users, keyed by email, and OTP
 * records, keyed by email and purpose. Each handler runs to completion
 * before the next begins, so a handler is a sequence of reads and at most one
 * write on this state.
 */
module Store {
  import opened Wrappers
  import opened Records
  import opened Crypto
  import opened OtpModel

  /** Emails are keys, ids are unique and below the next id to hand out. */
  ghost predicate UsersValid(users: map<string, User>, nextId: nat)
  {
    && (forall e :: e in users ==> users[e].email == e && users[e].id < nextId)
    && (forall e, f :: e in users && f in users && users[e].id == users[f].id ==> e == f)
  }

  /** Every OTP record is stored under its own email and purpose. */
  ghost predicate OtpsValid(otps: map<OtpKey, OtpRecord>)
  {
    forall k :: k in otps ==> KeyOf(otps[k]) == k
  }

  /** The update documents the controllers pass to `findOneAndUpdate` and `findByIdAndUpdate`. */
  datatype Patch =
    | MarkEmailVerified
    | MarkPhoneVerified(phoneNumber: Option<string>)
    | ReplacePin(pinDigest: string)
    | ReplacePassword(passwordDigest: string)
    | ReplaceBiometricKey(publicKey: string)
    | ReplaceProfile(name: string, gender: string, dateOfBirth: string)
    | GoogleProfile(googleName: string)

  /** Apply an update document: only the fields it names change, never the id or the email. */
  function ApplyPatch(u: User, p: Patch): (r: User)
    ensures r.id == u.id && r.email == u.email
  {
    match p
    case MarkEmailVerified => u.(emailVerified := true)
    case MarkPhoneVerified(number) =>
      // an undefined value is dropped from the update, so the stored number stays
      u.(phoneNumber := if number.Some? then number else u.phoneNumber, phoneVerified := true)
    case ReplacePin(digest) => u.(loginPin := Some(digest))
    case ReplacePassword(digest) => u.(password := Some(digest))
    case ReplaceBiometricKey(key) => u.(biometricKey := Some(key))
    case ReplaceProfile(name, gender, dob) => u.(name := Some(name), gender := Some(gender), dateOfBirth := Some(dob))
    case GoogleProfile(name) => u.(name := Some(name), emailVerified := true)
  }

  /** `User.findOneAndUpdate({ email }, update)` without upsert: no matching user, no change. */
  function FindOneAndUpdate(users: map<string, User>, email: string, p: Patch): (r: map<string, User>)
    ensures r.Keys == users.Keys
    ensures forall e :: e in users && e != email ==> r[e] == users[e]
    ensures email in users ==> r[email] == ApplyPatch(users[email], p)
  {
    if email in users then users[email := ApplyPatch(users[email], p)] else users
  }

  /** An update keeps the user table's invariant. */
  lemma FindOneAndUpdateValid(users: map<string, User>, nextId: nat, email: string, p: Patch)
    requires UsersValid(users, nextId)
    ensures UsersValid(FindOneAndUpdate(users, email, p), nextId)
  {
  }

  /**
   * `User.findOne({ email })` followed by `User.create({ email })` when
   * nothing was found (checkEmail): afterwards exactly one user has the email,
   * and an existing user is kept as it was.
   */
  function FindOrCreate(users: map<string, User>, nextId: nat, email: string): (r: (map<string, User>, nat))
    ensures r.0.Keys == users.Keys + {email}
    ensures forall e :: e in users ==> r.0[e] == users[e]
    ensures email in users ==> r.1 == nextId
    ensures email !in users ==> r.0[email] == NewUser(nextId, email) && r.1 == nextId + 1
  {
    if email in users then (users, nextId) else (users[email := NewUser(nextId, email)], nextId + 1)
  }

  /** Creating a user hands out a fresh id, so the invariant is kept. */
  lemma FindOrCreateValid(users: map<string, User>, nextId: nat, email: string)
    requires UsersValid(users, nextId)
    ensures UsersValid(FindOrCreate(users, nextId, email).0, FindOrCreate(users, nextId, email).1)
  {
  }

  /** Find-or-create a second time finds what the first created. */
  lemma FindOrCreateIdempotent(users: map<string, User>, nextId: nat, email: string)
    ensures var r := FindOrCreate(users, nextId, email); FindOrCreate(r.0, r.1, email) == r
  {
  }

  /**
   * The effect on the OTP store of "find the record for (email, purpose);
   * if there is one, assign the new code and the current time and save it,
   * otherwise create one" (checkEmail and sendOTP). The refresh goes through
   * the save hook with `isNew` false, so its code is stored as assigned.
   */
  function IssueCode(otps: map<OtpKey, OtpRecord>, b: Bcrypt, key: OtpKey, code: string, now: int): (r: map<OtpKey, OtpRecord>)
    requires OtpsValid(otps)
    ensures OtpsValid(r)
    ensures r.Keys == otps.Keys + {key}
    ensures forall k :: k in otps && k != key ==> r[k] == otps[k]
    ensures KeyOf(r[key]) == key && r[key].createdAt == now
  {
    if key in otps then otps[key := otps[key].(otp := code, createdAt := now)]
    else otps[key := OtpRecord(key.email, key.otpType, b.hash(code), now)]
  }

  /**
   * An issued or refreshed record is not yet eligible for expiry when it is
   * written, and is once the TTL has passed.
   */
  lemma IssuedCodeLifetime(otps: map<OtpKey, OtpRecord>, b: Bcrypt, key: OtpKey, code: string, now: int, later: int)
    requires OtpsValid(otps)
    requires later > now + OtpTtlSeconds * 1000
    ensures !EligibleForExpiry(IssueCode(otps, b, key, code, now)[key], now)
    ensures EligibleForExpiry(IssueCode(otps, b, key, code, now)[key], later)
  {
  }

  /** A first code for a key is stored as its digest, so that code verifies. */
  lemma NewCodeVerifies(otps: map<OtpKey, OtpRecord>, b: Bcrypt, key: OtpKey, code: string, now: int)
    requires OtpsValid(otps)
    requires Sound(b)
    requires key !in otps
    ensures CompareOtp(b, code, IssueCode(otps, b, key, code, now)[key].otp)
  {
    CompareHashedCode(b, code);
  }

  /** A refresh stores the new code in clear and keeps the record's email and purpose. */
  lemma RefreshStoresClearCode(otps: map<OtpKey, OtpRecord>, b: Bcrypt, key: OtpKey, code: string, now: int)
    requires OtpsValid(otps)
    requires key in otps
    ensures IssueCode(otps, b, key, code, now)[key] == OtpRecord(otps[key].email, otps[key].otpType, code, now)
  {
  }

  /**
   * Hence, with bcrypt's fixed digest length, no submitted code matches a
   * refreshed record: neither the new code nor the one it replaced.
   */
  lemma RefreshedCodeNeverVerifies(otps: map<OtpKey, OtpRecord>, b: Bcrypt, key: OtpKey, code: string, now: int, submitted: string)
    requires OtpsValid(otps)
    requires DigestShaped(b)
    requires IsGeneratedCode(code)
    requires key in otps
    ensures !CompareOtp(b, submitted, IssueCode(otps, b, key, code, now)[key].otp)
  {
    RefreshStoresClearCode(otps, b, key, code, now);
    CompareClearCode(b, submitted, code);
  }

  /** The database shared by all handlers. */
  class Db {
    var users: map<string, User>
    var nextId: nat
    var otps: map<OtpKey, OtpRecord>

    ghost predicate Valid()
      reads this
    {
      UsersValid(users, nextId) && OtpsValid(otps)
    }

    /** An empty database. */
    constructor ()
      ensures Valid()
      ensures users == map[] && otps == map[] && nextId == 0
    {
      users := map[];
      otps := map[];
      nextId := 0;
    }

    /**
     * `doc.save()` on an OTP document: validation of the required fields
     * (which the callers always pass), then the `pre("save")` hook, then the
     * write under the document's key. Afterwards the document is no longer new.
     */
    method Save(doc: OtpDocument, b: Bcrypt)
      requires Valid()
      requires SchemaValid(doc.Record())
      modifies this`otps, doc
      ensures Valid()
      ensures otps == old(otps)[KeyOf(old(doc.Record())) := old(doc.Record()).(otp := if old(doc.isNew) then b.hash(old(doc.otp)) else old(doc.otp))]
      ensures doc.Record() == otps[KeyOf(old(doc.Record()))] && !doc.isNew
    {
      doc.PreSave(b);
      otps := otps[KeyOf(doc.Record()) := doc.Record()];
      doc.isNew := false;
    }
  }

  /** `req.user` as `protect` leaves it: the stored user under its own email. */
  predicate Authenticated(db: Db, u: User)
    reads db
  {
    u.email in db.users && db.users[u.email] == u
  }
}
