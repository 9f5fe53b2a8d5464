/**
 * The two kinds of stored records: users, keyed by email, and one-time codes,
 * keyed by email and purpose. Field names follow the documents the
 * controllers read and write (`email_verified` is `emailVerified`, and so on).
 */
module Records {
  import opened Wrappers

  /**
   * JavaScript truthiness of a string field: `!x` holds for a missing field
   * (undefined or null) and for the empty string.
   */
  predicate Present(x: Option<string>)
  {
    x.Some? && x.value != ""
  }

  /** A user document. A missing field and `false` read the same in every guard. */
  datatype User = User(
    id: nat,
    email: string,
    name: Option<string>,
    gender: Option<string>,
    dateOfBirth: Option<string>,
    password: Option<string>,
    loginPin: Option<string>,
    emailVerified: bool,
    phoneVerified: bool,
    phoneNumber: Option<string>,
    biometricKey: Option<string>)

  /**
   * `User.create({ email })`: a new document holding only its id and the
   * email; it carries no credential and nothing is verified yet.
   */
  function NewUser(id: nat, email: string): (u: User)
    ensures u.id == id && u.email == email
    ensures !u.emailVerified && !u.phoneVerified
    ensures !Present(u.password) && !Present(u.loginPin) && !Present(u.biometricKey) && !Present(u.phoneNumber)
  {
    User(id, email, None, None, None, None, None, false, false, None, None)
  }

  /** The `otp_type` enum of the OTP schema. */
  datatype OtpType = Email | Phone | ResetPassword | ResetPin

  /** The string stored for each purpose. */
  function TypeName(t: OtpType): string
  {
    match t
    case Email => "email"
    case Phone => "phone"
    case ResetPassword => "reset_password"
    case ResetPin => "reset_pin"
  }

  /** Enum validation of a requested `otp_type`: the purpose whose stored string it is, if any. */
  function ParseOtpType(s: string): (t: Option<OtpType>)
    ensures t.Some? ==> TypeName(t.value) == s
    ensures t.None? ==> forall u :: TypeName(u) != s
  {
    if s == "email" then Some(Email)
    else if s == "phone" then Some(Phone)
    else if s == "reset_password" then Some(ResetPassword)
    else if s == "reset_pin" then Some(ResetPin)
    else None
  }

  /** Every purpose's stored string validates back to that purpose. */
  lemma TypeNameParses(t: OtpType)
    ensures ParseOtpType(TypeName(t)) == Some(t)
  {
  }

  /** The key of the OTP store: one record per email and purpose. */
  datatype OtpKey = OtpKey(email: string, otpType: OtpType)

  /** An OTP document; `createdAt` is a timestamp in milliseconds. */
  datatype OtpRecord = OtpRecord(email: string, otpType: OtpType, otp: string, createdAt: int)

  function KeyOf(r: OtpRecord): OtpKey
  {
    OtpKey(r.email, r.otpType)
  }

  /** The schema's `required` fields: Mongoose refuses an empty string as well as a missing one. */
  predicate SchemaValid(r: OtpRecord)
  {
    r.email != "" && r.otp != ""
  }

  /** `expires: 60 * 5` on `createdAt`. */
  const OtpTtlSeconds: nat := 60 * 5

  /**
   * The TTL index: a record becomes eligible for the database's background
   * deletion once more than the TTL has passed since `createdAt`. No handler
   * consults this predicate.
   */
  predicate EligibleForExpiry(r: OtpRecord, now: int): (e: bool)
    ensures now - r.createdAt <= OtpTtlSeconds * 1000 ==> !e
    ensures now - r.createdAt > OtpTtlSeconds * 1000 ==> e
  {
    now > r.createdAt + OtpTtlSeconds * 1000
  }

  /**
   * A code as `generateOTP` produces it: six characters, digits only
   * (otp-generator with letters and special characters turned off).
   */
  predicate IsGeneratedCode(code: string)
  {
    |code| == 6 && forall i :: 0 <= i < |code| ==> '0' <= code[i] <= '9'
  }
}
