/**
 * controllers/otpController.js: verifying a code, with one effect per
 * purpose, and sending one. Verification takes no clock and deletes nothing:
 * a stored code stays valid for as long as the record exists.
 */
module OtpController {
  import opened Wrappers
  import opened Records
  import opened Crypto
  import opened Responses
  import opened Store
  import opened OtpModel

  /** The checks `verifyOTP` makes before it looks at the purpose. */
  datatype Gate = Open(key: OtpKey) | Shut(message: string)

  /** The query `OTP.findOne({ email, otp_type })`: a record with that email and that purpose string. */
  ghost predicate MatchesQuery(r: OtpRecord, email: string, otpType: string): (m: bool)
    ensures m <==> r.email == email && ParseOtpType(otpType) == Some(r.otpType)
  {
    TypeNameParses(r.otpType);
    r.email == email && TypeName(r.otpType) == otpType
  }

  /**
   * The gate of `verifyOTP`: 400 "Please provide email, otp and otp_type",
   * then 400 "Email not found" when no record answers the query, then 400
   * "Invalid OTP" when bcrypt does not match; otherwise open on the record's key.
   */
  function VerifyGate(otps: map<OtpKey, OtpRecord>, b: Bcrypt, email: Option<string>, otp: Option<string>,
                      otpType: Option<string>): (g: Gate)
    requires OtpsValid(otps)
    ensures !Present(email) || !Present(otp) || !Present(otpType) ==>
      g == Shut("Please provide email, otp and otp_type")
    ensures (Present(email) && Present(otp) && Present(otpType)
             && forall k :: k in otps ==> !MatchesQuery(otps[k], email.value, otpType.value)) ==>
      g == Shut("Email not found")
    ensures Present(email) && Present(otp) && Present(otpType) ==>
      forall k :: k in otps && MatchesQuery(otps[k], email.value, otpType.value) ==>
        g == if CompareOtp(b, otp.value, otps[k].otp) then Open(k) else Shut("Invalid OTP")
  {
    if !Present(email) || !Present(otp) || !Present(otpType) then
      Shut("Please provide email, otp and otp_type")
    else
      var t := ParseOtpType(otpType.value);
      if t.None? || OtpKey(email.value, t.value) !in otps then
        Shut("Email not found")
      else
        var key := OtpKey(email.value, t.value);
        if !CompareOtp(b, otp.value, otps[key].otp) then Shut("Invalid OTP") else Open(key)
  }

  /**
   * `verifyOTP`. A shut gate answers 400 and writes nothing. An open gate
   * applies its purpose's update to the user with that email (none if there
   * is no such user): "email" marks the email verified; "phone" stores `data`
   * as the phone number unchecked and marks the phone verified; "reset_pin"
   * needs a 4-character `data` and stores its digest as the PIN; "reset_password"
   * needs `data` and stores its digest as the password. The OTP store is
   * never touched, and the "Invalid OTP type" branch cannot be reached.
   */
  method VerifyOtp(db: Db, b: Bcrypt, email: Option<string>, otp: Option<string>, otpType: Option<string>,
                   data: Option<string>) returns (reply: Reply)
    requires db.Valid()
    modifies db
    ensures db.Valid()
    ensures db.otps == old(db.otps) && db.nextId == old(db.nextId)
    ensures !reply.Throw?
    ensures var g := VerifyGate(old(db.otps), b, email, otp, otpType);
      && (g.Shut? ==> reply == Fail(400, g.message) && db.users == old(db.users))
      && (g.Open? ==> var e := g.key.email;
           match g.key.otpType
           case Email =>
             reply == Ok(Note("OTP verified successfully"))
             && db.users == FindOneAndUpdate(old(db.users), e, MarkEmailVerified)
           case Phone =>
             reply == Ok(Note("OTP verified successfully"))
             && db.users == FindOneAndUpdate(old(db.users), e, MarkPhoneVerified(data))
           case ResetPin =>
             if !Present(data) then
               reply == Fail(400, "Please provide login pin") && db.users == old(db.users)
             else if |data.value| != 4 then
               reply == Fail(400, "Please provide 4 digit pin") && db.users == old(db.users)
             else
               reply == Ok(Note("OTP verified successfully"))
               && db.users == FindOneAndUpdate(old(db.users), e, ReplacePin(b.hash(data.value)))
           case ResetPassword =>
             if !Present(data) then
               reply == Fail(400, "Please provide password") && db.users == old(db.users)
             else
               reply == Ok(Note("OTP verified successfully"))
               && db.users == FindOneAndUpdate(old(db.users), e, ReplacePassword(b.hash(data.value))))
  {
    var g := VerifyGate(db.otps, b, email, otp, otpType);
    if g.Shut? {
      return Fail(400, g.message);
    }
    var e := g.key.email;
    var p: Patch;
    match g.key.otpType {
      case Phone =>
        p := MarkPhoneVerified(data);
      case Email =>
        p := MarkEmailVerified;
      case ResetPin =>
        if !Present(data) {
          return Fail(400, "Please provide login pin");
        }
        if |data.value| != 4 {
          return Fail(400, "Please provide 4 digit pin");
        }
        p := ReplacePin(b.hash(data.value));
      case ResetPassword =>
        if !Present(data) {
          return Fail(400, "Please provide password");
        }
        p := ReplacePassword(b.hash(data.value));
    }
    FindOneAndUpdateValid(db.users, db.nextId, e, p);
    db.users := FindOneAndUpdate(db.users, e, p);
    reply := Ok(Note("OTP verified successfully"));
  }

  /**
   * `sendOTP`: 400 for a missing field; a "phone" request throws for an
   * unknown email (the code reads `phone_number` of null) and answers 400
   * when the user already has a phone number; a purpose outside the enum
   * fails schema validation when the record is created; otherwise the code
   * is issued for (email, purpose). Users are never written.
   */
  method SendOtp(db: Db, b: Bcrypt, email: Option<string>, otpType: Option<string>, code: string, now: int)
    returns (reply: Reply)
    requires db.Valid()
    requires IsGeneratedCode(code)
    modifies db
    ensures db.Valid()
    ensures db.users == old(db.users) && db.nextId == old(db.nextId)
    ensures !Present(email) || !Present(otpType) ==>
      reply == Fail(400, "Please provide email and otp_type") && db.otps == old(db.otps)
    ensures Present(email) && Present(otpType) && otpType.value == "phone" && email.value !in old(db.users) ==>
      reply.Throw? && db.otps == old(db.otps)
    ensures (Present(email) && Present(otpType) && otpType.value == "phone" && email.value in old(db.users)
             && Present(old(db.users)[email.value].phoneNumber)) ==>
      reply == Fail(400, "Phone number already exist") && db.otps == old(db.otps)
    ensures Present(email) && Present(otpType) && ParseOtpType(otpType.value).None? ==>
      reply.Throw? && db.otps == old(db.otps)
    ensures (Present(email) && Present(otpType) && ParseOtpType(otpType.value).Some?
             && (otpType.value == "phone" ==> email.value in old(db.users) && !Present(old(db.users)[email.value].phoneNumber))) ==>
      && reply == Ok(Note("OTP sent successfully"))
      && db.otps == IssueCode(old(db.otps), b, OtpKey(email.value, ParseOtpType(otpType.value).value), code, now)
  {
    if !Present(email) || !Present(otpType) {
      return Fail(400, "Please provide email and otp_type");
    }
    var e := email.value;
    if otpType.value == "phone" {
      if e !in db.users {
        return Throw("TypeError: Cannot read properties of null (reading 'phone_number')");
      }
      if Present(db.users[e].phoneNumber) {
        return Fail(400, "Phone number already exist");
      }
    }
    var t := ParseOtpType(otpType.value);
    if t.None? {
      return Throw("ValidationError: otp_type is not a valid enum value");
    }
    var key := OtpKey(e, t.value);
    if key in db.otps {
      var existing := new OtpDocument.Load(db.otps[key]);
      existing.otp := code;
      existing.createdAt := now;
      db.Save(existing, b);
    } else {
      var created := new OtpDocument.Create(e, t.value, code, now);
      db.Save(created, b);
    }
    reply := Ok(Note("OTP sent successfully"));
  }

  /** A code sent for a fresh (email, purpose) opens the gate when submitted with that purpose. */
  lemma NewCodeOpensGate(otps: map<OtpKey, OtpRecord>, b: Bcrypt, key: OtpKey, code: string, now: int)
    requires OtpsValid(otps)
    requires Sound(b)
    requires key !in otps && key.email != "" && IsGeneratedCode(code)
    ensures VerifyGate(IssueCode(otps, b, key, code, now), b, Some(key.email), Some(code), Some(TypeName(key.otpType)))
            == Open(key)
  {
    var after := IssueCode(otps, b, key, code, now);
    NewCodeVerifies(otps, b, key, code, now);
    assert MatchesQuery(after[key], key.email, TypeName(key.otpType));
  }

  /**
   * A code sent again for the same (email, purpose) is stored in clear, so
   * with bcrypt's fixed digest length every submitted code, the new one
   * included, answers "Invalid OTP" until the record expires.
   */
  lemma RefreshedCodeShutsGate(otps: map<OtpKey, OtpRecord>, b: Bcrypt, key: OtpKey, code: string, now: int,
                               submitted: string)
    requires OtpsValid(otps)
    requires DigestShaped(b)
    requires key in otps && key.email != "" && IsGeneratedCode(code) && submitted != ""
    ensures VerifyGate(IssueCode(otps, b, key, code, now), b, Some(key.email), Some(submitted), Some(TypeName(key.otpType)))
            == Shut("Invalid OTP")
  {
    var after := IssueCode(otps, b, key, code, now);
    RefreshedCodeNeverVerifies(otps, b, key, code, now, submitted);
    assert MatchesQuery(after[key], key.email, TypeName(key.otpType));
  }

  /**
   * Nothing is consumed: submitting the same request a second time gets
   * the same answer as the first, success included.
   */
  method VerifyOtpTwice(db: Db, b: Bcrypt, email: Option<string>, otp: Option<string>, otpType: Option<string>,
                        data: Option<string>) returns (first: Reply, second: Reply)
    requires db.Valid()
    modifies db
    ensures db.Valid()
    ensures db.otps == old(db.otps)
    ensures second == first
  {
    first := VerifyOtp(db, b, email, otp, otpType, data);
    second := VerifyOtp(db, b, email, otp, otpType, data);
  }
}
