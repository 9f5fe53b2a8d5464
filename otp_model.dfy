/**
 * models/OTPModel.js: an OTP document, its `pre("save")` hook and `compareOTP`.
 * The hook hashes the code only while the document is new, so a code
 * assigned to a document loaded from the store is saved as assigned.
 */
module OtpModel {
  import opened Records
  import opened Crypto

  /** A Mongoose OTP document in memory: the stored fields plus the `isNew` flag. */
  class OtpDocument {
    var email: string
    var otpType: OtpType
    var otp: string
    var createdAt: int
    var isNew: bool

    /** `OTP.create({ email, otp, otp_type })`: `createdAt` takes its default, the current time. */
    constructor Create(email: string, otpType: OtpType, otp: string, now: int)
      ensures Record() == OtpRecord(email, otpType, otp, now)
      ensures isNew
    {
      this.email := email;
      this.otpType := otpType;
      this.otp := otp;
      this.createdAt := now;
      this.isNew := true;
    }

    /** The document `OTP.findOne(...)` returns for a stored record. */
    constructor Load(r: OtpRecord)
      ensures Record() == r
      ensures !isNew
    {
      email := r.email;
      otpType := r.otpType;
      otp := r.otp;
      createdAt := r.createdAt;
      isNew := false;
    }

    /** The record this document would be stored as. */
    function Record(): OtpRecord
      reads this
    {
      OtpRecord(email, otpType, otp, createdAt)
    }

    /** The `pre("save")` hook: replace the code by its digest, but only on a new document. */
    method PreSave(b: Bcrypt)
      modifies this`otp
      ensures otp == if isNew then b.hash(old(otp)) else old(otp)
      ensures Record() == old(Record()).(otp := otp)
    {
      if isNew {
        otp := b.hash(otp);
      }
    }
  }

  /** `compareOTP(otp, hashedOTP)`: bcrypt's comparison of a submitted code with the stored one. */
  predicate CompareOtp(b: Bcrypt, otp: string, stored: string): (r: bool)
    ensures DigestShaped(b) && |stored| != DigestLength ==> !r
  {
    b.compare(otp, stored)
  }

  /** A code matches its own digest. */
  lemma CompareHashedCode(b: Bcrypt, code: string)
    requires Sound(b)
    ensures CompareOtp(b, code, b.hash(code))
  {
  }

  /** Nothing matches a stored code that is not a digest, such as a clear six-digit code. */
  lemma CompareClearCode(b: Bcrypt, submitted: string, stored: string)
    requires DigestShaped(b)
    requires IsGeneratedCode(stored)
    ensures !CompareOtp(b, submitted, stored)
  {
  }
}
