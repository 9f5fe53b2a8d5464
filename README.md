# Identity and one-time-code handlers of the grow-app server, in Dafny

This project models the request handlers of the grow-app server's Express
controllers that deal with identity. They cover:

- password login;
- the email check that creates users and sends email codes;
- setting the first password and the first PIN;
- PIN verification;
- the `protect` middleware, which reads the bearer token;
- sending one-time codes (OTPs) and verifying them, including the credential resets they authorise;
- Google sign-in;
- registering a biometric public key.

It also models the OTP document with its pre-save hashing hook.

The state is a `Store.Db` object that holds two keyed collections. `users`
holds user records keyed by email. `otps` holds OTP records keyed by email
and purpose (`email`, `phone`, `reset_password`, `reset_pin`). `nextId`
supplies fresh user ids. Each handler is a method on this state. It runs its
guards in the source's order, writes only once the guards before the write have
passed, and returns a `Reply`. `checkEmail` is the one handler that writes
twice: it may create the user, and then it may save or create an email code.
A `Reply` is one of three things:

- `Ok`: a 200 response;
- `Fail`: `next(new AppError(message, status))`;
- `Throw`: an exception that is passed on to the global error handler.

Each handler's `ensures` gives the complete answer for every input, and the
complete new state given the old one. Updates of an existing user go through
the pure function `Store.FindOneAndUpdate`, and a `Store.Patch` value names
the fields that a given update changes. New users are inserted by
`Store.FindOrCreate` (`checkEmail`) and by the insert half of
`OauthController.GoogleUpsert` (`googleLogin`), both through `Records.NewUser`. The OTP document is a class, `OtpModel.OtpDocument`,
with an `isNew` flag. Its pre-save hook is the method `PreSave`, which
changes the `otp` field in place. `Store.Db.Save` runs the hook and then
writes the record. The pure function `Store.IssueCode` specifies the
find, assign, save-or-create sequence that both `checkEmail` and `sendOTP`
use. Lemmas about `IssueCode` and `OtpController.VerifyGate` relate sending
a code to verifying it.

bcrypt, jsonwebtoken and the Google ID-token verifier are parameters, bundled
as `Crypto.Env`. The facts the handlers rely on are predicates that lemmas
take as hypotheses:

- `Crypto.Sound`: a digest matches its secret;
- `Crypto.SoundJwt`: a signed id verifies to that id;
- `Crypto.DigestShaped`: digests have 60 characters, and bcryptjs's compare answers `false` for a stored string of any other length.

Other inputs the handlers take as parameters:

- the clock: `now`, in milliseconds;
- the OTP generator's output: `code`, a 6-digit string;
- the user that `protect` attached to the request: `user`, with `Store.Authenticated` as the precondition.

The model follows the code, including where the code does less than an
identity service is usually expected to do:

- `verifyOTP` never deletes or consumes a code.
- No handler compares `createdAt` with the clock. Expiry is only the database's
  TTL index, given as the predicate `Records.EligibleForExpiry`.
- There are no attempt counters, no lockout, no refresh tokens, no logout and
  no biometric signature check.
- The "phone" purpose of `verifyOTP` stores `data` unchecked. When `data` is
  missing, only `phone_verified` is set and the stored number stays (see the
  `OtpController.VerifyOtp` line under "## Left out").
- The pre-save hook hashes only new documents. Re-sending a code for an
  existing (email, purpose) therefore stores the new code in clear, despite the
  comment at controllers/otpController.js:116. With bcrypt's fixed digest
  length, no submitted code can then pass verification; see
  `OtpController.RefreshedCodeShutsGate`.
- `sendOTP` refuses a "phone" code whenever the user has any phone number,
  verified or not. Codes of other purposes are issued even for an email that
  has no user.

## Model

| member | source | states |
|---|---|---|
| `Records.ParseOtpType` | models/OTPModel.js:9-13 | a requested `otp_type` validates exactly when it is the stored string of one of the four purposes, and then names that purpose |
| `Records.TypeNameParses` | models/OTPModel.js:9-13 | each of the four purpose strings validates back to its own purpose |
| `Responses.SignToken` | controllers/authController.js:12-16 | with a sound JWT, the signed token verifies to the id it was signed for |
| `Responses.CreateSendToken` | controllers/authController.js:18-31 | the response carries `signToken(user._id)` and the user with the password blanked and every other field unchanged (the same code is repeated at controllers/oauthController.js:18-31) |
| `Responses.SessionNamesUser` | controllers/authController.js:12-16 | with a sound JWT, the token handed out verifies to the id of the user it was issued for |
| `BearerHeader.Split` | controllers/authController.js:248 | `split(" ")` always yields at least one field, and no field contains a space |
| `BearerHeader.JoinSplit` | controllers/authController.js:248 | joining the fields of a split with the separator gives back the header |
| `BearerHeader.SplitJoin` | controllers/authController.js:248 | splitting a join of space-free fields gives back the fields |
| `BearerHeader.BearerToken` | controllers/authController.js:243-255 | no header gives no token; a token is only taken from a header starting with "Bearer"; an accepted token is non-empty and contains no space |
| `BearerHeader.BearerTokenOf` | controllers/authController.js:243-255 | a "Bearer"-led word, one space, a non-empty space-free token, then nothing or a space-led tail, yields that token (so "Bearerxyz t" yields "t") |
| `BearerHeader.BearerTokenShape` | controllers/authController.js:243-255 | conversely, every accepted token comes from a header of exactly that shape |
| `BearerHeader.HeaderWithoutSpace` | controllers/authController.js:243-255 | a header with no space, such as "BearerX", never yields a token |
| `OtpModel.OtpDocument.Create` | models/OTPModel.js:18-22 | `OTP.create`: the document holds the given email, purpose and code, `createdAt` is now, and it is new |
| `OtpModel.OtpDocument.Load` | controllers/otpController.js:112 | a document loaded from the store holds the stored record and is not new |
| `OtpModel.OtpDocument.PreSave` | models/OTPModel.js:25-32 | the hook replaces `otp` by its digest exactly when the document is new, and leaves email, purpose and `createdAt` unchanged |
| `OtpModel.CompareOtp` | models/OTPModel.js:34-36 | `compareOTP` is bcrypt's comparison, which answers false whenever the stored string has not the digest length |
| `OtpModel.CompareHashedCode` | models/OTPModel.js:34-36 | `compareOTP(c, Hash(c))` holds |
| `OtpModel.CompareClearCode` | models/OTPModel.js:34-36 | no code matches a stored six-digit clear code, given bcrypt's fixed digest length |
| `Records.NewUser` | controllers/authController.js:70 | a created user holds the given id and email, has no password, PIN, phone number or biometric key, and nothing verified |
| `Records.EligibleForExpiry` | models/OTPModel.js:18-22 | a record is kept while at most 300 seconds (in milliseconds) have passed since `createdAt`, and becomes eligible for deletion afterwards |
| `Store.ApplyPatch` | controllers/otpController.js:32-83 | an update document never changes a user's id or email |
| `Store.FindOneAndUpdate` | controllers/otpController.js:32-83 | `findOneAndUpdate({ email }, update)` applies the update to the user with that email only, and is a no-op when there is none |
| `Store.FindOneAndUpdateValid` | controllers/otpController.js:32-83 | an update keeps emails as keys and ids unique |
| `Store.FindOrCreate` | controllers/authController.js:65-73 | afterwards exactly one user has the email; an existing user is kept unchanged; a new one has a fresh id and only its email |
| `Store.FindOrCreateValid` | controllers/authController.js:65-73 | find-or-create keeps emails as keys and ids unique |
| `Store.FindOrCreateIdempotent` | controllers/authController.js:65-73 | a second find-or-create finds the user the first created and changes nothing |
| `Store.IssueCode` | controllers/otpController.js:112-122 | afterwards exactly one record exists for (email, purpose), no other record changes, and `createdAt` is reset to now (the same sequence is at controllers/authController.js:80-90) |
| `Store.IssuedCodeLifetime` | models/OTPModel.js:18-22 | an issued or refreshed record is not eligible for expiry when written, and is once the TTL has passed |
| `Store.NewCodeVerifies` | models/OTPModel.js:25-32 | a first code for a key is stored hashed, so it matches |
| `Store.RefreshStoresClearCode` | controllers/otpController.js:114-118 | a refresh stores the new code exactly as assigned, with the record's email and purpose kept |
| `Store.RefreshedCodeNeverVerifies` | controllers/otpController.js:114-118 | after a refresh no submitted code matches the stored one |
| `Store.Db.constructor` | models/userModel.js:16 | the `User` collection and the `OTP` collection (models/OTPModel.js:46) start empty, which satisfies both store invariants |
| `Store.Db.Save` | models/OTPModel.js:25-32 | `save()` writes the document under its key, hashed only if it was new, and the document is no longer new |
| `AuthController.CorrectPassword` | controllers/authController.js:48 | only a user with a stored password can match, and not when the stored string has not the digest length |
| `AuthController.StoredPasswordIsCorrect` | controllers/authController.js:123-132 | a password stored as its digest is then the correct password |
| `AuthController.Login` | controllers/authController.js:34-55 | 400 without both fields; the same 401 "Incorrect email or password" for an unknown email and for a wrong password; otherwise the token response for the stored user; no write |
| `AuthController.CheckEmail` | controllers/authController.js:58-100 | 400 without an email; otherwise find-or-create, an "email" code issued exactly when the email is unverified or no password is set, and the two flags returned |
| `AuthController.SetPassword` | controllers/authController.js:103-135 | 400 missing field, then 404 unknown user, then 400 unverified email, then 400 password already set; only then does the password become its digest, with no other field or store changed |
| `AuthController.UpdateProfile` | controllers/authController.js:138-171 | 400 unless name, gender and date of birth are all given; otherwise exactly those three fields of the signed-in user are overwritten and the updated user is returned |
| `AuthController.SetLoginPinFirst` | controllers/authController.js:174-211 | 400 missing PIN, then 400 length not 4, then 400 PIN already set; otherwise only `login_pin` becomes the digest, and the updated user is returned |
| `AuthController.VerifyLoginPin` | controllers/authController.js:214-238 | the same two 400 checks; then it succeeds exactly when bcrypt matches the stored PIN, gives 401 "Incorrect pin" otherwise, and throws when no PIN is stored; nothing is written |
| `AuthController.Protect` | controllers/authController.js:241-274 | 401 without a bearer token; a rejected token is thrown; 401 when no user has the decoded id; otherwise access is granted to the stored user with that id |
| `AuthController.GrantedUserIsUnique` | controllers/authController.js:261-272 | two stored users with the same id are the same user, so the user `protect` attaches is determined by the token |
| `OtpController.MatchesQuery` | controllers/otpController.js:15-18 | a record answers `OTP.findOne({ email, otp_type })` exactly when it has that email and the requested string validates to its purpose |
| `OtpController.VerifyGate` | controllers/otpController.js:11-28 | 400 for a missing field; 400 "Email not found" when no record answers the query; 400 "Invalid OTP" when the matching record's code does not match; otherwise open on that record |
| `OtpController.VerifyOtp` | controllers/otpController.js:8-93 | a shut gate gives 400 and no write; "email" sets only `email_verified`; "phone" sets `phone_verified` and `phone_number := data`, keeping the stored number when `data` is missing; "reset_pin" needs a 4-character `data`, checked only after the code matched, then sets the PIN digest; "reset_password" needs `data`, then sets the password digest; the OTP store never changes, and nothing is thrown |
| `OtpController.SendOtp` | controllers/otpController.js:95-128 | 400 for a missing field; "phone" throws for an unknown user and gives 400 when a phone number exists; a purpose outside the enum throws; otherwise the code is issued; users never change |
| `OtpController.NewCodeOpensGate` | controllers/otpController.js:15-28 | a code sent for a fresh (email, purpose) passes verification with that purpose |
| `OtpController.RefreshedCodeShutsGate` | controllers/otpController.js:112-122 | after a code is re-sent, every submitted code gets "Invalid OTP" |
| `OtpController.VerifyOtpTwice` | controllers/otpController.js:8-93 | the same verification submitted twice gets the same answer, and the code store is unchanged: a code is never consumed |
| `OauthController.GoogleUpsert` | controllers/oauthController.js:49-61 | afterwards exactly one user has the payload's email, with `email_verified` true and the payload's name; all other fields of an existing user, and all other users, are unchanged; a new user gets a fresh id |
| `OauthController.GoogleUpsertValid` | controllers/oauthController.js:49-61 | the upsert keeps emails as keys and ids unique |
| `OauthController.GoogleUpsertIdempotent` | controllers/oauthController.js:49-61 | a second sign-in with the same payload leaves the same state |
| `OauthController.GoogleLogin` | controllers/oauthController.js:35-65 | a missing or rejected Google token is thrown with no write; otherwise the upsert, then the token response for the updated user |
| `BiometricController.UploadBiometric` | controllers/biometricController.js:10-31 | 400 without a key; otherwise only the signed-in user's `biometricKey` changes, and it becomes the supplied key; the updated user is returned |

## Left out

- Attempt counters, lockout, refresh tokens, logout and biometric challenge verification: none of these exist in the handlers.
- Express routing, CORS, logging and the 404 fallback (app.js, routes/). routes/authRoutes.js is not part of this model.
- mailer.js is not part of this model. `generateOTP` is an input of the handlers, assumed to be a 6-digit string. No mail is sent, as in the handlers.
- bcrypt salts and cost factors, JWT expiry, and the internals of Google token verification: these are oracle parameters.
- The database's background TTL deletion: it is timer-driven, so only the eligibility predicate is modelled.
- The empty `sendVerificationEmail` function.
- userModel.js validation: the schema's required `name` with a minimum length of 3. With it, `User.create({ email })` and short Google names would fail validation; the model accepts them.
- AuthController.UpdateProfile: does not model `runValidators: true` (controllers/authController.js:161), which makes the update throw for a name shorter than 3 characters; the model overwrites the profile with any non-empty name.
- OtpController.VerifyOtp: the package manifest is not part of this model, so the Mongoose version is not known. The model follows Mongoose 7 and later, which drop an `undefined` value from an update document: a "phone" verification without `data` keeps `phone_number`. Mongoose 5 would write null there instead.
- `user.correctPassword` is not defined in the sources. It is modelled as bcrypt's comparison with the stored password. A user with no password never matches, instead of whatever the missing definition would do.
- The status codes of thrown errors: the global error handler is not part of this model, so `Throw` carries only a reason.
- JSON values that are not strings, such as a numeric PIN whose `.length` is undefined: every request field is `Option<string>`. String length counts characters, not UTF-16 code units.
- An ID-token payload without an email or a name: `Crypto.Payload` always carries both.
- Concurrency: each handler runs atomically, and `req.user` equals the stored user (`Store.Authenticated`). Lookups by id (`findById`, `findByIdAndUpdate`) are modelled through the email key, which is the same record under unique ids.
- createSendToken: its in-place `user.password = undefined` on the loaded document is modelled as returning a copy. Nothing later reads that document, and no stored record is affected either way.
- Mongoose schema validation failing inside `save()`: `Store.Db.Save` requires the required fields to be present. Every caller meets this, because the email is checked first and a generated code is never empty. An unknown `otp_type` is modelled where it fails, in `sendOTP`.
- Response JSON shapes beyond the fields listed in `Responses.Body`, and `console.log` output.
