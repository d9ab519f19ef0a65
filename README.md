# A verified model of the user service's core

The system is a NestJS/TypeORM back end for a community app. Users sign in with a phone number and a one-time password (OTP) sent by SMS, or with an e-mail address and a password. They hold refresh sessions, answer onboarding questionnaires, and publish posts and polls. This project models the logic of that back end in Dafny. Database rows become datatypes held in classes, and foreign calls become parameters. The model proves the properties the code promises.

What the modules cover:

- **Auth** (`auth.dfy`): the login dispatch on the provider type; find-or-create of a user by normalised phone or e-mail; the e-mail password decision tree; token issuance, with an access token carrying `sub`, `email` and `phone` and a 30-day refresh session; the two normalisers; `stripSensitive`.
- **OtpLedger** (`otp.dfy`) and **LegacyOtp** (`otp_legacy.dfy`): the current and the older OTP service. Each is a class over a map of OTP records, together with the user table. A record goes from unused to used exactly once. Verification checks the id, the used flag, the expiry (the expiry instant itself still passes), the code hash and the contact. Invalidation works one at a time, in bulk, or on resend. **OtpCodes** (`otp_codes.dfy`) holds the six-digit code generator.
- **Session** (`session.dfy`): refresh tokens of the form `<id>.<secret>`, of which only the hash of the secret is stored; validation; soft revocation; and rotation, which deletes the old row.
- **OtpProcessor** (`otp_processor.dfy`): the delivery worker's channel choice, and invalidation on the last attempt only.
- **Twilio** (`twilio.dfy`): phone formatting, the message templates, the error-code mapping, and the enabled/client/configured state.
- **JwtGuard** (`guard.dfy`): Bearer token extraction and the rejection chain of `canActivate`.
- **RequestHeaders**, **ResponseEnvelope**, **ErrorEnvelope**: the IP and device-id header choice, the success envelope the response interceptor builds, and the error envelopes the two exception filters write.
- **Questionnaires** (`questionnaire.dfy`) and **QuestionnaireController**:
  - ordering by step and display order (stable sorts over arrays in `StableSort`);
  - per-type answer validation;
  - the answer upsert and step submission;
  - progress and completion;
  - the controller's visibility filter, `selectedOptions` parsing and `file_<id>` matching.
- **Posts** (`posts.dfy`) and **PostsController**:
  - creation of posts and polls;
  - the ordered vote rejections;
  - the in-place vote tally;
  - the controller's form-field coercions and file-field matching.
- **Validators** and **Dtos**: the transforms, the phone pattern, the custom validators `IsEmailOrPhone`, `Match` and `IsTrue`, and the type-conditional rules of the login, OTP, reset-password and profile DTOs.
- Shared helpers: **Wrappers** (Option, Result, HTTP errors), **Strings** (JavaScript `trim`, lower-casing, `split`, digits), **Json** (JavaScript values and truthiness), **Crypto** (a bcrypt stand-in), and **Users** (the user table).

Time (`now`, in milliseconds), random draws, fresh UUIDs, the outcome of a queue or SMS call, the result of `JSON.parse`, uploaded-file URLs and the `isEmail` syntax check are all parameters. bcrypt is modelled as a tag `Hash(s)` that is injective on the first 72 characters of `s` and ignores the rest, as bcrypt ignores every input byte after the 72nd. `Compare(s, h)` holds exactly when `Hash(s) == h`. The request bodies pass through the global validation pipe's implicit conversion (`enableImplicitConversion`, src/main.ts:11-17) before their transforms and checks: a field declared `string` receives `String(value)` and one declared `boolean` receives `Boolean(value)`.

Where the code and its description differ, the model follows the code:

- A new e-mail user is created with a `passwordHash` property, but the entity column is `password`. So the password is not stored, and the next e-mail login of that address is refused (`Auth.EmailSignUpLocksOut`).
- `stripSensitive` deletes only `passwordHash`, so a loaded user's `password` stays in the returned object (`Auth.StrippedUserKeepsPassword`).
- The revoke methods keep revoked rows for an audit trail, but `rotate` deletes the old row, as its own comment says. So rotated sessions leave no trace.
- The auth service's `verifyOtp` does not look at the OTP's purpose, so a reset OTP also signs in.
- The refresh secret has 128 hex characters, but bcrypt reads only the first 72. A token that keeps those and changes the rest still validates (`Session.SecretTailIgnored`). Likewise, a password longer than 72 characters is accepted after any text that shares its first 72 (`Auth.LongPasswordPrefixAccepted`).
- Because of the implicit conversion, `termsAccepted: "false"` becomes `true` and passes IsTrue (`Dtos.FalseStringAcceptsTerms`). A phone, code or password sent as a JSON number becomes its decimal text and passes as a string (`Dtos.NumericPhoneLoginAccepted`, `Dtos.NumericPasswordReset`).
- `currentStep` uses `||`, so a first incomplete step numbered 0 falls back to the last step.
- A poll vote that repeats an option id produces two identical vote rows. The unique index on (userId, postId, optionId) rejects them, so the vote fails as a server error.

## Model

| member | source | states |
|---|---|---|
| RequestHeaders.Or | src/common/decorators/ip.decorator.ts:14-17 | `a \|\| b` on optional strings: a present non-empty value wins, otherwise the fallback |
| RequestHeaders.OrUndefined | src/common/decorators/device-id.decorator.ts:10 | `x \|\| undefined`: defined exactly when the input is a non-empty string, and then equal to it |
| RequestHeaders.FirstForwarded | src/common/decorators/ip.decorator.ts:11 | the first comma-separated entry, trimmed: it contains no comma and has no surrounding whitespace |
| RequestHeaders.ClientIp | src/common/decorators/ip.decorator.ts:8-19 | a non-empty x-forwarded-for header decides (its first entry); otherwise the `\|\|` chain x-real-ip, x-client-ip, request.ip, socket address, whose result is never the empty string |
| RequestHeaders.FirstForwardedClient | src/common/decorators/ip.decorator.ts:11 | the first entry of a list starting with a trimmed, comma-free client address is that address |
| RequestHeaders.ForwardedClientWins | src/common/decorators/ip.decorator.ts:9-11 | for a header 'client, proxies' the client address is returned whatever the other headers hold |
| RequestHeaders.FallbackOrder | src/common/decorators/ip.decorator.ts:13-19 | without x-forwarded-for, the first non-empty of x-real-ip, x-client-ip, request.ip, socket address is returned, and undefined when all are empty |
| RequestHeaders.BlankForwardedEntry | src/common/decorators/ip.decorator.ts:9-11 | a forwarded header whose first entry is blank yields the empty string, not a fallback |
| RequestHeaders.DeviceId | src/common/decorators/device-id.decorator.ts:7-10 | x-device-id when non-empty, else device-id when non-empty, else undefined; never the empty string |
| Strings.Trim | src/modules/auth/dto/login.dto.ts:59 | `trim()`: the result has no leading or trailing whitespace, is no longer than the input and holds only its characters |
| Strings.TrimIdempotent | src/modules/auth/dto/login.dto.ts:59 | trimming twice is trimming once |
| Strings.StripPhone | src/modules/auth/dto/login.dto.ts:32-34 | `replace(/[\s\-()]/g, '').trim()`: the result holds no whitespace, '-', '(' or ')' and only characters of the input |
| Strings.StripPhoneIdempotent | src/modules/auth/dto/login.dto.ts:32-34 | stripping twice is stripping once |
| Strings.StripPhoneKeepsClean | src/modules/auth/dto/login.dto.ts:32-34 | a number written without spaces, dashes or brackets comes back exactly as it is |
| Strings.StripPhoneConcat | src/modules/auth/dto/login.dto.ts:32-34 | the stripped whole is the stripped parts put together, so only the separators are removed, in place |
| Strings.StripPhoneDropsSeparator | src/modules/auth/dto/login.dto.ts:32-34 | a space, dash or bracket written anywhere into a number is removed and changes nothing else |
| Strings.StripPhoneIsFilter | src/modules/auth/dto/login.dto.ts:32-34 | the result is exactly the input's non-separator characters in order; the trailing trim has nothing left to remove |
| Strings.FilterConcat | src/modules/auth/auth.service.ts:216-220 | a character filter (`replace` with a negated class) distributes over concatenation |
| Strings.DigitsTrimmed | src/modules/posts/posts.controller.ts:161 | a string of digits is left unchanged by `trim` |
| Strings.TrimPadded | src/modules/auth/dto/login.dto.ts:59 | `trim` of whitespace, then a word with no whitespace at its ends, then whitespace, is exactly that word |
| Strings.TrimStartPadded | src/modules/auth/dto/login.dto.ts:59 | removing leading whitespace in front of a word returns the word and what follows it |
| Strings.TrimEndPadded | src/modules/auth/dto/login.dto.ts:59 | removing trailing whitespace after a word returns the text up to the word's end |
| Strings.Split | src/common/guards/jwt-auth.guard.ts:53 | `split(sep)`: at least one part, and no part contains the separator |
| Strings.JoinSplit | src/common/guards/jwt-auth.guard.ts:53 | joining the parts with the separator gives back the input |
| Strings.ParseNatToString | src/modules/posts/posts.controller.ts:150 | parsing the decimal text of n gives n |
| Crypto.Significant | src/modules/session/session.service.ts:31 | the part of a secret bcrypt reads: the whole secret up to 72 characters, else its first 72 |
| Crypto.CompareHash | src/modules/session/session.service.ts:58 | `bcrypt.compare` accepts the secret whose hash is stored, and another secret exactly when the two agree on their first 72 characters |
| Crypto.EarlyDifferenceRejected | src/modules/session/session.service.ts:58 | secrets that differ at some position before the 72nd character are told apart |
| Crypto.ShortSecretExact | src/modules/auth/auth.service.ts:136 | between secrets of at most 72 characters, only the exact secret is accepted |
| Crypto.LateDifferenceAccepted | src/modules/session/session.service.ts:58 | secrets of 72 characters or more that share their first 72 are accepted whatever follows |
| Crypto.HexChar | src/modules/session/session.service.ts:27 | a value below 16 becomes one hex digit |
| Crypto.HexEncode | src/modules/session/session.service.ts:27 | `toString('hex')`: two hex digits per byte, nothing else |
| Crypto.UuidHasNoDot | src/modules/session/session.service.ts:26-36 | a UUID session id contains no '.', so it can be split off a refresh token |
| Crypto.HexHasNoDot | src/modules/session/session.service.ts:27 | the hex secret contains no '.' |
| Users.Apply | src/modules/users/users.service.ts:37-39 | a partial update never changes the id, email, phone or password of a row |
| Users.FindFirst | src/modules/users/users.service.ts:14-24 | `findOne({ where })`: a found row is in the table and matches; none is found exactly when no row matches |
| Users.FindFirstAppend | src/modules/users/users.service.ts:33-36 | after `create`, a lookup finds the earlier match if there is one, else the new row when it matches |
| Users.FindOwnId | src/modules/users/users.service.ts:18-20 | with a unique primary key, `findById` of a row's id returns that row |
| Users.UpdateKeepsUnique | src/modules/users/users.service.ts:37-39 | `update` keeps the id, email and phone columns unique |
| Users.InsertKeepsUnique | src/modules/users/entities/user.entity.ts:13-26 | inserting a row whose id, email and phone are unused keeps the primary key and the unique columns unique |
| Users.UserStore.constructor | src/modules/users/users.service.ts:9-12 | an empty, consistent table |
| Users.UserStore.Create | src/modules/users/users.service.ts:33-36 | the row is appended and the unique columns stay unique |
| Users.UserStore.Update | src/modules/users/users.service.ts:37-39 | only the row with that id is patched and the table stays consistent |
| Auth.NormalizeEmail | src/modules/auth/auth.service.ts:212-214 | trim then lower-case: the result is trimmed, already lower-case and no longer than the input |
| Auth.NormalizeEmailIdempotent | src/modules/auth/auth.service.ts:212-214 | normalising an already normalised address changes nothing |
| Auth.NormalizeEmailKeepsNormal | src/modules/auth/auth.service.ts:212-214 | an address already trimmed and in lower case is returned unchanged |
| Auth.NormalizeEmailOfPadded | src/modules/auth/auth.service.ts:212-214 | an address surrounded by any whitespace normalises to the address itself lower-cased, and an address of whitespace only normalises to '' |
| Auth.NormalizePhone | src/modules/auth/auth.service.ts:216-220 | `replace(/[^\d+]/g, '')`: every remaining character is a digit or '+', and comes from the input |
| Auth.NormalizePhoneIdempotent | src/modules/auth/auth.service.ts:216-220 | normalising a normalised phone changes nothing |
| Auth.NormalizePhoneConcat | src/modules/auth/auth.service.ts:216-220 | normalising works piecewise: the result for a concatenation is the concatenation of the results |
| Auth.NormalizePhoneChar | src/modules/auth/auth.service.ts:216-220 | one character is kept exactly when it is a digit or '+' |
| Auth.NormalizePhoneSplice | src/modules/auth/auth.service.ts:216-220 | a character anywhere in the input is kept in its place when it is a digit or '+', and dropped otherwise, with the rest normalised around it |
| Auth.StripSensitive | src/modules/auth/auth.service.ts:222-228 | the returned object has exactly the input's keys minus `passwordHash`, with the same values |
| Auth.StrippedUserKeepsPassword | src/modules/auth/auth.service.ts:222-228 | a user row has no `passwordHash` property (the column is `password`), so stripping leaves it whole and the stored password hash reaches the client |
| Auth.LoginRoute | src/modules/auth/auth.service.ts:30-47 | ok exactly for a phone login with a phone or an email login with an email; 'phone is required' / 'email is required' (400) when missing; 'Unsupported provider' (401) for google and apple |
| Auth.EmailLoginStep | src/modules/auth/auth.service.ts:101-139 | sign-up exactly when no row has the address (provider 'email_pwd' iff a password is given, else 'email_otp'); 'password required' exactly when the row has no password; accepted exactly when the presented password (or '') matches the stored hash |
| Auth.LongPasswordPrefixAccepted | src/modules/auth/auth.service.ts:136 | for a stored password of 72 or more characters, any presented password sharing its first 72 characters is accepted |
| Auth.EmailSignUpLocksOut | src/modules/auth/auth.service.ts:104-134 | the sign-up row carries no password (the hash is passed as `passwordHash`, not a column), so every later email login to that address is refused with 'Password required' |
| Auth.AuthService.constructor | src/modules/auth/auth.service.ts:19-25 | the service holds the given user, OTP and session stores |
| Auth.AuthService.SignTokensForUser | src/modules/auth/auth.service.ts:166-208 | a 15-minute access token with claims sub/email/phone, a new 30-day refresh session `id.secret` whose hash is stored, the stripped user, and lastLoginAt set unless that update fails |
| Auth.AuthService.LoginWithPhone | src/modules/auth/auth.service.ts:56-86 | the normalised phone's user is found or created with provider 'phone_otp', a six-digit login OTP is recorded for it, and `{otpId, userId, 'OTP sent'}` is returned |
| Auth.AuthService.LoginWithEmail | src/modules/auth/auth.service.ts:95-140 | each branch of EmailLoginStep: sign-up then tokens, 401 'Password required…', 401 'Invalid credentials' with nothing changed, or tokens for the existing user |
| Auth.AuthService.Login | src/modules/auth/auth.service.ts:30-47 | a LoginRoute error changes nothing; otherwise the phone or email flow runs, and only its own tables change |
| Auth.AuthService.VerifyOtp | src/modules/auth/auth.service.ts:146-160 | the ledger's verdict decides: a rejected code returns its error and changes no user or session; an accepted code for a missing user gives 400 'User not found'; otherwise the code is used up, provider '' or 'phone' is rewritten to 'phone' unless that update fails (the failure is ignored), and tokens are issued |
| Session.CheckToken | src/modules/session/session.service.ts:46-61 | malformed exactly when the token does not split into two parts on '.'; live exactly when the id's row exists, is active, has not expired and its hash accepts the secret, and then the row is returned |
| Session.TokenParts | src/modules/session/session.service.ts:38 | a token `id.secret` from a UUID and a hex secret splits back into exactly `[id, secret]` |
| Session.LiveToken | src/modules/session/session.service.ts:19-61 | a token issued for an active row validates until its expiry instant and is reported expired after it |
| Session.OtherSecretRejected | src/modules/session/session.service.ts:58-59 | under the same session id, a secret that differs from the issued one within its first 72 characters is a mismatch |
| Session.SecretTailIgnored | src/modules/session/session.service.ts:27-59 | under the same session id, a secret that keeps the issued secret's first 72 characters validates, whatever its remaining characters |
| Session.RevokedStaysInactive | src/modules/session/session.service.ts:78-81 | a revoked session keeps its row but never validates again, whatever the secret or the time |
| Session.DeletedTokenMissing | src/modules/session/session.service.ts:103-107 | once the row is deleted, its token is reported missing |
| Session.DeactivateUser | src/modules/session/session.service.ts:94-97 | the same rows; exactly those of the user become inactive, and nothing else changes |
| Session.SessionService.constructor | src/modules/session/session.service.ts:10-13 | an empty session table |
| Session.SessionService.CreateSession | src/modules/session/session.service.ts:19-40 | one new active row under the new id with the hash of the hex secret and expiry now + (ttlDays ?? 30) days; returns `id.secret`, the expiry and the id |
| Session.SessionService.ValidateRefreshToken | src/modules/session/session.service.ts:46-61 | 400 'Malformed token' for a malformed token, the row for a live one, null otherwise; only an expired row is deleted |
| Session.SessionService.IsSessionActive | src/modules/session/session.service.ts:66-76 | true exactly for an existing, active, unexpired row; an expired active row is switched off, nothing else changes |
| Session.SessionService.RevokeById | src/modules/session/session.service.ts:78-81 | only that row becomes inactive |
| Session.SessionService.RevokeByRefreshToken | src/modules/session/session.service.ts:83-89 | a well-formed token deactivates the row named by its id part, without checking the secret; a malformed one changes nothing |
| Session.SessionService.RevokeAllByUserId | src/modules/session/session.service.ts:94-97 | every row of the user becomes inactive, others are unchanged |
| Session.SessionService.Rotate | src/modules/session/session.service.ts:103-107 | the old row is deleted and a fresh 30-day session is created as by CreateSession |
| OtpCodes.GenerateNumericOtp | src/modules/otp/otp.service.ts:43-47 | the code has exactly `length` digits with no leading zero, and its value is min + draw, between 10^(length-1) and 10^length - 1 |
| OtpCodes.SixDigitCode | src/otp/otp.service.ts:14-18 | the codes both ledgers issue are six-digit numbers from 100000 to 999999 |
| OtpCodes.CheckOtp | src/modules/otp/otp.service.ts:89-95 | a code is accepted exactly when the row exists, is unused, has not expired and its hash accepts the code; unknown exactly when there is no row; already used exactly when the row is used |
| OtpCodes.IssuedCodeAccepted | src/otp/otp.service.ts:24-50 | a freshly issued row accepts its own code (shorter than bcrypt's 72 characters, as six-digit codes are) up to its expiry instant and reports any other code as wrong |
| OtpCodes.ExpiredAfterDeadline | src/otp/otp.service.ts:46-47 | an unused row past its expiry is reported expired whatever code is presented |
| OtpCodes.MarkUsedFinal | src/otp/otp.service.ts:57-59 | marking a row used is idempotent, touches no other row, and every later check of it reports it used (or unknown) |
| LegacyOtp.VerifyOutcome | src/otp/otp.service.ts:42-55 | success exactly for an accepted code, returning its user and purpose; every rejection is a 400 ('Invalid OTP', 'OTP already used', 'OTP expired') |
| LegacyOtp.SecondVerifyFails | src/otp/otp.service.ts:45-53 | once a code has been accepted, every later attempt on that OTP fails with 'OTP already used' |
| LegacyOtp.OtpService.constructor | src/otp/otp.service.ts:9-12 | an empty ledger |
| LegacyOtp.OtpService.CreateOtp | src/otp/otp.service.ts:24-40 | a six-digit code from the draw; one new unused row holding its hash that expires after ttlMinutes (default 5) minutes; no existing row changes |
| LegacyOtp.OtpService.VerifyOtp | src/otp/otp.service.ts:42-55 | returns VerifyOutcome of the check, and the row is marked used exactly when the code is accepted |
| LegacyOtp.OtpService.InvalidateOtp | src/otp/otp.service.ts:57-59 | only that row is marked used |
| OtpLedger.RejectionMessage | src/modules/otp/otp.service.ts:90-95 | 'OTP expired' exactly for an expired row; a used row is reported as 'Invalid OTP' like an unknown one or a wrong code |
| OtpLedger.SecondVerifyRejected | src/modules/otp/otp.service.ts:91-121 | a code accepted once is rejected as 'Invalid OTP' on every later attempt, whatever is presented |
| OtpLedger.PhoneMatchesFormatted | src/modules/otp/otp.service.ts:109-115 | the phone check ignores formatting: a space, dash or bracket written anywhere into the given phone leaves the verdict unchanged, a phone matches exactly when its stripped form does, and a stored phone matches itself |
| OtpLedger.InvalidateUnused | src/modules/otp/otp.service.ts:136-138 | the same rows, with exactly the unused rows of that user and purpose marked used |
| OtpLedger.InvalidateUnusedEffect | src/modules/otp/otp.service.ts:136-138 | afterwards no unused row of that user and purpose remains, `used` only goes from false to true, and other rows are unchanged |
| OtpLedger.ResendLeavesOneLive | src/modules/otp/otp.service.ts:185-193 | after a resend, the new OTP is the only unused one of that user and purpose |
| OtpLedger.FailedResendLeavesNoneLive | src/modules/otp/otp.service.ts:214-217 | when the job cannot be queued, no unused OTP of that user and purpose remains |
| OtpLedger.ResendOwner | src/modules/otp/otp.service.ts:169-183 | the owner is found by phone or by email according to the type; 404 'User not found with this phone number' / '… with this email'; 400 'Unsupported provider for OTP resend' for google and apple |
| OtpLedger.ResendJob | src/modules/otp/otp.service.ts:196-213 | the queued job carries the code, otp id, user id and purpose, and the phone exactly for a phone request or the email exactly for an email request |
| OtpLedger.CheckRecipient | src/modules/otp/otp.service.ts:101-118 | passes exactly when a given email matches ignoring case and a given phone matches after stripping separators; an email mismatch writes nothing; a phone mismatch keeps the email-verified write already made; on success exactly the owner's flags for the given addresses are set |
| OtpLedger.OtpService.constructor | src/modules/otp/otp.service.ts:32-41 | an empty ledger and queue, with the configured TTL and the auth service's user store |
| OtpLedger.OtpService.CreateOtp | src/modules/otp/otp.service.ts:53-70 | a six-digit code; one new unused row holding its hash that expires after the given or configured TTL; no other row changes and nothing is queued |
| OtpLedger.OtpService.VerifyOtp | src/modules/otp/otp.service.ts:72-127 | each branch: a rejected code or a missing user changes nothing; an address mismatch keeps only the flags already written; otherwise the OTP is used up and a 'login' code issues tokens for the user with the new flags, any other purpose returns `{userId, purpose}` |
| OtpLedger.OtpService.CheckRecipientOf | src/modules/otp/otp.service.ts:101-118 | the failure and the user rows are those of CheckRecipient |
| OtpLedger.OtpService.InvalidateOtp | src/modules/otp/otp.service.ts:129-131 | only that row is marked used |
| OtpLedger.OtpService.InvalidateUnusedOtpsForUser | src/modules/otp/otp.service.ts:136-138 | the ledger becomes InvalidateUnused of it |
| OtpLedger.OtpService.AddOtpJob | src/modules/otp/otp.service.ts:148-163 | the job is appended to the queue exactly when queueing does not fail; the ledger is unchanged |
| OtpLedger.OtpService.ResendOtp | src/modules/otp/otp.service.ts:168-221 | an owner error changes nothing; otherwise the old unused codes are invalidated and a new one issued with the configured TTL, then queued with 'OTP resent successfully', or invalidated too with 400 'Error in sending OTP…' when queueing fails |
| Twilio.FormatPhoneNumber | src/common/services/twilio.service.ts:120-146 | succeeds exactly when the digits-and-'+' residue starts with '+', and then returns that residue; otherwise throws 'Phone number must include country code…' |
| Twilio.FormatPhoneNumberIdempotent | src/common/services/twilio.service.ts:120-146 | a formatted number formats to itself |
| Twilio.CreateOtpMessage | src/common/services/twilio.service.ts:151-162 | the message starts 'Your <login / password reset / verification> code is: ' and contains the code and the configured TTL |
| Twilio.UnknownPurposeVerifyWording | src/common/services/twilio.service.ts:152-161 | any purpose other than 'login', 'reset' and the names inherited from `Object.prototype` gets the verification wording |
| Twilio.ErrorMessage | src/common/services/twilio.service.ts:89-103 | never empty; the authentication message for code 20003 or an 'Authenticate' message, the E.164 hint for 21211, the from-number hint for 21614, otherwise the error's own message or 'Unknown error occurred' |
| Twilio.TwilioService.constructor | src/common/services/twilio.service.ts:12-15 | enabled exactly when TWILIO_ENABLED is 'true'; the from-number is TWILIO_PHONE_NUMBER or ''; no client yet |
| Twilio.TwilioService.OnModuleInit | src/common/services/twilio.service.ts:17-45 | a client exists afterwards exactly when it existed or the service is enabled, both credentials and the from-number are set and the factory does not throw |
| Twilio.TwilioService.SendOtpSms | src/common/services/twilio.service.ts:50-115 | a disabled service succeeds without sending; a missing client or an unformattable number throws before sending; success otherwise exactly when the message is created and not failed; a client error is rethrown with ErrorMessage |
| Twilio.Start | src/common/services/twilio.service.ts:167-169 | after start-up `isConfigured()` holds exactly when TWILIO_ENABLED is 'true', both credentials and the from-number are set and the client factory does not throw |
| OtpProcessor.ChooseChannel | src/queue/processors/otp.processor.ts:32-42 | email whenever an email is present, SMS only without one, and 'Either email or phone must be provided' exactly when neither is |
| OtpProcessor.FinalAttemptRule | src/queue/processors/otp.processor.ts:47 | with the 3 attempts the ledger configures (or none, or 0, which fall back to 3), an attempt is final exactly from the third one on, and stays final |
| OtpProcessor.Deliver | src/queue/processors/otp.processor.ts:31-82 | an email job always succeeds; a job without recipient fails with the no-recipient message; a phone job has the SMS gateway's outcome |
| OtpProcessor.OtpProcessor.constructor | src/queue/processors/otp.processor.ts:21-26 | the processor holds the given ledger and SMS service |
| OtpProcessor.OtpProcessor.Process | src/queue/processors/otp.processor.ts:28-54 | the result is Deliver's; the job's OTP is invalidated exactly when delivery fails on the final attempt; nothing else changes |
| JwtGuard.ExtractToken | src/common/guards/jwt-auth.guard.ts:52-55 | a token exactly when the header's first space-separated part is 'Bearer' and a second part exists, and then that second part, which holds no space |
| JwtGuard.BearerRoundTrip | src/common/guards/jwt-auth.guard.ts:52-55 | 'Bearer <token>' gives back the token, also when more space-separated text follows |
| JwtGuard.LowerCaseSchemeRejected | src/common/guards/jwt-auth.guard.ts:54 | the scheme is compared case-sensitively: 'bearer <token>' yields no token |
| JwtGuard.Admit | src/common/guards/jwt-auth.guard.ts:14-50 | every rejection is 401; a missing or empty token gives 'Authorization token required'; admitted exactly when the token verifies, carries a `sub`, and that user exists and is not deleted, and then the user is that row |
| JwtGuard.DeletedUserRejected | src/common/guards/jwt-auth.guard.ts:36-39 | a soft-deleted account is refused with 'User account has been deleted' even with a token that verifies |
| JwtGuard.Request.constructor | src/common/guards/jwt-auth.guard.ts:15 | a request carries its Authorization header and no user yet |
| JwtGuard.JwtAuthGuard.constructor | src/common/guards/jwt-auth.guard.ts:8-12 | the guard reads the given user store |
| JwtGuard.JwtAuthGuard.CanActivate | src/common/guards/jwt-auth.guard.ts:14-50 | admitted: answers true and attaches the user row to the request; refused: the Admit error, and the request is untouched |
| ResponseEnvelope.ApiResponse | src/common/interceptors/response.interceptor.ts:33-38 | an envelope object has exactly the keys success, statusCode, message and data |
| ResponseEnvelope.StatusOf | src/common/interceptors/response.interceptor.ts:16 | `statusCode \|\| 200`: never 0, and the response's own status when it is set |
| ResponseEnvelope.Wrap | src/common/interceptors/response.interceptor.ts:18-71 | an already wrapped object passes unchanged; anything else becomes a success envelope with the status; null and undefined carry no data; primitives, arrays and objects without `message` become the data; a `message` is lifted out ('Success' when falsy) and the rest is the data, or undefined when nothing is left |
| ResponseEnvelope.WrapIdempotent | src/common/interceptors/response.interceptor.ts:21-29 | wrapping an envelope again changes nothing |
| ResponseEnvelope.MessageLifted | src/common/interceptors/response.interceptor.ts:52-62 | a lifted message is not left inside `data`, every other field is kept there, and `data` is undefined only when `message` was the only field |
| ErrorEnvelope.FallbackMessage | src/common/filters/http-exception.filter.ts:52 | `exception.message \|\| 'An error occurred'`: never empty, and the exception's own message when it has one |
| ErrorEnvelope.HttpEnvelope | src/common/filters/http-exception.filter.ts:16-63 | always a failure envelope with the exception's status; a string response is the message; an array `message` is joined with ', ' and kept under `data.errors`; a truthy `message` is kept and the fields other than message/error/statusCode become the data; otherwise the fallback message with no data |
| ErrorEnvelope.ServiceErrorEnvelope | src/common/filters/http-exception.filter.ts:34-50 | for an exception thrown with a plain non-empty message, the filter writes exactly that message and status, with no data |
| ErrorEnvelope.ValidationErrorsEnvelope | src/common/filters/http-exception.filter.ts:30-33 | a validation failure is reported as its messages joined with ', ', with the list itself under `data.errors` |
| ErrorEnvelope.CatchAll | src/common/filters/http-exception.filter.ts:76-101 | an HttpException keeps its status and message, anything else is a 500 'Internal server error'; no data in either case |
| StableSort.InsertPermutes | src/modules/questionnaire/questionnaire.service.ts:55-64 | inserting an element adds exactly that element to the multiset |
| StableSort.InsertKeepsSorted | src/modules/questionnaire/questionnaire.service.ts:55-64 | inserting into a sorted sequence keeps it sorted by the comparator's key |
| StableSort.InsertWithKey | src/modules/questionnaire/questionnaire.service.ts:55-64 | among the elements of one key, the inserted element goes after the existing ones |
| StableSort.SortSortsAndPermutes | src/modules/questionnaire/questionnaire.service.ts:55-64 | the sorted result is ordered by the key and is a permutation of the input |
| StableSort.SortIsStable | src/modules/questionnaire/questionnaire.service.ts:55-64 | elements with equal keys keep their original relative order, as `Array.prototype.sort` guarantees |
| StableSort.InsertAt | src/modules/questionnaire/questionnaire.service.ts:55-64 | one pass of insertion sort in the array: the prefix up to i becomes the sorted insertion of a[i], the rest is untouched |
| StableSort.SortInPlace | src/modules/questionnaire/questionnaire.service.ts:55-64 | the array ends up as the stable sort of its old contents |
| Questionnaires.ArrangedIsOrdered | src/modules/questionnaire/questionnaire.service.ts:54-64 | the returned questions are sorted by (stepNumber, displayOrder), each question's options by displayOrder, and they are the stored questions with sorted options, no more and no fewer |
| Questionnaires.FindActive | src/modules/questionnaire/questionnaire.service.ts:45-48 | a found questionnaire is listed, has that id and is active; none is found exactly when no active questionnaire has the id |
| Questionnaires.FindQuestion | src/modules/questionnaire/questionnaire.service.ts:85-88 | a found question has the id and belongs to a listed questionnaire; none exactly when no questionnaire holds a question with that id |
| Questionnaires.FindIn | src/modules/questionnaire/questionnaire.service.ts:85-88 | a found question is in the list with that id; none exactly when no question has it |
| Questionnaires.InvalidOptionIds | src/modules/questionnaire/questionnaire.service.ts:329-330 | exactly the selected ids that are no option's id, never more than were selected |
| Questionnaires.RequiredCheck | src/modules/questionnaire/questionnaire.service.ts:316-339 | passes exactly when the question is optional or the answer gives what its type demands (non-blank text, a selection of valid options with one for single choice, a file URL) |
| Questionnaires.LengthCheck | src/modules/questionnaire/questionnaire.service.ts:342-353 | passes exactly when a non-empty text answer respects the question's non-zero minLength and maxLength |
| Questionnaires.ValidateAnswer | src/modules/questionnaire/questionnaire.service.ts:315-354 | passes exactly when the required rule and the length rules hold; every rejection is 400; the required-text, required-choice and required-file messages name the question text |
| Questionnaires.OptionalChoiceUnchecked | src/modules/questionnaire/questionnaire.service.ts:316-339 | an optional choice question accepts any selection, even ids of no option |
| Questionnaires.BlankTextRejected | src/modules/questionnaire/questionnaire.service.ts:317-320 | whitespace alone does not answer a required text question |
| Questionnaires.Upsert | src/modules/questionnaire/questionnaire.service.ts:111-145 | the saved row belongs to the user and question and takes only the field(s) of the question's type from the request; the other fields keep the stored row's values, or are empty for a new row |
| Questionnaires.AnswerOutcome | src/modules/questionnaire/questionnaire.service.ts:84-146 | 404 'Question not found' for an unknown question; saved exactly when the question's questionnaire is active, the user exists and has not completed the questionnaire, and the answer validates; the saved row is Upsert of the stored one |
| Questionnaires.ResubmitIsIdempotent | src/modules/questionnaire/questionnaire.service.ts:84-146 | submitting the same answer again saves the same row |
| Questionnaires.SubmitAll | src/modules/questionnaire/questionnaire.service.ts:216-223 | the table stays keyed by (user, question); all answers are saved when there is no error, fewer when one stops the batch, and the i-th saved row answers the i-th request |
| Questionnaires.Prepend | src/modules/questionnaire/questionnaire.service.ts:216-223 | rows already saved stay in front of the rows of the rest of the batch |
| Questionnaires.SubmitAllFirst | src/modules/questionnaire/questionnaire.service.ts:218-221 | a batch begins with its first answer: its rejection stops the batch with nothing saved, otherwise its row is saved first |
| Questionnaires.BatchStep | src/modules/questionnaire/questionnaire.service.ts:218-221 | one loop turn: a rejection stops the batch with the rows saved so far, an accepted answer is appended and the table updated |
| Questionnaires.BatchEnd | src/modules/questionnaire/questionnaire.service.ts:216-223 | when the loop has run through every answer, the batch result has the rows saved in order and no error |
| Questionnaires.BatchKeepsEarlierAnswers | src/modules/questionnaire/questionnaire.service.ts:216-223 | when the second answer of a batch is rejected, the first answer stays saved: the batch is not atomic |
| Questionnaires.Where | src/modules/questionnaire/questionnaire.service.ts:163 | `filter`: exactly the questions satisfying the test, and the whole list exactly when all do |
| Questionnaires.Ids | src/modules/questionnaire/questionnaire.service.ts:170 | one id per question, and exactly the questions' ids |
| Questionnaires.MaxStep | src/modules/questionnaire/questionnaire.service.ts:187 | the largest step number among the questions |
| Questionnaires.FirstForeign | src/modules/questionnaire/questionnaire.service.ts:171-177 | none exactly when every submitted question id belongs to the step; otherwise a submitted id that does not |
| Questionnaires.FindForeign | src/modules/questionnaire/questionnaire.service.ts:171-177 | the loop finds the first submitted question id outside the step, as FirstForeign |
| Questionnaires.AnsweredIds | src/modules/questionnaire/questionnaire.service.ts:194-195 | exactly the question ids of the questionnaire that the user has an answer for |
| Questionnaires.StepCheck | src/modules/questionnaire/questionnaire.service.ts:148-177 | errors are 404 or 400; 404 'Questionnaire not found' for an unknown or inactive questionnaire; passing means the step has questions and every submitted answer belongs to one of them |
| Questionnaires.StepOutcome | src/modules/questionnaire/questionnaire.service.ts:148-214 | a failing StepCheck writes no answer; the table stays keyed by (user, question) |
| Questionnaires.ArrangedSameQuestions | src/modules/questionnaire/questionnaire.service.ts:54-64 | sorting does not change which (id, step, required) questions the questionnaire has |
| Questionnaires.ForeignAnswerSavesNothing | src/modules/questionnaire/questionnaire.service.ts:169-177 | one answer to a question outside the step rejects the whole submission before any answer is saved |
| Questionnaires.ArrangedAllRequired | src/modules/questionnaire/questionnaire.service.ts:193-199 | the completion test on the sorted questions agrees with the test on the stored ones |
| Questionnaires.StepCompletion | src/modules/questionnaire/questionnaire.service.ts:186-213 | a submitted step is the last exactly when no question has a higher step number, and completes the questionnaire exactly when it is the last and every required question then has an answer |
| Questionnaires.CompletionFreezesAnswers | src/modules/questionnaire/questionnaire.service.ts:104-106 | once a user has completed the questionnaire, every further answer of theirs, to any question, is rejected |
| Questionnaires.RoundPercent | src/modules/questionnaire/questionnaire.service.ts:229-278 | 0 without questions, within 0..100 when no more answers than questions, 100 when all are answered |
| Questionnaires.RoundingBounds | src/modules/questionnaire/questionnaire.service.ts:278 | the integer formula lies within half a unit of answered/total*100 and within 0..100 |
| Questionnaires.RoundPercentIsNearest | src/modules/questionnaire/questionnaire.service.ts:278 | the percentage is answered/total*100 rounded to the nearest integer, halves upwards |
| Questionnaires.MulLess | src/modules/questionnaire/questionnaire.service.ts:278 | multiplying by a positive factor keeps a non-strict order |
| Questionnaires.AddStep | src/modules/questionnaire/questionnaire.service.ts:234 | adding a step number to an increasing list keeps it increasing and adds exactly that number |
| Questionnaires.StepNumbers | src/modules/questionnaire/questionnaire.service.ts:234-236 | `[...new Set(steps)].sort`: increasing, without repeats, and exactly the questions' step numbers |
| Questionnaires.StepStatusOf | src/modules/questionnaire/questionnaire.service.ts:243-262 | the status reports its own step number |
| Questionnaires.StepCompletedMeans | src/modules/questionnaire/questionnaire.service.ts:249-253 | a step with required questions is complete exactly when all its required questions are answered; a step without any exactly when all its questions are |
| Questionnaires.Statuses | src/modules/questionnaire/questionnaire.service.ts:243-263 | one status per step number, in the same order |
| Questionnaires.StatusesAt | src/modules/questionnaire/questionnaire.service.ts:243-263 | the i-th status is that of the i-th step number |
| Questionnaires.FirstIncomplete | src/modules/questionnaire/questionnaire.service.ts:266-267 | the step number of the first incomplete step, and none exactly when all steps are complete |
| Questionnaires.CurrentStepRule | src/modules/questionnaire/questionnaire.service.ts:266-267 | the current step is the first incomplete step, or the last step when all are complete; a first incomplete step numbered 0 falls through `\|\|` to the last step |
| Questionnaires.ProgressOf | src/modules/questionnaire/questionnaire.service.ts:229-283 | totalSteps counts the reported steps; isCompleted exactly when every required question is answered; the question and answer counts |
| Questionnaires.ProgressShape | src/modules/questionnaire/questionnaire.service.ts:234-267 | the report's steps and current step are computed from its questions' step numbers |
| Questionnaires.ProgressSteps | src/modules/questionnaire/questionnaire.service.ts:234-263 | each step number of the questions is reported once, in increasing order |
| Questionnaires.StatusesSteps | src/modules/questionnaire/questionnaire.service.ts:234-263 | the statuses over the step numbers report each step once, in increasing order |
| Questionnaires.ProgressCurrentStep | src/modules/questionnaire/questionnaire.service.ts:266-267 | the reported current step follows CurrentStepRule over the reported steps |
| Questionnaires.StatusesCurrentStep | src/modules/questionnaire/questionnaire.service.ts:266-267 | the current step chosen over the statuses follows CurrentStepRule |
| Questionnaires.IdsBound | src/modules/questionnaire/questionnaire.service.ts:229-230 | a set of the questionnaire's question ids has no more elements than there are questions |
| Questionnaires.ProgressPercentBounded | src/modules/questionnaire/questionnaire.service.ts:229-231 | the answered count never exceeds the question count and the percentage lies in 0..100 |
| Questionnaires.CheckAllQuestionnairesCompleted | src/modules/questionnaire/questionnaire.service.ts:286-313 | true exactly when every required question of every active questionnaire has an answer of the user grouped under that questionnaire |
| Questionnaires.QuestionnaireService.constructor | src/modules/questionnaire/questionnaire.service.ts:14-24 | the given questionnaires and users, no answers yet |
| Questionnaires.QuestionnaireService.GetQuestionnaireById | src/modules/questionnaire/questionnaire.service.ts:44-67 | 404 'Questionnaire not found' for an unknown or inactive id, otherwise the questionnaire with questions and options sorted |
| Questionnaires.QuestionnaireService.SortEachOptions | src/modules/questionnaire/questionnaire.service.ts:62-64 | every question in the array gets its options sorted, in place |
| Questionnaires.QuestionnaireService.SortOptions | src/modules/questionnaire/questionnaire.service.ts:63 | one question with its options stably sorted by displayOrder |
| Questionnaires.QuestionnaireService.SubmitAnswer | src/modules/questionnaire/questionnaire.service.ts:84-146 | the result is AnswerOutcome, and the table gains or replaces exactly that row on success, unchanged otherwise |
| Questionnaires.QuestionnaireService.SubmitAnswers | src/modules/questionnaire/questionnaire.service.ts:216-223 | the table and the result are those of SubmitAll: the rows saved, or the first error after the earlier rows were saved |
| Questionnaires.QuestionnaireService.SubmitStep | src/modules/questionnaire/questionnaire.service.ts:148-214 | the result and the answers are those of StepOutcome, and the user is marked questionnaireCompleted exactly when the result says so |
| Questionnaires.QuestionnaireService.GetQuestionnaireProgress | src/modules/questionnaire/questionnaire.service.ts:225-284 | 404 for an unknown or inactive questionnaire, otherwise the ProgressOf report over the user's answers to its questions |
| QuestionnaireController.ForUser | src/modules/questionnaire/questionnaire.controller.ts:64-81 | the questionnaires shown to the user, a sub-list of all of them, exactly those passing the audience test |
| QuestionnaireController.ForUserByAudience | src/modules/questionnaire/questionnaire.controller.ts:68-78 | a user without a completed profile sees nothing; otherwise exactly the advisor questionnaires for an advisor and the user questionnaires for anyone else |
| QuestionnaireController.CommaList | src/modules/questionnaire/questionnaire.controller.ts:224-225 | every item of the split list is non-empty, trimmed and free of commas |
| QuestionnaireController.NonEmptyTrimmed | src/modules/questionnaire/questionnaire.controller.ts:225 | `map(trim).filter(Boolean)`: at most as many items, each non-empty and trimmed |
| QuestionnaireController.CommaListJoin | src/modules/questionnaire/questionnaire.controller.ts:224-225 | option ids joined with ',' come back as exactly those ids |
| QuestionnaireController.SplitJoin | src/modules/questionnaire/questionnaire.controller.ts:225 | splitting on ',' inverts joining comma-free parts with ',' |
| QuestionnaireController.TrimmedKept | src/modules/questionnaire/questionnaire.controller.ts:225 | ids already non-empty and trimmed pass the trim-and-filter unchanged |
| QuestionnaireController.SelectedOptions | src/modules/questionnaire/questionnaire.controller.ts:211-234 | none for a falsy field; an array is taken as is; a string is the parsed JSON array, or else the string alone as one option; a string that is not JSON is split on commas when it has one |
| QuestionnaireController.CommaSeparatedOptions | src/modules/questionnaire/questionnaire.controller.ts:222-229 | a comma-separated text of several ids (not JSON) yields exactly those ids; a single id yields itself |
| QuestionnaireController.CommaInJoin | src/modules/questionnaire/questionnaire.controller.ts:224 | joining two or more ids puts a comma in the text |
| QuestionnaireController.FileQuestionId | src/modules/questionnaire/questionnaire.controller.ts:317-319 | a question id exactly for a field name 'file_<id>' with a non-empty id |
| QuestionnaireController.FileFieldRoundTrip | src/modules/questionnaire/questionnaire.controller.ts:317-319 | 'file_' + id gives back the id |
| QuestionnaireController.FilesByQuestion | src/modules/questionnaire/questionnaire.controller.ts:313-322 | a question id has a file exactly when some uploaded file's field name names it |
| QuestionnaireController.LastFileWins | src/modules/questionnaire/questionnaire.controller.ts:315-320 | when several files name the same question, the last one is kept |
| QuestionnaireController.CollectFiles | src/modules/questionnaire/questionnaire.controller.ts:313-322 | the loop builds FilesByQuestion |
| QuestionnaireController.WithFile | src/modules/questionnaire/questionnaire.controller.ts:325-332 | an answer with a file gets that file's URL and original name, any other answer is unchanged; id, text and options are never touched |
| QuestionnaireController.AttachFiles | src/modules/questionnaire/questionnaire.controller.ts:325-332 | every answer in the array becomes WithFile of itself, in place |
| QuestionnaireController.AttachedFile | src/modules/questionnaire/questionnaire.controller.ts:313-332 | an answer receives the URL and name of the last file uploaded for its question |
| Posts.NewPost | src/modules/posts/posts.service.ts:20-45 | rejected with 400 'Post must have either content or images' exactly when there is neither; otherwise the post of the user with that content and category, type TEXT_WITH_IMAGES exactly when there are images, imageUrls set exactly when non-empty, totalVotes 0, open and not deleted |
| Posts.NewOption | src/modules/posts/posts.service.ts:50-67 | a fresh id, the text, no votes, and the uploaded image when there is one, else the given imageUrl when non-empty, else none |
| Posts.NewOptions | src/modules/posts/posts.service.ts:49-69 | one option per input, in order, the i-th using the upload at index i |
| Posts.NewPoll | src/modules/posts/posts.service.ts:47-94 | the poll keeps id, user, content, category and question; one zero-vote option per input with its text and id; type POLL_WITH_IMAGES exactly when some option has an image, POLL otherwise; multipleSelection exactly when given as true; expiresAt exactly when durationDays is given and non-zero, then now plus durationDays times the length of a day |
| Posts.PollImages | src/modules/posts/posts.service.ts:53-72 | an uploaded image wins over a given imageUrl; any non-empty upload makes the poll POLL_WITH_IMAGES; without uploads or URLs it is a plain POLL |
| Posts.OptionIds | src/modules/posts/posts.service.ts:148 | the options' ids, in order |
| Posts.NotAmong | src/modules/posts/posts.service.ts:149 | exactly the chosen ids that are not valid option ids |
| Posts.VoteCheck | src/modules/posts/posts.service.ts:96-153 | the vote passes exactly when VoteAllowed holds (the poll exists, is a live open unexpired poll with options, the user's earlier votes and the number of ids fit the selection mode, every id is an option), and then yields that poll; 404 'Poll not found' for a missing or deleted post; 400 'This post is not a poll' for a plain post; every other rejection is 400 |
| Posts.PollStateRejections | src/modules/posts/posts.service.ts:108-120 | in order: 'Poll has no options', 'Poll is closed', 'Poll has expired' strictly after the expiry instant, which itself still accepts votes |
| Posts.UserVoteRejections | src/modules/posts/posts.service.ts:122-145 | a single-selection poll refuses a second vote and more than one id; a multiple-selection poll refuses ids the user already voted for |
| Posts.BumpAt | src/modules/posts/posts.service.ts:167-172 | `find` then increment: only the first option with that id gains one vote |
| Posts.CountedAt | src/modules/posts/posts.service.ts:167-172 | after the tally, the first option with each id has gained one vote per occurrence of its id; every other option is unchanged |
| Posts.BumpSum | src/modules/posts/posts.service.ts:167-172 | one increment raises the total of the options' counts by one exactly when the id is an option's |
| Posts.CountedSum | src/modules/posts/posts.service.ts:167-172 | when every chosen id is an option's, the options' counts rise by exactly the number of ids |
| Posts.BumpIs | src/modules/posts/posts.service.ts:168-171 | the increment lands on the first option with the id, and nothing changes when there is none |
| Posts.Tally | src/modules/posts/posts.service.ts:167-172 | the loop over the ids leaves the options array equal to the Counted specification of its old contents |
| Posts.NewVotes | src/modules/posts/posts.service.ts:156-162 | one vote row per chosen id, in order, for that user and poll |
| Posts.PostsService.constructor | src/modules/posts/posts.service.ts:14-18 | empty post and vote tables |
| Posts.PostsService.CreatePost | src/modules/posts/posts.service.ts:20-45 | the result is NewPost; the post is stored exactly when it is accepted; votes are unchanged |
| Posts.PostsService.CreatePoll | src/modules/posts/posts.service.ts:47-94 | the stored and returned poll is NewPoll; votes are unchanged |
| Posts.PostsService.VotePoll | src/modules/posts/posts.service.ts:96-178 | a failed check changes nothing; a vote row already present (the unique (userId, postId, optionId) index) fails with 500 and changes nothing; otherwise the vote rows are appended and the poll saved with the tallied counts and totalVotes raised by the number of ids |
| Posts.AcceptedVoteKeepsTotals | src/modules/posts/posts.service.ts:167-174 | after an accepted vote, totalVotes and the sum of the option counts both rise by the number of ids |
| Posts.SecondSingleVoteRejected | src/modules/posts/posts.service.ts:123-130 | once a user's vote on a single-selection poll is saved, their next vote is refused with 'You have already voted on this poll' |
| Posts.RepeatedOptionBreaksIndex | src/modules/posts/entities/poll-vote.entity.ts:16 | an id repeated in one request produces two identical vote rows, which the unique index rejects |
| Posts.FreshVotesUnique | src/modules/posts/posts.service.ts:122-164 | an accepted vote with distinct ids never violates the unique index |
| PostsController.RequireUser | src/modules/posts/posts.controller.ts:127-129 | passes exactly when the current user has a non-empty id, yielding it; otherwise 400 'User not found' |
| PostsController.PollOptions | src/modules/posts/posts.controller.ts:136-141 | a string options field is parsed as JSON, and a parse failure is 400 'Invalid JSON format for options'; a non-string field is used as it is |
| PostsController.OptionImageDigits | src/modules/posts/posts.controller.ts:148 | a match captures a non-empty run of digits and the field name is exactly 'option_' + digits + '_image' |
| PostsController.OptionImageFieldRoundTrip | src/modules/posts/posts.controller.ts:148 | every 'option_<digits>_image' field name matches and captures those digits |
| PostsController.OptionImageIndex | src/modules/posts/posts.controller.ts:148-150 | an index is produced exactly when the field name matches the option image pattern |
| PostsController.OptionImageIndexOf | src/modules/posts/posts.controller.ts:148-150 | the field name 'option_' + the decimal text of n + '_image' gives index n |
| PostsController.OptionImages | src/modules/posts/posts.controller.ts:144-154 | the map's keys are exactly the indices of the files whose field names match |
| PostsController.LastOptionImageWins | src/modules/posts/posts.controller.ts:147-152 | when several files carry the same index, the last of them is kept |
| PostsController.CollectOptionImages | src/modules/posts/posts.controller.ts:144-154 | the forEach loop builds exactly the OptionImages map |
| PostsController.PostImageList | src/modules/posts/posts.controller.ts:169-171 | the kept files are exactly the post images among the uploads, and no more than were uploaded |
| PostsController.PostImageListConcat | src/modules/posts/posts.controller.ts:169-171 | the filter keeps upload order: the images of two batches are those of the first followed by those of the second |
| PostsController.PostImageListSingle | src/modules/posts/posts.controller.ts:169-171 | a single upload is kept once exactly when it is a post image |
| PostsController.PostImages | src/modules/posts/posts.controller.ts:169-178 | absent exactly when no upload is a post image; otherwise the non-empty list of exactly the post images |
| PostsController.OptionImageIsNotPostImage | src/modules/posts/posts.controller.ts:148-170 | a file named as an option image is never taken as a post image |
| PostsController.PlainFileIsPostImage | src/modules/posts/posts.controller.ts:170 | a file without a field name, or whose name neither starts with 'option_' nor contains '_image', is a post image and not an option image |
| PostsController.MultipleSelection | src/modules/posts/posts.controller.ts:160 | true exactly for the string 'true' or the boolean true |
| PostsController.TextToInteger | src/modules/posts/posts.controller.ts:161 | Number() of a string of digits, surrounded by whitespace or not, is the integer they spell |
| PostsController.ToInteger | src/modules/posts/posts.controller.ts:161 | a number is itself, a boolean is 1 or 0, a digit string is its value, an array converts through its comma-joined text, and undefined and objects give no integer |
| PostsController.NatTextToInteger | src/modules/posts/posts.controller.ts:161 | `Number()` of the decimal text of a natural number is that number |
| PostsController.EmptyArrayToInteger | src/modules/posts/posts.controller.ts:161 | `Number([])` is 0 |
| PostsController.SingleNumberToInteger | src/modules/posts/posts.controller.ts:161 | `Number([n])` of a natural number n is n |
| PostsController.SingleDigitsToInteger | src/modules/posts/posts.controller.ts:161 | `Number(['<digits>'])` is the number the digits spell |
| PostsController.SingleToText | src/modules/posts/posts.controller.ts:161 | a one-element array renders as its element |
| PostsController.ArrayToInteger | src/modules/posts/posts.controller.ts:161 | `Number([])` is 0, and a one-element array of a number or of a digit string is that number |
| PostsController.DurationDays | src/modules/posts/posts.controller.ts:161 | a falsy durationDays is undefined; a truthy one is its Number() |
| PostsController.DurationDaysFromText | src/modules/posts/posts.controller.ts:161 | a whitespace-padded decimal text of n gives n days |
| PostsController.CreatePostOrPoll | src/modules/posts/posts.controller.ts:121-180 | no user: 400 'User not found'; a body with a truthy question and options is a poll request with the parsed options, the multipleSelection flag, the duration, and the option images; anything else is a post request with content, category and the post images |
| PostsController.HalfPollIsPost | src/modules/posts/posts.controller.ts:132 | a body missing either the question or the options is handled as a plain post |
| Validators.AsString | src/main.ts:11-17 | implicit conversion of a `string` field: a single value becomes the string `String()` gives, null and undefined stay, an array is converted element by element |
| Validators.AsBoolean | src/main.ts:11-17 | implicit conversion of a `boolean` field: a single value becomes its truthiness, null and undefined stay, an array is converted element by element |
| Validators.ConversionsIdempotent | src/main.ts:11-17 | converting twice is converting once, and a string or a boolean is left unchanged |
| Validators.AsStringOfWord | src/main.ts:11-17 | a lower-case word other than 'true' and 'false' is the conversion of that very string and of nothing else |
| Validators.ProviderAfterConversion | src/modules/auth/dto/login.dto.ts:20-21 | the conversion turns no value other than a provider's own string into that provider, so the type checks are unchanged by it |
| Validators.PhoneTransform | src/modules/auth/dto/login.dto.ts:32-34 | a string has the phone separators removed and is trimmed, never growing; any other value passes through unchanged |
| Validators.EmailTransform | src/modules/auth/dto/login.dto.ts:47 | a string becomes the service's normalised e-mail (trimmed, lower case); any other value passes through unchanged |
| Validators.TrimTransform | src/modules/auth/dto/login.dto.ts:59 | a string is trimmed; any other value passes through unchanged |
| Validators.TransformsIdempotent | src/modules/auth/dto/login.dto.ts:32-59 | each of the three transforms, run on its own output, changes nothing |
| Validators.ProviderValuesAreMembers | src/modules/auth/dto/login.dto.ts:20-21 | the values IsEnum(AuthProvider) accepts are exactly the provider values |
| Validators.E164Shape | src/modules/auth/dto/login.dto.ts:35 | a phone matching the pattern has 8 to 16 characters, digits everywhere but a possible leading '+', and no separator |
| Validators.NumbersAreE164 | src/modules/auth/dto/login.dto.ts:35 | every number of 8 to 15 digits matches, with or without a leading '+' |
| Validators.E164Rejects | src/modules/auth/dto/login.dto.ts:35 | digit strings shorter than 8, longer than 15, or starting with 0 do not match |
| Validators.ValidatedPhoneIsNormal | src/modules/auth/dto/login.dto.ts:32-35 | a phone that passes the transform and the pattern is left unchanged by the auth service's phone normalisation |
| Validators.TransformedEmailIsNormal | src/modules/auth/dto/login.dto.ts:47 | an e-mail after the transform is left unchanged by the auth service's e-mail normalisation |
| Validators.EmailOrPhoneOnStrings | src/modules/otp/dto/verify-otp.dto.ts:24-27 | on string or absent fields, IsEmailOrPhone passes exactly when the e-mail or the phone is a non-empty string |
| Validators.StrictValidators | src/modules/auth/dto/reset-password.dto.ts:21-27 | Match passes exactly when both sides are the same string, so a non-string side always fails; IsTrue accepts only the boolean true, not the string "true" or 1 |
| Dtos.LoginChecksFollowType | src/modules/auth/dto/login.dto.ts:29-60 | the phone is checked only for type 'phone' and the e-mail and password only for type 'email': any value elsewhere leaves the verdict unchanged |
| Dtos.LoginPhoneAndPassword | src/modules/auth/dto/login.dto.ts:29-60 | an accepted phone login carries a single-value phone whose text matches the pattern after the transform; a missing, null, array or all-whitespace password fails an e-mail login, the last because it is trimmed before IsNotEmpty |
| Dtos.PhoneLoginAccepted | src/modules/auth/dto/login.dto.ts:20-68 | a phone login whose phone matches after the transform is accepted, whatever the e-mail and password fields hold |
| Dtos.ConvertedPhoneText | src/main.ts:11-17 | a phone that matches once converted and stripped was a single value whose `String()` text, stripped, matches |
| Dtos.NumericPhoneLoginAccepted | src/main.ts:11-17 | a phone login whose phone is a JSON number of 8 to 15 digits is accepted, the number becoming its decimal text |
| Dtos.NumberPhoneText | src/main.ts:11-17 | such a number converts to a text that needs no stripping and matches the pattern |
| Dtos.SocialIdTokenOnlyForGoogle | src/modules/auth/dto/login.dto.ts:71-90 | a google social login whose idToken is missing, null or an array fails; for other providers the idToken is not looked at |
| Dtos.VerifyOtpNeedsContact | src/modules/otp/dto/verify-otp.dto.ts:36-78 | an accepted OTP verification has an otpId and a code that are single values with non-empty text, and a non-empty e-mail or phone after conversion and transforms; one with neither e-mail nor phone fails |
| Dtos.ResendPurposeRule | src/modules/otp/dto/resend-otp.dto.ts:12-14 | an accepted resend has purpose 'login' or 'reset'; 'verify' fails |
| Dtos.ResendContactRules | src/modules/otp/dto/resend-otp.dto.ts:21-47 | a phone resend without a phone fails, an e-mail resend without an e-mail fails, and each contact field is looked at only for its own type |
| Dtos.ResetPasswordRules | src/modules/auth/dto/reset-password.dto.ts:36-62 | an accepted reset has a token with non-empty text, a new password whose text has at least 6 characters, and a confirmation with the same text; a missing, null or array value on either side, or a different text, fails |
| Dtos.NumericPasswordReset | src/modules/auth/dto/reset-password.dto.ts:36-62 | a six-digit JSON number as the new password, confirmed by its text, is accepted |
| Dtos.CompleteProfileRules | src/modules/auth/dto/complete-profile.dto.ts:26-80 | an accepted profile has first and last names non-blank after trimming, a single-value isAdvisor, and a single truthy termsAccepted; a missing, falsy or array termsAccepted, or an all-whitespace first name, fails |
| Dtos.FalseStringAcceptsTerms | src/modules/auth/dto/complete-profile.dto.ts:77-80 | a profile sending termsAccepted as the string 'false' is accepted, because the conversion makes it `true` before IsTrue runs |
| Dtos.ProfilePhoneChecked | src/modules/auth/dto/complete-profile.dto.ts:49-55 | a phone present in an accepted profile, whether sent as a string or a number, matches the pattern once converted and stripped; an array phone fails |
| Dtos.ProfileContactOptional | src/modules/auth/dto/complete-profile.dto.ts:49-64 | an accepted profile stays accepted without a phone or an e-mail |

## Left out

- ResponseEnvelope.Wrap, ErrorEnvelope.HttpEnvelope and ErrorEnvelope.CatchAll model what the response interceptor builds and what the two exception filters write. Neither src/main.ts nor src/app.module.ts installs them (no `useGlobalFilters`, `useGlobalInterceptors`, `APP_FILTER` or `APP_INTERCEPTOR`), and no controller applies them. So as the application stands, clients get Nest's default error body `{ statusCode, message, error }` and the handlers' raw results. The model does not describe that default behaviour.
- PostsController.CreatePostOrPoll and the Posts service model the posts module, but src/app.module.ts does not import `PostsModule` and no other module does. So the posts routes are not mounted in the application as it stands.
- bcrypt, `crypto.randomBytes`, `Math.random`, `randomUUID` and the JWT library's signing and verification are foreign calls. They appear as the `Hash` tag and as parameters; salts and token bytes are not modelled.
- Crypto.Hash: bcrypt's limit is 72 UTF-8 bytes, and the model counts 72 characters. The two agree on the ASCII hex secrets and digit codes; a password with non-ASCII characters is cut later in the model than by bcrypt.
- Failures of the database, of bcrypt, of JWT signing and of random draws are not modelled, except where the code catches them: the ignored provider update in the auth service's `verifyOtp`, the ignored `lastLoginAt` update, a failed enqueue in `resendOtp`, and a failed send in the OTP processor.
- The id columns are Postgres `uuid`s, so a lookup by a non-UUID id makes the query throw. In the services the client gets a 500. In the JWT guard the throw is caught and becomes 401 'Invalid or expired token' (src/common/guards/jwt-auth.guard.ts lines 44-48). The model treats such an id as absent: validation and `isSessionActive` return null or false, OTP verification answers 'Invalid OTP', and JwtGuard.Admit answers 'User not found'.
- BullMQ and Redis: the retry, backoff and retention options of `addOtpJob` are queue configuration. Enqueueing is a call whose success is a parameter.
- The Twilio client, S3 and local-disk storage are network and file I/O. An SMS send is an outcome parameter, and an uploaded file's URL is an input.
- The email channel of the OTP processor only logs, and logging is not modelled. That includes the `console.log` of plaintext codes.
- The read-then-write races in `verifyOtp` and `votePoll` under parallel requests are out of scope. Every operation runs alone.
- The TypeORM query builders are database paging, ordering and joins: `getQuestionnaires`, `getUserAnswers`, `getPosts`, `getPolls` and the users service's `findByEmailWithPassword` and `findByProviderId`.
- `getPostById` and `getPollById` are `findOne` calls with relations followed by a type check; their loading of relations is not modelled.
- The two OTP services share the `otps` table. They are modelled as two separate ledgers, because the auth service uses only the older one.
- The user row carries `profileCompleted`, `isAdvisor` and `questionnaireCompleted` as boolean columns, but `user.entity.ts` does not declare them. The questionnaire controller reads them (questionnaire.controller.ts line 70). On a loaded entity they would be undefined, hence falsy, and the controller's filter would show no questionnaire to anyone.
- Twilio.CreateOtpMessage: a purpose that names an `Object.prototype` member, such as 'constructor', finds that member instead of a message. The model gives such purposes the verification wording.
- `src/modules/auth/enums/auth-provider.enum.ts` is not part of this model. Its values are taken to be `phone`, `email`, `google` and `apple`.
- Auth.AuthService.LoginWithPhone and Auth.AuthService.LoginWithEmail create users with the provider tags 'phone_otp', 'email_pwd' and 'email_otp'. The user entity declares `provider` as an enum column of AuthProvider, and under the values above the database would refuse those inserts. The model stores the provider as free text, so these sign-ups succeed.
- `src/session/session.service.ts` is not part of this model. The auth service imports its session service from there (auth.service.ts line 12), but `Auth.AuthService` is modelled against the session service under `src/modules/session` instead.
- `toLowerCase` is modelled for ASCII letters only. String lengths count characters, not UTF-16 code units.
- `Math.round` of the progress percentage is modelled in exact integer arithmetic, rounding halves upwards. Floating-point error in `answered / total * 100` is not modelled, and it changes the result at exact halves. With 23 of 40 answered, JavaScript computes `23 / 40 * 100` as 57.49999999999999 and reports 57, where Questionnaires.RoundPercent gives 58. With 29 of 200 it reports 14 where the model gives 15.
- `Date.setDate` in `createPoll` is modelled as adding whole days of 86 400 000 ms. Daylight-saving shifts are not modelled.
- An unset `OTP_TTL_MINUTES`, which gives `NaN` in the code, is modelled as a configured whole number.
- Array-valued HTTP headers and JavaScript prototype keys such as `__proto__` in request bodies are not modelled.
- TypeORM's `save` skipping `undefined` properties is not modelled. Rows are whole records.
- Non-string elements inside a `selectedOptions` array are not modelled, and neither is the answers-JSON parse error of the multi-answer endpoint. Of the single-answer endpoint, the `selectedOptions` normalisation is modelled (QuestionnaireController.SelectedOptions); its S3 upload is an input like the other uploads.
- `CheckAllQuestionnairesCompleted` takes the results of its queries as parameters. The questionnaire tables are read-only in this model.
- PostsController.ToInteger: `Number()` of a decimal, hexadecimal, exponent or otherwise non-digit string gives no integer here, where the code gives a float or `NaN`. The same holds for an array whose joined text is such a string. `durationDays` of `NaN` and of `undefined` are not told apart.
- Numbers are integers throughout the model. Fractional numbers, `NaN` and `Infinity` cannot appear in request bodies, answers or envelopes.
- ErrorEnvelope.HttpEnvelope requires an exception response that is not `null`. On a `null` response the filter reads `null.message` and throws (`typeof null` is 'object'). No exception thrown in the code has a `null` response.
- PostsController.OptionImageIndex: `parseInt` of a very long digit run is exact here, where the code loses precision.
- Posts.PostsService.VotePoll: the message of the unique-index failure comes from the database driver. It is modelled as one fixed text.
- The poll body that the controller builds reaches the service without validation. The service model takes a typed poll input, and the declarative DTO bounds are not modelled: at least 2 options, `durationDays` between 1 and 365, at least one option id per vote, and `stepNumber` of at least 1.
- The messages and ordering of class-validator errors, and the whitelist behaviour of the validation pipe, are not modelled. Each DTO is modelled as a pass-or-fail predicate over its converted and transformed fields.
- Validators.AsString: the implicit conversion is modelled for fields declared `string` (including the string-valued provider enum and the `'login' | 'reset'` purpose) and `boolean`. Its effect on objects inside arrays and on nested DTOs is not modelled.
- The address syntax of `IsEmail` is a parameter.
- class-transformer runs a transform only on keys that are present. Here a transform runs on `undefined` too, which leaves it unchanged.
- The declarative DTOs are not modelled: create-poll, create-post, vote-poll, submit-answer, submit-step, request-otp, refresh and revoke.
- Module wiring, the controllers not listed above, the seeders and the entities' decorators are not modelled. The entities appear as datatypes.
