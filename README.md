# Account lifecycle of the GreenSphere user service

This project models the account lifecycle engine of the user service (`UserServiceImpl`) and proves properties of that model in Dafny. The engine is a state machine over stored account records. Five operations drive it:

- **registerInit** reconciles the request's natural key (national ID, phone, email) against the store. It reuses or creates a record, hands an OTP to the SMS gateway and moves the record to PENDING.
- **verifyOtp**, called by **registerVerify**, checks three guards in a fixed order. It then accepts the code (VERIFIED, both counters reset) or counts a wrong attempt.
- **setUpDetails** and **govUserSignUp** check the record's roles, store the profile, move the record to SAVED and issue tokens.
- **login**, through **logUser**, refuses any record that is not ACTIVE. It then runs the login-attempt budget, and using it up disables the record and sends one lockout message.

The model has five modules:

- `Domain` (`domain.dfy`): the account record as a value (`AccountState`), statuses, thresholds, response codes, outbound messages and token claims.
- `Reconcile` (`reconcile.dfy`): the repository query on the natural key and the stream filter that picks among several matches.
- `Lifecycle` (`lifecycle.dfy`): each operation as a pure transition. It maps the store (or one record) and the inputs to an outcome, the records after the call and the messages handed to the gateway. Each outcome type gives its response code.
- `Service` (`service.dfy`): the imperative form of the same code. `Account` is a class with the entity's columns as fields and one setter per column. `UserService` holds the store as a sequence of `Account` objects. Every method changes the records through the setters, as the source does, and its `ensures` proves that it performs exactly the `Lifecycle` transition.
- `Properties` (`properties.dfy`): facts that span several calls. These are runs of OTP verifications and of logins on one record, a store invariant that every operation keeps (unique keys, and an issue time on every record with an OTP status), and the worked examples of three wrong codes and three bad passwords.

Thresholds are a partial map from name to value. `Num(n)` is a value that parses as the integer `n`; `Text(s)` is a value that does not parse. The clock, the password encoder, the authentication manager, the SMS gateway's answer, the generated OTP and the username the store assigns to a new record are all inputs: `now`, `otpMatches`, `authenticated`, `smsSucceeded`, `otp` and `newUsername`.

Behaviour of the code worth knowing, all of it modelled as written:

- The remaining OTP attempts are counted down from the literal 3, not from the configured maximum.
- Bad credentials on an ACTIVE record whose counter already reached the threshold skip the counting branch and reach token issuance. The branch is reached once the threshold is lowered, or once a record is reactivated without its counter being reset.
- A missing threshold is rethrown only by verifyOtp. registerInit, registerVerify and login turn it into an internal error, like every other exception.
- A new record is stored before the OTP thresholds are read. The DISABLED status is stored before the lockout message threshold is read. A missing threshold leaves both writes in place.
- The multi-match filter compares the request's government ID with itself. The ID therefore plays no part in the choice, and a null ID makes the filter throw when it reaches a record equal on all three keys. With several matches and none equal, a null ID gives the conflict answer.
- A single match is reused even when it shares only one key with the request. The OTP goes to the request's phone, not to the stored one.
- Re-registration issues a new OTP but does not reset the verify-attempt counter.

## Model

| member | source | states |
|---|---|---|
| Reconcile.Matches | src/main/java/com/greensphere/userservice/service/UserServiceImpl.java:65 | the query returns, in store order and without repetition, exactly the records sharing the national ID, the phone or the email |
| Reconcile.FirstEqual | src/main/java/com/greensphere/userservice/service/UserServiceImpl.java:68-75 | nothing is picked iff no match equals the request on all three keys; otherwise a pick happens iff the request carries a government ID (a null one throws); the pick is the first equal match |
| Reconcile.Resolve | src/main/java/com/greensphere/userservice/service/UserServiceImpl.java:65-88 | a record is created iff nothing shares a key; one match is reused whatever it shares; with several, a conflict iff none is equal on all three keys; the filter faults iff the government ID is null and some record is equal on all three keys; otherwise the reused record is the first equal one in store order |
| Reconcile.PickedIsFirstInStore | src/main/java/com/greensphere/userservice/service/UserServiceImpl.java:65-74 | the record the filter picks among the query's results comes before every other record of the store that is equal on all three keys |
| Lifecycle.FirstWhere | src/main/java/com/greensphere/userservice/service/UserServiceImpl.java:170 | a lookup finds the first record with the property, and finds none iff no record has it |
| Lifecycle.OtpStatusFor | src/main/java/com/greensphere/userservice/service/UserServiceImpl.java:138 | the OTP status is SENT iff the gateway answered with success, FAILED otherwise |
| Lifecycle.IssueOtp | src/main/java/com/greensphere/userservice/service/UserServiceImpl.java:139-144 | issuing an OTP stores it, sets SENT or FAILED by the gateway's answer, adds exactly one OTP attempt, records the issue time and sets PENDING; every other column (verify and login counters, roles, username, keys, profile, password, disabled reason, registration time) is unchanged |
| Lifecycle.SendOtp | src/main/java/com/greensphere/userservice/service/UserServiceImpl.java:120-157 | success iff both OTP thresholds exist and the length parses; a missing one is reported in order and changes nothing; success updates only the chosen record and sends one OTP message to the request's phone |
| Lifecycle.RegisterInit | src/main/java/com/greensphere/userservice/service/UserServiceImpl.java:57-166 | conflict iff several matches and none equal; registration starts iff a record was reused or created and the OTP length and message thresholds exist with a parsable length; a registration that does not start sends nothing; a success answers with the request's phone and the roles of the reused record, or the requested role for a new one; a conflict or a filter fault writes and sends nothing; one match returns that record's username; the store grows by exactly one record iff nothing matched, even when the thresholds are then missing; without success no existing record changes, and a record created for missing thresholds stays exactly as built |
| Lifecycle.RegisterNew | src/main/java/com/greensphere/userservice/service/UserServiceImpl.java:89-157 | the new record is stored first; success iff the OTP thresholds are usable, and then the store gains the new record with the OTP issued, the answer carries the new username and one OTP message is sent; otherwise the store gains the new record as built and nothing is sent |
| Lifecycle.VerifyOtp | src/main/java/com/greensphere/userservice/service/UserServiceImpl.java:295-376 | missing thresholds are thrown and unparsable ones are internal errors; a record never sent an OTP, or one without an issue time, gives an internal error; accepted iff SENT, within budget, not strictly past expiry and matching; the guards apply in order and leave the record unchanged; acceptance sets both statuses to VERIFIED and both counters to 0; a wrong code only adds one verify attempt and reports 3 minus the new count |
| Lifecycle.RegisterVerify | src/main/java/com/greensphere/userservice/service/UserServiceImpl.java:168-211 | an unknown username changes nothing; otherwise the found record takes verifyOtp's new state, a thrown threshold becomes an internal error and any other refusal is passed on; the response is success iff the user was verified |
| Lifecycle.FindRole | src/main/java/com/greensphere/userservice/service/UserServiceImpl.java:234 | a role is found iff the record holds a role of the requested name |
| Lifecycle.ApplySetUpDetails | src/main/java/com/greensphere/userservice/service/UserServiceImpl.java:225-261 | no roles gives CANNOT_FIND_USER_ROLES, a missing role gives USER_DOESNT_HAVE_PERMISSION, and neither changes the record; otherwise the profile, password and registration time are stored, the status is SAVED whatever it was, and the tokens carry the username and the requested role |
| Lifecycle.SetUpDetails | src/main/java/com/greensphere/userservice/service/UserServiceImpl.java:213-293 | a missing user is reported iff no record has the username; on the found record, no roles gives CANNOT_FIND_USER_ROLES, a missing requested role gives USER_DOESNT_HAVE_PERMISSION, and sign-up happens iff the role is held, with tokens for that role and no issue time; only a sign-up changes the store, and then only the found record, which becomes SAVED |
| Lifecycle.ApplyGovUserSignUp | src/main/java/com/greensphere/userservice/service/UserServiceImpl.java:390-422 | the same role checks with the government-user role required; success stores name, city, password and registration time, sets SAVED, and issues tokens for the request's username with the issue time |
| Lifecycle.GovUserSignUp | src/main/java/com/greensphere/userservice/service/UserServiceImpl.java:378-452 | a missing user is reported iff no record has the username; on the found record, no roles gives CANNOT_FIND_USER_ROLES, no government-user role gives USER_DOESNT_HAVE_PERMISSION, and sign-up happens iff that role is held, with tokens for the request's username, the government-user role and the issue time; only a sign-up changes the store, and then only the found record, which becomes SAVED |
| Lifecycle.LogUser | src/main/java/com/greensphere/userservice/service/UserServiceImpl.java:480-579 | not ACTIVE is refused with no change; good credentials reset the counter and issue tokens for the claimed role, with a summary of the record's full name, email, government ID, city and ACTIVE status; bad ones within budget add one attempt, disable iff the budget is used up (even when the message threshold then turns out missing) and otherwise report at least 1 remaining; at the threshold they fall through to tokens; only a lockout sends a message, exactly one |
| Lifecycle.Login | src/main/java/com/greensphere/userservice/service/UserServiceImpl.java:454-478 | an unknown email is reported iff no record has it and changes nothing; otherwise the outcome and messages are logUser's on the found record, and only that record changes |
| Service.Account.constructor | src/main/java/com/greensphere/userservice/service/UserServiceImpl.java:89-118 | the new record carries the request's keys, its one role, the government ID only for the government-user role, zero counters and no OTP |
| Service.UserService.Persist | src/main/java/com/greensphere/userservice/service/UserServiceImpl.java:49-55 | saving a record the store did not hold appends it, and no record is held twice |
| Service.UserService.SendOtp | src/main/java/com/greensphere/userservice/service/UserServiceImpl.java:120-145 | the threshold checks and the setter calls on the chosen record perform exactly Lifecycle.SendOtp |
| Service.UserService.RegisterInit | src/main/java/com/greensphere/userservice/service/UserServiceImpl.java:57-166 | the method performs exactly Lifecycle.RegisterInit on the stored records and keeps every record stored once |
| Service.UserService.VerifyOtp | src/main/java/com/greensphere/userservice/service/UserServiceImpl.java:295-376 | the guards and the setter calls on the record perform exactly Lifecycle.VerifyOtp |
| Service.UserService.RegisterVerify | src/main/java/com/greensphere/userservice/service/UserServiceImpl.java:168-211 | the lookup and the call of verifyOtp perform exactly Lifecycle.RegisterVerify, changing no other record |
| Service.UserService.ApplySetUpDetails | src/main/java/com/greensphere/userservice/service/UserServiceImpl.java:225-261 | the role checks and the setter calls perform exactly Lifecycle.ApplySetUpDetails |
| Service.UserService.SetUpDetails | src/main/java/com/greensphere/userservice/service/UserServiceImpl.java:213-293 | the method performs exactly Lifecycle.SetUpDetails, changing no other record |
| Service.UserService.ApplyGovUserSignUp | src/main/java/com/greensphere/userservice/service/UserServiceImpl.java:390-422 | the role checks and the setter calls perform exactly Lifecycle.ApplyGovUserSignUp |
| Service.UserService.GovUserSignUp | src/main/java/com/greensphere/userservice/service/UserServiceImpl.java:378-452 | the method performs exactly Lifecycle.GovUserSignUp, changing no other record |
| Service.UserService.LogUser | src/main/java/com/greensphere/userservice/service/UserServiceImpl.java:480-579 | the status check, the budget and the setter calls perform exactly Lifecycle.LogUser, the messages included |
| Service.UserService.Login | src/main/java/com/greensphere/userservice/service/UserServiceImpl.java:454-478 | the lookup and the call of logUser perform exactly Lifecycle.Login, changing no other record |
| Properties.OnlyEqualRecordMatches | src/main/java/com/greensphere/userservice/service/UserServiceImpl.java:65-75 | with unique stored keys, a request equal to a record on all three keys matches that record alone |
| Properties.ResubmissionReusesRecord | src/main/java/com/greensphere/userservice/service/UserServiceImpl.java:65-88 | registering again with the same keys adds no record, returns the same username, and succeeds iff the OTP thresholds are usable |
| Properties.SeveralMatchesConflict | src/main/java/com/greensphere/userservice/service/UserServiceImpl.java:67-83 | with unique stored keys, several matches always end in a conflict that changes and sends nothing |
| Properties.RegisterStartedUpdatesChosenRecord | src/main/java/com/greensphere/userservice/service/UserServiceImpl.java:84-145 | a successful registration changes only the reused record, or appends the new one with the OTP issued, returns that record's username, and sends exactly one OTP message |
| Properties.SharedNicTakesOverRecord | src/main/java/com/greensphere/userservice/service/UserServiceImpl.java:85-145 | a request sharing only the national ID with the one stored record takes it over: that record's username is returned and the OTP goes to the request's phone |
| Properties.UpdateKeepsWellFormed | src/main/java/com/greensphere/userservice/service/UserServiceImpl.java:49-55 | saving a record back with the same username and keys, and an issue time if it has an OTP status, keeps the store invariant |
| Properties.CreateKeepsWellFormed | src/main/java/com/greensphere/userservice/service/UserServiceImpl.java:89-118 | a record created when nothing shared a key, under an unused username, keeps the keys unique |
| Properties.SendOtpKeepsWellFormed | src/main/java/com/greensphere/userservice/service/UserServiceImpl.java:120-145 | issuing the OTP keeps the store invariant |
| Properties.RegisterInitKeepsWellFormed | src/main/java/com/greensphere/userservice/service/UserServiceImpl.java:57-166 | registerInit keeps the store invariant when the assigned username is unused |
| Properties.RegisterVerifyKeepsWellFormed | src/main/java/com/greensphere/userservice/service/UserServiceImpl.java:168-211 | registerVerify keeps the store invariant |
| Properties.SetUpDetailsKeepsWellFormed | src/main/java/com/greensphere/userservice/service/UserServiceImpl.java:213-293 | setUpDetails keeps the store invariant |
| Properties.GovUserSignUpKeepsWellFormed | src/main/java/com/greensphere/userservice/service/UserServiceImpl.java:378-452 | govUserSignUp keeps the store invariant |
| Properties.LoginKeepsWellFormed | src/main/java/com/greensphere/userservice/service/UserServiceImpl.java:454-579 | login keeps the store invariant, the lockout included |
| Properties.IssuedOtpHasIssueTime | src/main/java/com/greensphere/userservice/service/UserServiceImpl.java:329-330 | on a record that keeps the invariant, verification never fails on a missing issue time |
| Properties.VerifyRunAppend | src/main/java/com/greensphere/userservice/service/UserServiceImpl.java:295-376 | a run of verifications split in two is the first part followed by the second, started from where the first left off |
| Properties.SpentVerifyBudgetIsPermanent | src/main/java/com/greensphere/userservice/service/UserServiceImpl.java:320-341 | once the verify budget is spent, every later attempt, the correct code included, is refused as exceeded and changes nothing |
| Properties.WrongCodesCountDown | src/main/java/com/greensphere/userservice/service/UserServiceImpl.java:355-364 | wrong codes within budget and before expiry add one attempt each, change nothing else, and report 3 minus the new count |
| Properties.ThreeWrongCodesThenExceeded | src/main/java/com/greensphere/userservice/service/UserServiceImpl.java:309-364 | with expiry 300 and three attempts, three wrong codes report 2, 1 and 0 remaining, and then the right code is refused as exceeded |
| Properties.AcceptedOtpIsSpent | src/main/java/com/greensphere/userservice/service/UserServiceImpl.java:312-353 | after acceptance both statuses are VERIFIED and both counters 0, and every later attempt reads as already verified and changes nothing |
| Properties.AlreadyVerifiedIsStable | src/main/java/com/greensphere/userservice/service/UserServiceImpl.java:312-318 | a record whose OTP status is VERIFIED answers every attempt with already verified and never changes |
| Properties.AttemptsAreOverAtThirdWrongCode | src/main/java/com/greensphere/userservice/service/UserServiceImpl.java:357-363 | the "attempts are over" answer comes with the wrong code that brings the count to 3, whatever maximum is configured |
| Properties.ReissueKeepsVerifyBudgetSpent | src/main/java/com/greensphere/userservice/service/UserServiceImpl.java:139-144 | a fresh OTP does not restore a spent verify budget: even the new, correct code is refused as exceeded |
| Properties.LoginRunAppend | src/main/java/com/greensphere/userservice/service/UserServiceImpl.java:480-579 | a run of logins split in two is the first part followed by the second, outcomes and messages concatenated |
| Properties.InactiveRefusesEveryLogin | src/main/java/com/greensphere/userservice/service/UserServiceImpl.java:481-550 | a record that is not ACTIVE refuses every login, the right password included, with no change and no message |
| Properties.BadCredentialsLockOut | src/main/java/com/greensphere/userservice/service/UserServiceImpl.java:499-532 | bad credentials up to the budget report the remaining count each time; the last one disables the record with the lockout reason and sends exactly one lockout message |
| Properties.ThreeBadPasswordsThenDisabled | src/main/java/com/greensphere/userservice/service/UserServiceImpl.java:481-550 | with three attempts, three wrong passwords report 2 and 1 remaining and then lock the record; the right password is then refused as inactive; one message is sent in all |
| Properties.BadCredentialsPastThresholdAreAdmitted | src/main/java/com/greensphere/userservice/service/UserServiceImpl.java:499-578 | with the counter already at the threshold, bad credentials get a success response with tokens for the claimed role and leave the record unchanged |

## Left out

- Token creation is left out: a token pair is modelled as the claims it is issued for (subject, role, issue time).
- The password encoder and the authentication manager are left out. They are the boolean inputs `otpMatches` and `authenticated`.
- The SMS gateway is left out. Its answer is the input `smsSucceeded`, and each message handed to it is recorded in the operation's `sent` list. A failed lockout message is only logged by the source, so it changes nothing.
- OTP generation and phone normalisation are left out. The generated code is an input, and the request's phone is taken as already normalised. OTP_LENGTH is only checked for presence and for parsing as an integer.
- Response messages and titles, the `<otp>` template substitution and pluralisation are presentation and are not modelled. Only response codes and the data the later steps rely on are.
- The profile maps that setUpDetails and govUserSignUp return are not modelled. Login's profile summary is.
- persistUser's swallowed exceptions are not modelled: a save always updates the store.
- A lookup by username or by email that finds several rows makes the repository throw in the source. The model takes the first record.
- The role entity lookup at registration (`getRoleByName`) is not modelled. Roles are their names.
- The cast of the role collection to a list at lines 225 and 390 is modelled as a membership test on a set. If the stored collection is not a list, the cast throws and the operation ends in an internal error; the model does not capture that.
- Integers are unbounded. Java `int` overflow of the counters is not modelled, and neither are the `Long`/`int` parse ranges or overflow in the expiry-time addition.
- Times are integer seconds. Each operation sees one `now`, where the source reads the clock at each call site.
- The entity class is not part of this model, so the defaults of a new record are assumed: it starts INITIATED, as the log lines at lines 103 and 116 say, and its OTP, verify and login counters start at 0 (`NewAccount`, `Service.Account.constructor`). A null counter column would make the increment at line 141 throw; the model does not capture that.
- The repository query at line 65 has no ORDER BY. `Reconcile.Matches` and `Reconcile.FirstEqual` assume the rows come back in store order.
- Concurrent requests against one record are not modelled. The source has no locking.
- Logging is not modelled.
