/** Properties of the lifecycle that span several calls: runs of OTP verifications and of
    logins against one record, and the store invariant that registration keeps. */
module Properties {
  import opened Domain
  import opened Reconcile
  import opened Lifecycle

  // ================================================================ registration

  /** Every stored record has its own username, national ID, phone and email. */
  ghost predicate UniqueKeys(store: seq<AccountState>)
  {
    forall i, j :: 0 <= i < |store| && 0 <= j < |store| && i != j ==>
      store[i].username != store[j].username && store[i].nic != store[j].nic &&
      store[i].mobile != store[j].mobile && store[i].email != store[j].email
  }

  /** The store invariant: unique keys, and no record with an OTP status but no issue time. */
  ghost predicate WellFormed(store: seq<AccountState>)
  {
    UniqueKeys(store) && forall i :: 0 <= i < |store| ==> OtpIssued(store[i])
  }

  /** When the stored keys are unique, a request equal to record `i` on all three keys
      matches that record and no other. */
  lemma OnlyEqualRecordMatches(store: seq<AccountState>, req: RegisterRequest, i: nat)
    requires UniqueKeys(store) && i < |store| && EqualsOnKey(store[i], req)
    ensures Matches(store, req) == [i]
  {
    var m := Matches(store, req);
    assert SharesKey(store[i], req);
    assert forall k :: 0 <= k < |m| ==> m[k] == i;
    assert i in m;
    assert m[0] == i && m[|m| - 1] == i;
  }

  /** Registering again with the same national ID, phone and email continues with the
      same record: no second record, and the same username is returned. */
  lemma ResubmissionReusesRecord(store: seq<AccountState>, req: RegisterRequest, params: Params, newUsername: string,
                                 otp: string, smsSucceeded: bool, now: int, i: nat)
    requires UniqueKeys(store) && i < |store| && EqualsOnKey(store[i], req)
    ensures var r := RegisterInit(store, req, params, newUsername, otp, smsSucceeded, now);
      && |r.state| == |store|
      && (r.outcome.RegisterStarted? ==> r.outcome.username == store[i].username)
      && (r.outcome.RegisterStarted? <==> OTP_LENGTH in params && OTP_MESSAGE in params && ParamInt(params[OTP_LENGTH]).Some?)
  {
    OnlyEqualRecordMatches(store, req, i);
  }

  /** With unique stored keys, several matches always mean a conflict: no record can equal
      the request on all three keys and still have another record share one of them. */
  lemma SeveralMatchesConflict(store: seq<AccountState>, req: RegisterRequest, params: Params, newUsername: string,
                               otp: string, smsSucceeded: bool, now: int)
    requires UniqueKeys(store) && |Matches(store, req)| > 1
    ensures RegisterInit(store, req, params, newUsername, otp, smsSucceeded, now) == Step(KeyConflict, store, [])
  {
    forall i | 0 <= i < |store| ensures !EqualsOnKey(store[i], req) {
      if EqualsOnKey(store[i], req) {
        OnlyEqualRecordMatches(store, req, i);
        assert false;
      }
    }
  }

  /** A successful registration updates exactly the record it resolved to (the reused one,
      or the one it created at the end of the store) with the fresh OTP. */
  lemma RegisterStartedUpdatesChosenRecord(store: seq<AccountState>, req: RegisterRequest, params: Params,
                                           newUsername: string, otp: string, smsSucceeded: bool, now: int)
    requires RegisterInit(store, req, params, newUsername, otp, smsSucceeded, now).outcome.RegisterStarted?
    ensures var r := RegisterInit(store, req, params, newUsername, otp, smsSucceeded, now);
      && r.sent == [OtpSms(req.mobile, params[OTP_MESSAGE], otp)]
      && match Resolve(store, req)
         case Existing(i) =>
           r.state == store[i := IssueOtp(store[i], otp, smsSucceeded, now)] && r.outcome.username == store[i].username
         case Create =>
           r.state == store + [IssueOtp(NewAccount(newUsername, req), otp, smsSucceeded, now)] &&
           r.outcome.username == newUsername
         case _ => false
  {
    match Resolve(store, req)
    case Existing(i) =>
    case Create =>
      var s := store + [NewAccount(newUsername, req)];
      assert s[|store| := IssueOtp(s[|store|], otp, smsSucceeded, now)] ==
             store + [IssueOtp(NewAccount(newUsername, req), otp, smsSucceeded, now)];
    case Conflict =>
    case FilterFault =>
  }

  /** A request that shares only the national ID with a stored record takes that record
      over: its username is returned and its OTP is sent to the request's phone. */
  lemma SharedNicTakesOverRecord(x: AccountState, req: RegisterRequest, params: Params, newUsername: string,
                                 otp: string, smsSucceeded: bool, now: int)
    requires x.nic == req.nic && x.mobile != req.mobile && x.email != req.email
    requires OTP_LENGTH in params && OTP_MESSAGE in params && ParamInt(params[OTP_LENGTH]).Some?
    ensures RegisterInit([x], req, params, newUsername, otp, smsSucceeded, now) ==
      Step(RegisterStarted(x.username, req.mobile, x.roles),
           [IssueOtp(x, otp, smsSucceeded, now)],
           [OtpSms(req.mobile, params[OTP_MESSAGE], otp)])
  {
    assert [x][..0] == [];
    assert Matches([x], req) == [0];
    assert Resolve([x], req) == Existing(0);
    assert [x][0 := IssueOtp(x, otp, smsSucceeded, now)] == [IssueOtp(x, otp, smsSucceeded, now)];
  }

  /** Writing back a record with the same username and keys keeps the invariant. */
  lemma UpdateKeepsWellFormed(store: seq<AccountState>, i: nat, a: AccountState)
    requires WellFormed(store) && i < |store|
    requires a.username == store[i].username && SameNaturalKey(a, store[i]) && OtpIssued(a)
    ensures WellFormed(store[i := a])
  {
  }

  /** A record created for a request nothing shared a key with keeps the keys unique. */
  lemma CreateKeepsWellFormed(store: seq<AccountState>, req: RegisterRequest, newUsername: string)
    requires WellFormed(store)
    requires forall i :: 0 <= i < |store| ==> store[i].username != newUsername
    requires forall i :: 0 <= i < |store| ==> !SharesKey(store[i], req)
    ensures WellFormed(store + [NewAccount(newUsername, req)])
  {
    var s := store + [NewAccount(newUsername, req)];
    forall i, j | 0 <= i < |s| && 0 <= j < |s| && i != j
      ensures s[i].username != s[j].username && s[i].nic != s[j].nic &&
              s[i].mobile != s[j].mobile && s[i].email != s[j].email
    {
      if i == |store| {
        assert !SharesKey(store[j], req);
      } else if j == |store| {
        assert !SharesKey(store[i], req);
      }
    }
  }

  /** Issuing an OTP on a stored record keeps the store well formed. */
  lemma SendOtpKeepsWellFormed(store: seq<AccountState>, i: nat, req: RegisterRequest, params: Params,
                               otp: string, smsSucceeded: bool, now: int)
    requires WellFormed(store) && i < |store|
    ensures WellFormed(SendOtp(store, i, req, params, otp, smsSucceeded, now).state)
  {
    if SendOtp(store, i, req, params, otp, smsSucceeded, now).outcome.RegisterStarted? {
      UpdateKeepsWellFormed(store, i, IssueOtp(store[i], otp, smsSucceeded, now));
    }
  }

  /** registerInit keeps the invariant, given that the username the store assigns is unused. */
  lemma RegisterInitKeepsWellFormed(store: seq<AccountState>, req: RegisterRequest, params: Params,
                                    newUsername: string, otp: string, smsSucceeded: bool, now: int)
    requires WellFormed(store)
    requires forall i :: 0 <= i < |store| ==> store[i].username != newUsername
    ensures WellFormed(RegisterInit(store, req, params, newUsername, otp, smsSucceeded, now).state)
  {
    match Resolve(store, req)
    case Existing(i) =>
      SendOtpKeepsWellFormed(store, i, req, params, otp, smsSucceeded, now);
    case Create =>
      CreateKeepsWellFormed(store, req, newUsername);
      SendOtpKeepsWellFormed(store + [NewAccount(newUsername, req)], |store|, req, params, otp, smsSucceeded, now);
    case Conflict =>
    case FilterFault =>
  }

  /** registerVerify keeps the invariant. */
  lemma RegisterVerifyKeepsWellFormed(store: seq<AccountState>, username: string, otpMatches: bool, now: int, params: Params)
    requires WellFormed(store)
    ensures WellFormed(RegisterVerify(store, username, otpMatches, now, params).state)
  {
    match FirstWhere(store, ByUsername(username))
    case None =>
    case Some(i) =>
      UpdateKeepsWellFormed(store, i, VerifyOtp(store[i], otpMatches, now, params).state);
  }

  /** setUpDetails keeps the invariant. */
  lemma SetUpDetailsKeepsWellFormed(store: seq<AccountState>, req: SetUpRequest, now: int)
    requires WellFormed(store)
    ensures WellFormed(SetUpDetails(store, req, now).state)
  {
    match FirstWhere(store, ByUsername(req.username))
    case None =>
    case Some(i) =>
      UpdateKeepsWellFormed(store, i, ApplySetUpDetails(store[i], req, now).state);
  }

  /** govUserSignUp keeps the invariant. */
  lemma GovUserSignUpKeepsWellFormed(store: seq<AccountState>, req: GovSignUpRequest, now: int)
    requires WellFormed(store)
    ensures WellFormed(GovUserSignUp(store, req, now).state)
  {
    match FirstWhere(store, ByUsername(req.username))
    case None =>
    case Some(i) =>
      UpdateKeepsWellFormed(store, i, ApplyGovUserSignUp(store[i], req, now).state);
  }

  /** login keeps the invariant, the lockout included. */
  lemma LoginKeepsWellFormed(store: seq<AccountState>, email: string, authenticated: bool, role: string, now: int, params: Params)
    requires WellFormed(store)
    ensures WellFormed(Login(store, email, authenticated, role, now, params).state)
  {
    match FirstWhere(store, ByEmail(email))
    case None =>
    case Some(i) =>
      UpdateKeepsWellFormed(store, i, LogUser(store[i], authenticated, role, now, params).state);
  }

  /** In a well-formed store, verification never trips over a missing issue time. */
  lemma IssuedOtpHasIssueTime(a: AccountState, otpMatches: bool, now: int, params: Params)
    requires OtpIssued(a)
    ensures VerifyOtp(a, otpMatches, now, params).outcome != OtpInternalError(NullOtpSentAt)
  {
  }

  // ================================================================ OTP verification runs

  /** One call of verifyOtp: whether the submitted code matches, and when. */
  datatype OtpAttempt = OtpAttempt(matches: bool, at: int)

  /** Successive verifyOtp calls on one record. */
  function VerifyRun(a: AccountState, attempts: seq<OtpAttempt>, params: Params): (r: (seq<OtpOutcome>, AccountState))
    ensures |r.0| == |attempts|
    decreases |attempts|
  {
    if |attempts| == 0 then ([], a)
    else
      var s := VerifyOtp(a, attempts[0].matches, attempts[0].at, params);
      var rest := VerifyRun(s.state, attempts[1..], params);
      ([s.outcome] + rest.0, rest.1)
  }

  /** A run split in two is the first part followed by the second from where the first left off. */
  lemma {:induction false} VerifyRunAppend(a: AccountState, xs: seq<OtpAttempt>, ys: seq<OtpAttempt>, params: Params)
    ensures VerifyRun(a, xs + ys, params).0 == VerifyRun(a, xs, params).0 + VerifyRun(VerifyRun(a, xs, params).1, ys, params).0
    ensures VerifyRun(a, xs + ys, params).1 == VerifyRun(VerifyRun(a, xs, params).1, ys, params).1
    decreases |xs|
  {
    if |xs| > 0 {
      assert (xs + ys)[1..] == xs[1..] + ys;
      var s := VerifyOtp(a, xs[0].matches, xs[0].at, params);
      VerifyRunAppend(s.state, xs[1..], ys, params);
    } else {
      assert xs + ys == ys;
    }
  }

  /** Once the verify budget is spent, every later attempt is refused as exceeded, the
      correct code included, and the record no longer changes. */
  lemma {:induction false} SpentVerifyBudgetIsPermanent(a: AccountState, attempts: seq<OtpAttempt>, params: Params)
    requires OtpConfig(params).Some? && a.otpStatus == Sent && !WithinVerifyBudget(a, OtpConfig(params).value)
    ensures VerifyRun(a, attempts, params).1 == a
    ensures forall k :: 0 <= k < |attempts| ==> VerifyRun(a, attempts, params).0[k] == VerifyAttemptsExceeded
    decreases |attempts|
  {
    if |attempts| > 0 {
      SpentVerifyBudgetIsPermanent(a, attempts[1..], params);
    }
  }

  /** Wrong codes within the budget and before expiry count the attempts up by one each
      and report 3 minus the new count as remaining. */
  lemma {:induction false} WrongCodesCountDown(a: AccountState, attempts: seq<OtpAttempt>, params: Params)
    requires OtpConfig(params).Some? && a.otpStatus == Sent && a.otpSentAt.Some?
    requires a.verifyAttempts + |attempts| <= OtpConfig(params).value.maxAttempts
    requires forall k :: 0 <= k < |attempts| ==>
      !attempts[k].matches && attempts[k].at <= a.otpSentAt.value + OtpConfig(params).value.expirySeconds
    ensures VerifyRun(a, attempts, params).1 == a.(verifyAttempts := a.verifyAttempts + |attempts|)
    ensures forall k :: 0 <= k < |attempts| ==>
      VerifyRun(a, attempts, params).0[k] == InvalidOtp(OTP_REMAINING_BASE - (a.verifyAttempts + k + 1))
    decreases |attempts|
  {
    if |attempts| > 0 {
      var s := VerifyOtp(a, attempts[0].matches, attempts[0].at, params);
      WrongCodesCountDown(s.state, attempts[1..], params);
    }
  }

  /** With an expiry of 300 seconds and three allowed attempts: three wrong codes report
      2, 1 and 0 remaining, and a fourth attempt with the right code is refused as exceeded. */
  lemma ThreeWrongCodesThenExceeded(a: AccountState, t: int)
    requires a.otpStatus == Sent && a.verifyAttempts == 0 && a.otpSentAt == Some(t)
    ensures var params := map[OTP_EXPIRED_TIME := Num(300), OTP_VERIFY_ATTEMPTS := Num(3)];
      VerifyRun(a, [OtpAttempt(false, t), OtpAttempt(false, t + 60), OtpAttempt(false, t + 120), OtpAttempt(true, t + 180)], params).0
        == [InvalidOtp(2), InvalidOtp(1), InvalidOtp(0), VerifyAttemptsExceeded]
  {
    var params := map[OTP_EXPIRED_TIME := Num(300), OTP_VERIFY_ATTEMPTS := Num(3)];
    var wrong := [OtpAttempt(false, t), OtpAttempt(false, t + 60), OtpAttempt(false, t + 120)];
    var right := [OtpAttempt(true, t + 180)];
    assert OtpConfig(params) == Some(OtpLimits(300, 3));
    WrongCodesCountDown(a, wrong, params);
    SpentVerifyBudgetIsPermanent(VerifyRun(a, wrong, params).1, right, params);
    VerifyRunAppend(a, wrong, right, params);
    assert wrong + right == [OtpAttempt(false, t), OtpAttempt(false, t + 60), OtpAttempt(false, t + 120), OtpAttempt(true, t + 180)];
  }

  /** An accepted OTP is spent: every later attempt, with any code at any time, reads as
      already verified and changes nothing. */
  lemma {:induction false} AcceptedOtpIsSpent(a: AccountState, otpMatches: bool, now: int,
                                              attempts: seq<OtpAttempt>, params: Params)
    requires VerifyOtp(a, otpMatches, now, params).outcome == OtpAccepted
    ensures var b := VerifyOtp(a, otpMatches, now, params).state;
      && b.otpStatus == OtpVerified && b.status == Verified && b.otpAttempts == 0 && b.verifyAttempts == 0
      && VerifyRun(b, attempts, params).1 == b
      && forall k :: 0 <= k < |attempts| ==> VerifyRun(b, attempts, params).0[k] == AlreadyVerified
  {
    var b := VerifyOtp(a, otpMatches, now, params).state;
    AlreadyVerifiedIsStable(b, attempts, params);
  }

  /** A record whose OTP status is VERIFIED answers every attempt with already verified. */
  lemma {:induction false} AlreadyVerifiedIsStable(b: AccountState, attempts: seq<OtpAttempt>, params: Params)
    requires OtpConfig(params).Some? && b.otpStatus == OtpVerified
    ensures VerifyRun(b, attempts, params).1 == b
    ensures forall k :: 0 <= k < |attempts| ==> VerifyRun(b, attempts, params).0[k] == AlreadyVerified
    decreases |attempts|
  {
    if |attempts| > 0 {
      AlreadyVerifiedIsStable(b, attempts[1..], params);
    }
  }

  /** The "attempts are over" message goes with the wrong code that brings the count to 3,
      whatever maximum is configured. */
  lemma AttemptsAreOverAtThirdWrongCode(a: AccountState, now: int, params: Params)
    requires VerifyOtp(a, false, now, params).outcome.InvalidOtp?
    ensures VerifyOtp(a, false, now, params).outcome.AttemptsAreOver() <==> a.verifyAttempts + 1 == OTP_REMAINING_BASE
  {
  }

  /** A fresh OTP from registerInit does not restore the verify budget: on a record whose
      budget is spent, even the new, correct code is refused as exceeded. */
  lemma ReissueKeepsVerifyBudgetSpent(a: AccountState, otp: string, issuedAt: int, now: int, params: Params)
    requires OtpConfig(params).Some? && !WithinVerifyBudget(a, OtpConfig(params).value)
    ensures VerifyOtp(IssueOtp(a, otp, true, issuedAt), true, now, params).outcome == VerifyAttemptsExceeded
  {
  }

  // ================================================================ login runs

  /** One call of login: the authenticator's answer, the claimed role, and when. */
  datatype LoginAttempt = LoginAttempt(authenticated: bool, role: string, at: int)

  /** Successive logUser calls on one record, with every message they dispatch. */
  function LoginRun(a: AccountState, attempts: seq<LoginAttempt>, params: Params): (r: Step<seq<LoginOutcome>, AccountState>)
    ensures |r.outcome| == |attempts|
    decreases |attempts|
  {
    if |attempts| == 0 then Step([], a, [])
    else
      var s := LogUser(a, attempts[0].authenticated, attempts[0].role, attempts[0].at, params);
      var rest := LoginRun(s.state, attempts[1..], params);
      Step([s.outcome] + rest.outcome, rest.state, s.sent + rest.sent)
  }

  /** A run split in two is the first part followed by the second from where the first left off. */
  lemma {:induction false} LoginRunAppend(a: AccountState, xs: seq<LoginAttempt>, ys: seq<LoginAttempt>, params: Params)
    ensures var first := LoginRun(a, xs, params);
      var second := LoginRun(first.state, ys, params);
      LoginRun(a, xs + ys, params) == Step(first.outcome + second.outcome, second.state, first.sent + second.sent)
    decreases |xs|
  {
    if |xs| > 0 {
      assert (xs + ys)[1..] == xs[1..] + ys;
      assert (xs + ys)[0] == xs[0];
      var s := LogUser(a, xs[0].authenticated, xs[0].role, xs[0].at, params);
      LoginRunAppend(s.state, xs[1..], ys, params);
      var tail := LoginRun(s.state, xs[1..], params);
      var second := LoginRun(tail.state, ys, params);
      var whole := LoginRun(s.state, xs[1..] + ys, params);
      assert LoginRun(a, xs + ys, params) == Step([s.outcome] + whole.outcome, whole.state, s.sent + whole.sent);
      assert [s.outcome] + (tail.outcome + second.outcome) == ([s.outcome] + tail.outcome) + second.outcome;
      assert s.sent + (tail.sent + second.sent) == (s.sent + tail.sent) + second.sent;
    } else {
      assert xs + ys == ys;
      var second := LoginRun(a, ys, params);
      assert [] + second.outcome == second.outcome && [] + second.sent == second.sent;
    }
  }

  /** A record that is not ACTIVE refuses every login, the right password included,
      without any change or message. */
  lemma {:induction false} InactiveRefusesEveryLogin(a: AccountState, attempts: seq<LoginAttempt>, params: Params)
    requires a.status != Active
    ensures LoginRun(a, attempts, params).state == a && LoginRun(a, attempts, params).sent == []
    ensures forall k :: 0 <= k < |attempts| ==> LoginRun(a, attempts, params).outcome[k] == NotActive
    decreases |attempts|
  {
    if |attempts| > 0 {
      InactiveRefusesEveryLogin(a, attempts[1..], params);
    }
  }

  /** Bad credentials on an ACTIVE record, up to the one that uses the budget up: each but
      the last reports the remaining count, the last disables the record and sends exactly
      one lockout message. */
  lemma {:induction false} BadCredentialsLockOut(a: AccountState, attempts: seq<LoginAttempt>, params: Params)
    requires a.status == Active && LoginLimit(params).Some? && LOGIN_ATTEMPTS_EXCEEDED_MESSAGE in params
    requires a.loginAttempts < LoginLimit(params).value
    requires |attempts| == LoginLimit(params).value - a.loginAttempts
    requires forall k :: 0 <= k < |attempts| ==> !attempts[k].authenticated
    ensures var r := LoginRun(a, attempts, params);
      && r.state == a.(loginAttempts := LoginLimit(params).value, status := Disabled,
                       disabledReason := Some(LOGIN_ATTEMPTS_EXCEEDED))
      && r.sent == [LockoutSms(a.mobile, params[LOGIN_ATTEMPTS_EXCEEDED_MESSAGE])]
      && r.outcome[|attempts| - 1] == LockedOut
      && forall k :: 0 <= k < |attempts| - 1 ==>
           r.outcome[k] == BadCredentials(LoginLimit(params).value - (a.loginAttempts + k + 1))
    decreases |attempts|
  {
    var s := LogUser(a, attempts[0].authenticated, attempts[0].role, attempts[0].at, params);
    if |attempts| > 1 {
      BadCredentialsLockOut(s.state, attempts[1..], params);
    }
  }

  /** With three allowed login attempts: three wrong passwords report 2 and 1 remaining and
      then lock the record; a fourth attempt with the right password is refused as inactive. */
  lemma ThreeBadPasswordsThenDisabled(a: AccountState, role: string, t: int, msg: Param)
    requires a.status == Active && a.loginAttempts == 0
    ensures var params := map[LOGIN_ATTEMPTS := Num(3), LOGIN_ATTEMPTS_EXCEEDED_MESSAGE := msg];
      var r := LoginRun(a, [LoginAttempt(false, role, t), LoginAttempt(false, role, t + 1),
                            LoginAttempt(false, role, t + 2), LoginAttempt(true, role, t + 3)], params);
      && r.outcome == [BadCredentials(2), BadCredentials(1), LockedOut, NotActive]
      && r.state.status == Disabled
      && r.sent == [LockoutSms(a.mobile, msg)]
  {
    var params := map[LOGIN_ATTEMPTS := Num(3), LOGIN_ATTEMPTS_EXCEEDED_MESSAGE := msg];
    var bad := [LoginAttempt(false, role, t), LoginAttempt(false, role, t + 1), LoginAttempt(false, role, t + 2)];
    var good := [LoginAttempt(true, role, t + 3)];
    assert LoginLimit(params) == Some(3);
    BadCredentialsLockOut(a, bad, params);
    InactiveRefusesEveryLogin(LoginRun(a, bad, params).state, good, params);
    LoginRunAppend(a, bad, good, params);
    assert bad + good == [LoginAttempt(false, role, t), LoginAttempt(false, role, t + 1),
                          LoginAttempt(false, role, t + 2), LoginAttempt(true, role, t + 3)];
  }

  /** When the counter is already at the threshold, bad credentials are admitted with tokens
      and the counter stays where it is. */
  lemma BadCredentialsPastThresholdAreAdmitted(a: AccountState, role: string, now: int, params: Params)
    requires a.status == Active && LoginLimit(params).Some? && a.loginAttempts >= LoginLimit(params).value
    ensures var r := LogUser(a, false, role, now, params);
      r.outcome.ResponseCode() == SuccessCode && r.outcome.tokens == TokenPair(a.username, role, Some(now)) && r.state == a
  {
  }
}
