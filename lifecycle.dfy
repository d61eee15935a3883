/** The account lifecycle as pure transitions: each operation maps a record (or the
    whole store) and its inputs to a response outcome, the records after it and the
    messages it hands to the notification gateway. The Service module's methods are
    proved to perform exactly these transitions. */
module Lifecycle {
  import opened Domain
  import opened Reconcile

  /** What one operation produces. */
  datatype Step<O, S> = Step(outcome: O, state: S, sent: seq<Sms>)

  /** The first record, in store order, satisfying `p` (a single-result repository lookup). */
  function FirstWhere(store: seq<AccountState>, p: AccountState -> bool): (r: Option<nat>)
    ensures r.Some? ==> r.value < |store| && p(store[r.value])
    ensures r.Some? ==> forall j :: 0 <= j < r.value ==> !p(store[j])
    ensures r.None? <==> forall j :: 0 <= j < |store| ==> !p(store[j])
  {
    if |store| == 0 then None
    else if p(store[0]) then Some(0)
    else
      match FirstWhere(store[1..], p)
      case None => None
      case Some(k) => Some(k + 1)
  }

  function ByUsername(username: string): AccountState -> bool
  {
    (a: AccountState) => a.username == username
  }

  function ByEmail(email: string): AccountState -> bool
  {
    (a: AccountState) => a.email == email
  }

  // ---------------------------------------------------------------- registerInit

  datatype RegisterInitOutcome =
    | KeyConflict
    | RegisterFault(fault: Fault)
    | RegisterStarted(username: string, mobile: string, roles: set<string>)
  {
    function ResponseCode(): Code
    {
      match this
      case KeyConflict => FailedCode
      case RegisterFault(_) => InternalServerErrorCode
      case RegisterStarted(_, _, _) => SuccessCode
    }
  }

  /** The record a registration creates when nothing matches: the requested role,
      and the government ID only for a government-user registration. */
  function NewAccount(username: string, req: RegisterRequest): AccountState
  {
    AccountState(
      username, req.nic, req.mobile, req.email,
      if req.roleType == ROLE_GOVERNMENT_USER then req.govId else None,
      Initiated, None, NoOtp, 0, 0, None, 0, None, {req.roleType},
      "", "", "", "", "", "", "", "", None)
  }

  /** The delivery status recorded for an OTP message, from the gateway's answer. */
  function OtpStatusFor(smsSucceeded: bool): (s: OtpStatus)
    ensures s == Sent <==> smsSucceeded
    ensures s == Failed <==> !smsSucceeded
  {
    if smsSucceeded then Sent else Failed
  }

  /** The record after a fresh OTP was dispatched to it. */
  function IssueOtp(a: AccountState, otp: string, smsSucceeded: bool, now: int): (r: AccountState)
    ensures r.otp == Some(otp)
    ensures r.otpStatus == Sent <==> smsSucceeded
    ensures r.otpStatus == Failed <==> !smsSucceeded
    ensures r.otpAttempts == a.otpAttempts + 1 && r.otpSentAt == Some(now)
    ensures r.status == Pending
    ensures r.verifyAttempts == a.verifyAttempts && r.loginAttempts == a.loginAttempts && r.roles == a.roles
    ensures r.username == a.username && SameNaturalKey(r, a) && r.govId == a.govId
    ensures OtpIssued(r)
    // no other column changes
    ensures r.(otp := a.otp, otpStatus := a.otpStatus, otpAttempts := a.otpAttempts,
               otpSentAt := a.otpSentAt, status := a.status) == a
  {
    a.(otp := Some(otp), otpStatus := OtpStatusFor(smsSucceeded), otpAttempts := a.otpAttempts + 1,
       otpSentAt := Some(now), status := Pending)
  }

  /** The OTP part of registration on the record at `i`: the thresholds are read only now,
      after the record was chosen (and, for a new one, stored). */
  function SendOtp(store: seq<AccountState>, i: nat, req: RegisterRequest, params: Params,
                   otp: string, smsSucceeded: bool, now: int): (r: Step<RegisterInitOutcome, seq<AccountState>>)
    requires i < |store|
    ensures r.outcome.RegisterStarted? <==>
      OTP_LENGTH in params && OTP_MESSAGE in params && ParamInt(params[OTP_LENGTH]).Some?
    ensures !r.outcome.RegisterStarted? ==> r.outcome.RegisterFault? && r.state == store && r.sent == []
    ensures OTP_LENGTH !in params ==> r.outcome == RegisterFault(MissingParameter(OTP_LENGTH))
    ensures OTP_LENGTH in params && OTP_MESSAGE !in params ==>
      r.outcome == RegisterFault(MissingParameter(OTP_MESSAGE))
    ensures r.outcome.RegisterStarted? ==>
      && r.outcome == RegisterStarted(store[i].username, req.mobile, store[i].roles)
      && r.state == store[i := IssueOtp(store[i], otp, smsSucceeded, now)]
      && r.sent == [OtpSms(req.mobile, params[OTP_MESSAGE], otp)]
  {
    if OTP_LENGTH !in params then Step(RegisterFault(MissingParameter(OTP_LENGTH)), store, [])
    else if OTP_MESSAGE !in params then Step(RegisterFault(MissingParameter(OTP_MESSAGE)), store, [])
    else if ParamInt(params[OTP_LENGTH]).None? then
      Step(RegisterFault(UnparsableParameter(OTP_LENGTH)), store, [])
    else
      Step(RegisterStarted(store[i].username, req.mobile, store[i].roles),
           store[i := IssueOtp(store[i], otp, smsSucceeded, now)],
           [OtpSms(req.mobile, params[OTP_MESSAGE], otp)])
  }

  /** registerInit over the whole store. `newUsername` is the identifier the store
      assigns to a record it creates; `otp` is the generated code and `smsSucceeded`
      the gateway's answer. */
  function RegisterInit(store: seq<AccountState>, req: RegisterRequest, params: Params, newUsername: string,
                        otp: string, smsSucceeded: bool, now: int): (r: Step<RegisterInitOutcome, seq<AccountState>>)
    // a conflict is several matches none of which equals the request on all three keys
    ensures r.outcome == KeyConflict <==>
      |Matches(store, req)| > 1 && forall i :: 0 <= i < |store| ==> !EqualsOnKey(store[i], req)
    // a conflict, or a filter that throws, writes and sends nothing
    ensures r.outcome == KeyConflict || r.outcome == RegisterFault(NullGovId) ==> r.state == store && r.sent == []
    // one match is reused whatever it shares with the request
    ensures |Matches(store, req)| == 1 && r.outcome.RegisterStarted? ==>
      r.outcome.username == store[Matches(store, req)[0]].username
    // a record is added only when nothing matched, and then even if the thresholds are missing
    ensures |r.state| == |store| + 1 <==> forall i :: 0 <= i < |store| ==> !SharesKey(store[i], req)
    ensures |r.state| == |store| + 1 ==>
      r.state[..|store|] == store && r.state[|store|].username == newUsername &&
      SameNaturalKey(r.state[|store|], NewAccount(newUsername, req)) && r.state[|store|].roles == {req.roleType}
    ensures |r.state| == |store| || |r.state| == |store| + 1
    // without the OTP thresholds, no existing record is updated
    ensures !r.outcome.RegisterStarted? ==> forall j :: 0 <= j < |store| ==> r.state[j] == store[j]
    // a record created for thresholds that turn out missing stays as built
    ensures |r.state| == |store| + 1 && !r.outcome.RegisterStarted? ==> r.state == store + [NewAccount(newUsername, req)]
    // a registration that fails sends nothing; a success answers with the request's phone and the record's roles
    ensures !r.outcome.RegisterStarted? ==> r.sent == []
    ensures r.outcome.RegisterStarted? ==> r.outcome.mobile == req.mobile
    ensures r.outcome.RegisterStarted? && Resolve(store, req).Existing? ==>
      r.outcome.roles == store[Resolve(store, req).index].roles
    ensures r.outcome.RegisterStarted? && Resolve(store, req).Create? ==> r.outcome.roles == {req.roleType}
    // registration starts exactly when a record was chosen and the OTP thresholds are usable
    ensures r.outcome.RegisterStarted? <==>
      (Resolve(store, req).Existing? || Resolve(store, req).Create?) &&
      OTP_LENGTH in params && OTP_MESSAGE in params && ParamInt(params[OTP_LENGTH]).Some?
  {
    match Resolve(store, req)
    case Conflict => Step(KeyConflict, store, [])
    case FilterFault => Step(RegisterFault(NullGovId), store, [])
    case Existing(i) => SendOtp(store, i, req, params, otp, smsSucceeded, now)
    case Create => RegisterNew(store, req, params, newUsername, otp, smsSucceeded, now)
  }

  /** The creating branch of registerInit: the new record is stored first, then the OTP
      part runs on it, so missing thresholds leave the record as built. */
  function RegisterNew(store: seq<AccountState>, req: RegisterRequest, params: Params, newUsername: string,
                       otp: string, smsSucceeded: bool, now: int): (r: Step<RegisterInitOutcome, seq<AccountState>>)
    ensures r.outcome.RegisterStarted? <==>
      OTP_LENGTH in params && OTP_MESSAGE in params && ParamInt(params[OTP_LENGTH]).Some?
    ensures !r.outcome.RegisterStarted? ==>
      r.outcome.RegisterFault? && r.state == store + [NewAccount(newUsername, req)] && r.sent == []
    ensures r.outcome.RegisterStarted? ==>
      && r.outcome == RegisterStarted(newUsername, req.mobile, {req.roleType})
      && r.state == store + [IssueOtp(NewAccount(newUsername, req), otp, smsSucceeded, now)]
      && r.sent == [OtpSms(req.mobile, params[OTP_MESSAGE], otp)]
  {
    var s := store + [NewAccount(newUsername, req)];
    assert s[|store| := IssueOtp(s[|store|], otp, smsSucceeded, now)] ==
           store + [IssueOtp(NewAccount(newUsername, req), otp, smsSucceeded, now)];
    SendOtp(s, |store|, req, params, otp, smsSucceeded, now)
  }

  // ---------------------------------------------------------------- verifyOtp

  /** The two OTP thresholds, parsed. */
  datatype OtpLimits = OtpLimits(expirySeconds: int, maxAttempts: int)

  function OtpConfig(params: Params): Option<OtpLimits>
  {
    if OTP_EXPIRED_TIME in params && OTP_VERIFY_ATTEMPTS in params then
      match (ParamInt(params[OTP_EXPIRED_TIME]), ParamInt(params[OTP_VERIFY_ATTEMPTS]))
      case (Some(e), Some(m)) => Some(OtpLimits(e, m))
      case _ => None
    else None
  }

  /** The verify-attempt counter is below the configured maximum. */
  predicate WithinVerifyBudget(a: AccountState, limits: OtpLimits)
  {
    a.verifyAttempts < limits.maxAttempts
  }

  /** `now` is not strictly after the issue time plus the expiry. */
  predicate Unexpired(a: AccountState, now: int, limits: OtpLimits)
  {
    a.otpSentAt.Some? && now <= a.otpSentAt.value + limits.expirySeconds
  }

  datatype OtpOutcome =
    | OtpAccepted
    | AlreadyVerified
    | VerifyAttemptsExceeded
    | OtpExpired
    | InvalidOtp(remaining: int)
    | ThrowsMissingParameter(name: string)
    | OtpInternalError(fault: Fault)
  {
    function ResponseCode(): Code
    {
      match this
      case OtpAccepted => SuccessCode
      case AlreadyVerified => FailedCode
      case VerifyAttemptsExceeded => OtpAttemptsExceedErrorCode
      case OtpExpired => OtpExpiredCode
      case InvalidOtp(_) => InvalidOtpErrorCode
      case ThrowsMissingParameter(_) => InternalServerErrorCode
      case OtpInternalError(_) => InternalServerErrorCode
    }

    /** The wrong-code response says the attempts are over instead of how many are left. */
    predicate AttemptsAreOver()
    {
      InvalidOtp? && remaining == 0
    }
  }

  /** verifyOtp on one record. `otpMatches` is the password encoder's comparison of the
      submitted code with the stored one. */
  function VerifyOtp(a: AccountState, otpMatches: bool, now: int, params: Params): (r: Step<OtpOutcome, AccountState>)
    ensures r.sent == []
    // the thresholds are read first; their absence is thrown
    ensures OTP_EXPIRED_TIME !in params ==> r.outcome == ThrowsMissingParameter(OTP_EXPIRED_TIME)
    ensures OTP_EXPIRED_TIME in params && OTP_VERIFY_ATTEMPTS !in params ==>
      r.outcome == ThrowsMissingParameter(OTP_VERIFY_ATTEMPTS)
    // success exactly when the status is SENT, the budget is not spent, the OTP is fresh and it matches
    ensures r.outcome == OtpAccepted <==>
      OtpConfig(params).Some? && a.otpStatus == Sent && WithinVerifyBudget(a, OtpConfig(params).value) &&
      Unexpired(a, now, OtpConfig(params).value) && otpMatches
    // guard 1: a FAILED or VERIFIED delivery status reads as already verified
    ensures OtpConfig(params).Some? && (a.otpStatus == Failed || a.otpStatus == OtpVerified) ==>
      r.outcome == AlreadyVerified
    // thresholds present but not numbers, a record never sent an OTP, or no issue time: internal errors
    ensures (OTP_EXPIRED_TIME in params && OTP_VERIFY_ATTEMPTS in params &&
             ParamInt(params[OTP_EXPIRED_TIME]).None?) ==>
      r.outcome == OtpInternalError(UnparsableParameter(OTP_EXPIRED_TIME))
    ensures (OTP_EXPIRED_TIME in params && OTP_VERIFY_ATTEMPTS in params &&
             ParamInt(params[OTP_EXPIRED_TIME]).Some? && ParamInt(params[OTP_VERIFY_ATTEMPTS]).None?) ==>
      r.outcome == OtpInternalError(UnparsableParameter(OTP_VERIFY_ATTEMPTS))
    ensures OtpConfig(params).Some? && a.otpStatus == NoOtp ==> r.outcome == OtpInternalError(NullOtpStatus)
    ensures (OtpConfig(params).Some? && a.otpStatus == Sent && WithinVerifyBudget(a, OtpConfig(params).value) &&
             a.otpSentAt.None?) ==>
      r.outcome == OtpInternalError(NullOtpSentAt)
    // guard 2: a spent budget is reported whatever the code and the time
    ensures OtpConfig(params).Some? && a.otpStatus == Sent && !WithinVerifyBudget(a, OtpConfig(params).value) ==>
      r.outcome == VerifyAttemptsExceeded
    // guard 3: strictly after the expiry time is expired; the expiry instant itself is not
    ensures (OtpConfig(params).Some? && a.otpStatus == Sent && WithinVerifyBudget(a, OtpConfig(params).value) &&
             a.otpSentAt.Some? && now > a.otpSentAt.value + OtpConfig(params).value.expirySeconds) ==>
      r.outcome == OtpExpired
    // no rejection by a guard changes the record
    ensures !(r.outcome == OtpAccepted || r.outcome.InvalidOtp?) ==> r.state == a
    ensures r.outcome == OtpAccepted ==>
      r.state == a.(otpStatus := OtpVerified, status := Verified, otpAttempts := 0, verifyAttempts := 0)
    // a wrong code: one more attempt counted, nothing else changed, remaining counted from 3
    ensures r.outcome.InvalidOtp? <==>
      OtpConfig(params).Some? && a.otpStatus == Sent && WithinVerifyBudget(a, OtpConfig(params).value) &&
      Unexpired(a, now, OtpConfig(params).value) && !otpMatches
    ensures r.outcome.InvalidOtp? ==>
      r.state == a.(verifyAttempts := a.verifyAttempts + 1) &&
      r.outcome.remaining == OTP_REMAINING_BASE - r.state.verifyAttempts
  {
    if OTP_EXPIRED_TIME !in params then Step(ThrowsMissingParameter(OTP_EXPIRED_TIME), a, [])
    else if OTP_VERIFY_ATTEMPTS !in params then Step(ThrowsMissingParameter(OTP_VERIFY_ATTEMPTS), a, [])
    else if ParamInt(params[OTP_EXPIRED_TIME]).None? then
      Step(OtpInternalError(UnparsableParameter(OTP_EXPIRED_TIME)), a, [])
    else if ParamInt(params[OTP_VERIFY_ATTEMPTS]).None? then
      Step(OtpInternalError(UnparsableParameter(OTP_VERIFY_ATTEMPTS)), a, [])
    else
      var expiry := ParamInt(params[OTP_EXPIRED_TIME]).value;
      var max := ParamInt(params[OTP_VERIFY_ATTEMPTS]).value;
      if a.otpStatus == NoOtp then Step(OtpInternalError(NullOtpStatus), a, [])
      else if a.otpStatus != Sent then Step(AlreadyVerified, a, [])
      else if a.verifyAttempts >= max then Step(VerifyAttemptsExceeded, a, [])
      else if a.otpSentAt.None? then Step(OtpInternalError(NullOtpSentAt), a, [])
      else if now > a.otpSentAt.value + expiry then Step(OtpExpired, a, [])
      else if otpMatches then
        Step(OtpAccepted, a.(otpStatus := OtpVerified, status := Verified, otpAttempts := 0, verifyAttempts := 0), [])
      else
        var a' := a.(verifyAttempts := a.verifyAttempts + 1);
        Step(InvalidOtp(OTP_REMAINING_BASE - a'.verifyAttempts), a', [])
  }

  // ---------------------------------------------------------------- registerVerify

  datatype RegisterVerifyOutcome =
    | VerifyUserMissing
    | OtpRejected(reason: OtpOutcome)
    | VerifyFault(fault: Fault)
    | UserVerified(username: string, status: Status)
  {
    function ResponseCode(): Code
    {
      match this
      case VerifyUserMissing => FailedCode
      case OtpRejected(reason) => reason.ResponseCode()
      case VerifyFault(_) => InternalServerErrorCode
      case UserVerified(_, _) => SuccessCode
    }
  }

  /** registerVerify: look the record up by username and verify the OTP on it; a thrown
      missing threshold becomes an internal error, any other failure is passed on. */
  function RegisterVerify(store: seq<AccountState>, username: string, otpMatches: bool, now: int, params: Params)
    : (r: Step<RegisterVerifyOutcome, seq<AccountState>>)
    ensures r.sent == [] && |r.state| == |store|
    ensures FirstWhere(store, ByUsername(username)).None? ==> r.outcome == VerifyUserMissing && r.state == store
    ensures FirstWhere(store, ByUsername(username)).Some? ==>
      var i := FirstWhere(store, ByUsername(username)).value;
      var v := VerifyOtp(store[i], otpMatches, now, params);
      && r.state == store[i := v.state]
      && (v.outcome.ThrowsMissingParameter? ==> r.outcome == VerifyFault(MissingParameter(v.outcome.name)))
      && (v.outcome == OtpAccepted ==> r.outcome == UserVerified(username, Verified))
      && (!v.outcome.ThrowsMissingParameter? && v.outcome != OtpAccepted ==> r.outcome == OtpRejected(v.outcome))
    ensures r.outcome.ResponseCode() == SuccessCode <==> r.outcome.UserVerified?
  {
    match FirstWhere(store, ByUsername(username))
    case None => Step(VerifyUserMissing, store, [])
    case Some(i) =>
      var v := VerifyOtp(store[i], otpMatches, now, params);
      var s := store[i := v.state];
      if v.outcome.ThrowsMissingParameter? then Step(VerifyFault(MissingParameter(v.outcome.name)), s, [])
      else if v.outcome != OtpAccepted then Step(OtpRejected(v.outcome), s, [])
      else Step(UserVerified(username, v.state.status), s, [])
  }

  // ---------------------------------------------------------------- setUpDetails / govUserSignUp

  /** The role lookup: the account's role of the requested name, if it has one. */
  function FindRole(roles: set<string>, name: string): (r: Option<string>)
    ensures r.Some? <==> name in roles
    ensures r.Some? ==> r.value == name && r.value in roles
  {
    if name in roles then Some(name) else None
  }

  datatype SetUpRequest = SetUpRequest(
    username: string, roleType: string, fullName: string, profilePic: string, addressNo: string,
    addressStreet: string, city: string, dob: string, password: string, postalCode: string)

  datatype GovSignUpRequest = GovSignUpRequest(username: string, name: string, city: string, password: string)

  datatype SignUpOutcome =
    | SignUpUserMissing
    | NoRoles
    | NoPermission
    | SignedUp(tokens: TokenPair)
  {
    function ResponseCode(): Code
    {
      match this
      case SignUpUserMissing => FailedCode
      case NoRoles => CannotFindUserRoles
      case NoPermission => UserDoesntHavePermission
      case SignedUp(_) => SuccessCode
    }
  }

  /** setUpDetails on the record found: the role check, then the profile, SAVED and the tokens. */
  function ApplySetUpDetails(a: AccountState, req: SetUpRequest, now: int): (r: Step<SignUpOutcome, AccountState>)
    ensures r.sent == []
    ensures a.roles == {} ==> r.outcome == NoRoles
    ensures a.roles != {} && req.roleType !in a.roles ==> r.outcome == NoPermission
    ensures !r.outcome.SignedUp? ==> r.state == a
    ensures r.outcome.SignedUp? <==> req.roleType in a.roles
    ensures r.outcome.SignedUp? ==>
      && r.outcome.tokens == TokenPair(a.username, req.roleType, None)
      && r.state.status == Saved
      && r.state.registeredAt == Some(now)
      && r.state.fullName == req.fullName && r.state.profilePic == req.profilePic
      && r.state.addressNo == req.addressNo && r.state.addressStreet == req.addressStreet
      && r.state.city == req.city && r.state.dob == req.dob
      && r.state.password == req.password && r.state.postalCode == req.postalCode
      && r.state == a.(status := r.state.status, registeredAt := r.state.registeredAt,
                       fullName := req.fullName, profilePic := req.profilePic, addressNo := req.addressNo,
                       addressStreet := req.addressStreet, city := req.city, dob := req.dob,
                       password := req.password, postalCode := req.postalCode)
  {
    if a.roles == {} then Step(NoRoles, a, [])
    else
      match FindRole(a.roles, req.roleType)
      case None => Step(NoPermission, a, [])
      case Some(role) =>
        Step(SignedUp(TokenPair(a.username, role, None)),
             a.(fullName := req.fullName, profilePic := req.profilePic, addressNo := req.addressNo,
                addressStreet := req.addressStreet, city := req.city, status := Saved, dob := req.dob,
                password := req.password, postalCode := req.postalCode, registeredAt := Some(now)),
             [])
  }

  /** govUserSignUp on the record found: the government-user role is required. The tokens
      carry the request's username and the issue time. */
  function ApplyGovUserSignUp(a: AccountState, req: GovSignUpRequest, now: int): (r: Step<SignUpOutcome, AccountState>)
    ensures r.sent == []
    ensures a.roles == {} ==> r.outcome == NoRoles
    ensures a.roles != {} && ROLE_GOVERNMENT_USER !in a.roles ==> r.outcome == NoPermission
    ensures !r.outcome.SignedUp? ==> r.state == a
    ensures r.outcome.SignedUp? <==> ROLE_GOVERNMENT_USER in a.roles
    ensures r.outcome.SignedUp? ==>
      && r.outcome.tokens == TokenPair(req.username, ROLE_GOVERNMENT_USER, Some(now))
      && r.state.status == Saved
      && r.state == a.(status := Saved, registeredAt := Some(now), password := req.password,
                       city := req.city, fullName := req.name)
  {
    if a.roles == {} then Step(NoRoles, a, [])
    else
      match FindRole(a.roles, ROLE_GOVERNMENT_USER)
      case None => Step(NoPermission, a, [])
      case Some(role) =>
        Step(SignedUp(TokenPair(req.username, role, Some(now))),
             a.(status := Saved, registeredAt := Some(now), password := req.password,
                city := req.city, fullName := req.name),
             [])
  }

  /** setUpDetails over the store. */
  function SetUpDetails(store: seq<AccountState>, req: SetUpRequest, now: int)
    : (r: Step<SignUpOutcome, seq<AccountState>>)
    ensures r.sent == [] && |r.state| == |store|
    ensures r.outcome == SignUpUserMissing <==> FirstWhere(store, ByUsername(req.username)).None?
    ensures !r.outcome.SignedUp? ==> r.state == store
    ensures r.outcome.SignedUp? ==>
      var i := FirstWhere(store, ByUsername(req.username)).value;
      r.state == store[i := ApplySetUpDetails(store[i], req, now).state] && r.state[i].status == Saved
    // on the record found, the role check decides the answer
    ensures FirstWhere(store, ByUsername(req.username)).Some? ==>
      var a := store[FirstWhere(store, ByUsername(req.username)).value];
      && r.outcome == ApplySetUpDetails(a, req, now).outcome
      && (a.roles == {} ==> r.outcome == NoRoles)
      && (a.roles != {} && req.roleType !in a.roles ==> r.outcome == NoPermission)
      && (r.outcome.SignedUp? <==> req.roleType in a.roles)
      && (r.outcome.SignedUp? ==> r.outcome.tokens == TokenPair(a.username, req.roleType, None))
  {
    match FirstWhere(store, ByUsername(req.username))
    case None => Step(SignUpUserMissing, store, [])
    case Some(i) =>
      var s := ApplySetUpDetails(store[i], req, now);
      Step(s.outcome, store[i := s.state], [])
  }

  /** govUserSignUp over the store. */
  function GovUserSignUp(store: seq<AccountState>, req: GovSignUpRequest, now: int)
    : (r: Step<SignUpOutcome, seq<AccountState>>)
    ensures r.sent == [] && |r.state| == |store|
    ensures r.outcome == SignUpUserMissing <==> FirstWhere(store, ByUsername(req.username)).None?
    ensures !r.outcome.SignedUp? ==> r.state == store
    ensures r.outcome.SignedUp? ==>
      var i := FirstWhere(store, ByUsername(req.username)).value;
      r.state == store[i := ApplyGovUserSignUp(store[i], req, now).state] && r.state[i].status == Saved &&
      r.outcome.tokens.subject == store[i].username
    // on the record found, the government-user role decides the answer
    ensures FirstWhere(store, ByUsername(req.username)).Some? ==>
      var a := store[FirstWhere(store, ByUsername(req.username)).value];
      && r.outcome == ApplyGovUserSignUp(a, req, now).outcome
      && (a.roles == {} ==> r.outcome == NoRoles)
      && (a.roles != {} && ROLE_GOVERNMENT_USER !in a.roles ==> r.outcome == NoPermission)
      && (r.outcome.SignedUp? <==> ROLE_GOVERNMENT_USER in a.roles)
      && (r.outcome.SignedUp? ==> r.outcome.tokens == TokenPair(req.username, ROLE_GOVERNMENT_USER, Some(now)))
  {
    match FirstWhere(store, ByUsername(req.username))
    case None => Step(SignUpUserMissing, store, [])
    case Some(i) =>
      var s := ApplyGovUserSignUp(store[i], req, now);
      Step(s.outcome, store[i := s.state], [])
  }

  // ---------------------------------------------------------------- login / logUser

  /** The profile summary a successful login returns. */
  datatype LoginSummary = LoginSummary(fullName: string, email: string, govId: Option<int>, city: string, status: Status)

  datatype LoginOutcome =
    | LoginUserMissing
    | NotActive
    | LoggedIn(tokens: TokenPair, user: LoginSummary)
    | BadCredentials(remaining: int)
    | LockedOut
    | LoginFault(fault: Fault)
  {
    function ResponseCode(): Code
    {
      match this
      case LoginUserMissing => FailedCode
      case NotActive => DisableUserErrorCode
      case LoggedIn(_, _) => SuccessCode
      case BadCredentials(_) => FailedCode
      case LockedOut => OtpAttemptsExceedErrorCode
      case LoginFault(_) => InternalServerErrorCode
    }
  }

  /** The login-attempt threshold, parsed. */
  function LoginLimit(params: Params): Option<int>
  {
    if LOGIN_ATTEMPTS in params then ParamInt(params[LOGIN_ATTEMPTS]) else None
  }

  /** Token issuance and the login payload for the record as it now is. */
  function Admit(a: AccountState, role: string, now: int): Step<LoginOutcome, AccountState>
  {
    Step(LoggedIn(TokenPair(a.username, role, Some(now)),
                  LoginSummary(a.fullName, a.email, a.govId, a.city, a.status)), a, [])
  }

  /** logUser: the ACTIVE check, then the authenticator's answer `authenticated` and
      the login-attempt budget. The tokens are issued for the claimed `role`. */
  function LogUser(a: AccountState, authenticated: bool, role: string, now: int, params: Params)
    : (r: Step<LoginOutcome, AccountState>)
    // a record that is not ACTIVE is refused before any authentication
    ensures a.status != Active ==> r == Step(NotActive, a, [])
    // good credentials reset the counter and issue tokens for the claimed role
    ensures a.status == Active && authenticated ==>
      r.state == a.(loginAttempts := 0) && r.outcome.LoggedIn? && r.sent == []
    ensures r.outcome.LoggedIn? ==>
      && r.outcome.tokens == TokenPair(a.username, role, Some(now))
      && r.outcome.user == LoginSummary(a.fullName, a.email, a.govId, a.city, Active)
    // bad credentials without a readable threshold: the exception, no change
    ensures a.status == Active && !authenticated && LOGIN_ATTEMPTS !in params ==>
      r == Step(LoginFault(MissingParameter(LOGIN_ATTEMPTS)), a, [])
    ensures a.status == Active && !authenticated && LOGIN_ATTEMPTS in params && LoginLimit(params).None? ==>
      r == Step(LoginFault(UnparsableParameter(LOGIN_ATTEMPTS)), a, [])
    // bad credentials within the budget count one attempt; DISABLED exactly when the budget is used up
    ensures a.status == Active && !authenticated && LoginLimit(params).Some? && a.loginAttempts < LoginLimit(params).value ==>
      && r.state.loginAttempts == a.loginAttempts + 1
      && (r.state.status == Disabled <==> a.loginAttempts + 1 == LoginLimit(params).value)
    ensures (a.status == Active && !authenticated && LoginLimit(params).Some? &&
             a.loginAttempts + 1 < LoginLimit(params).value) ==>
      && r == Step(BadCredentials(LoginLimit(params).value - (a.loginAttempts + 1)), a.(loginAttempts := a.loginAttempts + 1), [])
      && r.outcome.remaining >= 1
    ensures (a.status == Active && !authenticated && LoginLimit(params).Some? &&
             a.loginAttempts + 1 == LoginLimit(params).value) ==>
      && r.state == a.(loginAttempts := a.loginAttempts + 1, status := Disabled,
                       disabledReason := Some(LOGIN_ATTEMPTS_EXCEEDED))
      && (LOGIN_ATTEMPTS_EXCEEDED_MESSAGE in params ==>
            r.outcome == LockedOut && r.sent == [LockoutSms(a.mobile, params[LOGIN_ATTEMPTS_EXCEEDED_MESSAGE])])
      && (LOGIN_ATTEMPTS_EXCEEDED_MESSAGE !in params ==>
            r.outcome == LoginFault(MissingParameter(LOGIN_ATTEMPTS_EXCEEDED_MESSAGE)) && r.sent == [])
    // bad credentials with the counter already at the threshold fall through to token issuance
    ensures (a.status == Active && !authenticated && LoginLimit(params).Some? &&
             a.loginAttempts >= LoginLimit(params).value) ==>
      r.outcome.LoggedIn? && r.state == a
    // at most one message, and only the lockout sends it
    ensures |r.sent| <= 1 && (|r.sent| == 1 <==> r.outcome == LockedOut)
  {
    if a.status != Active then Step(NotActive, a, [])
    else if authenticated then Admit(a.(loginAttempts := 0), role, now)
    else if LOGIN_ATTEMPTS !in params then Step(LoginFault(MissingParameter(LOGIN_ATTEMPTS)), a, [])
    else match ParamInt(params[LOGIN_ATTEMPTS])
      case None => Step(LoginFault(UnparsableParameter(LOGIN_ATTEMPTS)), a, [])
      case Some(max) =>
        if a.loginAttempts < max then
          var counted := a.(loginAttempts := a.loginAttempts + 1);
          var remaining := max - counted.loginAttempts;
          if remaining < 1 then
            var locked := counted.(status := Disabled, disabledReason := Some(LOGIN_ATTEMPTS_EXCEEDED));
            if LOGIN_ATTEMPTS_EXCEEDED_MESSAGE !in params then
              Step(LoginFault(MissingParameter(LOGIN_ATTEMPTS_EXCEEDED_MESSAGE)), locked, [])
            else
              Step(LockedOut, locked, [LockoutSms(locked.mobile, params[LOGIN_ATTEMPTS_EXCEEDED_MESSAGE])])
          else Step(BadCredentials(remaining), counted, [])
        else Admit(a, role, now)
  }

  /** login: look the record up by email, then logUser. */
  function Login(store: seq<AccountState>, email: string, authenticated: bool, role: string, now: int, params: Params)
    : (r: Step<LoginOutcome, seq<AccountState>>)
    ensures |r.state| == |store|
    ensures r.outcome == LoginUserMissing <==> FirstWhere(store, ByEmail(email)).None?
    ensures r.outcome == LoginUserMissing ==> r.state == store && r.sent == []
    ensures FirstWhere(store, ByEmail(email)).Some? ==>
      var i := FirstWhere(store, ByEmail(email)).value;
      var l := LogUser(store[i], authenticated, role, now, params);
      r == Step(l.outcome, store[i := l.state], l.sent)
  {
    match FirstWhere(store, ByEmail(email))
    case None => Step(LoginUserMissing, store, [])
    case Some(i) =>
      var l := LogUser(store[i], authenticated, role, now, params);
      Step(l.outcome, store[i := l.state], l.sent)
  }
}
