/** The user service as the source runs it: records are objects whose fields the
    operations set one by one, and the store holds those objects. Every method is
    proved to perform exactly the transition the Lifecycle module defines. */
module Service {
  import opened Domain
  import opened Reconcile
  import opened Lifecycle

  /** A stored account record, updated in place through its setters. */
  class Account {
    var username: string
    var nic: string
    var mobile: string
    var email: string
    var govId: Option<int>
    var status: Status
    var otp: Option<string>
    var otpStatus: OtpStatus
    var otpAttempts: int
    var verifyAttempts: int
    var otpSentAt: Option<int>
    var loginAttempts: int
    var disabledReason: Option<string>
    var roles: set<string>
    var fullName: string
    var profilePic: string
    var addressNo: string
    var addressStreet: string
    var city: string
    var dob: string
    var password: string
    var postalCode: string
    var registeredAt: Option<int>

    /** The record's current field values. */
    function State(): AccountState
      reads this
    {
      AccountState(username, nic, mobile, email, govId, status, otp, otpStatus, otpAttempts,
                   verifyAttempts, otpSentAt, loginAttempts, disabledReason, roles, fullName,
                   profilePic, addressNo, addressStreet, city, dob, password, postalCode, registeredAt)
    }

    /** The record built for a registration nothing matched. */
    constructor (username: string, req: RegisterRequest)
      ensures State() == NewAccount(username, req)
    {
      this.username := username;
      nic, mobile, email := req.nic, req.mobile, req.email;
      govId := if req.roleType == ROLE_GOVERNMENT_USER then req.govId else None;
      roles := {req.roleType};
      status := Initiated;
      otp, otpStatus, otpAttempts, verifyAttempts, otpSentAt := None, NoOtp, 0, 0, None;
      loginAttempts, disabledReason := 0, None;
      fullName, profilePic, addressNo, addressStreet := "", "", "", "";
      city, dob, password, postalCode, registeredAt := "", "", "", "", None;
    }

    // The entity's setters: each writes one column and leaves the rest of the record as it was.

    method SetOtp(v: Option<string>)
      modifies this
      ensures State() == old(State()).(otp := v)
    {
      otp := v;
    }

    method SetOtpStatus(v: OtpStatus)
      modifies this
      ensures State() == old(State()).(otpStatus := v)
    {
      otpStatus := v;
    }

    method SetOtpAttempts(v: int)
      modifies this
      ensures State() == old(State()).(otpAttempts := v)
    {
      otpAttempts := v;
    }

    method SetVerifyAttempts(v: int)
      modifies this
      ensures State() == old(State()).(verifyAttempts := v)
    {
      verifyAttempts := v;
    }

    method SetOtpSentAt(v: Option<int>)
      modifies this
      ensures State() == old(State()).(otpSentAt := v)
    {
      otpSentAt := v;
    }

    method SetStatus(v: Status)
      modifies this
      ensures State() == old(State()).(status := v)
    {
      status := v;
    }

    method SetLoginAttempts(v: int)
      modifies this
      ensures State() == old(State()).(loginAttempts := v)
    {
      loginAttempts := v;
    }

    method SetDisabledReason(v: Option<string>)
      modifies this
      ensures State() == old(State()).(disabledReason := v)
    {
      disabledReason := v;
    }

    method SetFullName(v: string)
      modifies this
      ensures State() == old(State()).(fullName := v)
    {
      fullName := v;
    }

    method SetProfilePic(v: string)
      modifies this
      ensures State() == old(State()).(profilePic := v)
    {
      profilePic := v;
    }

    method SetAddressNo(v: string)
      modifies this
      ensures State() == old(State()).(addressNo := v)
    {
      addressNo := v;
    }

    method SetAddressStreet(v: string)
      modifies this
      ensures State() == old(State()).(addressStreet := v)
    {
      addressStreet := v;
    }

    method SetCity(v: string)
      modifies this
      ensures State() == old(State()).(city := v)
    {
      city := v;
    }

    method SetDob(v: string)
      modifies this
      ensures State() == old(State()).(dob := v)
    {
      dob := v;
    }

    method SetPassword(v: string)
      modifies this
      ensures State() == old(State()).(password := v)
    {
      password := v;
    }

    method SetPostalCode(v: string)
      modifies this
      ensures State() == old(State()).(postalCode := v)
    {
      postalCode := v;
    }

    method SetRegisteredAt(v: Option<int>)
      modifies this
      ensures State() == old(State()).(registeredAt := v)
    {
      registeredAt := v;
    }
  }

  /** The lifecycle engine over the account store. */
  class UserService {
    /** The store's records, in the order its queries return them. */
    var users: seq<Account>

    /** No record is stored twice. */
    ghost predicate Valid()
      reads this
    {
      forall i, j :: 0 <= i < j < |users| ==> users[i] != users[j]
    }

    /** The store's records as values. */
    function Store(): seq<AccountState>
      reads this, users
    {
      seq(|users|, i requires 0 <= i < |users| reads this, users => users[i].State())
    }

    constructor ()
      ensures Valid() && Store() == []
    {
      users := [];
    }

    /** persistUser: append a record the store did not hold. */
    method Persist(user: Account)
      requires Valid() && user !in users
      modifies this
      ensures Valid() && users == old(users) + [user]
      ensures Store() == old(Store()) + [user.State()]
    {
      users := users + [user];
    }

    /** The OTP part of registerInit on the record at `i`: the thresholds are read only
        now, then the message is handed to the gateway and the record updated. */
    method SendOtp(i: nat, req: RegisterRequest, params: Params, otp: string, smsSucceeded: bool, now: int)
      returns (r: RegisterInitOutcome, sent: seq<Sms>)
      requires Valid() && i < |users|
      modifies users[i]
      ensures Step(r, Store(), sent) == Lifecycle.SendOtp(old(Store()), i, req, params, otp, smsSucceeded, now)
    {
      if OTP_LENGTH !in params {
        return RegisterFault(MissingParameter(OTP_LENGTH)), [];
      }
      if OTP_MESSAGE !in params {
        return RegisterFault(MissingParameter(OTP_MESSAGE)), [];
      }
      if ParamInt(params[OTP_LENGTH]).None? {
        return RegisterFault(UnparsableParameter(OTP_LENGTH)), [];
      }
      ghost var before := Store();
      var user := users[i];
      sent := [OtpSms(req.mobile, params[OTP_MESSAGE], otp)];
      r := RegisterStarted(user.username, req.mobile, user.roles);
      user.SetOtp(Some(otp));
      user.SetOtpStatus(OtpStatusFor(smsSucceeded));
      user.SetOtpAttempts(user.otpAttempts + 1);
      user.SetOtpSentAt(Some(now));
      user.SetStatus(Pending);
      assert user.State() == IssueOtp(before[i], otp, smsSucceeded, now);
      assert Store() == before[i := user.State()];
    }

    /** registerInit: reconcile the natural key, store a new record if nothing matched,
        then issue the OTP. */
    method RegisterInit(req: RegisterRequest, params: Params, newUsername: string,
                        otp: string, smsSucceeded: bool, now: int) returns (r: RegisterInitOutcome, sent: seq<Sms>)
      requires Valid()
      modifies this, users
      ensures Valid()
      ensures Step(r, Store(), sent) == Lifecycle.RegisterInit(old(Store()), req, params, newUsername, otp, smsSucceeded, now)
    {
      ghost var before := Store();
      var target := Resolve(Store(), req);
      if target.Conflict? {
        return KeyConflict, [];
      } else if target.FilterFault? {
        return RegisterFault(NullGovId), [];
      } else if target.Existing? {
        r, sent := SendOtp(target.index, req, params, otp, smsSucceeded, now);
      } else {
        var user := new Account(newUsername, req);
        Persist(user);
        assert Store() == before + [NewAccount(newUsername, req)];
        r, sent := SendOtp(|users| - 1, req, params, otp, smsSucceeded, now);
      }
    }

    /** verifyOtp on a record: the thresholds, the three guards in order, then the comparison. */
    method VerifyOtp(user: Account, otpMatches: bool, now: int, params: Params) returns (r: OtpOutcome)
      modifies user
      ensures Step(r, user.State(), []) == Lifecycle.VerifyOtp(old(user.State()), otpMatches, now, params)
    {
      if OTP_EXPIRED_TIME !in params {
        return ThrowsMissingParameter(OTP_EXPIRED_TIME);
      }
      if OTP_VERIFY_ATTEMPTS !in params {
        return ThrowsMissingParameter(OTP_VERIFY_ATTEMPTS);
      }
      var expiry := ParamInt(params[OTP_EXPIRED_TIME]);
      if expiry.None? {
        return OtpInternalError(UnparsableParameter(OTP_EXPIRED_TIME));
      }
      var max := ParamInt(params[OTP_VERIFY_ATTEMPTS]);
      if max.None? {
        return OtpInternalError(UnparsableParameter(OTP_VERIFY_ATTEMPTS));
      }
      if user.otpStatus == NoOtp {
        return OtpInternalError(NullOtpStatus);
      }
      if user.otpStatus != Sent {
        return AlreadyVerified;
      }
      if user.verifyAttempts >= max.value {
        return VerifyAttemptsExceeded;
      }
      if user.otpSentAt.None? {
        return OtpInternalError(NullOtpSentAt);
      }
      if now > user.otpSentAt.value + expiry.value {
        return OtpExpired;
      }
      if otpMatches {
        user.SetOtpStatus(OtpVerified);
        user.SetStatus(Verified);
        user.SetOtpAttempts(0);
        user.SetVerifyAttempts(0);
        r := OtpAccepted;
      } else {
        user.SetVerifyAttempts(user.verifyAttempts + 1);
        var remaining := OTP_REMAINING_BASE - user.verifyAttempts;
        r := InvalidOtp(remaining);
      }
    }

    /** registerVerify: find the record by username and verify the OTP on it. */
    method RegisterVerify(username: string, otpMatches: bool, now: int, params: Params) returns (r: RegisterVerifyOutcome)
      requires Valid()
      modifies users
      ensures Step(r, Store(), []) == Lifecycle.RegisterVerify(old(Store()), username, otpMatches, now, params)
    {
      var found := FirstWhere(Store(), ByUsername(username));
      if found.None? {
        return VerifyUserMissing;
      }
      var i := found.value;
      var user := users[i];
      ghost var before := Store();
      var o := VerifyOtp(user, otpMatches, now, params);
      assert Store() == before[i := user.State()];
      if o.ThrowsMissingParameter? {
        r := VerifyFault(MissingParameter(o.name));
      } else if o != OtpAccepted {
        r := OtpRejected(o);
      } else {
        r := UserVerified(user.username, user.status);
      }
    }

    /** setUpDetails on the record found: the role check, then the profile and SAVED. */
    method ApplySetUpDetails(user: Account, req: SetUpRequest, now: int) returns (r: SignUpOutcome)
      modifies user
      ensures Step(r, user.State(), []) == Lifecycle.ApplySetUpDetails(old(user.State()), req, now)
    {
      if user.roles == {} {
        return NoRoles;
      }
      var role := FindRole(user.roles, req.roleType);
      if role.None? {
        return NoPermission;
      }
      r := SignedUp(TokenPair(user.username, role.value, None));
      user.SetFullName(req.fullName);
      user.SetProfilePic(req.profilePic);
      user.SetAddressNo(req.addressNo);
      user.SetAddressStreet(req.addressStreet);
      user.SetCity(req.city);
      user.SetStatus(Saved);
      user.SetDob(req.dob);
      user.SetPassword(req.password);
      user.SetPostalCode(req.postalCode);
      user.SetRegisteredAt(Some(now));
    }

    /** setUpDetails: find the record by username and set it up. */
    method SetUpDetails(req: SetUpRequest, now: int) returns (r: SignUpOutcome)
      requires Valid()
      modifies users
      ensures Step(r, Store(), []) == Lifecycle.SetUpDetails(old(Store()), req, now)
    {
      var found := FirstWhere(Store(), ByUsername(req.username));
      if found.None? {
        return SignUpUserMissing;
      }
      var i := found.value;
      var user := users[i];
      ghost var before := Store();
      r := ApplySetUpDetails(user, req, now);
      assert Store() == before[i := user.State()];
    }

    /** govUserSignUp on the record found: the government-user role is required. */
    method ApplyGovUserSignUp(user: Account, req: GovSignUpRequest, now: int) returns (r: SignUpOutcome)
      modifies user
      ensures Step(r, user.State(), []) == Lifecycle.ApplyGovUserSignUp(old(user.State()), req, now)
    {
      if user.roles == {} {
        return NoRoles;
      }
      var role := FindRole(user.roles, ROLE_GOVERNMENT_USER);
      if role.None? {
        return NoPermission;
      }
      r := SignedUp(TokenPair(req.username, role.value, Some(now)));
      user.SetStatus(Saved);
      user.SetRegisteredAt(Some(now));
      user.SetPassword(req.password);
      user.SetCity(req.city);
      user.SetFullName(req.name);
    }

    /** govUserSignUp: find the record by username and sign it up. */
    method GovUserSignUp(req: GovSignUpRequest, now: int) returns (r: SignUpOutcome)
      requires Valid()
      modifies users
      ensures Step(r, Store(), []) == Lifecycle.GovUserSignUp(old(Store()), req, now)
    {
      var found := FirstWhere(Store(), ByUsername(req.username));
      if found.None? {
        return SignUpUserMissing;
      }
      var i := found.value;
      var user := users[i];
      ghost var before := Store();
      r := ApplyGovUserSignUp(user, req, now);
      assert Store() == before[i := user.State()];
    }

    /** logUser on a record: the ACTIVE check, then the login-attempt budget. */
    method LogUser(user: Account, authenticated: bool, role: string, now: int, params: Params)
      returns (r: LoginOutcome, sent: seq<Sms>)
      modifies user
      ensures Step(r, user.State(), sent) == Lifecycle.LogUser(old(user.State()), authenticated, role, now, params)
    {
      sent := [];
      if user.status != Active {
        return NotActive, [];
      }
      if authenticated {
        user.SetLoginAttempts(0);
      } else {
        if LOGIN_ATTEMPTS !in params {
          return LoginFault(MissingParameter(LOGIN_ATTEMPTS)), [];
        }
        var attempts := ParamInt(params[LOGIN_ATTEMPTS]);
        if attempts.None? {
          return LoginFault(UnparsableParameter(LOGIN_ATTEMPTS)), [];
        }
        if user.loginAttempts < attempts.value {
          user.SetLoginAttempts(user.loginAttempts + 1);
          var remaining := attempts.value - user.loginAttempts;
          if remaining < 1 {
            user.SetStatus(Disabled);
            user.SetDisabledReason(Some(LOGIN_ATTEMPTS_EXCEEDED));
            if LOGIN_ATTEMPTS_EXCEEDED_MESSAGE !in params {
              return LoginFault(MissingParameter(LOGIN_ATTEMPTS_EXCEEDED_MESSAGE)), [];
            }
            sent := [LockoutSms(user.mobile, params[LOGIN_ATTEMPTS_EXCEEDED_MESSAGE])];
            return LockedOut, sent;
          } else {
            return BadCredentials(remaining), [];
          }
        }
      }
      // token issuance, reached by good credentials and by bad ones past the threshold
      r := LoggedIn(TokenPair(user.username, role, Some(now)),
                    LoginSummary(user.fullName, user.email, user.govId, user.city, user.status));
    }

    /** login: find the record by email, then logUser. */
    method Login(email: string, authenticated: bool, role: string, now: int, params: Params)
      returns (r: LoginOutcome, sent: seq<Sms>)
      requires Valid()
      modifies users
      ensures Step(r, Store(), sent) == Lifecycle.Login(old(Store()), email, authenticated, role, now, params)
    {
      var found := FirstWhere(Store(), ByEmail(email));
      if found.None? {
        return LoginUserMissing, [];
      }
      var i := found.value;
      var user := users[i];
      ghost var before := Store();
      r, sent := LogUser(user, authenticated, role, now, params);
      assert Store() == before[i := user.State()];
    }
  }
}
