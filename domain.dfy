/** Types shared by the account lifecycle engine: the account record as a value,
    the threshold store, response codes, outbound messages and issued tokens. */
module Domain {

  datatype Option<T> = None | Some(value: T)

  /** Lifecycle status of an account, as stored in its string-valued status column. */
  datatype Status = Initiated | Pending | Verified | Saved | Active | Disabled

  /** Delivery status of the current OTP. `NoOtp` is the null column of a record
      that has never had an OTP written to it. */
  datatype OtpStatus = NoOtp | Sent | Failed | OtpVerified

  /** A threshold value. Values are stored as text; `Num(n)` is text that parses as
      the integer `n`, `Text(s)` is text that does not. */
  datatype Param = Num(n: int) | Text(s: string)

  /** The threshold store: a partial map from parameter name to value. */
  type Params = map<string, Param>

  /** The integer a threshold parses to, or None when parsing it would throw. */
  function ParamInt(p: Param): Option<int>
  {
    match p
    case Num(n) => Some(n)
    case Text(_) => None
  }

  // Threshold names.
  const OTP_LENGTH: string := "OTP_LENGTH"
  const OTP_MESSAGE: string := "OTP_MESSAGE"
  const OTP_EXPIRED_TIME: string := "OTP_EXPIRED_TIME"
  const OTP_VERIFY_ATTEMPTS: string := "OTP_VERIFY_ATTEMPTS"
  const LOGIN_ATTEMPTS: string := "LOGIN_ATTEMPTS"
  const LOGIN_ATTEMPTS_EXCEEDED_MESSAGE: string := "LOGIN_ATTEMPTS_EXCEEDED_MESSAGE"

  /** The disabled reason written on lockout. */
  const LOGIN_ATTEMPTS_EXCEEDED: string := "LOGIN_ATTEMPTS_EXCEEDED"

  /** The role a government-user signup requires. */
  const ROLE_GOVERNMENT_USER: string := "ROLE_GOVERNMENT_USER"

  /** The literal the remaining OTP attempts are counted down from, independent
      of the configured maximum. */
  const OTP_REMAINING_BASE: int := 3

  /** The `code` of a response. */
  datatype Code =
    | SuccessCode
    | FailedCode
    | InternalServerErrorCode
    | CannotFindUserRoles
    | UserDoesntHavePermission
    | OtpAttemptsExceedErrorCode
    | OtpExpiredCode
    | InvalidOtpErrorCode
    | DisableUserErrorCode

  /** Why an operation ended in an exception. */
  datatype Fault =
    | MissingParameter(name: string)      // a threshold is absent
    | UnparsableParameter(name: string)   // a threshold does not parse as an integer
    | NullGovId                           // the natural-key filter dereferenced a null govId
    | NullOtpStatus                       // verification of a record without an OTP status
    | NullOtpSentAt                       // verification of a record without an OTP issue time

  /** A text message handed to the notification gateway. The OTP message keeps
      the template and the OTP apart; the substitution itself is presentation. */
  datatype Sms =
    | OtpSms(to: string, template: Param, otp: string)
    | LockoutSms(to: string, text: Param)

  /** The access and refresh token pair, as the claims it is issued for. */
  datatype TokenPair = TokenPair(subject: string, role: string, issuedAt: Option<int>)

  /** One account record. Times are integer seconds. */
  datatype AccountState = AccountState(
    username: string,
    nic: string,
    mobile: string,
    email: string,
    govId: Option<int>,
    status: Status,
    otp: Option<string>,
    otpStatus: OtpStatus,
    otpAttempts: int,
    verifyAttempts: int,
    otpSentAt: Option<int>,
    loginAttempts: int,
    disabledReason: Option<string>,
    roles: set<string>,
    fullName: string,
    profilePic: string,
    addressNo: string,
    addressStreet: string,
    city: string,
    dob: string,
    password: string,
    postalCode: string,
    registeredAt: Option<int>)

  /** The fields that identify a person outside the system: national ID, phone, email. */
  predicate SameNaturalKey(a: AccountState, b: AccountState)
  {
    a.nic == b.nic && a.mobile == b.mobile && a.email == b.email
  }

  /** A record whose OTP status was written also has its issue time written. */
  predicate OtpIssued(a: AccountState)
  {
    a.otpStatus != NoOtp ==> a.otpSentAt.Some?
  }
}
