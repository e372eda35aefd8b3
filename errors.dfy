// The application errors of internal/errors/errors.go. A Go error value is
// one of: an *AppError, an error wrapped by WrapError (fmt.Errorf with %w),
// or any other error, known here only by its text; nil is None. The
// predicates look at the dynamic type of the error itself, not down its
// chain, as Go's type assertion does.

module AppErrors {
  import opened Outcomes

  datatype Error =
    | AppError(err: Option<Error>, message: string, code: int, details: string, timestamp: string,
               userContext: string)
    | Wrapped(timestamp: string, message: string, cause: Error, details: string, userContext: string)
    | Other(text: string)

  const NetworkCode: int := 1002
  const DatabaseCode: int := 1003
  const TimeoutCode: int := 1004
  const UnauthorizedCode: int := 1005

  /** NewAppError: an application error holding the six arguments as given; the code is the caller's
      choice. NewDatabaseError, NewFileError, NewNetworkError, NewUnauthorizedError and NewTimeoutError
      have this same body. */
  function NewAppError(err: Option<Error>, message: string, code: int, details: string, timestamp: string,
                       userContext: string): (e: Error)
    ensures e.AppError? && e.err == err && e.message == message && e.code == code
    ensures e.details == details && e.timestamp == timestamp && e.userContext == userContext
  {
    AppError(err, message, code, details, timestamp, userContext)
  }

  /** WrapError: nil stays nil; any other error is wrapped with the message, details, timestamp and user
      context, keeping the original as its cause. */
  function WrapError(err: Option<Error>, message: string, details: string, timestamp: string,
                     userContext: string): (r: Option<Error>)
    ensures r == None <==> err == None
    ensures r.Some? ==> r.value.Wrapped? && r.value.cause == err.value && r.value.message == message
  {
    match err
    case None => None
    case Some(e) => Some(Wrapped(timestamp, message, e, details, userContext))
  }

  /** IsAppError: the error is an *AppError. */
  predicate IsAppError(err: Option<Error>)
  {
    err.Some? && err.value.AppError?
  }

  /** An *AppError carrying the given code. */
  predicate HasCode(err: Option<Error>, code: int)
  {
    IsAppError(err) && err.value.code == code
  }

  predicate IsNetworkError(err: Option<Error>)
  {
    HasCode(err, NetworkCode)
  }

  predicate IsDatabaseError(err: Option<Error>)
  {
    HasCode(err, DatabaseCode)
  }

  predicate IsTimeoutError(err: Option<Error>)
  {
    HasCode(err, TimeoutCode)
  }

  predicate IsUnauthorizedError(err: Option<Error>)
  {
    HasCode(err, UnauthorizedCode)
  }

  /** How many of the four code predicates hold. */
  function Kinds(err: Option<Error>): (n: nat)
  {
    (if IsNetworkError(err) then 1 else 0) + (if IsDatabaseError(err) then 1 else 0) +
    (if IsTimeoutError(err) then 1 else 0) + (if IsUnauthorizedError(err) then 1 else 0)
  }

  /** At most one of the four kinds holds of any error, and each implies an *AppError. */
  lemma KindsExclusive(err: Option<Error>)
    ensures Kinds(err) <= 1
    ensures Kinds(err) == 1 ==> IsAppError(err)
  {
  }

  /** An error built by the constructors is of a kind exactly when the caller passed that kind's code. */
  lemma KindIsCallersCode(err: Option<Error>, message: string, code: int, details: string, timestamp: string,
                          userContext: string)
    ensures IsAppError(Some(NewAppError(err, message, code, details, timestamp, userContext)))
    ensures HasCode(Some(NewAppError(err, message, code, details, timestamp, userContext)), code)
    ensures IsNetworkError(Some(NewAppError(err, message, code, details, timestamp, userContext))) <==> code == 1002
    ensures IsDatabaseError(Some(NewAppError(err, message, code, details, timestamp, userContext))) <==> code == 1003
    ensures IsTimeoutError(Some(NewAppError(err, message, code, details, timestamp, userContext))) <==> code == 1004
    ensures IsUnauthorizedError(Some(NewAppError(err, message, code, details, timestamp, userContext))) <==> code == 1005
  {
  }

  /** Wrapping an application error hides it from every predicate: the result is not an *AppError,
      whatever its cause's code. */
  lemma WrappingHidesCode(err: Option<Error>, message: string, details: string, timestamp: string, userContext: string)
    requires err.Some?
    ensures !IsAppError(WrapError(err, message, details, timestamp, userContext))
    ensures Kinds(WrapError(err, message, details, timestamp, userContext)) == 0
  {
  }
}
