/**
 * The API's exception family: every error carries a message, a
 * machine-readable error code and the HTTP status it is answered with.
 */
module Exceptions {
  import opened Wrappers
  import Text

  datatype ApiError = ApiError(message: string, errorCode: string, statusCode: int)

  /** A keyword argument: left out at the call, so its default applies, or passed with a value. */
  datatype Arg<T> = Omitted | Passed(value: T)

  const InternalError: string := "INTERNAL_ERROR"
  const DefaultStatus: int := 500
  const FileErrorCode: string := "FILE_ERROR"

  /**
   * The base exception. `error_code` defaults to None and `status_code` to
   * 500; a None or empty error code becomes INTERNAL_ERROR.
   */
  function Base(message: string, errorCode: Option<string>, statusCode: Arg<int>): (e: ApiError)
    ensures e.message == message
    ensures statusCode.Omitted? ==> e.statusCode == DefaultStatus
    ensures statusCode.Passed? ==> e.statusCode == statusCode.value
    ensures errorCode.Some? && errorCode.value != [] ==> e.errorCode == errorCode.value
    ensures errorCode.None? || errorCode.value == [] ==> e.errorCode == InternalError
    ensures e.errorCode != []
  {
    var code := if errorCode.Some? && errorCode.value != [] then errorCode.value else InternalError;
    var status := if statusCode.Passed? then statusCode.value else DefaultStatus;
    ApiError(message, code, status)
  }

  /** A required service is not ready: 503 SERVICE_UNAVAILABLE, "<service> service is not available". */
  function ServiceNotAvailable(serviceName: string): (e: ApiError)
    ensures e.statusCode == 503 && e.errorCode == "SERVICE_UNAVAILABLE"
    ensures e.message == serviceName + " service is not available"
    ensures Text.StartsWith(e.message, serviceName) && Text.EndsWith(e.message, " service is not available")
  {
    Text.JoinedEnds(serviceName, [], " service is not available");
    assert serviceName + [] == serviceName;
    Base(serviceName + " service is not available", Some("SERVICE_UNAVAILABLE"), Passed(503))
  }

  /** The validation code: VALIDATION_ERROR, suffixed with the upper-cased field when one is named. */
  function ValidationCode(field: Option<string>): (code: string)
    ensures Text.StartsWith(code, "VALIDATION_ERROR")
    ensures field.None? || field.value == [] ==> code == "VALIDATION_ERROR"
    ensures field.Some? && field.value != [] ==>
      |code| == |"VALIDATION_ERROR_"| + |field.value| && code[|"VALIDATION_ERROR_"|..] == Text.Upper(field.value)
  {
    if field.Some? && field.value != [] then "VALIDATION_ERROR_" + Text.Upper(field.value) else "VALIDATION_ERROR"
  }

  /** A request that fails validation: 400 with the field's code. */
  function Validation(message: string, field: Option<string>): (e: ApiError)
    ensures e.statusCode == 400 && e.message == message && e.errorCode == ValidationCode(field)
  {
    Base(message, Some(ValidationCode(field)), Passed(400))
  }

  /** Fields whose names differ only in letter case share a validation code; others do not. */
  lemma ValidationCodeIgnoresCase(a: string, b: string)
    requires a != [] && b != []
    ensures ValidationCode(Some(a)) == ValidationCode(Some(b)) <==> Text.Upper(a) == Text.Upper(b)
  {
    var n := |"VALIDATION_ERROR_"|;
    if ValidationCode(Some(a)) == ValidationCode(Some(b)) {
      assert Text.Upper(a) == ValidationCode(Some(a))[n..];
    }
  }

  /**
   * A file operation that fails: 400. `error_code` defaults to FILE_ERROR
   * when the caller leaves it out; a None or empty code passed explicitly
   * becomes INTERNAL_ERROR in the base class.
   */
  function FileError(message: string, errorCode: Arg<Option<string>>): (e: ApiError)
    ensures e.statusCode == 400 && e.message == message
    ensures errorCode.Omitted? ==> e.errorCode == FileErrorCode
    ensures errorCode.Passed? && errorCode.value.Some? && errorCode.value.value != [] ==> e.errorCode == errorCode.value.value
    ensures errorCode.Passed? && (errorCode.value.None? || errorCode.value.value == []) ==> e.errorCode == InternalError
  {
    Base(message, if errorCode.Passed? then errorCode.value else Some(FileErrorCode), Passed(400))
  }

  function AudioGeneration(message: string): (e: ApiError)
    ensures e.statusCode == 500 && e.errorCode == "AUDIO_GENERATION_ERROR" && e.message == message
  {
    Base(message, Some("AUDIO_GENERATION_ERROR"), Passed(500))
  }

  function AvatarGeneration(message: string): (e: ApiError)
    ensures e.statusCode == 500 && e.errorCode == "AVATAR_GENERATION_ERROR" && e.message == message
  {
    Base(message, Some("AVATAR_GENERATION_ERROR"), Passed(500))
  }

  /**
   * Client errors (validation, files) are answered with 400 and generation
   * failures with 500; no subclass ever carries INTERNAL_ERROR unless it
   * was handed an empty file code.
   */
  lemma StatusByKind(message: string, field: Option<string>, code: string)
    requires code != []
    ensures Validation(message, field).statusCode == 400 && FileError(message, Passed(Some(code))).statusCode == 400
    ensures FileError(message, Passed(Some(code))).errorCode == code && FileError(message, Omitted).errorCode == FileErrorCode
    ensures Validation(message, field).errorCode != InternalError
    ensures AudioGeneration(message).statusCode == 500 && AvatarGeneration(message).statusCode == 500
  {
    assert ValidationCode(field)[0] == 'V';
  }
}
