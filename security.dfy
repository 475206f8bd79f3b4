/**
 * Request validation before any work is queued: uploaded images (size,
 * extension, content type), the text to speak, the voice and the speed.
 * A check that fails gives the kind of exception it raises and its error
 * code, but not its message text; one that passes gives None.
 */
module Security {
  import opened Wrappers
  import Text
  import Config
  import Exceptions

  /** What the upload handler knows about a file: any of the three may be absent. */
  datatype Upload = Upload(filename: Option<string>, contentType: Option<string>, size: Option<int>)

  /** The three ways an upload is refused, each raised as a file exception with its own code. */
  datatype FileRejection = FileTooLarge | InvalidFileType | InvalidContentType

  function RejectionCode(r: FileRejection): (code: string)
    ensures code != [] && Exceptions.FileError("", Exceptions.Passed(Some(code))).errorCode == code
  {
    match r
    case FileTooLarge => "FILE_TOO_LARGE"
    case InvalidFileType => "INVALID_FILE_TYPE"
    case InvalidContentType => "INVALID_CONTENT_TYPE"
  }

  /**
   * `os.path.splitext(path)[1]`: from the last dot of the last path
   * component to the end, provided some character before that dot in the
   * component is not a dot; otherwise empty.
   */
  function SplitExt(path: string): (ext: string)
    ensures ext == [] || (ext[0] == '.' && Text.EndsWith(path, ext))
    ensures forall k :: 0 <= k < |ext| ==> ext[k] != '/'
    ensures forall k :: 1 <= k < |ext| ==> ext[k] != '.'
  {
    var sep := Text.LastIndexOf(path, '/');
    var dot := Text.LastIndexOf(path, '.');
    if dot > sep && exists k :: sep < k < dot && path[k] != '.' then path[dot..] else []
  }

  /** A bare file name `stem.ext` whose stem is not all dots has extension `.ext`. */
  lemma SplitExtOfName(stem: string, ext: string, k: nat)
    requires k < |stem| && stem[k] != '.'
    requires '/' !in stem && '/' !in ext && '.' !in ext
    ensures SplitExt(stem + "." + ext) == "." + ext
  {
    var path := stem + "." + ext;
    var dot := Text.LastIndexOf(path, '.');
    assert path[|stem|] == '.';
    assert forall j :: |stem| < j < |path| ==> path[j] == ext[j - |stem| - 1];
    assert dot == |stem|;
    assert Text.LastIndexOf(path, '/') == -1 by {
      assert forall j :: 0 <= j < |path| ==> path[j] != '/' by {
        forall j | 0 <= j < |path| ensures path[j] != '/' {
          if j < |stem| {
            assert path[j] == stem[j];
          } else if j > |stem| {
            assert path[j] == ext[j - |stem| - 1];
          }
        }
      }
    }
    assert path[k] == stem[k];
    assert path[dot..] == "." + ext;
  }

  /** `max_size or settings.MAX_UPLOAD_SIZE`: an absent or zero limit falls back to the configured one. */
  function SizeLimit(maxSize: Option<int>, settings: Config.Settings): int
  {
    if maxSize.Some? && maxSize.value != 0 then maxSize.value else settings.maxUploadSize
  }

  /** The size check fails only for a known, non-zero size strictly above the limit. */
  predicate TooLarge(size: Option<int>, limit: int)
  {
    size.Some? && size.value != 0 && size.value > limit
  }

  /** A named file whose lower-cased extension is not accepted. */
  predicate BadExtension(filename: Option<string>, settings: Config.Settings)
  {
    filename.Some? && filename.value != [] && Text.Lower(SplitExt(filename.value)) !in settings.allowedImageExtensions
  }

  /** A stated content type that is not accepted. */
  predicate BadContentType(contentType: Option<string>, settings: Config.Settings)
  {
    contentType.Some? && contentType.value != [] && contentType.value !in settings.allowedImageTypes
  }

  /**
   * `validate_file_upload`: size, then extension, then content type; the
   * first check that fails decides the error.
   */
  function ValidateFileUpload(file: Upload, maxSize: Option<int>, settings: Config.Settings): (r: Option<FileRejection>)
    ensures r == Some(FileTooLarge) <==> TooLarge(file.size, SizeLimit(maxSize, settings))
    ensures r == Some(InvalidFileType) <==>
      !TooLarge(file.size, SizeLimit(maxSize, settings)) && BadExtension(file.filename, settings)
    ensures r == Some(InvalidContentType) <==>
      !TooLarge(file.size, SizeLimit(maxSize, settings)) && !BadExtension(file.filename, settings) &&
      BadContentType(file.contentType, settings)
    ensures r.None? <==>
      !TooLarge(file.size, SizeLimit(maxSize, settings)) && !BadExtension(file.filename, settings) &&
      !BadContentType(file.contentType, settings)
  {
    var limit := SizeLimit(maxSize, settings);
    if TooLarge(file.size, limit) then Some(FileTooLarge)
    else if BadExtension(file.filename, settings) then Some(InvalidFileType)
    else if BadContentType(file.contentType, settings) then Some(InvalidContentType)
    else None
  }

  /** Raising the limit never turns an accepted upload into a rejected one. */
  lemma LargerLimitStillAccepts(file: Upload, small: int, large: int, settings: Config.Settings)
    requires 0 < small <= large
    requires ValidateFileUpload(file, Some(small), settings).None?
    ensures ValidateFileUpload(file, Some(large), settings).None?
  {
    assert !TooLarge(file.size, SizeLimit(Some(small), settings));
  }

  /** With neither a name nor a content type, only the size is checked. */
  lemma AnonymousUploadOnlySizeChecked(size: Option<int>, maxSize: Option<int>, settings: Config.Settings)
    ensures ValidateFileUpload(Upload(None, None, size), maxSize, settings).None? <==>
      !TooLarge(size, SizeLimit(maxSize, settings))
  {
  }

  /**
   * `validate_text_input`: empty or all-whitespace text, text shorter than
   * `minLength`, and (only when a maximum is given) text longer than it
   * are refused, in that order.
   */
  function ValidateTextInput(text: string, minLength: int, maxLength: Option<int>): (r: Option<Exceptions.ApiError>)
    ensures r.None? <==> !Text.IsBlank(text) && |text| >= minLength && (maxLength.None? || |text| <= maxLength.value)
    ensures r.Some? ==> r.value.statusCode == 400 && r.value.errorCode == "VALIDATION_ERROR_TEXT"
    ensures Text.IsBlank(text) ==> r == Some(Exceptions.Validation("Text cannot be empty", Some("text")))
  {
    if Text.IsBlank(text) then Some(Exceptions.Validation("Text cannot be empty", Some("text")))
    else if |text| < minLength then
      Some(Exceptions.Validation("Text must be at least " + Text.IntToString(minLength) + " characters long", Some("text")))
    else if maxLength.Some? && |text| > maxLength.value then
      Some(Exceptions.Validation("Text must not exceed " + Text.IntToString(maxLength.value) + " characters", Some("text")))
    else None
  }

  /** Without a maximum, any non-blank text at least the minimum long passes, however long. */
  lemma NoUpperBoundWithoutMax(text: string, extra: string)
    requires !Text.IsBlank(text) && |text| >= 1
    ensures ValidateTextInput(text + extra, 1, None).None?
  {
    assert !Text.IsBlank(text + extra) by {
      var k :| 0 <= k < |text| && !Text.IsSpace(text[k]);
      assert (text + extra)[k] == text[k];
    }
  }

  /** `validate_voice`: the voice must be one of the available ones. */
  function ValidateVoice(voice: string, available: seq<string>): (r: Option<Exceptions.ApiError>)
    ensures r.None? <==> voice in available
    ensures r.Some? ==> r.value.statusCode == 400 && r.value.errorCode == "VALIDATION_ERROR_VOICE"
  {
    if voice !in available then
      var shown := if |available| <= 10 then available else available[..10];
      Some(Exceptions.Validation("Invalid voice. Available voices: " + Text.Join(shown, ", ") + "...", Some("voice")))
    else None
  }

  const MinSpeed: real := 0.5
  const MaxSpeed: real := 2.0

  /**
   * `validate_speed` with its default bounds: a number between 0.5 and 2.0
   * inclusive. NaN is a float for which both `speed < 0.5` and `speed > 2.0`
   * are False, so it is accepted.
   */
  function ValidateSpeed(speed: Number): (r: Option<Exceptions.ApiError>)
    ensures r.None? <==>
      || (speed.Int? && MinSpeed <= speed.i as real <= MaxSpeed)
      || (speed.Float? && MinSpeed <= speed.x <= MaxSpeed)
      || speed.NaN?
    ensures speed.NotNumber? ==> r == Some(Exceptions.Validation("Speed must be a number", Some("speed")))
    ensures r.Some? ==> r.value.statusCode == 400 && r.value.errorCode == "VALIDATION_ERROR_SPEED"
  {
    match speed
    case NotNumber => Some(Exceptions.Validation("Speed must be a number", Some("speed")))
    case NaN => None
    case Int(i) => SpeedInRange(i as real)
    case Float(x) => SpeedInRange(x)
  }

  function SpeedInRange(v: real): (r: Option<Exceptions.ApiError>)
    ensures r.None? <==> MinSpeed <= v <= MaxSpeed
    ensures r.Some? ==> r.value.errorCode == "VALIDATION_ERROR_SPEED"
  {
    if v < MinSpeed || v > MaxSpeed then
      Some(Exceptions.Validation("Speed must be between 0.5 and 2.0", Some("speed")))
    else None
  }
}
