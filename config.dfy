/**
 * Application settings derived once from environment strings: boolean
 * flags, the CORS origin list and the accepted image extensions and MIME
 * types. The environment is a map from variable name to value.
 */
module Config {
  import Text

  /** `os.getenv(name, default)`: a set variable wins, even when empty. */
  function GetEnv(env: map<string, string>, name: string, default: string): (v: string)
    ensures name in env ==> v == env[name]
    ensures name !in env ==> v == default
  {
    if name in env then env[name] else default
  }

  /** A boolean setting: true exactly when the value, lower-cased, is "true". */
  predicate Flag(raw: string)
  {
    Text.Lower(raw) == "true"
  }

  /** The flag ignores letter case: "True", "TRUE" and "true" all read as set. */
  lemma FlagIgnoresCase(a: string, b: string)
    requires Text.Lower(a) == Text.Lower(b)
    ensures Flag(a) <==> Flag(b)
  {
  }

  /** Anything but the four letters of "true", in any case, reads as false: "1" and "yes" do too. */
  lemma FlagNeedsTrue(raw: string)
    requires Flag(raw)
    ensures |raw| == 4
    ensures raw[0] in {'t', 'T'} && raw[1] in {'r', 'R'} && raw[2] in {'u', 'U'} && raw[3] in {'e', 'E'}
  {
    assert Text.Lower(raw)[0] == 't' && Text.Lower(raw)[1] == 'r';
    assert Text.Lower(raw)[2] == 'u' && Text.Lower(raw)[3] == 'e';
  }

  /** The CORS origins: each comma-separated piece, stripped, in order. */
  function CorsOrigins(raw: string): (r: seq<string>)
    ensures |r| == |Text.SplitOn(raw, ",")| == Text.CountChar(raw, ',') + 1
    ensures forall i :: 0 <= i < |r| ==> r[i] == Text.Strip(Text.SplitOn(raw, ",")[i])
    ensures forall i :: 0 <= i < |r| ==> ',' !in r[i]
  {
    var parts := Text.SplitOn(raw, ",");
    Text.SplitOnCharCount(raw, ',');
    Text.SplitOnCharPieces(raw, ',');
    var r := seq(|parts|, i requires 0 <= i < |parts| => Text.Strip(parts[i]));
    assert forall i :: 0 <= i < |r| ==> ',' !in r[i] by {
      forall i | 0 <= i < |r| ensures ',' !in r[i] {
        assert parts[i] in parts;
        assert forall k :: 0 <= k < |r[i]| ==> r[i][k] in parts[i];
      }
    }
    r
  }

  /**
   * One entry of the image-type list, `ext.strip().lower()`: empty exactly
   * for a blank entry, and lower-casing leaves no whitespace at either end.
   */
  function Normalized(entry: string): (r: string)
    ensures r == Text.Lower(Text.Strip(entry))
    ensures |r| <= |entry| && Text.Trimmed(r)
    ensures r == [] <==> Text.IsBlank(entry)
  {
    var t := Text.Strip(entry);
    Text.LowerKeepsTrimmed(t);
    Text.Lower(t)
  }

  /** An extension with its leading dot. */
  function Dotted(ext: string): (r: string)
    ensures |r| == |ext| + 1 && r[0] == '.' && r[1..] == ext
  {
    "." + ext
  }

  /** The accepted extensions: each normalized entry with a leading dot. */
  function AllowedExtensions(raw: string): (r: set<string>)
    ensures forall e :: e in r ==> |e| >= 1 && e[0] == '.'
    ensures forall i :: 0 <= i < |Text.SplitOn(raw, ",")| ==> Dotted(Normalized(Text.SplitOn(raw, ",")[i])) in r
    ensures forall e :: e in r ==> exists i :: 0 <= i < |Text.SplitOn(raw, ",")| && e == Dotted(Normalized(Text.SplitOn(raw, ",")[i]))
  {
    var parts := Text.SplitOn(raw, ",");
    var r := set i | 0 <= i < |parts| :: Dotted(Normalized(parts[i]));
    DottedMembers(parts, r);
    r
  }

  /** The set of dotted normalized entries holds exactly those, each starting with a dot. */
  lemma DottedMembers(parts: seq<string>, r: set<string>)
    requires r == set i | 0 <= i < |parts| :: Dotted(Normalized(parts[i]))
    ensures forall e :: e in r ==> |e| >= 1 && e[0] == '.'
    ensures forall i :: 0 <= i < |parts| ==> Dotted(Normalized(parts[i])) in r
    ensures forall e :: e in r ==> exists i :: 0 <= i < |parts| && e == Dotted(Normalized(parts[i]))
  {
    forall e | e in r
      ensures |e| >= 1 && e[0] == '.'
    {
      var i :| 0 <= i < |parts| && e == Dotted(Normalized(parts[i]));
    }
  }

  /** The MIME type of one entry: "image/<ext>", except that "jpg" is "image/jpeg". */
  function MimeType(entry: string): (r: string)
    ensures Text.StartsWith(r, "image/")
    ensures Normalized(entry) == "jpg" ==> r == "image/jpeg"
    ensures Normalized(entry) != "jpg" ==> r[|"image/"|..] == Normalized(entry)
  {
    var ext := Normalized(entry);
    MimeOf(ext);
    if ext != "jpg" then "image/" + ext else "image/jpeg"
  }

  /** "image/" followed by the extension, with "jpeg" standing for "jpg". */
  lemma MimeOf(ext: string)
    ensures Text.StartsWith(if ext != "jpg" then "image/" + ext else "image/jpeg", "image/")
    ensures ext != "jpg" ==> ("image/" + ext)[|"image/"|..] == ext
  {
    if ext != "jpg" {
      Text.Prefixed("image/", ext);
    } else {
      Text.Prefixed("image/", "jpeg");
      assert "image/" + "jpeg" == "image/jpeg";
    }
  }

  /** The accepted MIME types, one per entry, in order. */
  function AllowedImageTypes(raw: string): (r: seq<string>)
    ensures |r| == |Text.SplitOn(raw, ",")| == Text.CountChar(raw, ',') + 1
    ensures forall i :: 0 <= i < |r| ==> r[i] == MimeType(Text.SplitOn(raw, ",")[i])
  {
    var parts := Text.SplitOn(raw, ",");
    Text.SplitOnCharCount(raw, ',');
    seq(|parts|, i requires 0 <= i < |parts| => MimeType(parts[i]))
  }

  datatype Settings = Settings(
    debug: bool,
    corsOrigins: seq<string>,
    corsAllowCredentials: bool,
    maxUploadSize: int,
    allowedImageExtensions: set<string>,
    allowedImageTypes: seq<string>,
    enableMetrics: bool,
    rateLimitEnabled: bool,
    reload: bool)

  const DefaultCorsOrigins: string := "http://localhost:5173,http://localhost:3000"
  const DefaultImageTypes: string := "jpg,jpeg,png,webp"

  /**
   * `Config.__init__` for the derived settings. `maxUploadSize` is the
   * already-parsed MAX_UPLOAD_SIZE; the flags default to "True" except
   * RELOAD, which defaults to "False".
   */
  function Load(env: map<string, string>, maxUploadSize: int): (s: Settings)
    ensures s.debug == Flag(GetEnv(env, "DEBUG", "True"))
    ensures s.corsAllowCredentials == Flag(GetEnv(env, "CORS_ALLOW_CREDENTIALS", "True"))
    ensures s.enableMetrics == Flag(GetEnv(env, "ENABLE_METRICS", "True"))
    ensures s.rateLimitEnabled == Flag(GetEnv(env, "RATE_LIMIT_ENABLED", "True"))
    ensures s.reload == Flag(GetEnv(env, "RELOAD", "False"))
    ensures s.maxUploadSize == maxUploadSize
    ensures s.corsOrigins == CorsOrigins(GetEnv(env, "CORS_ORIGINS", DefaultCorsOrigins))
    ensures s.allowedImageExtensions == AllowedExtensions(GetEnv(env, "ALLOWED_IMAGE_TYPES", DefaultImageTypes))
    ensures s.allowedImageTypes == AllowedImageTypes(GetEnv(env, "ALLOWED_IMAGE_TYPES", DefaultImageTypes))
    ensures |s.corsOrigins| == Text.CountChar(GetEnv(env, "CORS_ORIGINS", DefaultCorsOrigins), ',') + 1
    ensures |s.allowedImageTypes| == Text.CountChar(GetEnv(env, "ALLOWED_IMAGE_TYPES", DefaultImageTypes), ',') + 1
    ensures forall e :: e in s.allowedImageExtensions ==> |e| >= 1 && e[0] == '.'
    ensures forall t :: t in s.allowedImageTypes ==> Text.StartsWith(t, "image/")
  {
    var cors := CorsOrigins(GetEnv(env, "CORS_ORIGINS", DefaultCorsOrigins));
    var imageTypes := GetEnv(env, "ALLOWED_IMAGE_TYPES", DefaultImageTypes);
    var extensions := AllowedExtensions(imageTypes);
    var mimeTypes := AllowedImageTypes(imageTypes);
    Settings(
      Flag(GetEnv(env, "DEBUG", "True")),
      cors,
      Flag(GetEnv(env, "CORS_ALLOW_CREDENTIALS", "True")),
      maxUploadSize,
      extensions,
      mimeTypes,
      Flag(GetEnv(env, "ENABLE_METRICS", "True")),
      Flag(GetEnv(env, "RATE_LIMIT_ENABLED", "True")),
      Flag(GetEnv(env, "RELOAD", "False")))
  }

  /** With a flag's variable unset, its default applies: every flag is on except RELOAD. */
  lemma DefaultFlags(env: map<string, string>, maxUploadSize: int)
    requires "DEBUG" !in env && "CORS_ALLOW_CREDENTIALS" !in env && "ENABLE_METRICS" !in env
    requires "RATE_LIMIT_ENABLED" !in env && "RELOAD" !in env
    ensures var s := Load(env, maxUploadSize);
      s.debug && s.corsAllowCredentials && s.enableMetrics && s.rateLimitEnabled && !s.reload
  {
    assert Text.Lower("True") == "true";
    assert Text.Lower("False")[0] == 'f';
  }
}
