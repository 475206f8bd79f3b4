/**
 * File helpers shared by the endpoints: the image-upload check with its
 * own fixed extension and MIME sets, the voice check that answers with a
 * flag and a message, and removal of files, one or many.
 *
 * The file system is a set of existing paths plus the set of paths whose
 * removal raises an OS error (a directory, a file in use).
 */
module Utils {
  import opened Wrappers
  import Text
  import Sets

  /** The last path component: everything after the last '/'. */
  function BaseName(path: string): (name: string)
    ensures '/' !in name
    ensures Text.EndsWith(path, name)
  {
    path[Text.LastIndexOf(path, '/') + 1..]
  }

  /**
   * `Path(path).suffix`: from the last dot of the last component to the
   * end, when that dot is neither the component's first nor its last
   * character; otherwise empty.
   */
  function Suffix(path: string): (ext: string)
    ensures ext == [] || (|ext| >= 2 && ext[0] == '.' && Text.EndsWith(path, ext))
    ensures forall k :: 0 <= k < |ext| ==> ext[k] != '/'
    ensures forall k :: 1 <= k < |ext| ==> ext[k] != '.'
  {
    var name := BaseName(path);
    var i := Text.LastIndexOf(name, '.');
    if 0 < i < |name| - 1 then
      assert Text.EndsWith(name, name[i..]);
      name[i..]
    else []
  }

  /** The fixed extension set: .jpg, .jpeg, .png, .bmp, .gif, .webp. */
  predicate AllowedExtension(ext: string)
  {
    ext == ".jpg" || ext == ".jpeg" || ext == ".png" || ext == ".bmp" || ext == ".gif" || ext == ".webp"
  }

  /** The fixed MIME set, which also admits the non-standard "image/jpg". */
  predicate AllowedMimeType(mime: string)
  {
    mime == "image/jpeg" || mime == "image/jpg" || mime == "image/png" ||
    mime == "image/bmp" || mime == "image/gif" || mime == "image/webp"
  }

  /** The lower-cased suffix of an upload's name; an absent name reads as empty. */
  function ImageExtension(filename: Option<string>): string
  {
    Text.Lower(Suffix(if filename.Some? then filename.value else ""))
  }

  /** Which of the two checks refused an image. */
  datatype ImageRejection = InvalidFileType | InvalidMimeType

  /**
   * `validate_image_file`: the lower-cased suffix of the file name (an
   * absent name reads as empty) must be an allowed extension; a stated,
   * non-empty content type must be an allowed MIME type. The size is not
   * checked here.
   */
  function ValidateImageFile(filename: Option<string>, contentType: Option<string>): (r: Option<ImageRejection>)
    ensures r == Some(InvalidFileType) <==> !AllowedExtension(ImageExtension(filename))
    ensures r == Some(InvalidMimeType) <==>
      AllowedExtension(ImageExtension(filename)) &&
      contentType.Some? && contentType.value != [] && !AllowedMimeType(contentType.value)
  {
    if !AllowedExtension(ImageExtension(filename)) then Some(InvalidFileType)
    else if contentType.Some? && contentType.value != [] && !AllowedMimeType(contentType.value) then Some(InvalidMimeType)
    else None
  }

  /** The empty path has no suffix. */
  lemma EmptyPathNoSuffix()
    ensures Suffix("") == []
  {
    assert Text.LastIndexOf("", '/') == -1;
    assert Text.LastIndexOf("", '.') == -1;
  }

  /** A file without a name, or whose name has no suffix, is always refused for its type. */
  lemma SuffixlessImageRefused(filename: Option<string>, contentType: Option<string>)
    requires filename.None? || Suffix(filename.value) == []
    ensures ValidateImageFile(filename, contentType) == Some(InvalidFileType)
  {
    if filename.None? {
      EmptyPathNoSuffix();
    }
    assert |ImageExtension(filename)| == 0;
  }

  /** Lower-casing moves no character that is not a letter, '/' and '.' in particular. */
  lemma LastIndexOfLower(s: string, c: char)
    requires !('A' <= c <= 'Z') && !('a' <= c <= 'z')
    ensures Text.LastIndexOf(Text.Lower(s), c) == Text.LastIndexOf(s, c)
  {
    assert forall k :: 0 <= k < |s| ==> (Text.Lower(s)[k] == c <==> s[k] == c);
  }

  /** Lower-casing then cutting a tail is cutting then lower-casing. */
  lemma LowerDrop(s: string, i: int)
    requires 0 <= i <= |s|
    ensures Text.Lower(s)[i..] == Text.Lower(s[i..])
  {
    assert forall k :: 0 <= k < |s| - i ==> Text.Lower(s)[i..][k] == Text.Lower(s[i..])[k];
  }

  /** Lower-casing twice is lower-casing once. */
  lemma LowerTwice(s: string)
    ensures Text.Lower(Text.Lower(s)) == Text.Lower(s)
  {
    assert forall k :: 0 <= k < |s| ==> Text.Lower(Text.Lower(s))[k] == Text.Lower(s)[k];
  }

  /** The last component of a lower-cased path is the lower-cased last component. */
  lemma BaseNameLower(path: string)
    ensures BaseName(Text.Lower(path)) == Text.Lower(BaseName(path))
  {
    LastIndexOfLower(path, '/');
    LowerDrop(path, Text.LastIndexOf(path, '/') + 1);
  }

  /** The suffix of a lower-cased path is the lower-cased suffix. */
  lemma SuffixLower(path: string)
    ensures Suffix(Text.Lower(path)) == Text.Lower(Suffix(path))
  {
    var name := BaseName(path);
    BaseNameLower(path);
    LastIndexOfLower(name, '.');
    var i := Text.LastIndexOf(name, '.');
    if 0 < i < |name| - 1 {
      LowerDrop(name, i);
    }
  }

  /** The suffix check ignores letter case: "photo.JPG" and "photo.jpg" are judged alike. */
  lemma SuffixIgnoresCase(path: string)
    ensures Text.Lower(Suffix(Text.Lower(path))) == Text.Lower(Suffix(path))
  {
    SuffixLower(path);
    LowerTwice(Suffix(path));
  }

  /**
   * The voice check that answers with a flag and a message: an empty voice
   * is refused first, then one not in the list, whose message names the
   * first ten voices.
   */
  function CheckVoice(voice: string, available: seq<string>): (r: (bool, Option<string>))
    ensures r.0 <==> voice != [] && voice in available
    ensures r.0 <==> r.1.None?
    ensures voice == [] ==> r.1 == Some("Voice cannot be empty")
    ensures voice != [] && voice !in available ==> Text.StartsWith(r.1.value, "Voice '" + voice + "' is not available")
  {
    if voice == [] then (false, Some("Voice cannot be empty"))
    else if voice !in available then
      var shown := if |available| <= 10 then available else available[..10];
      (false, Some("Voice '" + voice + "' is not available. Available voices: " + Text.Join(shown, ", ") + "..."))
    else (true, None)
  }

  /** The paths of `paths` that exist and can be removed: what removing them all deletes. */
  function Removable(existing: set<string>, stuck: set<string>, paths: seq<string>): set<string>
  {
    set p | p in paths && p in existing && p !in stuck
  }

  /** One more listed path adds at most that path. */
  lemma RemovableSnoc(existing: set<string>, stuck: set<string>, paths: seq<string>, p: string)
    ensures Removable(existing, stuck, paths + [p]) ==
      Removable(existing, stuck, paths) + (if p in existing && p !in stuck then {p} else {})
  {
    assert forall q :: q in paths + [p] <==> q in paths || q == p;
  }

  /** At most one removal per listed path, so the count never exceeds the list's length. */
  lemma {:induction false} RemovableAtMostPaths(existing: set<string>, stuck: set<string>, paths: seq<string>)
    ensures |Removable(existing, stuck, paths)| <= |paths|
  {
    if paths != [] {
      var init := paths[..|paths| - 1];
      RemovableAtMostPaths(existing, stuck, init);
      assert Removable(existing, stuck, paths) <= Removable(existing, stuck, init) + {paths[|paths| - 1]} by {
        forall p | p in Removable(existing, stuck, paths)
          ensures p in Removable(existing, stuck, init) + {paths[|paths| - 1]}
        {
          var k :| 0 <= k < |paths| && paths[k] == p;
          if k < |paths| - 1 {
            assert init[k] == p;
          }
        }
      }
      Sets.SubsetCard(Removable(existing, stuck, paths), Removable(existing, stuck, init) + {paths[|paths| - 1]});
    }
  }

  class Disk {
    var existing: set<string>
    const stuck: set<string>

    constructor(existing: set<string>, stuck: set<string>)
      ensures this.existing == existing && this.stuck == stuck
    {
      this.existing := existing;
      this.stuck := stuck;
    }

    /** `cleanup_file`: removes an existing path and answers true; a missing or stuck path is left, answering false. */
    method CleanupFile(path: string) returns (removed: bool)
      modifies this
      ensures removed <==> path in old(existing) && path !in stuck
      ensures existing == old(existing) - (if removed then {path} else {})
    {
      if path in existing && path !in stuck {
        existing := existing - {path};
        removed := true;
      } else {
        removed := false;
      }
    }

    /**
     * `cleanup_files`: removes each path in turn and counts the removals.
     * A path listed twice is removed (and counted) once.
     */
    method CleanupFiles(paths: seq<string>) returns (count: nat)
      modifies this
      ensures existing == old(existing) - Removable(old(existing), stuck, paths)
      ensures count == |Removable(old(existing), stuck, paths)|
      ensures count <= |paths|
    {
      count := 0;
      var i := 0;
      while i < |paths|
        invariant 0 <= i <= |paths|
        invariant existing == old(existing) - Removable(old(existing), stuck, paths[..i])
        invariant count == |Removable(old(existing), stuck, paths[..i])|
      {
        var p := paths[i];
        assert paths[..i + 1] == paths[..i] + [p];
        ghost var before := Removable(old(existing), stuck, paths[..i]);
        RemovableSnoc(old(existing), stuck, paths[..i], p);
        var removed := CleanupFile(p);
        if removed {
          assert p !in before;
          assert Removable(old(existing), stuck, paths[..i + 1]) == before + {p};
          count := count + 1;
        } else {
          assert Removable(old(existing), stuck, paths[..i + 1]) == before;
        }
        i := i + 1;
      }
      assert paths[..i] == paths;
      RemovableAtMostPaths(old(existing), stuck, paths);
    }
  }
}
