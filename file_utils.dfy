/**
 * Upload-side helpers: making a file name safe for a temporary-file suffix,
 * validating an upload against the allowed extensions, and describing it.
 * Paths follow POSIX `os.path` rules.
 */
module FileUtils {
  import opened Options
  import opened Text

  /** An uploaded file as the validators see it: its name and its byte size. */
  datatype FileMeta = FileMeta(name: string, size: nat)

  /** What `get_file_info` reports (its rounded megabyte figure is not modelled). */
  datatype FileInfo = FileInfo(name: string, size: nat, extension: string)

  const MAX_NAME_LENGTH: nat := 100
  const KEPT_STEM_LENGTH: nat := 90

  /** The characters the sanitiser's pattern `[<>:"/\\|?*]` matches. */
  predicate IsInvalidChar(c: char) {
    c in {'<', '>', ':', '"', '/', '\\', '|', '?', '*'}
  }

  function ReplaceInvalid(s: string): (r: string)
    ensures |r| == |s|
    ensures forall i :: 0 <= i < |s| ==> r[i] == if IsInvalidChar(s[i]) then '_' else s[i]
  {
    seq(|s|, i requires 0 <= i < |s| => if IsInvalidChar(s[i]) then '_' else s[i])
  }

  /** The index of the last `c` in `s`, as `str.rfind` gives it (None for -1). */
  function LastIndexOf(s: string, c: char): (r: Option<nat>)
    ensures r.Some? ==> r.value < |s| && s[r.value] == c
    ensures forall j :: 0 <= j < |s| && (r.None? || r.value < j) ==> s[j] != c
  {
    if s == [] then None
    else if s[|s| - 1] == c then Some(|s| - 1)
    else LastIndexOf(s[..|s| - 1], c)
  }

  /** Where POSIX `os.path.splitext` cuts `p`: at the last dot of the final path
      component, unless every character before that dot in the component is a dot. */
  function ExtensionStart(p: string): (r: Option<nat>)
    ensures r.Some? ==> r.value < |p| && p[r.value] == '.'
  {
    var sepIndex: int := match LastIndexOf(p, '/') case Some(k) => k case None => -1;
    match LastIndexOf(p, '.')
    case None => None
    case Some(dot) =>
      if dot > sepIndex && exists k | sepIndex + 1 <= k < dot :: p[k] != '.' then Some(dot) else None
  }

  /** POSIX `os.path.splitext(p)`: the stem and the extension, which concatenate to `p`. */
  function SplitExt(p: string): (r: (string, string))
    ensures r.0 + r.1 == p
  {
    match ExtensionStart(p)
    case None => (p, "")
    case Some(dot) => (p[..dot], p[dot..])
  }

  /** `sanitize_filename`. */
  function SanitizeFilename(filename: string): (r: string)
    ensures |filename| <= MAX_NAME_LENGTH ==> r == ReplaceInvalid(filename)
    ensures |filename| > MAX_NAME_LENGTH ==>
      var (stem, ext) := SplitExt(ReplaceInvalid(filename));
      r == (if |stem| <= KEPT_STEM_LENGTH then stem else stem[..KEPT_STEM_LENGTH]) + ext
  {
    var sanitized := ReplaceInvalid(filename);
    if |sanitized| > MAX_NAME_LENGTH then
      var (name, ext) := SplitExt(sanitized);
      (if |name| <= KEPT_STEM_LENGTH then name else name[..KEPT_STEM_LENGTH]) + ext
    else sanitized
  }

  /** Every invalid character becomes `_`, every other character is kept, and a name
      whose cleaned form fits in 100 characters keeps its length. */
  lemma SanitizeReplacesInvalid(filename: string)
    requires |filename| <= MAX_NAME_LENGTH
    ensures |SanitizeFilename(filename)| == |filename|
    ensures forall i :: 0 <= i < |filename| ==>
      (IsInvalidChar(filename[i]) ==> SanitizeFilename(filename)[i] == '_') &&
      (!IsInvalidChar(filename[i]) ==> SanitizeFilename(filename)[i] == filename[i])
  {
  }

  /** A clean name of at most 100 characters is returned unchanged. */
  lemma SanitizeKeepsCleanShortName(filename: string)
    requires |filename| <= MAX_NAME_LENGTH
    requires forall i :: 0 <= i < |filename| ==> !IsInvalidChar(filename[i])
    ensures SanitizeFilename(filename) == filename
  {
  }

  /** A long name keeps its extension and at most 90 characters of its stem;
      it is at most 100 characters long whenever the extension has at most 10. */
  lemma SanitizeShortensLongName(filename: string)
    requires |filename| > MAX_NAME_LENGTH
    ensures var ext := SplitExt(ReplaceInvalid(filename)).1;
      && |SanitizeFilename(filename)| <= KEPT_STEM_LENGTH + |ext|
      && |SanitizeFilename(filename)| >= |ext|
      && SanitizeFilename(filename)[|SanitizeFilename(filename)| - |ext|..] == ext
      && (|ext| <= MAX_NAME_LENGTH - KEPT_STEM_LENGTH ==> |SanitizeFilename(filename)| <= MAX_NAME_LENGTH)
  {
  }

  /** The extension `splitext` finds for a stem without dots or slashes followed by
      `.` and a suffix without dots or slashes is exactly that dotted suffix. */
  lemma SplitExtOfStemAndSuffix(stem: string, suffix: string)
    requires stem != []
    requires forall i :: 0 <= i < |stem| ==> stem[i] != '.' && stem[i] != '/'
    requires forall i :: 0 <= i < |suffix| ==> suffix[i] != '.' && suffix[i] != '/'
    ensures SplitExt(stem + "." + suffix) == (stem, "." + suffix)
  {
    var p := stem + "." + suffix;
    assert p[|stem|] == '.';
    forall j | |stem| < j < |p| ensures p[j] != '.' { assert p[j] == suffix[j - |stem| - 1]; }
    LastIndexOfUnique(p, '.', |stem|);
    forall j | 0 <= j < |p| ensures p[j] != '/' {
      if j < |stem| { assert p[j] == stem[j]; }
      else if j > |stem| { assert p[j] == suffix[j - |stem| - 1]; }
    }
    LastIndexOfAbsent(p, '/');
    assert p[0] == stem[0] != '.';
    assert ExtensionStart(p) == Some(|stem|);
    assert p[..|stem|] == stem && p[|stem|..] == "." + suffix;
  }

  /** The unit-test name `"a" * 200 + ".mp3"` is cut to 90 `a`s followed by `.mp3`. */
  lemma SanitizeLongTestName()
    ensures var r := SanitizeFilename(seq(200, _ => 'a') + ".mp3");
      r == seq(90, _ => 'a') + ".mp3" && |r| <= MAX_NAME_LENGTH
  {
    var stem := seq(200, _ => 'a');
    var name := stem + ".mp3";
    assert ReplaceInvalid(name) == name;
    assert name == stem + "." + "mp3";
    SplitExtOfStemAndSuffix(stem, "mp3");
    assert stem[..KEPT_STEM_LENGTH] == seq(90, _ => 'a');
  }

  /** The unit-test name with `<`, `>`, `|` and `?` in it. */
  lemma SanitizeInvalidTestName()
    ensures SanitizeFilename("file<>with|invalid?.mp3") == "file__with_invalid_.mp3"
  {
  }

  /** The upload's extension as the validators compute it: `name.split('.')[-1].lower()`. */
  function ExtensionOf(name: string): string {
    var parts := Split(name, ".");
    Lower(parts[|parts| - 1])
  }

  /** The extension is the lower-cased text after the last dot, or the whole lower-cased
      name when it has no dot. */
  lemma ExtensionIsAfterLastDot(name: string)
    ensures match LastIndexOf(name, '.')
      case None => ExtensionOf(name) == Lower(name)
      case Some(k) => ExtensionOf(name) == Lower(name[k + 1..])
  {
    LastPartAfterLastSep(name);
  }

  lemma {:induction false} LastPartAfterLastSep(s: string)
    ensures var parts := Split(s, ".");
      match LastIndexOf(s, '.')
      case None => parts[|parts| - 1] == s
      case Some(k) => parts[|parts| - 1] == s[k + 1..]
    decreases |s|
  {
    match IndexOfFrom(s, ".", 0)
    case None =>
      NoDotAnywhere(s);
    case Some(i) =>
      var rest := s[i + 1..];
      LastPartAfterLastSep(rest);
      SplitAtFirstDot(s, i);
      LastIndexOfSplit(s, i);
      match LastIndexOf(rest, '.')
      case None =>
        assert LastIndexOf(s, '.') == Some(i);
      case Some(k) =>
        assert LastIndexOf(s, '.') == Some(i + 1 + k);
        assert s[i + 1 + k + 1..] == rest[k + 1..];
  }

  /** Splitting at the first dot keeps the last part of what follows it. */
  lemma SplitAtFirstDot(s: string, i: nat)
    requires IndexOfFrom(s, ".", 0) == Some(i)
    ensures i < |s| && s[i] == '.'
    ensures var parts, restParts := Split(s, "."), Split(s[i + 1..], ".");
      parts[|parts| - 1] == restParts[|restParts| - 1]
  {
    assert s[i..i + 1] == ".";
    var parts, restParts := Split(s, "."), Split(s[i + 1..], ".");
    assert parts == [s[..i]] + restParts;
  }

  /** Without a `"."` to split at, there is no dot at all. */
  lemma NoDotAnywhere(s: string)
    requires IndexOfFrom(s, ".", 0).None?
    ensures LastIndexOf(s, '.').None?
  {
    forall j | 0 <= j < |s| ensures s[j] != '.' {
      assert !OccursAt(s, ".", j);
      assert s[j..j + 1] == [s[j]];
    }
  }

  /** The last `c` of `s` lies in `s[i+1..]` when there is one there, and is `s[i]` otherwise. */
  lemma LastIndexOfSplit(s: string, i: nat)
    requires i < |s| && s[i] == '.'
    ensures match LastIndexOf(s[i + 1..], '.')
      case None => LastIndexOf(s, '.') == Some(i)
      case Some(k) => LastIndexOf(s, '.') == Some(i + 1 + k)
  {
    var rest := s[i + 1..];
    var last := LastIndexOf(rest, '.');
    if last.None? {
      forall j | i < j < |s| ensures s[j] != '.' {
        assert rest[j - i - 1] == s[j];
      }
      LastIndexOfUnique(s, '.', i);
    } else {
      var k := last.value;
      forall j | i + 1 + k < j < |s| ensures s[j] != '.' {
        assert rest[j - i - 1] == s[j];
      }
      assert s[i + 1 + k] == rest[k];
      LastIndexOfUnique(s, '.', i + 1 + k);
    }
  }

  /** The last index of `c` is the one occurrence with no `c` after it. */
  lemma {:induction false} LastIndexOfUnique(s: string, c: char, k: nat)
    requires k < |s| && s[k] == c
    requires forall j :: k < j < |s| ==> s[j] != c
    ensures LastIndexOf(s, c) == Some(k)
    decreases |s|
  {
    if k < |s| - 1 {
      var t := s[..|s| - 1];
      LastIndexOfUnique(t, c, k);
    }
  }

  /** A string without `c` has no last `c`. */
  lemma {:induction false} LastIndexOfAbsent(s: string, c: char)
    requires forall j :: 0 <= j < |s| ==> s[j] != c
    ensures LastIndexOf(s, c) == None
    decreases |s|
  {
    if s != [] {
      LastIndexOfAbsent(s[..|s| - 1], c);
    }
  }

  /** The message shown for an extension outside the allowed list. */
  function UnsupportedMessage(supportedFormats: seq<string>): string {
    "Unsupported file format. Supported formats: " + Join(supportedFormats, ", ")
  }

  /** `validate_audio_file`: whether the upload is accepted, and the reason when it is not. */
  function ValidateAudioFile(file: Option<FileMeta>, supportedFormats: seq<string>): (r: (bool, Option<string>))
    ensures r.0 <==> file.Some? && ExtensionOf(file.value.name) in supportedFormats && file.value.size != 0
    ensures r.0 ==> r.1 == None
    ensures file.None? ==> r == (false, Some("No file uploaded"))
    ensures file.Some? && ExtensionOf(file.value.name) !in supportedFormats ==>
      r == (false, Some(UnsupportedMessage(supportedFormats)))
    ensures file.Some? && ExtensionOf(file.value.name) in supportedFormats && file.value.size == 0 ==>
      r == (false, Some("File is empty"))
  {
    match file
    case None => (false, Some("No file uploaded"))
    case Some(f) =>
      if ExtensionOf(f.name) !in supportedFormats then (false, Some(UnsupportedMessage(supportedFormats)))
      else if f.size == 0 then (false, Some("File is empty"))
      else (true, None)
  }

  /** `get_file_info`: nothing for no file; otherwise the name, the size and the extension. */
  function GetFileInfo(file: Option<FileMeta>): (r: Option<FileInfo>)
    ensures r.None? <==> file.None?
    ensures file.Some? ==> r.value.name == file.value.name && r.value.size == file.value.size
    ensures file.Some? ==> r.value.extension == ExtensionOf(file.value.name)
  {
    match file
    case None => None
    case Some(f) => Some(FileInfo(f.name, f.size, ExtensionOf(f.name)))
  }

  /** The extension `get_file_info` reports is the one validation checks, so a file that
      validates reports an allowed extension. */
  lemma InfoAgreesWithValidation(file: Option<FileMeta>, supportedFormats: seq<string>)
    requires ValidateAudioFile(file, supportedFormats).0
    ensures GetFileInfo(file).Some? && GetFileInfo(file).value.extension in supportedFormats
  {
  }
}
