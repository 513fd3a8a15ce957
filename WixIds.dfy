/**
 * The pure string side of the WiX fragment generator: which files and
 * directories are included, and how a file's WiX Id is derived from its
 * relative path.
 */
module WixIds {
  import opened Options

  /** File names never included in the generated fragment. */
  const ForbiddenFiles: seq<string> := ["MediaInfo.dll", "start.bat"]
  /** Extensions (as returned by GetExtension) never included. */
  const ForbiddenExtensions: seq<string> := [".cs", ".csproj", ".user", ".dat"]
  /** Subdirectory names that are not descended into. */
  const ForbiddenDirectories: seq<string> := ["bin", "obj", "Debug", "Release", "VLCWrapper", "stream"]

  /** Longest file Id suffix kept after sanitising. */
  const MaxIdLength: nat := 60
  const FileIdPrefix: string := "FileGen_"

  // ---------------------------------------------------------------------
  // File-name extensions (the .NET Path.GetExtension rules)

  predicate IsSeparator(c: char) {
    c == '\\' || c == '/' || c == ':'
  }

  /**
   * The index of the last '.' of `s` that comes after every directory or
   * volume separator, if there is one.
   */
  function LastDot(s: string): (r: Option<nat>)
    ensures r.Some? ==> r.value < |s| && s[r.value] == '.'
    ensures r.Some? ==> forall j :: r.value < j < |s| ==> s[j] != '.' && !IsSeparator(s[j])
    ensures r.None? ==> forall j :: 0 <= j < |s| && s[j] == '.' ==> exists k :: j < k < |s| && IsSeparator(s[k])
  {
    if s == [] then None
    else if s[|s| - 1] == '.' then Some(|s| - 1)
    else if IsSeparator(s[|s| - 1]) then None
    else
      var r := LastDot(s[..|s| - 1]);
      assert forall j :: 0 <= j < |s| - 1 ==> s[..|s| - 1][j] == s[j];
      r
  }

  /**
   * The extension of a file name: from its last '.' to the end, or empty
   * when there is no '.' in the last path segment or the name ends in '.'.
   */
  function GetExtension(name: string): (ext: string)
    ensures ext != "" ==> 2 <= |ext| <= |name| && ext[0] == '.' && name[|name| - |ext|..] == ext
    ensures ext != "" ==> forall j :: 1 <= j < |ext| ==> ext[j] != '.' && !IsSeparator(ext[j])
  {
    match LastDot(name)
    case None => ""
    case Some(i) => if i == |name| - 1 then "" else name[i..]
  }

  /** A file is included unless its extension or its whole name is on a forbidden list. */
  predicate IsKeptFile(name: string) {
    GetExtension(name) !in ForbiddenExtensions && name !in ForbiddenFiles
  }

  /** The included files, in listing order. */
  function KeptFiles(files: seq<string>): (kept: seq<string>)
    ensures |kept| <= |files|
    ensures forall f :: f in kept <==> f in files && IsKeptFile(f)
  {
    if files == [] then []
    else (if IsKeptFile(files[0]) then [files[0]] else []) + KeptFiles(files[1..])
  }

  predicate IsForbiddenDirectory(name: string) {
    name in ForbiddenDirectories
  }

  // ---------------------------------------------------------------------
  // File Ids: "[^a-zA-Z0-9_]+" replaced by "_", then the last 60 characters

  predicate IsWordChar(c: char) {
    ('a' <= c <= 'z') || ('A' <= c <= 'Z') || ('0' <= c <= '9') || c == '_'
  }

  predicate AllWordChars(s: string) {
    forall i :: 0 <= i < |s| ==> IsWordChar(s[i])
  }

  /** `s` without its leading run of characters outside [a-zA-Z0-9_]. */
  function DropNonWordRun(s: string): (r: string)
    ensures |r| <= |s| && r == s[|s| - |r|..]
    ensures r == [] || IsWordChar(r[0])
    ensures forall i :: 0 <= i < |s| - |r| ==> !IsWordChar(s[i])
  {
    if s == [] || IsWordChar(s[0]) then s else DropNonWordRun(s[1..])
  }

  /** Every maximal run of characters outside [a-zA-Z0-9_] becomes a single '_'. */
  function Sanitize(s: string): (r: string)
    ensures AllWordChars(r)
    ensures |r| <= |s|
    decreases |s|
  {
    if s == [] then []
    else if IsWordChar(s[0]) then [s[0]] + Sanitize(s[1..])
    else "_" + Sanitize(DropNonWordRun(s))
  }

  /** The last MaxIdLength characters of `id`, or all of it when it is no longer. */
  function TruncateId(id: string): (r: string)
    ensures |r| == if |id| <= MaxIdLength then |id| else MaxIdLength
    ensures id == id[..|id| - |r|] + r
  {
    if |id| > MaxIdLength then id[|id| - MaxIdLength..] else id
  }

  /** The Id of the File element for `file` found in directory `path`. */
  function FileId(path: string, file: string): string {
    FileIdPrefix + TruncateId(Sanitize(path + "_" + file))
  }

  /** A file Id is the fixed prefix followed by at most MaxIdLength word characters. */
  lemma FileIdShape(path: string, file: string)
    ensures var id := FileId(path, file);
      FileIdPrefix <= id && AllWordChars(id) && |id| <= |FileIdPrefix| + MaxIdLength
  {
    var rest := TruncateId(Sanitize(path + "_" + file));
    assert AllWordChars(rest) && |rest| <= MaxIdLength;
    assert FileId(path, file) == FileIdPrefix + rest;
    FileIdPrefixIsWord();
    WordCharsAppend(FileIdPrefix, rest);
  }

  lemma FileIdPrefixIsWord()
    ensures AllWordChars(FileIdPrefix)
  {
    assert FileIdPrefix == ['F', 'i', 'l', 'e', 'G', 'e', 'n', '_'];
  }

  lemma WordCharsAppend(a: string, b: string)
    requires AllWordChars(a) && AllWordChars(b)
    ensures AllWordChars(a + b)
  {
  }

  /**
   * After the prefix, a file Id is the whole sanitised "path_file" when that
   * has at most MaxIdLength characters, and otherwise its last MaxIdLength.
   */
  lemma FileIdKeepsSuffix(path: string, file: string)
    ensures var full, rest := Sanitize(path + "_" + file), FileId(path, file)[|FileIdPrefix|..];
      |rest| == (if |full| <= MaxIdLength then |full| else MaxIdLength) &&
      full == full[..|full| - |rest|] + rest
  {
    var full := Sanitize(path + "_" + file);
    assert FileId(path, file)[|FileIdPrefix|..] == TruncateId(full);
  }
}
