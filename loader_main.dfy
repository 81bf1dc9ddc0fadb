/** The loader's entry point checks on the file name: the short name of the
    path and the file type given by its first two letters. */
module LoaderMain {
  import opened Wrappers
  import opened TapConstants
  import opened Ascii

  const PATH_SEPARATOR: char := '\\'

  /** The name after the last path separator, or the whole path without one. */
  function ShortName(path: string): (r: string)
    ensures |r| <= |path| && r == path[|path| - |r|..]
    ensures PATH_SEPARATOR !in r
    ensures |r| < |path| ==> path[|path| - |r| - 1] == PATH_SEPARATOR
  {
    if path == [] then []
    else if path[|path| - 1] == PATH_SEPARATOR then []
    else ShortName(path[..|path| - 1]) + [path[|path| - 1]]
  }

  datatype FileType = TapFileType | RapFileType | RapAcknowledgementFileType

  /** Case-insensitive comparison of the first two characters with a two-letter
      prefix; a name shorter than two characters never matches. */
  predicate StartsWithNoCase(name: string, prefix: string)
    requires |prefix| == 2
  {
    |name| >= 2 && Upper(name[0]) == prefix[0] && Upper(name[1]) == prefix[1]
  }

  /** CD and TD name TAP files, RC and RT RAP files, AC and AT acknowledgements;
      any other name is a file error. */
  function ClassifyFile(shortName: string): (r: Result<FileType, LoadCode>)
    ensures r.Failure? ==> r.error == TL_FILEERROR
  {
    if StartsWithNoCase(shortName, "CD") || StartsWithNoCase(shortName, "TD") then Success(TapFileType)
    else if StartsWithNoCase(shortName, "RC") || StartsWithNoCase(shortName, "RT") then Success(RapFileType)
    else if StartsWithNoCase(shortName, "AC") || StartsWithNoCase(shortName, "AT") then Success(RapAcknowledgementFileType)
    else Failure(TL_FILEERROR)
  }

  /** The name prefixes of each file type, as a table. */
  const PREFIX_TABLE: seq<(string, FileType)> :=
    [("CD", TapFileType), ("TD", TapFileType), ("RC", RapFileType), ("RT", RapFileType),
     ("AC", RapAcknowledgementFileType), ("AT", RapAcknowledgementFileType)]

  function UpperPrefix(name: string): string
    requires |name| >= 2
  {
    [Upper(name[0]), Upper(name[1])]
  }

  /** A file is classified exactly when its upper-cased two-letter prefix is in
      the table, and then as the table says. */
  lemma ClassifyFileMatchesTable(shortName: string)
    ensures ClassifyFile(shortName).Success? <==>
      |shortName| >= 2 && exists k | 0 <= k < |PREFIX_TABLE| :: PREFIX_TABLE[k].0 == UpperPrefix(shortName)
    ensures forall k | 0 <= k < |PREFIX_TABLE| ::
      |shortName| >= 2 && PREFIX_TABLE[k].0 == UpperPrefix(shortName) ==>
        ClassifyFile(shortName) == Success(PREFIX_TABLE[k].1)
  {
    if |shortName| >= 2 {
      var p := UpperPrefix(shortName);
      if ClassifyFile(shortName).Success? {
        if StartsWithNoCase(shortName, "CD") { assert PREFIX_TABLE[0].0 == p; }
        else if StartsWithNoCase(shortName, "TD") { assert PREFIX_TABLE[1].0 == p; }
        else if StartsWithNoCase(shortName, "RC") { assert PREFIX_TABLE[2].0 == p; }
        else if StartsWithNoCase(shortName, "RT") { assert PREFIX_TABLE[3].0 == p; }
        else if StartsWithNoCase(shortName, "AC") { assert PREFIX_TABLE[4].0 == p; }
        else { assert PREFIX_TABLE[5].0 == p; }
      }
    }
  }

  /** The classification ignores the case of the letters. */
  lemma ClassifyFileIgnoresCase(a: string, b: string)
    requires |a| >= 2 && |b| >= 2 && UpperPrefix(a) == UpperPrefix(b)
    ensures ClassifyFile(a) == ClassifyFile(b)
  {
    assert Upper(a[0]) == UpperPrefix(a)[0] == UpperPrefix(b)[0] == Upper(b[0]);
    assert Upper(a[1]) == UpperPrefix(a)[1] == UpperPrefix(b)[1] == Upper(b[1]);
  }
}
