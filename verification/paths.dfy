/** The file-name part of a path, as save-as uses it to name a document's
    reference. */
module Paths {

  /** Directory separators and the volume separator of Windows paths. */
  predicate IsSeparator(c: char) {
    c == '/' || c == '\\' || c == ':'
  }

  /** The characters after the last separator of `path`: the whole path when
      it has no separator, the empty string when it ends in one. */
  function FileName(path: string): string {
    if |path| == 0 || IsSeparator(path[|path| - 1]) then ""
    else FileName(path[..|path| - 1]) + [path[|path| - 1]]
  }

  /** The file name is a suffix of the path, holds no separator, and is
      preceded by a separator unless it is the whole path. */
  lemma {:induction false} FileNameIsLastSegment(path: string)
    ensures var name := FileName(path);
      && |name| <= |path| && name == path[|path| - |name|..]
      && (forall i :: 0 <= i < |name| ==> !IsSeparator(name[i]))
      && (|name| < |path| ==> IsSeparator(path[|path| - |name| - 1]))
  {
    if |path| > 0 && !IsSeparator(path[|path| - 1]) {
      var init := path[..|path| - 1];
      FileNameIsLastSegment(init);
      var name := FileName(path);
      assert name == FileName(init) + [path[|path| - 1]];
      assert path == init + [path[|path| - 1]];
    }
  }

  /** A path without any separator is its own file name. */
  lemma {:induction false} FileNameOfPlainName(path: string)
    requires forall i :: 0 <= i < |path| ==> !IsSeparator(path[i])
    ensures FileName(path) == path
  {
    FileNameIsLastSegment(path);
  }

  /** The file name is unaffected by the directories in front of it. */
  lemma {:induction false} FileNameAfterDirectory(dir: string, sep: char, name: string)
    requires IsSeparator(sep)
    requires forall i :: 0 <= i < |name| ==> !IsSeparator(name[i])
    ensures FileName(dir + [sep] + name) == name
  {
    var path := dir + [sep] + name;
    FileNameIsLastSegment(path);
    var r := FileName(path);
    assert path[|path| - |name|..] == name;
    assert path[|path| - |name| - 1] == sep;
  }
}
