/** The parts of `System.IO.Path` the application uses, with Windows
    separators. Simplified: roots, volume separators and the normalisation
    of repeated separators are not modelled. */
module NetPath {

  predicate IsSeparator(c: char) { c == '\\' || c == '/' }

  predicate HasNoSeparator(s: string)
  {
    forall i :: 0 <= i < |s| ==> !IsSeparator(s[i])
  }

  /** Index of the last separator, or -1 when there is none. */
  function LastSeparator(s: string): (r: int)
    ensures -1 <= r < |s|
    ensures r >= 0 ==> IsSeparator(s[r])
    ensures forall j :: r < j < |s| ==> !IsSeparator(s[j])
    decreases |s|
  {
    if |s| == 0 then -1
    else if IsSeparator(s[|s| - 1]) then |s| - 1
    else LastSeparator(s[..|s| - 1])
  }

  /** Index of the last occurrence of `c`, or -1 when there is none. */
  function LastIndexOf(s: string, c: char): (r: int)
    ensures -1 <= r < |s|
    ensures r >= 0 ==> s[r] == c
    ensures forall j :: r < j < |s| ==> s[j] != c
    decreases |s|
  {
    if |s| == 0 then -1
    else if s[|s| - 1] == c then |s| - 1
    else LastIndexOf(s[..|s| - 1], c)
  }

  /** `Path.GetFileName`: everything after the last separator. */
  function FileName(path: string): (r: string)
    ensures HasNoSeparator(r)
    ensures |r| <= |path| && path[|path| - |r|..] == r
  {
    path[LastSeparator(path) + 1..]
  }

  /** `Path.GetDirectoryName`: everything before the last separator, or ""
      for a bare file name. */
  function DirectoryName(path: string): (r: string)
    ensures |r| < |path| || (r == "" && path == "")
  {
    var k := LastSeparator(path);
    if k < 0 then "" else path[..k]
  }

  /** A path is its directory name, the separator that ends it, and its
      file name; a path without separator is a bare file name. */
  lemma DirectoryNameParts(path: string)
    ensures LastSeparator(path) >= 0 ==>
      path == DirectoryName(path) + [path[|DirectoryName(path)|]] + FileName(path)
    ensures LastSeparator(path) < 0 ==> DirectoryName(path) == "" && FileName(path) == path
  {
    var k := LastSeparator(path);
    if k >= 0 {
      assert path == path[..k] + [path[k]] + path[k + 1..];
    }
  }

  /** `Path.GetExtension`: from the last dot of the file name to the end;
      "" when the name has no dot or ends with one. */
  function Extension(path: string): (r: string)
    ensures r == "" || (r[0] == '.' && |r| >= 2)
    ensures r != "" ==> forall i :: 1 <= i < |r| ==> r[i] != '.' && !IsSeparator(r[i])
    ensures |r| <= |path| && (r != "" ==> path[|path| - |r|..] == r)
  {
    var name := FileName(path);
    var d := LastIndexOf(name, '.');
    if d < 0 || d == |name| - 1 then "" else name[d..]
  }

  /** `Path.GetFileNameWithoutExtension`: the file name up to its last dot. */
  function FileNameWithoutExtension(path: string): (r: string)
    ensures HasNoSeparator(r)
    ensures |r| <= |FileName(path)| && FileName(path)[..|r|] == r
  {
    var name := FileName(path);
    var d := LastIndexOf(name, '.');
    if d < 0 then name else name[..d]
  }

  /** `Path.Combine(dir, name)` for a `name` that is not rooted. */
  function Combine(dir: string, name: string): (r: string)
    ensures |r| >= |name| && r[|r| - |name|..] == name
  {
    if |dir| == 0 then name
    else if IsSeparator(dir[|dir| - 1]) then dir + name
    else dir + "\\" + name
  }

  /** Appending separator-free text to a path extends its file name. */
  lemma FileNameAppend(path: string, suffix: string)
    requires HasNoSeparator(suffix)
    ensures FileName(path + suffix) == FileName(path) + suffix
  {
    LastSeparatorAppend(path, suffix);
    assert (path + suffix)[LastSeparator(path) + 1..] == path[LastSeparator(path) + 1..] + suffix;
  }

  lemma {:induction false} LastSeparatorAppend(path: string, suffix: string)
    requires HasNoSeparator(suffix)
    ensures LastSeparator(path + suffix) == LastSeparator(path)
    decreases |suffix|
  {
    if |suffix| > 0 {
      var s := path + suffix;
      assert s[..|s| - 1] == path + suffix[..|suffix| - 1];
      LastSeparatorAppend(path, suffix[..|suffix| - 1]);
    } else {
      assert path + suffix == path;
    }
  }

  /** Combining a directory with a separator-free name yields a path whose
      file name is exactly that name. */
  lemma FileNameOfCombine(dir: string, name: string)
    requires HasNoSeparator(name)
    ensures FileName(Combine(dir, name)) == name
  {
    var r := Combine(dir, name);
    if |dir| == 0 {
      LastSeparatorAppend("", name);
      assert "" + name == name;
    } else if IsSeparator(dir[|dir| - 1]) {
      LastSeparatorAppend(dir, name);
    } else {
      LastSeparatorAppend(dir + "\\", name);
      assert LastSeparator(dir + "\\") == |dir|;
    }
  }

  /** The directory of a combined path is the directory it was combined with,
      when that directory is non-empty and does not end in a separator. */
  lemma DirectoryNameOfCombine(dir: string, name: string)
    requires HasNoSeparator(name)
    requires |dir| > 0 && !IsSeparator(dir[|dir| - 1])
    ensures DirectoryName(Combine(dir, name)) == dir
  {
    LastSeparatorAppend(dir + "\\", name);
    assert LastSeparator(dir + "\\") == |dir|;
    assert (dir + "\\" + name)[..|dir|] == dir;
  }

  /** A separator-free name ending in `.ext` (with `ext` dot- and
      separator-free and non-empty) has extension `.ext` and stem `stem`. */
  lemma StemAndExtension(dir: string, stem: string, ext: string)
    requires HasNoSeparator(stem) && HasNoSeparator(ext) && |ext| > 0
    requires forall i :: 0 <= i < |ext| ==> ext[i] != '.'
    ensures Extension(Combine(dir, stem + "." + ext)) == "." + ext
    ensures FileNameWithoutExtension(Combine(dir, stem + "." + ext)) == stem
  {
    var name := stem + "." + ext;
    assert HasNoSeparator(name);
    FileNameOfCombine(dir, name);
    DotIsLast(stem, ext);
    assert name[|stem|..] == "." + ext;
    assert name[..|stem|] == stem;
  }

  lemma DotIsLast(stem: string, ext: string)
    requires forall i :: 0 <= i < |ext| ==> ext[i] != '.'
    ensures LastIndexOf(stem + "." + ext, '.') == |stem|
  {
    LastIndexOfNoOccurrence(stem + ".", ext, '.');
  }

  lemma {:induction false} LastIndexOfNoOccurrence(s: string, t: string, c: char)
    requires |s| > 0 && s[|s| - 1] == c
    requires forall i :: 0 <= i < |t| ==> t[i] != c
    ensures LastIndexOf(s + t, c) == |s| - 1
    decreases |t|
  {
    if |t| == 0 {
      assert s + t == s;
    } else {
      var u := s + t;
      assert u[..|u| - 1] == s + t[..|t| - 1];
      LastIndexOfNoOccurrence(s, t[..|t| - 1], c);
    }
  }
}
