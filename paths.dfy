/** The three System.IO.Path operations the parsers use, with the Windows separators:
    the directory separators '\\' and '/' and the volume separator ':'. */
module Paths {
  import opened Text

  /** The number of characters after the last separator of `path`, or |path| if it has none. */
  function NameLength(path: string): (n: nat)
    ensures n <= |path| && NoneIn(PathSeparator, path[|path| - n..])
    ensures n < |path| ==> In(PathSeparator, path[|path| - n - 1])
  {
    var n := SpanEnd(But(Any, PathSeparator), path);
    LastRun(PathSeparator, path, n);
    n
  }

  /** Path.GetFileName: the text after the last separator. */
  function GetFileName(path: string): (name: string)
    ensures IsSuffix(name, path) && NoneIn(PathSeparator, name)
  {
    path[|path| - NameLength(path)..]
  }

  /** The number of characters after the last dot of `name`, or |name| if it has none. */
  function AfterLastDot(name: string): (k: nat)
    ensures k <= |name| && NoneIn(Is('.'), name[|name| - k..])
    ensures k < |name| ==> name[|name| - k - 1] == '.'
  {
    var k := SpanEnd(But(Any, Is('.')), name);
    LastRun(Is('.'), name, k);
    k
  }

  /** Path.GetExtension: the text of the file name from its last dot, provided the dot is
      not the last character; otherwise empty. */
  function GetExtension(path: string): (ext: string)
    ensures ext == [] || (|ext| >= 2 && ext[0] == '.' && NoneIn(Is('.'), ext[1..]))
    ensures IsSuffix(ext, GetFileName(path))
  {
    var name := GetFileName(path);
    var k := AfterLastDot(name);
    if 0 < k < |name| then
      assert name[|name| - k - 1..][1..] == name[|name| - k..];
      name[|name| - k - 1..]
    else []
  }

  /** Path.GetFileNameWithoutExtension: the file name cut at its last dot, if it has one. */
  function GetFileNameWithoutExtension(path: string): (stem: string)
    ensures |stem| <= |GetFileName(path)| && stem == GetFileName(path)[..|stem|]
  {
    var name := GetFileName(path);
    var k := AfterLastDot(name);
    if k == |name| then name else name[..|name| - k - 1]
  }

  /** A file name is its stem followed by its extension, except that a dot at the very end
      belongs to neither. */
  lemma StemAndExtension(path: string)
    ensures var name := GetFileName(path);
      if name != [] && name[|name| - 1] == '.' then
        GetFileNameWithoutExtension(path) + "." == name && GetExtension(path) == []
      else
        GetFileNameWithoutExtension(path) + GetExtension(path) == name
  {
    var name := GetFileName(path);
    var k := AfterLastDot(name);
    if k < |name| {
      assert name == name[..|name| - k - 1] + name[|name| - k - 1..];
      if k == 0 {
        assert name[|name| - 1..] == ".";
      }
    }
  }

  /** A path `stem.ext` without separators, where `ext` is non-empty and holds no dot, is
      its own file name, splits into `stem` and `.ext`. */
  lemma SplitAtExtension(path: string, stem: string, ext: string)
    requires path == stem + "." + ext
    requires ext != [] && NoneIn(Is('.'), ext)
    requires NoneIn(PathSeparator, stem) && NoneIn(PathSeparator, ext)
    ensures GetFileName(path) == path
    ensures GetExtension(path) == "." + ext
    ensures GetFileNameWithoutExtension(path) == stem
  {
    assert GetFileName(path) == path by {
      PiecesNoneIn(PathSeparator, stem, ".");
      PiecesNoneIn(PathSeparator, stem + ".", ext);
      FileNameIs(path);
    }
    assert AfterLastDot(path) == |ext| by {
      assert path[|path| - |ext|..] == ext;
      assert path[|path| - |ext| - 1] == '.';
      LastRunIs(Is('.'), path, |ext|);
    }
    assert path[..|stem|] == stem;
    assert path[|stem|..] == "." + ext;
  }

  /** A name without a dot or separator has no extension and is its own stem. */
  lemma NoExtension(path: string)
    requires NoneIn(Is('.'), path) && NoneIn(PathSeparator, path)
    ensures GetFileName(path) == path
    ensures GetExtension(path) == []
    ensures GetFileNameWithoutExtension(path) == path
  {
    FileNameIs(path);
    assert path[|path| - |path|..] == path;
    LastRunIs(Is('.'), path, |path|);
  }

  /** A path without separators is its own file name. */
  lemma FileNameIs(path: string)
    requires NoneIn(PathSeparator, path)
    ensures GetFileName(path) == path
  {
    assert path[|path| - |path|..] == path;
    LastRunIs(PathSeparator, path, |path|);
  }
}
