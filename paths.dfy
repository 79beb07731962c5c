/**
 * A model of the parts of Rust's `std::path` that the renamer relies on, on
 * paths written as strings with '/' as the only separator: `Path::parent`,
 * `Path::file_name`, `Path::extension` and `PathBuf::join`.
 */
module Paths {
  import opened Wrappers

  /**
   * A path as the program handles it: its text, with what `Path::parent` and
   * `Path::extension` give for it. ParsePath builds one from its text.
   */
  datatype Path = Path(text: string, parent: Option<string>, extension: Option<string>)

  function ParsePath(text: string): (p: Path)
    ensures p.text == text
  {
    Path(text, Parent(text), Extension(text))
  }

  /** The position of the last `c` in `s`, if any. */
  function LastIndexOf(s: string, c: char): (r: Option<nat>)
    ensures r.None? ==> c !in s
    ensures r.Some? ==> r.value < |s| && s[r.value] == c && c !in s[r.value + 1..]
  {
    if s == [] then None
    else if s[|s| - 1] == c then Some(|s| - 1)
    else
      var r := LastIndexOf(s[..|s| - 1], c);
      assert r.Some? ==> s[r.value + 1..] == s[..|s| - 1][r.value + 1..] + [s[|s| - 1]];
      assert s == s[..|s| - 1] + [s[|s| - 1]];
      r
  }

  /** The last occurrence is the only one with no `c` after it. */
  lemma LastIndexOfAt(s: string, c: char, k: nat)
    requires k < |s| && s[k] == c && c !in s[k + 1..]
    ensures LastIndexOf(s, c) == Some(k)
  {
    assert c in s;
  }

  /**
   * The path ends in a component std::path keeps: no trailing separator and
   * no trailing "." component, except for a lone root "/" or a lone ".".
   */
  predicate Trimmed(p: string) {
    |p| <= 1 || (p[|p| - 1] != '/' && !(p[|p| - 1] == '.' && p[|p| - 2] == '/'))
  }

  /**
   * Drops trailing separators and trailing "." components, keeping a lone
   * root or a lone leading "." ("a/b/" and "a/b/." are "a/b", "//" and "/."
   * are "/", "./" is "."); std::path skips them when it takes a path apart
   * from the end.
   */
  function TrimEnd(p: string): (q: string)
    ensures Trimmed(q)
    ensures |q| <= |p| && q == p[..|q|]
    ensures forall i :: |q| <= i < |p| ==> p[i] == '/' || p[i] == '.'
    ensures p != [] ==> q != []
    ensures Trimmed(p) ==> q == p
  {
    if |p| > 1 && (p[|p| - 1] == '/' || (p[|p| - 1] == '.' && p[|p| - 2] == '/'))
    then TrimEnd(p[..|p| - 1])
    else p
  }

  /** TrimEnd removes a '.' only where it directly follows a separator. */
  lemma {:induction false} TrimEndRemovesDotComponents(p: string)
    ensures forall i :: |TrimEnd(p)| <= i < |p| && p[i] == '.' ==> i > 0 && p[i - 1] == '/'
    decreases |p|
  {
    if |p| > 1 && (p[|p| - 1] == '/' || (p[|p| - 1] == '.' && p[|p| - 2] == '/')) {
      var init := p[..|p| - 1];
      TrimEndRemovesDotComponents(init);
      assert forall i :: 0 <= i < |init| ==> init[i] == p[i];
    }
  }

  /**
   * The contract of TrimEnd determines its result: any prefix of `p` that
   * ends in a kept component, is non-empty when `p` is, and drops only
   * separators and whole "." components is TrimEnd(p).
   */
  lemma TrimEndUnique(p: string, q: string)
    requires Trimmed(q) && |q| <= |p| && q == p[..|q|]
    requires forall i :: |q| <= i < |p| ==> p[i] == '/' || p[i] == '.'
    requires forall i :: |q| <= i < |p| && p[i] == '.' ==> i > 0 && p[i - 1] == '/'
    requires p != [] ==> q != []
    ensures q == TrimEnd(p)
  {
    var t := TrimEnd(p);
    TrimEndRemovesDotComponents(p);
    assert |t| == |q|;
  }

  /**
   * Rust's `Path::file_name`: the last component, absent for "", "/", a lone
   * "." and a last component "..".
   */
  function FileName(p: string): (r: Option<string>)
    ensures r.Some? ==> r.value != [] && '/' !in r.value && r.value != ".." && r.value != "."
  {
    var q := TrimEnd(p);
    if q == [] || q == "/" || q == "." then None
    else
      var name := match LastIndexOf(q, '/')
        case None => q
        case Some(k) => q[k + 1..];
      if name == ".." then None else Some(name)
  }

  /**
   * Rust's `Path::parent`: the path without its last component (and without
   * the separators and "." components before it), absent for "" and "/".
   */
  function Parent(p: string): (r: Option<string>)
    ensures r.None? <==> TrimEnd(p) == [] || TrimEnd(p) == "/"
    ensures r.Some? ==> Trimmed(r.value)
  {
    var q := TrimEnd(p);
    if q == [] || q == "/" then None
    else
      match LastIndexOf(q, '/')
      case None => Some([])
      case Some(k) => Some(TrimEnd(q[..k + 1]))
  }

  /**
   * Rust's `Path::extension`: what follows the last '.' of the file name,
   * absent when the name has no '.' or its only '.' is the first character.
   */
  function Extension(p: string): (r: Option<string>)
    ensures r.Some? ==> '.' !in r.value && '/' !in r.value
  {
    match FileName(p)
    case None => None
    case Some(name) =>
      match LastIndexOf(name, '.')
      case None => None
      case Some(k) => if k == 0 then None else Some(name[k + 1..])
  }

  /**
   * Rust's `PathBuf::join` (via `push`): a separator is inserted unless `base`
   * is empty or already ends in one; an absolute `name` replaces `base`.
   */
  function Join(base: string, name: string): string {
    if name != [] && name[0] == '/' then name
    else if base == [] || base[|base| - 1] == '/' then base + name
    else base + "/" + name
  }

  /** A path ending in a separator followed by one component splits there. */
  lemma SplitAfterSeparator(dir: string, name: string)
    requires dir != [] && dir[|dir| - 1] == '/'
    requires name != [] && '/' !in name && name != ".." && name != "."
    ensures Parent(dir + name) == Some(TrimEnd(dir))
    ensures FileName(dir + name) == Some(name)
  {
    var p := dir + name;
    TrimmedAfterSeparator(dir, name);
    assert |p| >= 2;
    assert LastIndexOf(p, '/') == Some(|dir| - 1) by {
      assert p[|dir|..] == name;
      LastIndexOfAt(p, '/', |dir| - 1);
    }
    assert p[..|dir|] == dir;
    assert p[|dir|..] == name;
    SplitAtLastSeparator(p, |dir| - 1);
  }

  /** A trimmed path whose last separator is at `k` splits there. */
  lemma SplitAtLastSeparator(p: string, k: nat)
    requires Trimmed(p) && |p| >= 2 && LastIndexOf(p, '/') == Some(k)
    ensures Parent(p) == Some(TrimEnd(p[..k + 1]))
    ensures p[k + 1..] != ".." ==> FileName(p) == Some(p[k + 1..])
  {
    assert TrimEnd(p) == p;
  }

  /** A plain name after a separator ends the path in a kept component. */
  lemma TrimmedAfterSeparator(dir: string, name: string)
    requires dir != [] && dir[|dir| - 1] == '/'
    requires name != [] && '/' !in name && name != "."
    ensures Trimmed(dir + name)
  {
    var p := dir + name;
    assert name[|name| - 1] in name;
    assert p[|p| - 1] == name[|name| - 1];
    if |name| > 1 {
      assert name[|name| - 2] in name;
      assert p[|p| - 2] == name[|name| - 2];
    }
  }

  /**
   * Joining a single relative component onto a directory is undone by
   * Parent and FileName.
   */
  lemma JoinSplits(base: string, name: string)
    requires Trimmed(base)
    requires name != [] && '/' !in name && name != ".." && name != "."
    ensures Parent(Join(base, name)) == Some(base)
    ensures FileName(Join(base, name)) == Some(name)
  {
    assert name[0] in name;
    if base == [] {
      assert Join(base, name) == name;
      PlainNameParts(name);
    } else if base[|base| - 1] == '/' {
      assert base == "/";
      SplitAfterSeparator(base, name);
    } else {
      assert Join(base, name) == (base + "/") + name;
      SplitAfterSeparator(base + "/", name);
      TrimEndSeparator(base);
    }
  }

  /** One separator after a trimmed path is dropped again. */
  lemma TrimEndSeparator(base: string)
    requires Trimmed(base) && base != []
    ensures TrimEnd(base + "/") == base
  {
    assert (base + "/")[..|base|] == base;
  }

  /** Parent, file name and extension see a path only through its trimmed form. */
  lemma SameTrimSameParts(p: string, q: string)
    requires TrimEnd(p) == TrimEnd(q)
    ensures Parent(p) == Parent(q) && FileName(p) == FileName(q) && Extension(p) == Extension(q)
  {
    SameTrimSameFileName(p, q);
    SameTrimSameParent(p, q);
  }

  lemma SameTrimSameFileName(p: string, q: string)
    requires TrimEnd(p) == TrimEnd(q)
    ensures FileName(p) == FileName(q)
  {
    var t := TrimEnd(p);
    assert FileName(p) == FileName(t);
  }

  lemma SameTrimSameParent(p: string, q: string)
    requires TrimEnd(p) == TrimEnd(q)
    ensures Parent(p) == Parent(q)
  {
    var t := TrimEnd(p);
    assert Parent(p) == Parent(t);
  }

  /** A name "." + ext has no extension: it is a hidden file in `dir`. */
  lemma HiddenFileParts(dir: string, ext: string)
    requires Trimmed(dir) && dir != [] && dir[|dir| - 1] != '/'
    requires ext != [] && '/' !in ext && '.' !in ext
    ensures Parent(dir + "/." + ext) == Some(dir)
    ensures Extension(dir + "/." + ext) == None
  {
    var base := ['.'] + ext;
    assert dir + "/." + ext == (dir + "/") + base;
    assert base[1..] == ext;
    assert '/' !in base && base != "..";
    assert '.' !in base[1..];
    SplitAfterSeparator(dir + "/", base);
    TrimEndSeparator(dir);
    LastIndexOfAt(base, '.', 0);
  }

  /** The extension of a file name is whatever follows its last '.'. */
  lemma ExtensionOfName(base: string, stem: string, ext: string)
    requires Trimmed(base)
    requires stem != [] && stem[0] != '.' && '/' !in stem && '/' !in ext && '.' !in ext
    ensures Extension(Join(base, stem + "." + ext)) == Some(ext)
  {
    var name := stem + "." + ext;
    assert name[0] == stem[0];
    JoinSplits(base, name);
    assert name[|stem| + 1..] == ext;
    LastIndexOfAt(name, '.', |stem|);
  }

  /** A trailing "." component is skipped: "dir/." splits like "dir". */
  lemma DotComponentSkipped(dir: string)
    requires Trimmed(dir) && dir != [] && dir[|dir| - 1] != '/'
    ensures TrimEnd(dir + "/.") == dir
    ensures Parent(dir + "/.") == Parent(dir)
    ensures FileName(dir + "/.") == FileName(dir)
  {
    TrimEndDot(dir);
    SameTrimSameParts(dir + "/.", dir);
  }

  /** A "." component after a trimmed path is dropped again. */
  lemma TrimEndDot(dir: string)
    requires Trimmed(dir) && dir != [] && dir[|dir| - 1] != '/'
    ensures TrimEnd(dir + "/.") == dir
  {
    var p := dir + "/.";
    assert TrimEnd(p) == TrimEnd(dir + "/") by {
      assert p[..|p| - 1] == dir + "/";
    }
    TrimEndSeparator(dir);
  }

  /** A single component without separators has no parent directory but "". */
  lemma PlainNameParts(name: string)
    requires name != [] && '/' !in name && name != ".." && name != "."
    ensures Parent(name) == Some([])
    ensures FileName(name) == Some(name)
  {
    assert Trimmed(name) by {
      assert name[|name| - 1] in name;
      if |name| > 1 {
        assert name[|name| - 2] in name;
      }
    }
    assert TrimEnd(name) == name;
    assert LastIndexOf(name, '/') == None;
  }

  /** "foo.txt/." has file name "foo.txt": the trailing "." component is skipped. */
  lemma TrailingDotFileName()
    ensures FileName("foo.txt/.") == Some("foo.txt")
  {
    PlainNameParts("foo.txt");
    DotComponentSkipped("foo.txt");
    assert "foo.txt" + "/." == "foo.txt/.";
  }

  /** A lone "." names no file. */
  lemma LoneDotHasNoFileName()
    ensures FileName(".") == None
  {
  }

  /** "a/." has parent "", the parent of "a". */
  lemma TrailingDotParent()
    ensures Parent("a/.") == Some("")
  {
    PlainNameParts("a");
    DotComponentSkipped("a");
    assert "a" + "/." == "a/.";
  }

  /** "x.mp3/." has extension "mp3", that of "x.mp3". */
  lemma TrailingDotExtension()
    ensures Extension("x.mp3/.") == Some("mp3")
  {
    PlainNameParts("x.mp3");
    DotComponentSkipped("x.mp3");
    assert "x.mp3" + "/." == "x.mp3/.";
    SameTrimSameParts("x.mp3/.", "x.mp3");
    LastIndexOfAt("x.mp3", '.', 1);
    assert "x.mp3"[2..] == "mp3";
  }

  /** "music/a.mp3" has parent "music" and extension "mp3". */
  lemma ParsePathExample()
    ensures ParsePath("music/a.mp3") == Path("music/a.mp3", Some("music"), Some("mp3"))
  {
    ParentExample();
    ExtensionExample();
  }

  lemma ParentExample()
    ensures Parent("music/a.mp3") == Some("music")
  {
    assert Join("music", "a.mp3") == "music/a.mp3";
    JoinSplits("music", "a.mp3");
  }

  lemma ExtensionExample()
    ensures Extension("music/a.mp3") == Some("mp3")
  {
    assert Join("music", "a" + "." + "mp3") == "music/a.mp3";
    ExtensionOfName("music", "a", "mp3");
  }
}
