/** The parts of Node's `path` module the converters rely on, for
    '/'-separated paths. */
module Paths {
  import opened Text

  function StripTrailingSlashes(p: string): (r: string)
    ensures StartsWith(p, r)
    ensures |r| == 0 || r[|r| - 1] != '/'
  {
    if |p| > 0 && p[|p| - 1] == '/' then StripTrailingSlashes(p[..|p| - 1]) else p
  }

  /** `path.basename(p)`: the last component, trailing separators ignored. */
  function BaseName(p: string): (r: string)
    ensures !Contains(r, '/')
  {
    var q := StripTrailingSlashes(p);
    q[LastIndexOf(q, '/') + 1..]
  }

  /** `path.extname(p)`: from the last '.' of the last component to its end;
      empty when the component has no '.', when its only '.' leads it
      (".bashrc"), or when the component is "..". */
  function ExtName(p: string): (r: string)
    ensures r == "" || (r[0] == '.' && !Contains(r[1..], '.'))
    ensures !Contains(r, '/')
  {
    var b := BaseName(p);
    var d := LastIndexOf(b, '.');
    if d <= 0 || b == ".." then ""
    else b[d..]
  }

  /** The directory part of `p` together with its trailing separator: every
      character up to and including the last '/', or "" when there is none. */
  function DirPrefix(p: string): (r: string)
    ensures StartsWith(p, r)
    ensures r == "" || r[|r| - 1] == '/'
    ensures !Contains(p[|r|..], '/')
  {
    p[..LastIndexOf(p, '/') + 1]
  }

  /** `path.join(path.dirname(inputPath), name)`: `name` placed beside the
      input file. */
  function Beside(inputPath: string, name: string): string {
    DirPrefix(inputPath) + name
  }

  /** A file named `stem.ext` has extension `.ext`, whatever directory it
      sits in. */
  lemma ExtNameOfFile(dir: string, stem: string, ext: string)
    requires |stem| > 0 && |ext| > 0
    requires !Contains(stem, '/') && !Contains(ext, '/') && !Contains(ext, '.')
    ensures ExtName(dir + "/" + stem + "." + ext) == "." + ext
  {
    var name := stem + "." + ext;
    assert dir + "/" + stem + "." + ext == (dir + "/") + name;
    forall j | 0 <= j < |name| ensures name[j] != '/' {
      if j < |stem| { assert name[j] == stem[j]; }
      else if j > |stem| { assert name[j] == ext[j - |stem| - 1]; }
    }
    BaseNameAfterSlash(dir, name);
    LastDotOfName(stem, ext);
  }

  lemma BaseNameAfterSlash(dir: string, name: string)
    requires |name| > 0 && forall j :: 0 <= j < |name| ==> name[j] != '/'
    ensures BaseName((dir + "/") + name) == name
  {
    var p := (dir + "/") + name;
    assert p[|p| - 1] == name[|name| - 1];
    assert StripTrailingSlashes(p) == p;
    assert p[|dir|] == '/';
    forall j | |dir| < j < |p| ensures p[j] != '/' {
      assert p[j] == name[j - |dir| - 1];
    }
    LastIndexOfIs(p, '/', |dir|);
    assert p[|dir| + 1..] == name;
  }

  lemma LastDotOfName(stem: string, ext: string)
    requires |stem| > 0 && !Contains(ext, '.')
    ensures var name := stem + "." + ext;
      LastIndexOf(name, '.') == |stem| && name[|stem|..] == "." + ext
  {
    var name := stem + "." + ext;
    assert name[|stem|] == '.';
    forall j | |stem| < j < |name| ensures name[j] != '.' {
      assert name[j] == ext[j - |stem| - 1];
    }
    LastIndexOfIs(name, '.', |stem|);
    assert name[|stem|..] == "." + ext;
  }

  /** The base name of a file placed beside the input is its own name. */
  lemma BaseNameBeside(inputPath: string, name: string)
    requires |name| > 0 && !Contains(name, '/')
    ensures BaseName(Beside(inputPath, name)) == name
  {
    var d := DirPrefix(inputPath);
    var p := d + name;
    assert p[|p| - 1] == name[|name| - 1];
    assert StripTrailingSlashes(p) == p;
    if |d| > 0 {
      forall j | |d| <= j < |p| ensures p[j] != '/' {
        assert p[j] == name[j - |d|];
      }
      assert p[|d| - 1] == '/';
      LastIndexOfIs(p, '/', |d| - 1);
    } else {
      forall j | 0 <= j < |p| ensures p[j] != '/' {
        assert p[j] == name[j];
      }
      LastIndexOfNone(p, '/');
    }
  }

  lemma {:induction false} LastIndexOfIs(s: string, c: char, k: int)
    requires 0 <= k < |s| && s[k] == c
    requires forall j :: k < j < |s| ==> s[j] != c
    ensures LastIndexOf(s, c) == k
    decreases |s|
  {
    if s[|s| - 1] != c {
      LastIndexOfIs(s[..|s| - 1], c, k);
    }
  }

  lemma {:induction false} LastIndexOfNone(s: string, c: char)
    requires forall j :: 0 <= j < |s| ==> s[j] != c
    ensures LastIndexOf(s, c) == -1
    decreases |s|
  {
    if |s| > 0 {
      LastIndexOfNone(s[..|s| - 1], c);
    }
  }
}
