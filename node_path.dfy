/**
 * The two POSIX path helpers of Node.js that the download step calls, `path.basename`
 * and `path.extname`, written out as specification functions.
 */
module NodePath {
  import opened Wrappers

  /** The path without its trailing slashes. */
  function TrimTrailingSlashes(p: string): (r: string)
    ensures |r| <= |p| && r == p[..|r|]
    ensures r == "" || r[|r| - 1] != '/'
    ensures forall i :: |r| <= i < |p| ==> p[i] == '/'
  {
    if |p| > 0 && p[|p| - 1] == '/' then TrimTrailingSlashes(p[..|p| - 1]) else p
  }

  /** The text after the last slash (all of `p` when it has none). */
  function AfterLastSlash(p: string): (r: string)
    ensures '/' !in r
    ensures |r| <= |p| && r == p[|p| - |r|..]
    ensures |r| < |p| ==> p[|p| - |r| - 1] == '/'
  {
    if |p| == 0 || p[|p| - 1] == '/' then "" else AfterLastSlash(p[..|p| - 1]) + [p[|p| - 1]]
  }

  /**
   * `path.basename(p)`: the last segment of the path once trailing slashes are ignored,
   * so `/y/` gives `y` and a path made only of slashes gives "".
   */
  function Basename(p: string): (r: string)
    ensures '/' !in r && |r| <= |p|
  {
    AfterLastSlash(TrimTrailingSlashes(p))
  }

  /** The base name never contains a slash, and is empty exactly for a path made only of slashes. */
  lemma {:induction false} BasenameShape(p: string)
    ensures '/' !in Basename(p)
    ensures Basename(p) == "" <==> forall i :: 0 <= i < |p| ==> p[i] == '/'
  {
    var t := TrimTrailingSlashes(p);
    if t == "" {
      assert forall i :: 0 <= i < |p| ==> p[i] == '/';
    } else {
      assert t[|t| - 1] == p[|t| - 1];
      assert Basename(p) == AfterLastSlash(t[..|t| - 1]) + [t[|t| - 1]];
    }
  }

  /** A trailing slash does not change the base name, so `/y/` and `/y` both give `y`. */
  lemma BasenameIgnoresTrailingSlash(p: string)
    ensures Basename(p + "/") == Basename(p)
  {
    assert (p + "/")[..|p|] == p;
  }

  /** The index of the last occurrence of `c` in `s`. */
  function LastIndexOf(s: string, c: char): (r: Option<nat>)
    ensures r.None? <==> c !in s
    ensures r.Some? ==> r.value < |s| && s[r.value] == c && c !in s[r.value + 1..]
  {
    if |s| == 0 then None
    else if s[|s| - 1] == c then Some(|s| - 1)
    else
      var r := LastIndexOf(s[..|s| - 1], c);
      assert r.Some? ==> s[r.value + 1..] == s[..|s| - 1][r.value + 1..] + [s[|s| - 1]];
      r
  }

  /**
   * `path.extname(p)`: the text of the base name from its last dot, or "" when the base
   * name has no dot, starts with its only leading dot (a dot file such as `.bashrc`), or is `..`.
   */
  function Extname(p: string): (r: string)
    ensures r == "" || r[0] == '.'
  {
    var name := Basename(p);
    match LastIndexOf(name, '.')
    case None => ""
    case Some(d) => if d == 0 || name == ".." then "" else name[d..]
  }

  /** A non-empty extension is a dot followed by text without dots or slashes, ending the base name. */
  lemma ExtnameShape(p: string)
    ensures var e := Extname(p);
      e == "" || (e[0] == '.' && '.' !in e[1..] && '/' !in e && e == Basename(p)[|Basename(p)| - |e|..])
  {
    var name := Basename(p);
    BasenameShape(p);
    var last := LastIndexOf(name, '.');
    if last.Some? && last.value != 0 && name != ".." {
      var d := last.value;
      var e := name[d..];
      assert Extname(p) == e;
      assert e[1..] == name[d + 1..];
      NotInSuffix('/', name, d);
    }
  }

  /**
   * Appending `.` and a segment without dots or slashes to a non-empty name without slashes
   * gives that segment as the extension.
   */
  lemma {:induction false} ExtnameOfAppended(name: string, ext: string)
    requires name != "" && '/' !in name
    requires ext != "" && '.' !in ext && '/' !in ext
    ensures Extname(name + "." + ext) == "." + ext
  {
    var tail := "." + ext;
    var full := name + tail;
    var d := |name|;
    assert full == name + "." + ext;
    NotInAppend('/', ".", ext);
    NotInAppend('/', name, tail);
    assert full[d..] == tail && tail[1..] == ext;
    ExtnameAt(full, d);
  }

  /** A dot at `d > 0` with no dot after it, in a path of three or more characters without slashes, starts the extension. */
  lemma ExtnameAt(p: string, d: nat)
    requires '/' !in p && |p| >= 3
    requires 0 < d < |p| && p[d] == '.' && '.' !in p[d + 1..]
    ensures Extname(p) == p[d..]
  {
    NoSlashBasename(p);
    LastIndexAfter(p, d, '.');
  }

  lemma NotInSuffix(c: char, s: string, d: nat)
    requires c !in s && d <= |s|
    ensures c !in s[d..]
  {
    assert forall i | 0 <= i < |s| - d :: s[d..][i] == s[d + i];
  }

  lemma NotInAppend(c: char, a: string, b: string)
    requires c !in a && c !in b
    ensures c !in a + b
  {
    assert forall i | 0 <= i < |a + b| :: (a + b)[i] == if i < |a| then a[i] else b[i - |a|];
  }

  /** A path without slashes is its own base name. */
  lemma NoSlashBasename(p: string)
    requires '/' !in p
    ensures Basename(p) == p
  {
    assert TrimTrailingSlashes(p) == p;
    NoSlashAfterLastSlash(p);
  }

  lemma {:induction false} NoSlashAfterLastSlash(p: string)
    requires '/' !in p
    ensures AfterLastSlash(p) == p
  {
    if |p| > 0 {
      NoSlashAfterLastSlash(p[..|p| - 1]);
      assert p == p[..|p| - 1] + [p[|p| - 1]];
    }
  }

  /** When `c` occurs at `i` and not after it, `i` is the last index of `c`. */
  lemma {:induction false} LastIndexAfter(s: string, i: nat, c: char)
    requires i < |s| && s[i] == c && c !in s[i + 1..]
    ensures LastIndexOf(s, c) == Some(i)
  {
    if i < |s| - 1 {
      assert s[|s| - 1] in s[i + 1..];
      var t := s[..|s| - 1];
      assert t[i + 1..] == s[i + 1..|s| - 1];
      LastIndexAfter(t, i, c);
    }
  }
}
