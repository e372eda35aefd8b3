// The string and path helpers the converters, the configuration and the
// format checks rely on: strings.ToLower, strings.HasSuffix and
// path/filepath's IsAbs, Join, Ext and Base, on Unix paths ('/' separator).

module Paths {

  /** strings.ToLower on one character, for the ASCII letters. */
  function LowerChar(c: char): (l: char)
    ensures 'A' <= c <= 'Z' ==> l as int == c as int + 32
    ensures !('A' <= c <= 'Z') ==> l == c
  {
    if 'A' <= c <= 'Z' then (c as int + 32) as char else c
  }

  /** strings.ToLower. */
  function ToLower(s: string): (l: string)
    ensures |l| == |s|
    ensures forall i | 0 <= i < |s| :: l[i] == LowerChar(s[i])
  {
    seq(|s|, i requires 0 <= i < |s| => LowerChar(s[i]))
  }

  /** strings.HasSuffix. */
  predicate HasSuffix(s: string, suffix: string)
  {
    |suffix| <= |s| && s[|s| - |suffix|..] == suffix
  }

  /** filepath.IsAbs on Unix: the path starts at the root. */
  predicate IsAbs(path: string)
  {
    |path| > 0 && path[0] == '/'
  }

  /** filepath.Join of two elements, without the lexical clean-up of the result. */
  function Join(dir: string, elem: string): (p: string)
    ensures dir == "" ==> p == elem
    ensures elem == "" ==> p == dir
    ensures dir != "" && elem != "" ==> p == dir + "/" + elem
  {
    if dir == "" then elem else if elem == "" then dir else dir + "/" + elem
  }

  /** No character of s is a '.' or a '/'. */
  predicate Plain(s: string)
  {
    forall k | 0 <= k < |s| :: s[k] != '.' && s[k] != '/'
  }

  /** The scan of filepath.Ext over path[..i], whose characters after i are neither
      '.' nor '/': the suffix from the last '.' of the final element, or "". */
  function ExtUpTo(path: string, i: nat): (e: string)
    requires i <= |path| && Plain(path[i..])
    ensures e == "" || (e[0] == '.' && HasSuffix(path, e) && Plain(e[1..]))
    decreases i
  {
    if i == 0 then ""
    else if path[i - 1] == '/' then ""
    else if path[i - 1] == '.' then (assert path[i - 1..][1..] == path[i..]; path[i - 1..])
    else (assert path[i - 1..] == [path[i - 1]] + path[i..]; ExtUpTo(path, i - 1))
  }

  /** filepath.Ext: the suffix of the final path element that starts at its last '.'. */
  function Ext(path: string): (e: string)
    ensures e == "" || (e[0] == '.' && HasSuffix(path, e) && Plain(e[1..]))
  {
    ExtUpTo(path, |path|)
  }

  /** A name ending in an extension has that extension, whatever comes before it. */
  lemma ExtOfAppended(stem: string, ext: string)
    requires |ext| > 0 && ext[0] == '.' && Plain(ext[1..])
    ensures Ext(stem + ext) == ext
  {
    var path := stem + ext;
    ExtScanPlain(path, |stem| + 1, |path|);
    assert path[|stem|..] == ext;
  }

  /** A final element without a '.' has no extension. */
  lemma ExtOfPlainName(dir: string, name: string)
    requires Plain(name) && (dir == "" || dir[|dir| - 1] == '/')
    ensures Ext(dir + name) == ""
  {
    var path := dir + name;
    ExtScanPlain(path, |dir|, |path|);
    if dir != "" {
      assert path[|dir| - 1] == '/';
    }
  }

  /** Scanning down over characters that are neither '.' nor '/' changes nothing. */
  lemma {:induction false} ExtScanPlain(path: string, lo: nat, i: nat)
    requires lo <= i <= |path| && Plain(path[lo..])
    ensures ExtUpTo(path, i) == ExtUpTo(path, lo)
    decreases i
  {
    if i > lo {
      assert path[i - 1] == path[lo..][i - 1 - lo];
      ExtScanPlain(path, lo, i - 1);
    }
  }

  /** path with its trailing '/' characters removed. */
  function TrimSlashes(path: string): (t: string)
    ensures |t| <= |path| && t == path[..|t|]
    ensures t == "" || t[|t| - 1] != '/'
  {
    if path != "" && path[|path| - 1] == '/' then TrimSlashes(path[..|path| - 1]) else path
  }

  /** The part of path[..i] after its last '/', followed by path[i..]. */
  function AfterLastSlash(path: string, i: nat): (name: string)
    requires i <= |path|
    ensures HasSuffix(path, name) && |name| >= |path| - i
    ensures forall k | 0 <= k < |name| - (|path| - i) :: name[k] != '/'
    decreases i
  {
    if i == 0 then path
    else if path[i - 1] == '/' then path[i..]
    else AfterLastSlash(path, i - 1)
  }

  /** filepath.Base: the last element of the path, "." for an empty path and "/" for a
      path made only of slashes. */
  function Base(path: string): (name: string)
    ensures name != ""
    ensures name == "/" || forall k | 0 <= k < |name| :: name[k] != '/'
  {
    if path == "" then "."
    else
      var t := TrimSlashes(path);
      if t == "" then "/" else AfterLastSlash(t, |t|)
  }

  /** The base of a path whose last element is `name` is that name. */
  lemma BaseOfJoin(dir: string, name: string)
    requires name != "" && forall k | 0 <= k < |name| :: name[k] != '/'
    ensures Base(Join(dir, name)) == name
  {
    var path := Join(dir, name);
    assert TrimSlashes(path) == path;
    if dir != "" {
      assert path == (dir + "/") + name;
      AfterSlashFree(path, |dir| + 1, |path|);
      assert path[|dir| + 1..] == name;
    } else {
      AfterSlashFree(path, 0, |path|);
    }
  }

  /** Scanning down over characters that are not '/' changes nothing. */
  lemma {:induction false} AfterSlashFree(path: string, lo: nat, i: nat)
    requires lo <= i <= |path|
    requires forall k | lo <= k < |path| :: path[k] != '/'
    requires lo == 0 || path[lo - 1] == '/'
    ensures AfterLastSlash(path, i) == path[lo..]
    decreases i
  {
    if i > lo {
      AfterSlashFree(path, lo, i - 1);
    }
  }
}
