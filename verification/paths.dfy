/** The two `path` helpers the handler calls on the uploaded object's name,
    with the behaviour of Node's POSIX `path.basename(p)` (`/` is the only
    separator, trailing separators are ignored) and of `path.extname` on a
    single segment. */
module Paths {
  import opened Wrappers
  import opened Strings

  /** `p` without its trailing `/` characters. */
  function TrimTrailingSlashes(p: string): (t: string)
    ensures |t| <= |p| && t == p[..|t|]
    ensures forall k :: |t| <= k < |p| ==> p[k] == '/'
    ensures t == "" || t[|t| - 1] != '/'
  {
    if |p| > 0 && p[|p| - 1] == '/' then TrimTrailingSlashes(p[..|p| - 1]) else p
  }

  /** `path.basename(p)`: the last segment of `p`, ignoring trailing `/`. */
  function Basename(p: string): (b: string)
    ensures '/' !in b
    ensures EndsWith(TrimTrailingSlashes(p), b)
    ensures var t := TrimTrailingSlashes(p);
      |b| == |t| || t[|t| - |b| - 1] == '/'
  {
    var t := TrimTrailingSlashes(p);
    match LastIndexOf(t, '/')
    case None => t
    case Some(i) => t[i + 1..]
  }

  /** `path.extname(b)` for a base name `b` (the handler only applies it to
      one): the suffix from the last `.`, or "" when there is no `.` after the
      first character or the name is `..`. */
  function Extname(b: string): (e: string)
    ensures e == "" || (EndsWith(b, e) && |e| < |b| && e[0] == '.' && '.' !in e[1..])
    ensures e == "" <==> (b == ".." || forall k :: 0 < k < |b| ==> b[k] != '.')
  {
    match LastIndexOf(b, '.')
    case None => ""
    case Some(i) => if i == 0 || b == ".." then "" else b[i..]
  }

  /** A name that is already a single segment is its own base name. */
  lemma BasenameOfSegment(s: string)
    requires '/' !in s
    ensures Basename(s) == s
  {
  }
}
