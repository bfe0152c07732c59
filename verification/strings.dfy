/** The JavaScript string operations the upload handler relies on:
    `startsWith`, `split` and `join` with a one-character separator,
    `indexOf`, and `replace` with a string pattern (first occurrence only). */
module Strings {
  import opened Wrappers

  predicate StartsWith(s: string, prefix: string) {
    |prefix| <= |s| && s[..|prefix|] == prefix
  }

  predicate EndsWith(s: string, suffix: string) {
    |suffix| <= |s| && s[|s| - |suffix|..] == suffix
  }

  /** `parts.join(sep)`: the parts in order, with `sep` between neighbours. */
  function Join(parts: seq<string>, sep: char): string
    decreases |parts|
  {
    if |parts| == 0 then ""
    else if |parts| == 1 then parts[0]
    else parts[0] + [sep] + Join(parts[1..], sep)
  }

  /** `s.split(sep)`: the maximal separator-free pieces of `s`, in order.
      There is always at least one piece (`"".split("/")` is `[""]`). */
  function Split(s: string, sep: char): (parts: seq<string>)
    ensures |parts| >= 1
    ensures forall i :: 0 <= i < |parts| ==> sep !in parts[i]
    decreases |s|
  {
    if |s| == 0 then [""]
    else
      var rest := Split(s[1..], sep);
      if s[0] == sep then [""] + rest
      else [[s[0]] + rest[0]] + rest[1..]
  }

  /** A join begins with its first part and ends with its last, and holds
      exactly as many characters as the parts plus one separator between
      each two neighbours. */
  lemma {:induction false} JoinBounds(parts: seq<string>, sep: char)
    requires |parts| >= 1
    ensures StartsWith(Join(parts, sep), parts[0])
    ensures EndsWith(Join(parts, sep), parts[|parts| - 1])
    ensures |Join(parts, sep)| == TotalLength(parts) + |parts| - 1
    decreases |parts|
  {
    if |parts| > 1 {
      var rest := Join(parts[1..], sep);
      JoinBounds(parts[1..], sep);
      assert Join(parts, sep) == parts[0] + ([sep] + rest);
      assert Join(parts, sep)[..|parts[0]|] == parts[0];
      assert parts[1..][|parts[1..]| - 1] == parts[|parts| - 1];
      assert Join(parts, sep)[|Join(parts, sep)| - |rest|..] == rest;
    }
  }

  /** The number of characters over all parts. */
  function TotalLength(parts: seq<string>): nat
    decreases |parts|
  {
    if |parts| == 0 then 0 else |parts[0]| + TotalLength(parts[1..])
  }

  /** A string without the separator splits into itself alone. */
  lemma {:induction false} SplitNoSeparator(a: string, sep: char)
    requires sep !in a
    ensures Split(a, sep) == [a]
    decreases |a|
  {
    if |a| > 0 {
      SplitNoSeparator(a[1..], sep);
      assert [a[0]] + a[1..] == a;
    }
  }

  /** Splitting at the first separator peels off the first piece. */
  lemma {:induction false} SplitAtFirstSeparator(a: string, b: string, sep: char)
    requires sep !in a
    ensures Split(a + [sep] + b, sep) == [a] + Split(b, sep)
    decreases |a|
  {
    var s := a + [sep] + b;
    if |a| == 0 {
      assert s[1..] == b;
    } else {
      assert s[1..] == a[1..] + [sep] + b;
      SplitAtFirstSeparator(a[1..], b, sep);
      assert [a[0]] + a[1..] == a;
    }
  }

  /** Splitting then joining gives back the original string. */
  lemma {:induction false} JoinSplit(s: string, sep: char)
    ensures Join(Split(s, sep), sep) == s
    decreases |s|
  {
    if |s| > 0 {
      var rest := Split(s[1..], sep);
      JoinSplit(s[1..], sep);
      if s[0] == sep {
        assert ([""] + rest)[1..] == rest;
        assert s == [sep] + s[1..];
      } else {
        var parts := [[s[0]] + rest[0]] + rest[1..];
        if |rest| == 1 {
          assert s == [s[0]] + s[1..];
        } else {
          assert parts[1..] == rest[1..];
          assert s == [s[0]] + s[1..];
        }
      }
    }
  }

  /** Joining separator-free pieces and splitting again gives back the
      pieces: the transcript lines survive a round trip through the text. */
  lemma {:induction false} SplitJoin(parts: seq<string>, sep: char)
    requires |parts| >= 1
    requires forall i :: 0 <= i < |parts| ==> sep !in parts[i]
    ensures Split(Join(parts, sep), sep) == parts
    decreases |parts|
  {
    if |parts| == 1 {
      SplitNoSeparator(parts[0], sep);
    } else {
      SplitJoin(parts[1..], sep);
      SplitAtFirstSeparator(parts[0], Join(parts[1..], sep), sep);
      assert [parts[0]] + parts[1..] == parts;
    }
  }

  /** The first piece of a split is exactly the separator-free prefix that
      runs up to the first separator or to the end. */
  lemma SplitFirstPiece(s: string, sep: char, u: string)
    ensures Split(s, sep)[0] == u <==>
      sep !in u && StartsWith(s, u) && (|s| == |u| || s[|u|] == sep)
  {
    var parts := Split(s, sep);
    JoinSplit(s, sep);
    if |parts| > 1 {
      assert s == parts[0] + [sep] + Join(parts[1..], sep);
      assert s[..|parts[0]|] == parts[0];
    } else {
      assert s == parts[0];
    }
    if sep !in u && StartsWith(s, u) && (|s| == |u| || s[|u|] == sep) {
      if |s| == |u| {
        assert s == u;
        SplitNoSeparator(u, sep);
      } else {
        assert s == u + [sep] + s[|u| + 1..];
        SplitAtFirstSeparator(u, s[|u| + 1..], sep);
      }
    }
  }

  /** `pat` occurs in `s` at position `k`. */
  predicate OccursAt(s: string, pat: string, k: int) {
    0 <= k && k + |pat| <= |s| && s[k..k + |pat|] == pat
  }

  /** `i` is the first position where `pat` occurs in `s`. */
  predicate FirstOccurrence(s: string, pat: string, i: int) {
    OccursAt(s, pat, i) && forall k :: 0 <= k < i ==> !OccursAt(s, pat, k)
  }

  /** `s.indexOf(pat)`: the first position where `pat` occurs, if any.
      The empty pattern occurs at position 0. */
  function IndexOf(s: string, pat: string): (r: Option<nat>)
    ensures r.Some? ==> OccursAt(s, pat, r.value)
    ensures r.Some? ==> forall k :: 0 <= k < r.value ==> !OccursAt(s, pat, k)
    ensures r.None? ==> forall k :: !OccursAt(s, pat, k)
  {
    IndexOfFrom(s, pat, 0)
  }

  function IndexOfFrom(s: string, pat: string, from: nat): (r: Option<nat>)
    requires from <= |s|
    ensures r.Some? ==> from <= r.value && OccursAt(s, pat, r.value)
    ensures r.Some? ==> forall k :: from <= k < r.value ==> !OccursAt(s, pat, k)
    ensures r.None? ==> forall k :: from <= k ==> !OccursAt(s, pat, k)
    decreases |s| - from
  {
    if from + |pat| > |s| then None
    else if s[from..from + |pat|] == pat then Some(from)
    else IndexOfFrom(s, pat, from + 1)
  }

  /** `s.replace(pat, rep)` for a string pattern: only the first occurrence
      is replaced; with the empty pattern `rep` is inserted at the front. */
  function ReplaceFirst(s: string, pat: string, rep: string): string {
    match IndexOf(s, pat)
    case Some(i) => s[..i] + rep + s[i + |pat|..]
    case None => s
  }

  /** `replace` rewrites the first occurrence of the pattern and nothing
      else; it leaves the string as it was exactly when the pattern does not
      occur or is replaced by itself. */
  lemma ReplaceFirstSpec(s: string, pat: string, rep: string)
    ensures forall i :: FirstOccurrence(s, pat, i) ==> ReplaceFirst(s, pat, rep) == s[..i] + rep + s[i + |pat|..]
    ensures (forall k :: !OccursAt(s, pat, k)) ==> ReplaceFirst(s, pat, rep) == s
    ensures ReplaceFirst(s, pat, rep) == s <==> rep == pat || forall k :: !OccursAt(s, pat, k)
  {
    match IndexOf(s, pat)
    case Some(i) => ReplaceAtUnchangedIff(s, pat, rep, i);
    case None =>
  }

  /** Replacing an occurrence of `pat` by `rep` leaves `s` unchanged exactly
      when `rep` is `pat`. */
  lemma ReplaceAtUnchangedIff(s: string, pat: string, rep: string, i: nat)
    requires OccursAt(s, pat, i)
    ensures s[..i] + rep + s[i + |pat|..] == s <==> rep == pat
  {
  }

  /** Replacing the first occurrence at `k` keeps the text before it, puts
      `rep` at `k`, and changes the length by the difference in lengths. */
  lemma ReplaceFirstAt(s: string, pat: string, rep: string, k: nat)
    requires IndexOf(s, pat) == Some(k)
    ensures var r := ReplaceFirst(s, pat, rep);
      |r| == |s| - |pat| + |rep| && OccursAt(r, rep, k) && r[..k] == s[..k]
  {
    var r := ReplaceFirst(s, pat, rep);
    assert r == s[..k] + (rep + s[k + |pat|..]);
    assert r[..k] == s[..k];
    assert r[k..k + |rep|] == rep;
  }

  /** A concatenation starts with its left part, also when that part is
      itself split in two, and ends with its right part, also when that
      part is itself split in two. */
  lemma ConcatAffixes(x: string, y: string, z: string)
    ensures StartsWith(x + (y + z), x + y)
    ensures EndsWith(x + y, y)
    ensures EndsWith(x + (y + z), z)
  {
    assert (x + (y + z))[..|x + y|] == x + y;
    assert (x + (y + z))[|x + (y + z)| - |z|..] == z;
  }

  /** Different texts stay different under a common prefix or suffix. */
  lemma ConcatCancels(x: string, y: string, z: string)
    ensures x + z == y + z ==> x == y
    ensures z + x == z + y ==> x == y
  {
    if x + z == y + z {
      assert x == (x + z)[..|x|];
      assert y == (y + z)[..|y|];
    }
    if z + x == z + y {
      assert x == (z + x)[|z|..];
      assert y == (z + y)[|z|..];
    }
  }

  /** The last position of `c` in `s`, if any. */
  function LastIndexOf(s: string, c: char): (r: Option<nat>)
    ensures r.Some? ==> r.value < |s| && s[r.value] == c
    ensures r.Some? ==> forall k :: r.value < k < |s| ==> s[k] != c
    ensures r.None? ==> c !in s
  {
    if |s| == 0 then None
    else if s[|s| - 1] == c then Some(|s| - 1)
    else LastIndexOf(s[..|s| - 1], c)
  }
}
