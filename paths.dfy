/** Slash-separated paths and keys: the parts of Go's `strings.Split`,
    `path.Join` and `filepath.IsAbs` that the session registry relies on. */
module Paths {

  const Separator: char := '/'

  /** `strings.Split(s, "/")`: the pieces between separators, always at
      least one (the empty string splits into `[""]`). */
  function Split(s: string): (parts: seq<string>)
    ensures |parts| >= 1
    decreases |s|
  {
    if |s| == 0 then [""]
    else
      var rest := Split(s[1..]);
      if s[0] == Separator then [""] + rest
      else [[s[0]] + rest[0]] + rest[1..]
  }

  /** The parts joined with `/`, the inverse of `Split`; it gives the shape
      of the registry key `"{namespace}/{deployment}/{container}"`. */
  function Unsplit(parts: seq<string>): (s: string)
    requires |parts| >= 1
    decreases |parts|
  {
    if |parts| == 1 then parts[0] else parts[0] + [Separator] + Unsplit(parts[1..])
  }

  /** Splitting at a separator splits the two sides independently. */
  lemma {:induction false} SplitAround(a: string, b: string)
    ensures Split(a + [Separator] + b) == Split(a) + Split(b)
    decreases |a|
  {
    var s := a + [Separator] + b;
    if |a| == 0 {
      assert s == [Separator] + b;
      assert s[1..] == b;
    } else {
      assert s[0] == a[0];
      assert s[1..] == a[1..] + [Separator] + b;
      SplitAround(a[1..], b);
    }
  }

  /** A string without a separator is a single piece. */
  lemma {:induction false} SplitNoSeparator(s: string)
    requires Separator !in s
    ensures Split(s) == [s]
    decreases |s|
  {
    if |s| > 0 {
      assert Separator !in s[1..] by {
        forall i | 0 <= i < |s[1..]| ensures s[1..][i] != Separator {
          assert s[1..][i] == s[i + 1];
        }
      }
      SplitNoSeparator(s[1..]);
      assert [s[0]] + s[1..] == s;
    }
  }

  /** A string splits into two or more pieces exactly when it holds a separator. */
  lemma {:induction false} SplitSingle(s: string)
    ensures |Split(s)| == 1 <==> Separator !in s
  {
    if Separator in s {
      var i :| 0 <= i < |s| && s[i] == Separator;
      assert s == s[..i] + [Separator] + s[i + 1..];
      SplitAround(s[..i], s[i + 1..]);
    } else {
      SplitNoSeparator(s);
    }
  }

  /** Joining separator-free parts and splitting again gives the parts back. */
  lemma {:induction false} SplitUnsplit(parts: seq<string>)
    requires |parts| >= 1
    requires forall i :: 0 <= i < |parts| ==> Separator !in parts[i]
    ensures Split(Unsplit(parts)) == parts
    decreases |parts|
  {
    SplitNoSeparator(parts[0]);
    if |parts| > 1 {
      SplitUnsplit(parts[1..]);
      SplitAround(parts[0], Unsplit(parts[1..]));
      assert [parts[0]] + parts[1..] == parts;
    }
  }

  /** Splitting and joining again gives the string back. */
  lemma {:induction false} UnsplitSplit(s: string)
    ensures Unsplit(Split(s)) == s
    decreases |s|
  {
    if |s| > 0 {
      var rest := Split(s[1..]);
      UnsplitSplit(s[1..]);
      if s[0] == Separator {
        assert Split(s) == [""] + rest;
        assert ([""] + rest)[1..] == rest;
        assert [s[0]] + s[1..] == s;
      } else if |rest| == 1 {
        assert Split(s) == [[s[0]] + rest[0]];
        assert [s[0]] + s[1..] == s;
      } else {
        var parts := Split(s);
        assert parts == [[s[0]] + rest[0]] + rest[1..];
        assert parts[1..] == rest[1..];
        assert Unsplit(rest) == rest[0] + [Separator] + Unsplit(rest[1..]);
        assert [s[0]] + s[1..] == s;
      }
    }
  }

  /** `filepath.IsAbs` on a Unix system: the path starts at the root. */
  predicate IsAbs(p: string)
    ensures IsAbs(p) <==> p != "" && Split(p)[0] == ""
  {
    |p| > 0 && p[0] == Separator
  }

  /** `path.Join(dir, elem)`; empty elements are skipped as in Go, but the
      result is not cleaned. */
  function Join(dir: string, elem: string): (r: string)
    ensures IsAbs(dir) ==> IsAbs(r)
    ensures dir == "" ==> r == elem
    ensures dir != "" ==> dir <= r
  {
    if dir == "" then elem
    else if elem == "" then dir
    else dir + [Separator] + elem
  }
}
