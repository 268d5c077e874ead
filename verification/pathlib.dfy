/** Node's POSIX `path.dirname`, which the file operations use to pick the directory to create. */
module PathLib {

  /** The backward scan of `dirname`: from index `i` down to 1, the index of the first `/`
      that follows (to its right) at least one non-slash character, or -1 if there is none.
      `matchedSlash` is true while only slashes have been seen. */
  function ScanEnd(p: string, i: int, matchedSlash: bool): (end: int)
    requires i < |p|
    ensures end == -1 || (1 <= end <= i && p[end] == '/')
    decreases i
  {
    if i < 1 then -1
    else if p[i] == '/' then (if !matchedSlash then i else ScanEnd(p, i - 1, true))
    else ScanEnd(p, i - 1, false)
  }

  /** After index `e` of `p` comes one non-empty segment and then only separators. */
  predicate SegmentAfter(p: string, e: int) {
    && (exists k | e < k < |p| :: 0 <= k && p[k] != '/')
    && (forall j, k | e < j < k < |p| && 0 <= j :: p[j] == '/' ==> p[k] == '/')
  }

  /** `dirname` cuts `p` at index `e`: a separator, not the leading character, that
      precedes the last segment. */
  predicate CutAt(p: string, e: int) {
    1 <= e < |p| && p[e] == '/' && SegmentAfter(p, e)
  }

  /** A path has at most one cut: a later separator would lie inside the last segment. */
  lemma CutUnique(p: string, e1: int, e2: int)
    requires CutAt(p, e1) && CutAt(p, e2)
    ensures e1 == e2
  {
  }

  /** The backward scan finds the cut of `p` at or below `i`, if there is one. Above `i`
      there are only separators while `matchedSlash` holds, and otherwise one segment
      followed by separators. */
  lemma {:induction false} ScanEndFindsCut(p: string, i: int, matchedSlash: bool)
    requires 0 <= i < |p|
    requires matchedSlash ==> forall j | i < j < |p| :: p[j] == '/'
    requires !matchedSlash ==> SegmentAfter(p, i)
    ensures ScanEnd(p, i, matchedSlash) != -1 ==> CutAt(p, ScanEnd(p, i, matchedSlash))
    ensures ScanEnd(p, i, matchedSlash) == -1 ==> forall e | 1 <= e <= i :: !CutAt(p, e)
    decreases i
  {
    if i >= 1 {
      if p[i] == '/' && matchedSlash {
        assert !CutAt(p, i);
        ScanEndFindsCut(p, i - 1, true);
      } else if p[i] != '/' {
        assert !CutAt(p, i);
        assert SegmentAfter(p, i - 1) by {
          assert i - 1 < i < |p| && p[i] != '/';
        }
        ScanEndFindsCut(p, i - 1, false);
      }
    }
  }

  /** `path.dirname(p)`: everything before the separator that precedes the last segment,
      `/` for a rooted path without such a separator, `.` for a relative one, and `//` when
      the cut leaves only a doubled root. */
  function Dirname(p: string): (r: string)
    ensures r == "." || r == "/" || r == "//" || (0 < |r| < |p| && r == p[..|r|] && p[|r|] == '/')
    ensures |p| == 0 ==> r == "."
    ensures 0 < |p| && (forall e | 1 <= e < |p| :: !CutAt(p, e)) ==> r == (if p[0] == '/' then "/" else ".")
    ensures forall e | CutAt(p, e) :: r == (if p[0] == '/' && e == 1 then "//" else p[..e])
  {
    if |p| == 0 then "."
    else
      var end := ScanEnd(p, |p| - 1, true);
      ScanEndFindsCut(p, |p| - 1, true);
      assert forall e | CutAt(p, e) :: e == end by {
        forall e | CutAt(p, e) ensures e == end {
          CutUnique(p, e, end);
        }
      }
      if end == -1 then (if p[0] == '/' then "/" else ".")
      else if p[0] == '/' && end == 1 then "//"
      else p[..end]
  }

  /** No `/` occurs in `s`. */
  predicate NoSlash(s: string) {
    forall i | 0 <= i < |s| :: s[i] != '/'
  }

  /** Scanning backwards over non-slash characters stops at the first slash it reaches. */
  lemma {:induction false} ScanEndStopsAtSlash(p: string, k: nat, i: int, matchedSlash: bool)
    requires 1 <= k < i < |p|
    requires p[k] == '/'
    requires forall j | k < j <= i :: p[j] != '/'
    ensures ScanEnd(p, i, matchedSlash) == k
    decreases i
  {
    if i - 1 > k {
      ScanEndStopsAtSlash(p, k, i - 1, false);
    }
  }

  /** The directory of `dir + "/" + name`, for a plain file name, is `dir` itself,
      unless `dir` is empty or the root. */
  lemma DirnameOfChild(dir: string, name: string)
    requires |dir| > 0 && dir != "/"
    requires |name| > 0 && NoSlash(name)
    ensures Dirname(dir + "/" + name) == dir
  {
    var p := dir + "/" + name;
    assert p[|dir|] == '/';
    assert forall j | |dir| < j <= |p| - 1 :: p[j] != '/' by {
      forall j | |dir| < j <= |p| - 1 ensures p[j] != '/' {
        assert p[j] == name[j - |dir| - 1];
      }
    }
    ScanEndStopsAtSlash(p, |dir|, |p| - 1, true);
    assert p[..|dir|] == dir;
  }
}
