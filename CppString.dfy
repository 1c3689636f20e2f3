/** The std::string operations the terminal and the text renderer rely on:
    find (first occurrence, or npos), and the splitting of a string into the
    pieces between occurrences of a delimiter, with its inverse, joining. */
module CppString {

  /** d occurs in s starting at position i. */
  predicate OccursAt(s: string, d: string, i: int)
  {
    0 <= i && i + |d| <= |s| && s[i..i + |d|] == d
  }

  /** d occurs somewhere in s. */
  predicate Contains(s: string, d: string)
  {
    exists i :: 0 <= i <= |s| && OccursAt(s, d, i)
  }

  /** s.find(d): the first position where d occurs, or -1 (npos, once stored in an int). */
  function Find(s: string, d: string): (i: int)
    ensures -1 <= i <= |s|
    ensures i >= 0 ==> OccursAt(s, d, i) && forall j :: 0 <= j < i ==> !OccursAt(s, d, j)
    ensures i == -1 <==> !Contains(s, d)
    decreases |s|
  {
    if |d| > |s| then -1
    else if s[..|d|] == d then 0
    else
      var k := Find(s[1..], d);
      assert forall j :: 1 <= j ==> (OccursAt(s, d, j) <==> OccursAt(s[1..], d, j - 1));
      assert !OccursAt(s, d, 0);
      if k < 0 then -1 else k + 1
  }

  /** The pieces of s between occurrences of d, scanning left to right. */
  function Split(s: string, d: string): seq<string>
    requires |d| > 0
    decreases |s|
  {
    var i := Find(s, d);
    if i < 0 then [s] else [s[..i]] + Split(s[i + |d|..], d)
  }

  /** The pieces written one after another with d between neighbours. */
  function Join(pieces: seq<string>, d: string): string
  {
    if |pieces| == 0 then ""
    else if |pieces| == 1 then pieces[0]
    else pieces[0] + d + Join(pieces[1..], d)
  }

  /** The part of s before the first occurrence of d does not contain d. */
  lemma PrefixBeforeFirstIsClean(s: string, d: string)
    requires |d| > 0 && Find(s, d) >= 0
    ensures !Contains(s[..Find(s, d)], d)
  {
    var i := Find(s, d);
    forall j | 0 <= j <= i
      ensures !OccursAt(s[..i], d, j)
    {
      if j + |d| <= i {
        assert s[..i][j..j + |d|] == s[j..j + |d|];
        assert !OccursAt(s, d, j);
      }
    }
  }

  /** Joining a list of two or more pieces: the first piece, the delimiter, the rest joined. */
  lemma JoinCons(a: string, rest: seq<string>, d: string)
    requires |rest| >= 1
    ensures Join([a] + rest, d) == a + d + Join(rest, d)
  {
    assert ([a] + rest)[1..] == rest;
  }

  /** When d occurs in s, the split is the part before the first occurrence
      followed by the split of what comes after it. */
  lemma SplitUnfold(s: string, d: string)
    requires |d| > 0 && Find(s, d) >= 0
    ensures Split(s, d) == [s[..Find(s, d)]] + Split(s[Find(s, d) + |d|..], d)
    ensures s == s[..Find(s, d)] + d + s[Find(s, d) + |d|..]
  {
    var i := Find(s, d);
    assert Split(s, d) == [s[..i]] + Split(s[i + |d|..], d);
    assert OccursAt(s, d, i);
    SliceAround(s, i, i + |d|);
  }

  /** A string is its prefix, a middle slice and its suffix, one after another. */
  lemma SliceAround(s: string, i: int, j: int)
    requires 0 <= i <= j <= |s|
    ensures s == s[..i] + s[i..j] + s[j..]
  {
    assert s[..j] == s[..i] + s[i..j];
  }

  /** Splitting yields at least one piece, and joining the pieces with the
      delimiter gives back the input. */
  lemma {:induction false} SplitJoin(s: string, d: string)
    requires |d| > 0
    ensures |Split(s, d)| >= 1
    ensures Join(Split(s, d), d) == s
    decreases |s|
  {
    if Find(s, d) >= 0 {
      var i := Find(s, d);
      var rest := s[i + |d|..];
      SplitUnfold(s, d);
      SplitJoin(rest, d);
      JoinCons(s[..i], Split(rest, d), d);
    }
  }

  /** No piece of a split contains the delimiter. */
  lemma {:induction false} SplitPiecesClean(s: string, d: string)
    requires |d| > 0
    ensures forall k :: 0 <= k < |Split(s, d)| ==> !Contains(Split(s, d)[k], d)
    decreases |s|
  {
    var i := Find(s, d);
    if i >= 0 {
      var rest := s[i + |d|..];
      SplitPiecesClean(rest, d);
      PrefixBeforeFirstIsClean(s, d);
      var ps := Split(s, d);
      assert ps == [s[..i]] + Split(rest, d);
      forall k | 0 <= k < |ps|
        ensures !Contains(ps[k], d)
      {
        if k > 0 {
          assert ps[k] == Split(rest, d)[k - 1];
        }
      }
    }
  }

  /** With a one-character delimiter, a piece free of it followed by the
      delimiter is found at the end of that piece. */
  lemma FindAfterCleanPiece(a: string, d: string, b: string)
    requires |d| == 1 && !Contains(a, d)
    ensures Find(a + d + b, d) == |a|
  {
    var s := a + d + b;
    assert OccursAt(s, d, |a|) by {
      assert s[|a|..|a| + 1] == d;
    }
    forall j | 0 <= j < |a|
      ensures !OccursAt(s, d, j)
    {
      assert s[j..j + 1] == a[j..j + 1];
      assert !OccursAt(a, d, j);
    }
  }

  /** Joining then splitting on a one-character delimiter gives back any
      non-empty list of pieces free of that character. */
  lemma {:induction false} JoinSplit(pieces: seq<string>, d: string)
    requires |d| == 1 && |pieces| >= 1
    requires forall k :: 0 <= k < |pieces| ==> !Contains(pieces[k], d)
    ensures Split(Join(pieces, d), d) == pieces
    decreases |pieces|
  {
    if |pieces| == 1 {
      assert Join(pieces, d) == pieces[0];
    } else {
      var a := pieces[0];
      var b := Join(pieces[1..], d);
      assert Join(pieces, d) == a + d + b;
      SplitAfterCleanPiece(a, d, b);
      JoinSplit(pieces[1..], d);
      assert pieces == [a] + pieces[1..];
    }
  }

  /** Splitting a piece free of a one-character delimiter, the delimiter and
      a rest gives that piece followed by the split of the rest. */
  lemma SplitAfterCleanPiece(a: string, d: string, b: string)
    requires |d| == 1 && !Contains(a, d)
    ensures Split(a + d + b, d) == [a] + Split(b, d)
  {
    var s := a + d + b;
    FindAfterCleanPiece(a, d, b);
    assert s[..|a|] == a;
    assert s[|a| + 1..] == b;
  }
}
