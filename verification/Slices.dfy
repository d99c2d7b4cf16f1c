/** Slicing facts about concatenations, each proved where nothing else is in scope. */
module Slices {

  /** `s` with the range starting at `at` replaced by `src`. */
  function Splice<T>(s: seq<T>, at: nat, src: seq<T>): (r: seq<T>)
    requires at + |src| <= |s|
    ensures |r| == |s|
  {
    s[..at] + src + s[at + |src|..]
  }

  lemma SliceLeft<T>(a: seq<T>, b: seq<T>, i: nat, j: nat)
    requires i <= j <= |a|
    ensures (a + b)[i..j] == a[i..j]
  {
  }

  lemma SliceRight<T>(a: seq<T>, b: seq<T>, i: nat, j: nat)
    requires |a| <= i <= j <= |a| + |b|
    ensures (a + b)[i..j] == b[i - |a|..j - |a|]
  {
  }

  lemma SliceOfPrefix<T>(s: seq<T>, n: nat, i: nat, j: nat)
    requires i <= j <= n <= |s|
    ensures s[..n][i..j] == s[i..j]
  {
  }

  lemma SliceOfSuffix<T>(s: seq<T>, n: nat, i: nat, j: nat)
    requires n <= |s| && i <= j <= |s| - n
    ensures s[n..][i..j] == s[n + i..n + j]
  {
  }

  lemma SliceOfMiddle<T>(s: seq<T>, n: nat, m: nat, i: nat, j: nat)
    requires n <= m <= |s| && i <= j <= m - n
    ensures s[n..m][i..j] == s[n + i..n + j]
  {
    SliceOfSuffix(s[..m], n, i, j);
    SliceOfPrefix(s, m, n + i, n + j);
  }

  /** Replacing the middle of three parts. */
  lemma ReplaceMiddle<T>(a: seq<T>, b: seq<T>, c: seq<T>, new_: seq<T>)
    requires |new_| == |b|
    ensures Splice(a + b + c, |a|, new_) == a + new_ + c
  {
    assert (a + b + c)[..|a|] == a;
    assert (a + b + c)[|a| + |b|..] == c;
  }

  /** Replacing the first items of three parts. */
  lemma ReplaceFront<T>(a: seq<T>, b: seq<T>, c: seq<T>, new_: seq<T>)
    requires |new_| <= |a|
    ensures Splice(a + b + c, 0, new_) == new_ + a[|new_|..] + b + c
  {
    assert (a + b + c)[|new_|..] == a[|new_|..] + b + c;
  }

  /** Appending room and moving the tail into it. */
  lemma MoveTail<T>(a: seq<T>, b: seq<T>, room: seq<T>)
    ensures var s := a + b + room;
            Splice(s, |a| + |room|, s[|a|..|a| + |b|]) == a + (b + room)[..|room|] + b
  {
    var s := a + b + room;
    assert s == a + (b + room);
    assert s[..|a| + |room|] == a + (b + room)[..|room|];
    assert s[|a|..|a| + |b|] == b;
  }

  /** What a slice reads after another range has been overwritten. */
  lemma ReadAfterOverwrite<T>(s: seq<T>, at: nat, src: seq<T>, i: nat, j: nat)
    requires at + |src| <= |s| && i <= j <= |s|
    ensures var r := Splice(s, at, src);
            && (j <= at || at + |src| <= i ==> r[i..j] == s[i..j])
            && (at <= i && j <= at + |src| ==> r[i..j] == src[i - at..j - at])
  {
    var r := Splice(s, at, src);
    if j <= at {
      assert r[i..j] == s[i..j];
    } else if at + |src| <= i {
      assert r[i..j] == s[i..j];
    } else if at <= i && j <= at + |src| {
      assert r[i..j] == src[i - at..j - at];
    }
  }
}
