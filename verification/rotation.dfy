/** Rotation of a string by one place: the last character moves to the
    front and every other character moves one place to the right.  The
    parasitic-number search applies it to the decimal string of a candidate. */
module Rotation {

  /** `(s[-1] + s)[:-1]`. Indexing `s[-1]` needs a non-empty string. */
  function Rotate<T>(s: seq<T>): (r: seq<T>)
    requires |s| >= 1
    ensures |r| == |s|
    ensures r[0] == s[|s| - 1]
    ensures forall i :: 0 <= i < |s| - 1 ==> r[i + 1] == s[i]
  {
    ([s[|s| - 1]] + s)[..|s|]
  }

  /** The opposite rotation: the first character moves to the end. */
  function RotateBack<T>(s: seq<T>): (r: seq<T>)
    requires |s| >= 1
    ensures |r| == |s|
    ensures r[|s| - 1] == s[0]
    ensures forall i :: 0 <= i < |s| - 1 ==> r[i] == s[i + 1]
  {
    s[1..] + [s[0]]
  }

  /** Each rotation undoes the other. */
  lemma RotateInverse<T>(s: seq<T>)
    requires |s| >= 1
    ensures RotateBack(Rotate(s)) == s
    ensures Rotate(RotateBack(s)) == s
  {
  }

  /** `k` rotations in a row. */
  function RotateN<T>(s: seq<T>, k: nat): (r: seq<T>)
    requires |s| >= 1
    ensures |r| == |s|
  {
    if k == 0 then s else Rotate(RotateN(s, k - 1))
  }

  /** After `k <= |s|` rotations the last `k` characters lead, in order. */
  lemma {:induction false} RotateNSplit<T>(s: seq<T>, k: nat)
    requires 1 <= |s| && k <= |s|
    ensures RotateN(s, k) == s[|s| - k..] + s[..|s| - k]
  {
    if k > 0 {
      var n := |s|;
      var tail := s[n - (k - 1)..];
      var head := s[..n - k];
      var x := s[n - k];
      assert RotateN(s, k - 1) == (tail + head) + [x] by {
        RotateNSplit(s, k - 1);
        SplitAround(s, n - k);
        AppendAssoc(tail, head, [x]);
      }
      assert RotateN(s, k) == [x] + (tail + head) by {
        RotateSnoc(tail + head, x);
      }
      SplitAround(s, n - k);
      AppendAssoc([x], tail, head);
    }
  }

  /** Cutting `s` on either side of position `j`. */
  lemma SplitAround<T>(s: seq<T>, j: int)
    requires 0 <= j < |s|
    ensures s[..j + 1] == s[..j] + [s[j]]
    ensures s[j..] == [s[j]] + s[j + 1..]
  {
  }

  lemma AppendAssoc<T>(a: seq<T>, b: seq<T>, c: seq<T>)
    ensures a + (b + c) == (a + b) + c
  {
  }

  /** Rotation keeps every digit: the multiset of characters is unchanged. */
  lemma RotatePermutes<T>(s: seq<T>)
    requires |s| >= 1
    ensures multiset(Rotate(s)) == multiset(s)
  {
    var n := |s|;
    assert s == s[..n - 1] + [s[n - 1]];
    RotateSnoc(s[..n - 1], s[n - 1]);
  }

  /** Rotating `p + [x]` puts `x` in front of `p`. */
  lemma RotateSnoc<T>(p: seq<T>, x: T)
    ensures Rotate(p + [x]) == [x] + p
  {
    assert (p + [x])[..|p|] == p;
  }

  /** Rotating a `d`-character string `d` times gives it back. */
  lemma RotateFullCycle<T>(s: seq<T>)
    requires |s| >= 1
    ensures RotateN(s, |s|) == s
  {
    RotateNSplit(s, |s|);
    assert s[0..] == s;
  }
}
