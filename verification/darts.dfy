/** The darts enumeration: which totals can be scored with one, two or three
    darts, counting every ordered combination of single-dart scores, and the
    lowest total that cannot be scored. A separate three-dart tally counts
    only combinations that contain at least one finishing (double) dart. */
module Darts {
  import opened Wrappers

  /** The highest score of one dart: treble 20. */
  const MaxDart: int := 60

  // ---------------------------------------------------------------------
  // Score sets.
  // ---------------------------------------------------------------------

  /** Single, double or treble of 0..20 (0 is a miss), the outer bull 25
      or the bullseye 50. */
  predicate IsSingleDartScore(x: int) {
    || (0 <= x <= 20)
    || (0 <= x <= 40 && x % 2 == 0)
    || (0 <= x <= 60 && x % 3 == 0)
    || x == 25
    || x == 50
  }

  /** A double of 0..20 or the bullseye. */
  predicate IsFinishingDartScore(x: int) {
    (0 <= x <= 40 && x % 2 == 0) || x == 50
  }

  /** The set after the loop has added `d`, `d*2` and `d*3` for each `d < k`. */
  function SinglesUpTo(k: nat): set<int> {
    if k == 0 then {} else SinglesUpTo(k - 1) + {k - 1, (k - 1) * 2, (k - 1) * 3}
  }

  /** The set after the loop has added `d*2` for each `d < k`. */
  function DoublesUpTo(k: nat): set<int> {
    if k == 0 then {} else DoublesUpTo(k - 1) + {(k - 1) * 2}
  }

  lemma {:induction false} SinglesUpToMembers(k: nat, x: int)
    ensures x in SinglesUpTo(k) <==>
      (0 <= x < k) || (0 <= x < 2 * k && x % 2 == 0) || (0 <= x < 3 * k && x % 3 == 0)
  {
    if k > 0 {
      SinglesUpToMembers(k - 1, x);
      DoubleStep(x, k);
      TrebleStep(x, k);
    }
  }

  /** The even numbers below `2k` are those below `2(k - 1)` and `2(k - 1)`. */
  lemma DoubleStep(x: int, k: nat)
    requires k >= 1
    ensures (0 <= x < 2 * k && x % 2 == 0) <==>
      (0 <= x < 2 * (k - 1) && x % 2 == 0) || x == 2 * (k - 1)
  {
  }

  /** The multiples of 3 below `3k` are those below `3(k - 1)` and `3(k - 1)`. */
  lemma TrebleStep(x: int, k: nat)
    requires k >= 1
    ensures (0 <= x < 3 * k && x % 3 == 0) <==>
      (0 <= x < 3 * (k - 1) && x % 3 == 0) || x == 3 * (k - 1)
  {
  }

  lemma {:induction false} DoublesUpToMembers(k: nat, x: int)
    ensures x in DoublesUpTo(k) <==> 0 <= x < 2 * k && x % 2 == 0
  {
    if k > 0 {
      DoublesUpToMembers(k - 1, x);
    }
  }

  /** No element twice. */
  predicate Distinct(xs: seq<int>) {
    forall i, j :: 0 <= i < j < |xs| ==> xs[i] != xs[j]
  }

  /** `list(s)`: the elements of a set, each once, in an order the program
      does not fix. */
  method SetToList(s: set<int>) returns (xs: seq<int>)
    ensures Distinct(xs)
    ensures forall x :: x in xs <==> x in s
  {
    xs := [];
    var rest := s;
    while rest != {}
      invariant rest <= s
      invariant Distinct(xs)
      invariant forall x :: x in xs <==> x in s && x !in rest
      decreases |rest|
    {
      NonEmptyHasElement(rest);
      var x :| x in rest;
      xs := xs + [x];
      rest := rest - {x};
    }
  }

  lemma NonEmptyHasElement(s: set<int>)
    requires s != {}
    ensures exists x :: x in s
  {
    if forall x :: x !in s {
      assert false;
    }
  }

  /** `setUpPossibleSingleDartScores`: every single-dart score once. */
  method SetUpSingleDartScores() returns (scores: seq<int>)
    ensures Distinct(scores)
    ensures forall x :: x in scores <==> IsSingleDartScore(x)
    ensures forall i :: 0 <= i < |scores| ==> 0 <= scores[i] <= MaxDart
  {
    var s: set<int> := {};
    var d := 0;
    while d < 21
      invariant 0 <= d <= 21
      invariant s == SinglesUpTo(d)
    {
      s := s + {d, d * 2, d * 3};
      d := d + 1;
    }
    s := s + {25, 50};
    forall x
      ensures x in s <==> IsSingleDartScore(x)
    {
      SinglesUpToMembers(d, x);
      SingleScoreRanges(x);
    }
    scores := SetToList(s);
    forall i | 0 <= i < |scores|
      ensures 0 <= scores[i] <= MaxDart
    {
      assert IsSingleDartScore(scores[i]);
    }
  }

  /** The loop's ranges `d`, `2d`, `3d` for `d` in 0..20, and the two bulls. */
  lemma SingleScoreRanges(x: int)
    ensures IsSingleDartScore(x) <==>
      (0 <= x < 21) || (0 <= x < 42 && x % 2 == 0) || (0 <= x < 63 && x % 3 == 0)
      || x == 25 || x == 50
  {
  }

  /** `setUpPossibleFinishingDartScores`: every double and the bullseye once. */
  method SetUpFinishingDartScores() returns (scores: seq<int>)
    ensures Distinct(scores)
    ensures forall x :: x in scores <==> IsFinishingDartScore(x)
  {
    var s: set<int> := {};
    var d := 0;
    while d < 21
      invariant 0 <= d <= 21
      invariant s == DoublesUpTo(d)
    {
      s := s + {d * 2};
      d := d + 1;
    }
    s := s + {50};
    forall x
      ensures x in s <==> IsFinishingDartScore(x)
    {
      DoublesUpToMembers(d, x);
      FinishingScoreRanges(x);
    }
    scores := SetToList(s);
  }

  /** The loop's doubles `2d` for `d` in 0..20, and the bullseye. */
  lemma FinishingScoreRanges(x: int)
    ensures IsFinishingDartScore(x) <==> (0 <= x < 42 && x % 2 == 0) || x == 50
  {
  }

  /** Every finishing score is a single-dart score. */
  lemma FinishingAreSingles(x: int)
    requires IsFinishingDartScore(x)
    ensures IsSingleDartScore(x)
  {
  }

  // ---------------------------------------------------------------------
  // Tallies.
  // ---------------------------------------------------------------------

  /** `(score, ways, example)`: a total, the number of ordered dart
      combinations reaching it, and the last combination that did
      (`[]` stands for the initial placeholder 0). */
  datatype Entry = Entry(score: int, ways: nat, example: seq<int>)

  /** `setupList(high)`: entries for totals 0..high, none reached yet. */
  method SetupList(high: int) returns (a: seq<Entry>)
    ensures |a| == if high < 0 then 0 else high + 1
    ensures forall i :: 0 <= i < |a| ==> a[i] == Entry(i, 0, [])
  {
    a := [];
    var i := 0;
    while i < high + 1
      invariant 0 <= i
      invariant i <= high + 1 || (high < 0 && i == 0)
      invariant |a| == i
      invariant forall j :: 0 <= j < i ==> a[j] == Entry(j, 0, [])
    {
      a := a + [Entry(i, 0, [])];
      i := i + 1;
    }
  }

  function Sum(ds: seq<int>): int {
    if ds == [] then 0 else ds[0] + Sum(ds[1..])
  }

  /** Each entry's score is its index; a reached entry holds an example of
      `k` darts from `xs` that add up to its total. */
  predicate Consistent(a: seq<Entry>, k: nat, xs: seq<int>) {
    forall t :: 0 <= t < |a| ==>
      && a[t].score == t
      && (a[t].ways > 0 ==>
            && |a[t].example| == k
            && Sum(a[t].example) == t
            && forall e :: e in a[t].example ==> e in xs)
  }

  /** `a[total] = (total, a[total][1] + 1, ex)`: one more way to reach
      `total`, with `ex` as its example; every other entry is kept. */
  function Record(a: seq<Entry>, total: int, ex: seq<int>): (b: seq<Entry>)
    requires 0 <= total < |a|
    ensures |b| == |a|
    ensures b[total].ways == a[total].ways + 1 && b[total].example == ex
    ensures forall t :: 0 <= t < |a| && t != total ==> b[t] == a[t]
  {
    a[total := Entry(total, a[total].ways + 1, ex)]
  }

  /** Recording an example of `k` darts from `xs` that adds up to its
      total keeps the table consistent. */
  lemma RecordConsistent(a: seq<Entry>, k: nat, xs: seq<int>, total: int, ex: seq<int>)
    requires 0 <= total < |a| && Consistent(a, k, xs)
    requires |ex| == k && Sum(ex) == total && forall e :: e in ex ==> e in xs
    ensures Consistent(Record(a, total, ex), k, xs)
  {
  }

  lemma SumOfThree(x: int, y: int, z: int)
    ensures Sum([x, y, z]) == x + y + z
  {
    assert [x, y, z][1..] == [y, z];
    SumOfTwo(y, z);
  }

  lemma SumOfTwo(x: int, y: int)
    ensures Sum([x, y]) == x + y
  {
    assert [x, y][1..] == [y];
    assert [y][1..] == [];
    assert Sum([y]) == y;
  }

  function Last(xs: seq<int>): int
    requires xs != []
  {
    xs[|xs| - 1]
  }

  function Init(xs: seq<int>): seq<int>
    requires xs != []
  {
    xs[..|xs| - 1]
  }

  /** Number of positions of `zs` holding `t`: one-dart ways to score `t`. */
  function Ways1(zs: seq<int>, t: int): nat {
    if zs == [] then 0 else Ways1(Init(zs), t) + (if Last(zs) == t then 1 else 0)
  }

  /** Ordered pairs of positions, the first in `ys`, the second in `zs`,
      whose scores add up to `t`. */
  function Ways2(ys: seq<int>, zs: seq<int>, t: int): nat {
    if ys == [] then 0 else Ways2(Init(ys), zs, t) + Ways1(zs, t - Last(ys))
  }

  /** Ordered triples of positions in `xs`, `ys`, `zs` whose scores add up to `t`. */
  function Ways3(xs: seq<int>, ys: seq<int>, zs: seq<int>, t: int): nat {
    if xs == [] then 0 else Ways3(Init(xs), ys, zs, t) + Ways2(ys, zs, t - Last(xs))
  }

  /** The tally's finishing test: at least one of the three darts is a
      finishing score. */
  predicate HasFinish(a: int, b: int, c: int, fin: seq<int>) {
    a in fin || b in fin || c in fin
  }

  /** Third darts `c` in `zs` with `a + b + c == t` and a finishing dart among the three. */
  function FinishWays1(a: int, b: int, zs: seq<int>, fin: seq<int>, t: int): nat {
    if zs == [] then 0
    else FinishWays1(a, b, Init(zs), fin, t)
         + (if a + b + Last(zs) == t && HasFinish(a, b, Last(zs), fin) then 1 else 0)
  }

  /** Second and third darts after a first dart `a`, with a finishing dart. */
  function FinishWays2(a: int, ys: seq<int>, zs: seq<int>, fin: seq<int>, t: int): nat {
    if ys == [] then 0 else FinishWays2(a, Init(ys), zs, fin, t) + FinishWays1(a, Last(ys), zs, fin, t)
  }

  /** Ordered triples of positions adding up to `t` with a finishing dart. */
  function FinishWays3(xs: seq<int>, ys: seq<int>, zs: seq<int>, fin: seq<int>, t: int): nat {
    if xs == [] then 0 else FinishWays3(Init(xs), ys, zs, fin, t) + FinishWays2(Last(xs), ys, zs, fin, t)
  }

  /** One more element of `xs` taken into the prefix. */
  lemma PrefixStep(xs: seq<int>, i: int)
    requires 0 <= i < |xs|
    ensures Init(xs[..i + 1]) == xs[..i] && Last(xs[..i + 1]) == xs[i]
  {
    assert xs[..i + 1][..i] == xs[..i];
  }

  /** Over the board's finishing list, the tally's finishing test says that
      one of the three darts is a double or the bullseye. */
  lemma HasFinishOnBoard(singles: seq<int>, fin: seq<int>, a: int, b: int, c: int)
    requires ListsBoard(singles, fin)
    ensures HasFinish(a, b, c, fin) <==>
      IsFinishingDartScore(a) || IsFinishingDartScore(b) || IsFinishingDartScore(c)
  {
  }

  /** All scores lie between 0 and 60. */
  predicate InDartRange(xs: seq<int>) {
    forall i :: 0 <= i < |xs| ==> 0 <= xs[i] <= MaxDart
  }

  /** The loop over the third dart, for fixed first and second darts. */
  method TallyThirdDart(d1: int, d2: int, singles: seq<int>, fin: seq<int>,
                        a3: seq<Entry>, a3f: seq<Entry>)
    returns (b3: seq<Entry>, b3f: seq<Entry>)
    requires InDartRange(singles) && 0 <= d1 <= MaxDart && 0 <= d2 <= MaxDart
    requires d1 in singles && d2 in singles
    requires |a3| == 3 * MaxDart + 1 && |a3f| == 3 * MaxDart + 1
    requires Consistent(a3, 3, singles) && Consistent(a3f, 3, singles)
    ensures |b3| == 3 * MaxDart + 1 && |b3f| == 3 * MaxDart + 1
    ensures Consistent(b3, 3, singles) && Consistent(b3f, 3, singles)
    ensures forall t :: 0 <= t < |b3| ==> b3[t].ways == a3[t].ways + Ways1(singles, t - d1 - d2)
    ensures forall t :: 0 <= t < |b3f| ==>
      b3f[t].ways == a3f[t].ways + FinishWays1(d1, d2, singles, fin, t)
  {
    b3, b3f := a3, a3f;
    var k := 0;
    assert singles[..0] == [];
    assert forall t :: Ways1(singles[..0], t) == 0;
    assert forall t :: FinishWays1(d1, d2, singles[..0], fin, t) == 0;
    while k < |singles|
      invariant 0 <= k <= |singles|
      invariant |b3| == 3 * MaxDart + 1 && |b3f| == 3 * MaxDart + 1
      invariant Consistent(b3, 3, singles) && Consistent(b3f, 3, singles)
      invariant forall t :: 0 <= t < |b3| ==>
        b3[t].ways == a3[t].ways + Ways1(singles[..k], t - d1 - d2)
      invariant forall t :: 0 <= t < |b3f| ==>
        b3f[t].ways == a3f[t].ways + FinishWays1(d1, d2, singles[..k], fin, t)
    {
      var d3 := singles[k];
      var total := d1 + d2 + d3;
      SumOfThree(d1, d2, d3);
      PrefixStep(singles, k);
      RecordConsistent(b3, 3, singles, total, [d1, d2, d3]);
      b3 := Record(b3, total, [d1, d2, d3]);
      if d1 in fin || d2 in fin || d3 in fin {
        RecordConsistent(b3f, 3, singles, total, [d1, d2, d3]);
        b3f := Record(b3f, total, [d1, d2, d3]);
      }
      k := k + 1;
    }
    assert singles[..k] == singles;
  }

  /** The loop over the second dart, for a fixed first dart. */
  method TallySecondDart(d1: int, singles: seq<int>, fin: seq<int>,
                         a2: seq<Entry>, a3: seq<Entry>, a3f: seq<Entry>)
    returns (b2: seq<Entry>, b3: seq<Entry>, b3f: seq<Entry>)
    requires InDartRange(singles) && 0 <= d1 <= MaxDart && d1 in singles
    requires |a2| == 2 * MaxDart + 1 && |a3| == 3 * MaxDart + 1 && |a3f| == 3 * MaxDart + 1
    requires Consistent(a2, 2, singles)
    requires Consistent(a3, 3, singles) && Consistent(a3f, 3, singles)
    ensures |b2| == 2 * MaxDart + 1 && |b3| == 3 * MaxDart + 1 && |b3f| == 3 * MaxDart + 1
    ensures Consistent(b2, 2, singles)
    ensures Consistent(b3, 3, singles) && Consistent(b3f, 3, singles)
    ensures forall t :: 0 <= t < |b2| ==> b2[t].ways == a2[t].ways + Ways1(singles, t - d1)
    ensures forall t :: 0 <= t < |b3| ==>
      b3[t].ways == a3[t].ways + Ways2(singles, singles, t - d1)
    ensures forall t :: 0 <= t < |b3f| ==>
      b3f[t].ways == a3f[t].ways + FinishWays2(d1, singles, singles, fin, t)
  {
    b2, b3, b3f := a2, a3, a3f;
    var j := 0;
    assert singles[..0] == [];
    assert forall t :: Ways1(singles[..0], t) == 0;
    assert forall t :: Ways2(singles[..0], singles, t) == 0;
    assert forall t :: FinishWays2(d1, singles[..0], singles, fin, t) == 0;
    while j < |singles|
      invariant 0 <= j <= |singles|
      invariant |b2| == 2 * MaxDart + 1 && |b3| == 3 * MaxDart + 1 && |b3f| == 3 * MaxDart + 1
      invariant Consistent(b2, 2, singles)
      invariant Consistent(b3, 3, singles) && Consistent(b3f, 3, singles)
      invariant forall t :: 0 <= t < |b2| ==>
        b2[t].ways == a2[t].ways + Ways1(singles[..j], t - d1)
      invariant forall t :: 0 <= t < |b3| ==>
        b3[t].ways == a3[t].ways + Ways2(singles[..j], singles, t - d1)
      invariant forall t :: 0 <= t < |b3f| ==>
        b3f[t].ways == a3f[t].ways + FinishWays2(d1, singles[..j], singles, fin, t)
    {
      var d2 := singles[j];
      var total := d1 + d2;
      SumOfTwo(d1, d2);
      PrefixStep(singles, j);
      RecordConsistent(b2, 2, singles, total, [d1, d2]);
      b2 := Record(b2, total, [d1, d2]);
      b3, b3f := TallyThirdDart(d1, d2, singles, fin, b3, b3f);
      j := j + 1;
    }
    assert singles[..j] == singles;
  }

  /** The three nested loops over the darts: `a1`, `a2`, `a3` count the
      ordered one-, two- and three-dart combinations reaching each total,
      `a3f` the three-dart ones containing a finishing dart. */
  method Tally(singles: seq<int>, fin: seq<int>)
    returns (a1: seq<Entry>, a2: seq<Entry>, a3: seq<Entry>, a3f: seq<Entry>)
    requires InDartRange(singles)
    ensures |a1| == MaxDart + 1 && |a2| == 2 * MaxDart + 1
    ensures |a3| == 3 * MaxDart + 1 && |a3f| == 3 * MaxDart + 1
    ensures Consistent(a1, 1, singles) && Consistent(a2, 2, singles)
    ensures Consistent(a3, 3, singles) && Consistent(a3f, 3, singles)
    ensures forall t :: 0 <= t < |a1| ==> a1[t].ways == Ways1(singles, t)
    ensures forall t :: 0 <= t < |a2| ==> a2[t].ways == Ways2(singles, singles, t)
    ensures forall t :: 0 <= t < |a3| ==> a3[t].ways == Ways3(singles, singles, singles, t)
    ensures forall t :: 0 <= t < |a3f| ==>
      a3f[t].ways == FinishWays3(singles, singles, singles, fin, t)
  {
    a1 := SetupList(MaxDart);
    a2 := SetupList(2 * MaxDart);
    a3 := SetupList(3 * MaxDart);
    a3f := SetupList(3 * MaxDart);
    var i := 0;
    assert singles[..0] == [];
    assert forall t :: Ways1(singles[..0], t) == 0;
    assert forall t :: Ways2(singles[..0], singles, t) == 0;
    assert forall t :: Ways3(singles[..0], singles, singles, t) == 0;
    assert forall t :: FinishWays3(singles[..0], singles, singles, fin, t) == 0;
    while i < |singles|
      invariant 0 <= i <= |singles|
      invariant |a1| == MaxDart + 1 && |a2| == 2 * MaxDart + 1
      invariant |a3| == 3 * MaxDart + 1 && |a3f| == 3 * MaxDart + 1
      invariant Consistent(a1, 1, singles) && Consistent(a2, 2, singles)
      invariant Consistent(a3, 3, singles) && Consistent(a3f, 3, singles)
      invariant forall t :: 0 <= t < |a1| ==> a1[t].ways == Ways1(singles[..i], t)
      invariant forall t :: 0 <= t < |a2| ==> a2[t].ways == Ways2(singles[..i], singles, t)
      invariant forall t :: 0 <= t < |a3| ==>
        a3[t].ways == Ways3(singles[..i], singles, singles, t)
      invariant forall t :: 0 <= t < |a3f| ==>
        a3f[t].ways == FinishWays3(singles[..i], singles, singles, fin, t)
    {
      var d1 := singles[i];
      PrefixStep(singles, i);
      assert [d1][1..] == [];
      RecordConsistent(a1, 1, singles, d1, [d1]);
      a1 := Record(a1, d1, [d1]);
      a2, a3, a3f := TallySecondDart(d1, singles, fin, a2, a3, a3f);
      forall t | 0 <= t < |a3|
        ensures a3[t].ways == Ways3(singles[..i + 1], singles, singles, t)
        ensures a3f[t].ways == FinishWays3(singles[..i + 1], singles, singles, fin, t)
      {
      }
      i := i + 1;
    }
    assert singles[..i] == singles;
  }

  // ---------------------------------------------------------------------
  // Lowest total that cannot be scored.
  // ---------------------------------------------------------------------

  /** The scan for the lowest non-gettable score: the first total with no
      way of scoring it, or `None` when every total in the list is reached
      (the loop then prints nothing). */
  method LowestUnreachable(a: seq<Entry>) returns (r: Option<nat>)
    ensures r.Some? ==> r.value < |a| && a[r.value].ways == 0
    ensures r.Some? ==> forall t :: 0 <= t < r.value ==> a[t].ways > 0
    ensures r.None? <==> forall t :: 0 <= t < |a| ==> a[t].ways > 0
  {
    var i := 0;
    while i < |a|
      invariant 0 <= i <= |a|
      invariant forall t :: 0 <= t < i ==> a[t].ways > 0
    {
      if a[i].ways == 0 {
        return Some(i);
      }
      i := i + 1;
    }
    return None;
  }

  // ---------------------------------------------------------------------
  // What the counts mean.
  // ---------------------------------------------------------------------

  /** A total is reached by one dart exactly when it is one of the scores. */
  lemma {:induction false} Ways1Positive(zs: seq<int>, t: int)
    ensures Ways1(zs, t) > 0 <==> t in zs
  {
    if zs != [] {
      Ways1Positive(Init(zs), t);
      assert zs == Init(zs) + [Last(zs)];
    }
  }

  /** Among distinct scores each total has at most one one-dart way. */
  lemma {:induction false} Ways1Distinct(zs: seq<int>, t: int)
    requires Distinct(zs)
    ensures Ways1(zs, t) <= 1
  {
    if zs != [] {
      var p := Init(zs);
      assert Distinct(p);
      Ways1Distinct(p, t);
      if Last(zs) == t {
        Ways1Positive(p, t);
      }
    }
  }

  /** A total is reached by two darts exactly when some ordered pair of
      positions adds up to it. */
  lemma Ways2Positive(ys: seq<int>, zs: seq<int>, t: int)
    ensures Ways2(ys, zs, t) > 0 <==>
      exists i, j :: 0 <= i < |ys| && 0 <= j < |zs| && ys[i] + zs[j] == t
  {
    if Ways2(ys, zs, t) > 0 {
      Ways2Witness(ys, zs, t);
    }
    if exists i, j :: 0 <= i < |ys| && 0 <= j < |zs| && ys[i] + zs[j] == t {
      var i, j :| 0 <= i < |ys| && 0 <= j < |zs| && ys[i] + zs[j] == t;
      Ways2Counts(ys, zs, t, i, j);
    }
  }

  lemma {:induction false} Ways2Witness(ys: seq<int>, zs: seq<int>, t: int)
    requires Ways2(ys, zs, t) > 0
    ensures exists i, j :: 0 <= i < |ys| && 0 <= j < |zs| && ys[i] + zs[j] == t
  {
    var p := Init(ys);
    var y := Last(ys);
    if Ways2(p, zs, t) > 0 {
      Ways2Witness(p, zs, t);
      var i, j :| 0 <= i < |p| && 0 <= j < |zs| && p[i] + zs[j] == t;
      assert ys[i] + zs[j] == t;
    } else {
      Ways1Positive(zs, t - y);
      var j :| 0 <= j < |zs| && zs[j] == t - y;
      assert ys[|ys| - 1] + zs[j] == t;
    }
  }

  lemma {:induction false} Ways2Counts(ys: seq<int>, zs: seq<int>, t: int, i: int, j: int)
    requires 0 <= i < |ys| && 0 <= j < |zs| && ys[i] + zs[j] == t
    ensures Ways2(ys, zs, t) > 0
  {
    var p := Init(ys);
    if i < |p| {
      assert p[i] == ys[i];
      Ways2Counts(p, zs, t, i, j);
    } else {
      Ways1Positive(zs, t - ys[i]);
    }
  }

  /** A total is reached by three darts exactly when some ordered triple of
      positions adds up to it. */
  lemma Ways3Positive(xs: seq<int>, ys: seq<int>, zs: seq<int>, t: int)
    ensures Ways3(xs, ys, zs, t) > 0 <==>
      exists i, j, k :: 0 <= i < |xs| && 0 <= j < |ys| && 0 <= k < |zs|
                        && xs[i] + ys[j] + zs[k] == t
  {
    if Ways3(xs, ys, zs, t) > 0 {
      Ways3Witness(xs, ys, zs, t);
    }
    if exists i, j, k :: 0 <= i < |xs| && 0 <= j < |ys| && 0 <= k < |zs|
                         && xs[i] + ys[j] + zs[k] == t {
      var i, j, k :| 0 <= i < |xs| && 0 <= j < |ys| && 0 <= k < |zs|
                     && xs[i] + ys[j] + zs[k] == t;
      Ways3Counts(xs, ys, zs, t, i, j, k);
    }
  }

  lemma {:induction false} Ways3Witness(xs: seq<int>, ys: seq<int>, zs: seq<int>, t: int)
    requires Ways3(xs, ys, zs, t) > 0
    ensures exists i, j, k :: 0 <= i < |xs| && 0 <= j < |ys| && 0 <= k < |zs|
                              && xs[i] + ys[j] + zs[k] == t
  {
    var p := Init(xs);
    var x := Last(xs);
    if Ways3(p, ys, zs, t) > 0 {
      Ways3Witness(p, ys, zs, t);
      var i, j, k :| 0 <= i < |p| && 0 <= j < |ys| && 0 <= k < |zs|
                     && p[i] + ys[j] + zs[k] == t;
      assert xs[i] + ys[j] + zs[k] == t;
    } else {
      Ways2Positive(ys, zs, t - x);
      var j, k :| 0 <= j < |ys| && 0 <= k < |zs| && ys[j] + zs[k] == t - x;
      assert xs[|xs| - 1] + ys[j] + zs[k] == t;
    }
  }

  lemma {:induction false} Ways3Counts(xs: seq<int>, ys: seq<int>, zs: seq<int>, t: int,
                                       i: int, j: int, k: int)
    requires 0 <= i < |xs| && 0 <= j < |ys| && 0 <= k < |zs| && xs[i] + ys[j] + zs[k] == t
    ensures Ways3(xs, ys, zs, t) > 0
  {
    var p := Init(xs);
    if i < |p| {
      assert p[i] == xs[i];
      Ways3Counts(p, ys, zs, t, i, j, k);
    } else {
      Ways2Positive(ys, zs, t - xs[i]);
    }
  }

  /** Counting only combinations with a finishing dart never counts more:
      the third-dart step. */
  lemma {:induction false} FinishWays1AtMost(a: int, b: int, zs: seq<int>, fin: seq<int>, t: int)
    ensures FinishWays1(a, b, zs, fin, t) <= Ways1(zs, t - a - b)
  {
    if zs != [] {
      FinishWays1AtMost(a, b, Init(zs), fin, t);
    }
  }

  lemma {:induction false} FinishWays2AtMost(a: int, ys: seq<int>, zs: seq<int>, fin: seq<int>, t: int)
    ensures FinishWays2(a, ys, zs, fin, t) <= Ways2(ys, zs, t - a)
  {
    if ys != [] {
      FinishWays2AtMost(a, Init(ys), zs, fin, t);
      FinishWays1AtMost(a, Last(ys), zs, fin, t);
    }
  }

  /** Every three-dart finish is a three-dart score: `a3Finish` never
      exceeds `a3`. */
  lemma {:induction false} FinishWays3AtMost(xs: seq<int>, ys: seq<int>, zs: seq<int>,
                                             fin: seq<int>, t: int)
    ensures FinishWays3(xs, ys, zs, fin, t) <= Ways3(xs, ys, zs, t)
  {
    if xs != [] {
      FinishWays3AtMost(Init(xs), ys, zs, fin, t);
      FinishWays2AtMost(Last(xs), ys, zs, fin, t);
    }
  }

  lemma {:induction false} FinishWays1Positive(a: int, b: int, zs: seq<int>, fin: seq<int>, t: int)
    ensures FinishWays1(a, b, zs, fin, t) > 0 <==>
      exists k :: 0 <= k < |zs| && a + b + zs[k] == t && HasFinish(a, b, zs[k], fin)
  {
    if zs != [] {
      var p := Init(zs);
      FinishWays1Positive(a, b, p, fin, t);
      if exists k :: 0 <= k < |zs| && a + b + zs[k] == t && HasFinish(a, b, zs[k], fin) {
        var k :| 0 <= k < |zs| && a + b + zs[k] == t && HasFinish(a, b, zs[k], fin);
        if k < |p| {
          assert p[k] == zs[k];
        }
      }
      if FinishWays1(a, b, p, fin, t) > 0 {
        var k :| 0 <= k < |p| && a + b + p[k] == t && HasFinish(a, b, p[k], fin);
        assert zs[k] == p[k];
      }
    }
  }

  lemma FinishWays2Positive(a: int, ys: seq<int>, zs: seq<int>, fin: seq<int>, t: int)
    ensures FinishWays2(a, ys, zs, fin, t) > 0 <==>
      exists j, k :: 0 <= j < |ys| && 0 <= k < |zs| && a + ys[j] + zs[k] == t
                     && HasFinish(a, ys[j], zs[k], fin)
  {
    if FinishWays2(a, ys, zs, fin, t) > 0 {
      FinishWays2Witness(a, ys, zs, fin, t);
    }
    if exists j, k :: 0 <= j < |ys| && 0 <= k < |zs| && a + ys[j] + zs[k] == t
                      && HasFinish(a, ys[j], zs[k], fin) {
      var j, k :| 0 <= j < |ys| && 0 <= k < |zs| && a + ys[j] + zs[k] == t
                  && HasFinish(a, ys[j], zs[k], fin);
      FinishWays2Counts(a, ys, zs, fin, t, j, k);
    }
  }

  lemma {:induction false} FinishWays2Witness(a: int, ys: seq<int>, zs: seq<int>, fin: seq<int>, t: int)
    requires FinishWays2(a, ys, zs, fin, t) > 0
    ensures exists j, k :: 0 <= j < |ys| && 0 <= k < |zs| && a + ys[j] + zs[k] == t
                           && HasFinish(a, ys[j], zs[k], fin)
  {
    var p := Init(ys);
    var y := Last(ys);
    if FinishWays2(a, p, zs, fin, t) > 0 {
      FinishWays2Witness(a, p, zs, fin, t);
      var j, k :| 0 <= j < |p| && 0 <= k < |zs| && a + p[j] + zs[k] == t
                  && HasFinish(a, p[j], zs[k], fin);
      assert ys[j] == p[j];
    } else {
      FinishWays1Positive(a, y, zs, fin, t);
      var k :| 0 <= k < |zs| && a + y + zs[k] == t && HasFinish(a, y, zs[k], fin);
      assert ys[|ys| - 1] == y;
    }
  }

  lemma {:induction false} FinishWays2Counts(a: int, ys: seq<int>, zs: seq<int>, fin: seq<int>, t: int,
                                             j: int, k: int)
    requires 0 <= j < |ys| && 0 <= k < |zs| && a + ys[j] + zs[k] == t
    requires HasFinish(a, ys[j], zs[k], fin)
    ensures FinishWays2(a, ys, zs, fin, t) > 0
  {
    var p := Init(ys);
    if j < |p| {
      assert p[j] == ys[j];
      FinishWays2Counts(a, p, zs, fin, t, j, k);
    } else {
      FinishWays1Positive(a, ys[j], zs, fin, t);
    }
  }

  /** A total is a three-dart finish exactly when some ordered triple of
      positions adds up to it and holds a finishing score. */
  lemma FinishWays3Positive(xs: seq<int>, ys: seq<int>, zs: seq<int>, fin: seq<int>, t: int)
    ensures FinishWays3(xs, ys, zs, fin, t) > 0 <==>
      exists i, j, k :: 0 <= i < |xs| && 0 <= j < |ys| && 0 <= k < |zs|
                        && xs[i] + ys[j] + zs[k] == t && HasFinish(xs[i], ys[j], zs[k], fin)
  {
    if FinishWays3(xs, ys, zs, fin, t) > 0 {
      FinishWays3Witness(xs, ys, zs, fin, t);
    }
    if exists i, j, k :: 0 <= i < |xs| && 0 <= j < |ys| && 0 <= k < |zs|
                         && xs[i] + ys[j] + zs[k] == t && HasFinish(xs[i], ys[j], zs[k], fin) {
      var i, j, k :| 0 <= i < |xs| && 0 <= j < |ys| && 0 <= k < |zs|
                     && xs[i] + ys[j] + zs[k] == t && HasFinish(xs[i], ys[j], zs[k], fin);
      FinishWays3Counts(xs, ys, zs, fin, t, i, j, k);
    }
  }

  lemma {:induction false} FinishWays3Witness(xs: seq<int>, ys: seq<int>, zs: seq<int>,
                                              fin: seq<int>, t: int)
    requires FinishWays3(xs, ys, zs, fin, t) > 0
    ensures exists i, j, k :: 0 <= i < |xs| && 0 <= j < |ys| && 0 <= k < |zs|
                              && xs[i] + ys[j] + zs[k] == t && HasFinish(xs[i], ys[j], zs[k], fin)
  {
    var p := Init(xs);
    var x := Last(xs);
    if FinishWays3(p, ys, zs, fin, t) > 0 {
      FinishWays3Witness(p, ys, zs, fin, t);
      var i, j, k :| 0 <= i < |p| && 0 <= j < |ys| && 0 <= k < |zs|
                     && p[i] + ys[j] + zs[k] == t && HasFinish(p[i], ys[j], zs[k], fin);
      assert xs[i] == p[i];
    } else {
      FinishWays2Witness(x, ys, zs, fin, t);
      var j, k :| 0 <= j < |ys| && 0 <= k < |zs| && x + ys[j] + zs[k] == t
                  && HasFinish(x, ys[j], zs[k], fin);
      assert xs[|xs| - 1] == x;
    }
  }

  lemma {:induction false} FinishWays3Counts(xs: seq<int>, ys: seq<int>, zs: seq<int>,
                                             fin: seq<int>, t: int, i: int, j: int, k: int)
    requires 0 <= i < |xs| && 0 <= j < |ys| && 0 <= k < |zs| && xs[i] + ys[j] + zs[k] == t
    requires HasFinish(xs[i], ys[j], zs[k], fin)
    ensures FinishWays3(xs, ys, zs, fin, t) > 0
  {
    var p := Init(xs);
    if i < |p| {
      assert p[i] == xs[i];
      FinishWays3Counts(p, ys, zs, fin, t, i, j, k);
    } else {
      FinishWays2Counts(xs[i], ys, zs, fin, t, j, k);
    }
  }

  // ---------------------------------------------------------------------
  // The board's reachable totals, stated without the tallies.
  // ---------------------------------------------------------------------

  /** Some two single-dart scores add up to `t`. */
  ghost predicate TwoDartScore(t: int) {
    exists x, y :: IsSingleDartScore(x) && IsSingleDartScore(y) && x + y == t
  }

  /** Some three single-dart scores add up to `t`. */
  ghost predicate ThreeDartScore(t: int) {
    exists x, y, z :: ScoreTriple(x, y, z, t)
  }

  /** Three single-dart scores adding up to `t`. */
  predicate ScoreTriple(x: int, y: int, z: int, t: int) {
    IsSingleDartScore(x) && IsSingleDartScore(y) && IsSingleDartScore(z) && x + y + z == t
  }

  /** Three single-dart scores, one of them a finishing score, adding up to `t`. */
  predicate FinishTriple(x: int, y: int, z: int, t: int) {
    && IsSingleDartScore(x) && IsSingleDartScore(y) && IsSingleDartScore(z)
    && x + y + z == t
    && (IsFinishingDartScore(x) || IsFinishingDartScore(y) || IsFinishingDartScore(z))
  }

  /** Some three single-dart scores, one of them a finishing score, add up to `t`. */
  ghost predicate ThreeDartFinish(t: int) {
    exists x, y, z :: FinishTriple(x, y, z, t)
  }

  /** Two darts reaching each total below 103 and a few above it. */
  lemma TwoDartWitness(t: int) returns (x: int, y: int)
    requires 0 <= t <= 102 || t == 104 || t == 105 || t == 107 || t == 108 || t == 117 || t == 120
    ensures IsSingleDartScore(x) && IsSingleDartScore(y) && x + y == t
  {
    if t <= 20 {
      x, y := 0, t;
    } else if t <= 40 {
      x, y := 20, t - 20;
    } else if t <= 60 {
      x, y := 40, t - 40;
    } else if t <= 80 {
      x, y := 60, t - 60;
    } else if t <= 100 {
      if t % 2 == 0 || t == 85 || (t - 60) % 3 == 0 {
        assert (t - 60) % 2 == 0 || t - 60 == 25 || (t - 60) % 3 == 0;
        x, y := 60, t - 60;
      } else {
        assert t != 99 && (t - 57) % 2 == 0;
        x, y := 57, t - 57;
      }
    } else if t == 101 {
      x, y := 51, 50;
    } else if t == 104 || t == 107 {
      x, y := t - 50, 50;
    } else {
      x, y := 60, t - 60;
    }
  }

  /** A single-dart score of at least 41 is a treble or the bullseye. */
  lemma HighSingles(x: int)
    requires IsSingleDartScore(x) && x >= 41
    ensures x == 50 || (x <= 60 && x % 3 == 0)
  {
  }

  /** 23 is the lowest total one dart cannot score. */
  lemma LowestOneDart()
    ensures !IsSingleDartScore(23)
    ensures forall t :: 0 <= t < 23 ==> IsSingleDartScore(t)
  {
  }

  /** 103 is the lowest total two darts cannot score. */
  lemma LowestTwoDarts()
    ensures !TwoDartScore(103)
    ensures forall t :: 0 <= t < 103 ==> TwoDartScore(t)
  {
    forall t | 0 <= t < 103
      ensures TwoDartScore(t)
    {
      var x, y := TwoDartWitness(t);
    }
  }

  /** 163 is the lowest total three darts cannot score. */
  lemma LowestThreeDarts()
    ensures !ThreeDartScore(163)
    ensures forall t :: 0 <= t < 163 ==> ThreeDartScore(t)
  {
    forall t | 0 <= t < 163
      ensures ThreeDartScore(t)
    {
      var first := if t < 103 then 0 else 60;
      var x, y := TwoDartWitness(t - first);
      assert ScoreTriple(first, x, y, t);
    }
  }

  /** 159 is the lowest total three darts cannot score with a finishing dart. */
  lemma LowestThreeDartFinish()
    ensures !ThreeDartFinish(159)
    ensures forall t :: 0 <= t < 159 ==> ThreeDartFinish(t)
  {
    forall t | 0 <= t < 159
      ensures ThreeDartFinish(t)
    {
      ThreeDartFinishBelow159(t);
    }
    NotThreeDartFinish159();
  }

  lemma NotThreeDartFinish159()
    ensures !ThreeDartFinish(159)
  {
    forall x, y, z
      ensures !FinishTriple(x, y, z, 159)
    {
      if FinishTriple(x, y, z, 159) {
        NoThreeFinish159(x, y, z);
      }
    }
  }

  /** Whichever of the three darts is the finishing one, they miss 159. */
  lemma NoThreeFinish159(x: int, y: int, z: int)
    requires IsSingleDartScore(x) && IsSingleDartScore(y) && IsSingleDartScore(z)
    requires IsFinishingDartScore(x) || IsFinishingDartScore(y) || IsFinishingDartScore(z)
    ensures x + y + z != 159
  {
    if IsFinishingDartScore(x) {
      NoFinish159(x, y, z);
    } else if IsFinishingDartScore(y) {
      NoFinish159(y, x, z);
    } else {
      NoFinish159(z, x, y);
    }
  }

  lemma ThreeDartFinishBelow159(t: int)
    requires 0 <= t < 159
    ensures ThreeDartFinish(t)
  {
    var f := if t < 103 then 0 else if t == 153 || t == 156 then 36 else 50;
    var x, y := TwoDartWitness(t - f);
    assert IsSingleDartScore(f) && IsFinishingDartScore(f) && f + x + y == t;
    assert FinishTriple(f, x, y, t);
  }

  /** A finishing dart and two more darts never add up to 159. */
  lemma NoFinish159(f: int, y: int, z: int)
    requires IsFinishingDartScore(f) && IsSingleDartScore(y) && IsSingleDartScore(z)
    ensures f + y + z != 159
  {
    if f + y + z == 159 {
      HighSingles(y);
      HighSingles(z);
      assert false;
    }
  }

  // ---------------------------------------------------------------------
  // The program's four answers.
  // ---------------------------------------------------------------------

  /** `singles` lists the single-dart scores and `fin` the finishing ones. */
  ghost predicate ListsBoard(singles: seq<int>, fin: seq<int>) {
    && (forall x :: x in singles <==> IsSingleDartScore(x))
    && (forall x :: x in fin <==> IsFinishingDartScore(x))
  }

  /** Each single-dart score is reached in exactly one way by one dart, and
      nothing else is reached. */
  lemma SingleDartOneWay(singles: seq<int>, fin: seq<int>, t: int)
    requires ListsBoard(singles, fin) && Distinct(singles)
    ensures Ways1(singles, t) == if IsSingleDartScore(t) then 1 else 0
  {
    Ways1Positive(singles, t);
    Ways1Distinct(singles, t);
  }

  /** A position of `x` in `xs`. */
  lemma IndexOf(xs: seq<int>, x: int) returns (i: int)
    requires x in xs
    ensures 0 <= i < |xs| && xs[i] == x
  {
    i :| 0 <= i < |xs| && xs[i] == x;
  }

  lemma TwoDartBridge(singles: seq<int>, fin: seq<int>, t: int)
    requires ListsBoard(singles, fin)
    ensures Ways2(singles, singles, t) > 0 <==> TwoDartScore(t)
  {
    if TwoDartScore(t) {
      var x, y :| IsSingleDartScore(x) && IsSingleDartScore(y) && x + y == t;
      var i := IndexOf(singles, x);
      var j := IndexOf(singles, y);
      Ways2Counts(singles, singles, t, i, j);
    }
    if Ways2(singles, singles, t) > 0 {
      Ways2Witness(singles, singles, t);
      var i, j :| 0 <= i < |singles| && 0 <= j < |singles| && singles[i] + singles[j] == t;
      assert singles[i] in singles && singles[j] in singles;
    }
  }

  lemma ThreeDartBridge(singles: seq<int>, fin: seq<int>, t: int)
    requires ListsBoard(singles, fin)
    ensures Ways3(singles, singles, singles, t) > 0 <==> ThreeDartScore(t)
  {
    if ThreeDartScore(t) {
      var x, y, z :| ScoreTriple(x, y, z, t);
      var i := IndexOf(singles, x);
      var j := IndexOf(singles, y);
      var k := IndexOf(singles, z);
      Ways3Counts(singles, singles, singles, t, i, j, k);
    }
    if Ways3(singles, singles, singles, t) > 0 {
      Ways3Witness(singles, singles, singles, t);
      var i, j, k :| 0 <= i < |singles| && 0 <= j < |singles| && 0 <= k < |singles|
                     && singles[i] + singles[j] + singles[k] == t;
      assert singles[i] in singles && singles[j] in singles && singles[k] in singles;
      assert ScoreTriple(singles[i], singles[j], singles[k], t);
    }
  }

  lemma ThreeDartFinishBridge(singles: seq<int>, fin: seq<int>, t: int)
    requires ListsBoard(singles, fin)
    ensures FinishWays3(singles, singles, singles, fin, t) > 0 <==> ThreeDartFinish(t)
  {
    if ThreeDartFinish(t) {
      FinishCounted(singles, fin, t);
    }
    if FinishWays3(singles, singles, singles, fin, t) > 0 {
      FinishReached(singles, fin, t);
    }
  }

  lemma FinishCounted(singles: seq<int>, fin: seq<int>, t: int)
    requires ListsBoard(singles, fin) && ThreeDartFinish(t)
    ensures FinishWays3(singles, singles, singles, fin, t) > 0
  {
    var x, y, z :| FinishTriple(x, y, z, t);
    var i := IndexOf(singles, x);
    var j := IndexOf(singles, y);
    var k := IndexOf(singles, z);
    assert HasFinish(singles[i], singles[j], singles[k], fin);
    FinishWays3Counts(singles, singles, singles, fin, t, i, j, k);
  }

  lemma FinishReached(singles: seq<int>, fin: seq<int>, t: int)
    requires ListsBoard(singles, fin) && FinishWays3(singles, singles, singles, fin, t) > 0
    ensures ThreeDartFinish(t)
  {
    FinishWays3Witness(singles, singles, singles, fin, t);
    var i, j, k :| 0 <= i < |singles| && 0 <= j < |singles| && 0 <= k < |singles|
                   && singles[i] + singles[j] + singles[k] == t
                   && HasFinish(singles[i], singles[j], singles[k], fin);
    FinishScores(singles, fin, singles[i], singles[j], singles[k], t);
  }

  lemma FinishScores(singles: seq<int>, fin: seq<int>, x: int, y: int, z: int, t: int)
    requires ListsBoard(singles, fin) && x + y + z == t
    requires x in singles && y in singles && z in singles && HasFinish(x, y, z, fin)
    ensures ThreeDartFinish(t)
  {
    assert IsSingleDartScore(x) && IsSingleDartScore(y) && IsSingleDartScore(z);
    assert IsFinishingDartScore(x) || IsFinishingDartScore(y) || IsFinishingDartScore(z);
    assert FinishTriple(x, y, z, t);
  }

  /** The one-dart tally has its first zero at 23. */
  lemma OneDartTable(singles: seq<int>, fin: seq<int>, a1: seq<Entry>)
    requires ListsBoard(singles, fin) && |a1| == MaxDart + 1
    requires forall t :: 0 <= t < |a1| ==> a1[t].ways == Ways1(singles, t)
    ensures a1[23].ways == 0 && forall t :: 0 <= t < 23 ==> a1[t].ways > 0
  {
    LowestOneDart();
    forall t | 0 <= t <= 23
      ensures a1[t].ways > 0 <==> IsSingleDartScore(t)
    {
      Ways1Positive(singles, t);
    }
  }

  /** The two-dart tally has its first zero at 103. */
  lemma TwoDartTable(singles: seq<int>, fin: seq<int>, a2: seq<Entry>)
    requires ListsBoard(singles, fin) && |a2| == 2 * MaxDart + 1
    requires forall t :: 0 <= t < |a2| ==> a2[t].ways == Ways2(singles, singles, t)
    ensures a2[103].ways == 0 && forall t :: 0 <= t < 103 ==> a2[t].ways > 0
  {
    LowestTwoDarts();
    forall t | 0 <= t <= 103
      ensures a2[t].ways > 0 <==> TwoDartScore(t)
    {
      TwoDartBridge(singles, fin, t);
    }
  }

  /** The three-dart tally has its first zero at 163. */
  lemma ThreeDartTable(singles: seq<int>, fin: seq<int>, a3: seq<Entry>)
    requires ListsBoard(singles, fin) && |a3| == 3 * MaxDart + 1
    requires forall t :: 0 <= t < |a3| ==> a3[t].ways == Ways3(singles, singles, singles, t)
    ensures a3[163].ways == 0 && forall t :: 0 <= t < 163 ==> a3[t].ways > 0
  {
    LowestThreeDarts();
    forall t | 0 <= t <= 163
      ensures a3[t].ways > 0 <==> ThreeDartScore(t)
    {
      ThreeDartBridge(singles, fin, t);
    }
  }

  /** The three-dart finishing tally has its first zero at 159. */
  lemma ThreeDartFinishTable(singles: seq<int>, fin: seq<int>, a3f: seq<Entry>)
    requires ListsBoard(singles, fin) && |a3f| == 3 * MaxDart + 1
    requires forall t :: 0 <= t < |a3f| ==>
      a3f[t].ways == FinishWays3(singles, singles, singles, fin, t)
    ensures a3f[159].ways == 0 && forall t :: 0 <= t < 159 ==> a3f[t].ways > 0
  {
    LowestThreeDartFinish();
    forall t | 0 <= t <= 159
      ensures a3f[t].ways > 0 <==> ThreeDartFinish(t)
    {
      ThreeDartFinishBridge(singles, fin, t);
    }
  }

  /** The main program: build the score lists, tally, and report the lowest total
      that one, two and three darts cannot score, and the lowest that three
      darts cannot score with a finishing dart among them. */
  method LowestNonGettable() returns (one: Option<nat>, two: Option<nat>,
                                      three: Option<nat>, threeFinish: Option<nat>)
    ensures one == Some(23)
    ensures two == Some(103)
    ensures three == Some(163)
    ensures threeFinish == Some(159)
  {
    var singles := SetUpSingleDartScores();
    var fin := SetUpFinishingDartScores();
    var a1, a2, a3, a3f := Tally(singles, fin);
    OneDartTable(singles, fin, a1);
    TwoDartTable(singles, fin, a2);
    ThreeDartTable(singles, fin, a3);
    ThreeDartFinishTable(singles, fin, a3f);
    one := LowestUnreachable(a1);
    two := LowestUnreachable(a2);
    three := LowestUnreachable(a3);
    threeFinish := LowestUnreachable(a3f);
  }
}
