/** The parasitic-number search: a number `n` without a leading zero such
    that `9 * n` equals `n` with its last decimal digit moved to the front.
    For each digit-length the search scans candidates ending in 9, step 10,
    and keeps the one with the smallest `|9n - rotate(n)|`. */
module Parasitic {
  import opened Wrappers
  import opened Digits
  import opened Rotation

  /** `int((str(n)[-1] + str(n))[:-1])`: `n` with its last digit moved to
      the front, read back as an integer. */
  function RotatedValue(n: nat): (r: nat)
    ensures r < Pow10(NumDigits(n))
  {
    Value(Rotate(ToDigits(n)))
  }

  /** `n` is a solution: nine times `n` is its rotation. */
  predicate IsParasitic(n: nat) {
    9 * n == RotatedValue(n)
  }

  /** `abs(n * 9 - n_rotated)`: how far `n` is from being a solution. */
  function Diff(n: nat): (r: nat)
    ensures r == 0 <==> IsParasitic(n)
    ensures r >= 9 * n - RotatedValue(n) && r >= RotatedValue(n) - 9 * n
    ensures r == 9 * n - RotatedValue(n) || r == RotatedValue(n) - 9 * n
  {
    var x := 9 * n - RotatedValue(n);
    if x < 0 then -x else x
  }

  /** Rotation in arithmetic terms: the last digit moves to the place value
      10^(d-1) of a `d`-digit number, and the rest shifts one place down. */
  lemma RotatedValueArith(n: nat)
    ensures RotatedValue(n) == (n % 10) * Pow10(NumDigits(n) - 1) + n / 10
  {
    var ds := ToDigits(n);
    if n >= 10 {
      var p := ToDigits(n / 10);
      assert ds == p + [n % 10];
      RotateSnoc(p, n % 10);
      ValuePrepend(n % 10, p);
      ValueOfToDigits(n / 10);
    }
  }

  /** When `n` ends in 9 the rotated string starts with 9, so reading it back
      as an integer and printing it again loses no leading zero. */
  lemma RotationRoundTrip(n: nat)
    requires n % 10 == 9
    ensures Rotate(ToDigits(n))[0] == 9
    ensures ToDigits(RotatedValue(n)) == Rotate(ToDigits(n))
  {
    var r := Rotate(ToDigits(n));
    assert IsDigitSeq(r) by {
      var ds := ToDigits(n);
      forall i | 0 <= i < |r|
        ensures 0 <= r[i] <= 9
      {
        if i > 0 {
          assert r[i] == ds[i - 1];
        }
      }
    }
    ToDigitsOfValue(r);
  }

  /** A solution has zero distance and nothing else has. */
  lemma DiffZeroIffParasitic(n: nat)
    ensures Diff(n) == 0 <==> IsParasitic(n)
  {
  }

  /** `m` is visited by Python's `range(start, end, 10)`. */
  predicate IsCandidate(m: int, start: int, end: int) {
    start <= m < end && (m - start) % 10 == 0
  }

  /** Candidates of one range are 10 apart, so the one after `n` is `n + 10`. */
  lemma CandidateStep(m: int, n: int, start: int, end: int)
    requires IsCandidate(m, start, end) && (n - start) % 10 == 0
    requires m < n + 10 && m != n
    ensures m < n
  {
  }

  /** Candidates share the residue of the range start modulo 10. */
  lemma CandidateResidue(m: int, start: int, end: int)
    requires IsCandidate(m, start, end)
    ensures m % 10 == start % 10
  {
  }

  /** Python's `range(start, end, 10)` as a sequence. */
  function Range10(start: int, end: int): (r: seq<int>)
    ensures |r| == if start < end then (end - start + 9) / 10 else 0
    ensures forall i :: 0 <= i < |r| ==> r[i] == start + 10 * i
    decreases end - start
  {
    if start < end then [start] + Range10(start + 10, end) else []
  }

  /** The sequence holds exactly the candidates of the range. */
  lemma Range10Members(start: int, end: int, m: int)
    ensures m in Range10(start, end) <==> IsCandidate(m, start, end)
  {
    var r := Range10(start, end);
    if IsCandidate(m, start, end) {
      var i := (m - start) / 10;
      assert r[i] == m;
    }
  }

  // ---------------------------------------------------------------------
  // Exhaustive stage: every `d`-digit number ending in 9 whose product
  // with 9 still has `d` digits.
  // ---------------------------------------------------------------------

  /** `10 ** (digits-1) + 9`: the smallest `d`-digit number ending in 9. */
  function ExhaustiveStart(d: nat): (r: nat)
    requires d >= 1
    ensures d >= 2 ==> r % 10 == 9 && NumDigits(r) == d
  {
    if d >= 2 then
      ExhaustiveArith(d);
      DigitCountOf(Pow10(d - 1) + 9, d);
      Pow10(d - 1) + 9
    else
      Pow10(d - 1) + 9
  }

  /** `10 ** digits // 9 + 1`: one past 11...1, the largest `d`-digit
      number whose product with 9 has `d` digits. */
  function ExhaustiveEnd(d: nat): (r: int)
    ensures 9 * (r - 1) + 1 == Pow10(d)
  {
    Pow10Mod9(d);
    NineDivides(Pow10(d));
    Pow10(d) / 9 + 1
  }

  lemma {:induction false} Pow10Mod9(k: nat)
    ensures Pow10(k) % 9 == 1
  {
    if k > 0 {
      Pow10Mod9(k - 1);
      var q := Pow10(k - 1) / 9;
      assert Pow10(k) == 9 * (10 * q + 1) + 1;
      DivUnique(Pow10(k), 9, 10 * q + 1, 1);
    }
  }

  /** Facts about 10^d and 10^(d-1) the exhaustive bounds rest on. */
  lemma ExhaustiveArith(d: nat)
    requires d >= 2
    ensures Pow10(d) == 10 * Pow10(d - 1)
    ensures Pow10(d - 1) % 10 == 0
    ensures 9 * (Pow10(d) / 9) == Pow10(d) - 1
  {
    Pow10Succ(d - 1);
    Pow10Succ(d - 2);
    DivUnique(Pow10(d - 1), 10, Pow10(d - 2), 0);
    Pow10Mod9(d);
    NineDivides(Pow10(d));
  }

  lemma NineDivides(p: int)
    requires p % 9 == 1
    ensures 9 * (p / 9) == p - 1
  {
  }

  /** The exhaustive range holds exactly the `d`-digit numbers ending in 9
      whose product with 9 also has `d` digits; each of them starts with 1. */
  lemma ExhaustiveCandidates(d: nat, m: nat)
    requires d >= 2
    ensures IsCandidate(m, ExhaustiveStart(d), ExhaustiveEnd(d))
        <==> (NumDigits(m) == d && m % 10 == 9 && NumDigits(9 * m) == d)
    ensures IsCandidate(m, ExhaustiveStart(d), ExhaustiveEnd(d)) ==> ToDigits(m)[0] == 1
  {
    if IsCandidate(m, ExhaustiveStart(d), ExhaustiveEnd(d)) {
      ExhaustiveCandidateShape(d, m);
    }
    if NumDigits(m) == d && m % 10 == 9 && NumDigits(9 * m) == d {
      ExhaustiveCandidateComplete(d, m);
    }
  }

  lemma ExhaustiveCandidateShape(d: nat, m: nat)
    requires d >= 2 && IsCandidate(m, ExhaustiveStart(d), ExhaustiveEnd(d))
    ensures NumDigits(m) == d && m % 10 == 9 && NumDigits(9 * m) == d
    ensures ToDigits(m)[0] == 1
  {
    ExhaustiveCandidateBounds(d, m);
    LeadingDigit(m, d, 1);
    assert NumDigits(9 * m) == d by {
      DigitCountOf(9 * m, d);
    }
  }

  lemma ExhaustiveCandidateBounds(d: nat, m: nat)
    requires d >= 2 && IsCandidate(m, ExhaustiveStart(d), ExhaustiveEnd(d))
    ensures m % 10 == 9
    ensures Pow10(d - 1) < m < 2 * Pow10(d - 1)
    ensures 9 * m < Pow10(d)
  {
    ExhaustiveArith(d);
    BoundsArith(Pow10(d - 1), Pow10(d), m);
  }

  lemma BoundsArith(q: int, p: int, m: int)
    requires q % 10 == 0 && p == 10 * q && 9 * (p / 9) == p - 1
    requires IsCandidate(m, q + 9, p / 9 + 1)
    ensures m % 10 == 9 && q < m < 2 * q && 9 * m < p
  {
    CandidateResidue(m, q + 9, p / 9 + 1);
  }

  /** A number in `[x * 10^(d-1), (x+1) * 10^(d-1))` has `d` digits and
      leading digit `x`. */
  lemma LeadingDigit(m: nat, d: nat, x: nat)
    requires d >= 1 && 1 <= x <= 9
    requires x * Pow10(d - 1) <= m < (x + 1) * Pow10(d - 1)
    ensures NumDigits(m) == d
    ensures ToDigits(m)[0] == x
  {
    var q := Pow10(d - 1);
    assert q <= m < Pow10(d) by {
      MulMonotone(q, 1, x);
      MulMonotone(q, x + 1, 10);
      assert Pow10(d) == 10 * q;
    }
    assert NumDigits(m) == d by {
      DigitCountOf(m, d);
    }
    assert DropLow(m, d - 1) == x by {
      DropLowOf(x, m - x * q, d - 1);
    }
    assert ToDigits(m)[..1] == ToDigits(x) by {
      DropLowDigits(m, d - 1);
    }
  }

  lemma ExhaustiveCandidateComplete(d: nat, m: nat)
    requires d >= 2 && NumDigits(m) == d && m % 10 == 9 && NumDigits(9 * m) == d
    ensures IsCandidate(m, ExhaustiveStart(d), ExhaustiveEnd(d))
  {
    var q := Pow10(d - 1);
    var p := Pow10(d);
    assert q <= m by {
      DigitCountBounds(m);
    }
    assert 9 * m < p by {
      DigitCountBounds(9 * m);
    }
    assert q % 10 == 0 && 9 * (p / 9) == p - 1 by {
      ExhaustiveArith(d);
    }
    ResidueAbove(m, q);
    assert m < p / 9 + 1;
  }

  /** A number ending in 9 at or above a multiple of 10 is a step-10
      successor of that multiple plus 9. */
  lemma ResidueAbove(m: int, q: int)
    requires q % 10 == 0 && m % 10 == 9 && q <= m
    ensures q + 9 <= m && (m - (q + 9)) % 10 == 0
  {
  }

  /** Every positive solution has at least two digits, ends in 9, starts
      with 1, and its product with 9 has as many digits as itself. */
  lemma ParasiticShape(n: nat)
    requires n >= 1 && IsParasitic(n)
    ensures NumDigits(n) >= 2
    ensures n % 10 == 9
    ensures NumDigits(9 * n) == NumDigits(n)
    ensures ToDigits(n)[0] == 1
  {
    ParasiticBounds(n);
    ShapeOfBounds(n);
  }

  lemma ShapeOfBounds(n: nat)
    requires Pow10(NumDigits(n) - 1) <= n < 2 * Pow10(NumDigits(n) - 1)
    requires 9 * n < 10 * Pow10(NumDigits(n) - 1)
    ensures NumDigits(9 * n) == NumDigits(n)
    ensures ToDigits(n)[0] == 1
  {
    var d := NumDigits(n);
    NineTimesDigits(n, d);
    LeadingDigit(n, d, 1);
  }

  /** A positive solution `n` of `d` digits ends in 9 and lies in
      `[10^(d-1), 2 * 10^(d-1))` with `9n < 10^d`, and `d >= 2`. */
  lemma ParasiticBounds(n: nat)
    requires n >= 1 && IsParasitic(n)
    ensures NumDigits(n) >= 2 && n % 10 == 9
    ensures Pow10(NumDigits(n) - 1) <= n < 2 * Pow10(NumDigits(n) - 1)
    ensures 9 * n < 10 * Pow10(NumDigits(n) - 1)
  {
    var q := Pow10(NumDigits(n) - 1);
    ParasiticEquation(n);
    DigitCountBounds(n);
    ShapeArith(n, n % 10, q);
  }

  /** A solution's equation in place-value form. */
  lemma ParasiticEquation(n: nat)
    requires IsParasitic(n)
    ensures 9 * n == (n % 10) * Pow10(NumDigits(n) - 1) + n / 10
  {
    RotatedValueArith(n);
  }

  /** `9n` keeps the `d` digits of `n` when it stays below `10^d`. */
  lemma NineTimesDigits(n: nat, d: nat)
    requires d >= 1 && Pow10(d - 1) <= n && 9 * n < 10 * Pow10(d - 1)
    ensures NumDigits(9 * n) == d
  {
    Pow10Succ(d - 1);
    DigitCountOf(9 * n, d);
  }

  /** The arithmetic behind the shape: from `9n == z * q + n / 10` with
      `q <= n < 10q` and `z` the last digit of `n`. */
  lemma ShapeArith(n: nat, z: nat, q: nat)
    requires 1 <= q <= n < 10 * q && z == n % 10
    requires 9 * n == z * q + n / 10
    ensures q != 1 && z == 9 && 9 * n < 10 * q && n < 2 * q
  {
    assert z * q <= 9 * q by {
      MulMonotone(q, z, 9);
    }
    if z <= 8 {
      MulMonotone(q, z, 8);
      assert false;
    }
  }

  /** The exhaustive range of a digit-length misses no solution of that length. */
  lemma ParasiticIsExhaustiveCandidate(n: nat)
    requires n >= 1 && IsParasitic(n)
    ensures IsCandidate(n, ExhaustiveStart(NumDigits(n)), ExhaustiveEnd(NumDigits(n)))
  {
    ParasiticShape(n);
    ExhaustiveCandidates(NumDigits(n), n);
  }

  /** So the exhaustive scan of length `d` reports distance 0 exactly when a
      `d`-digit solution exists. */
  lemma ExhaustiveScanComplete(d: nat, best: Best)
    requires d >= 2 && IsArgMin(best, ExhaustiveStart(d), ExhaustiveEnd(d))
    ensures best.diff == 0 <==> exists n: nat :: n >= 1 && NumDigits(n) == d && IsParasitic(n)
  {
    ArgMinFindsSolution(best, ExhaustiveStart(d), ExhaustiveEnd(d));
    if n: nat :| n >= 1 && NumDigits(n) == d && IsParasitic(n) {
      ParasiticIsExhaustiveCandidate(n);
    }
    if m: nat :| IsCandidate(m, ExhaustiveStart(d), ExhaustiveEnd(d)) && IsParasitic(m) {
      ExhaustiveCandidates(d, m);
      assert m >= 1;
    }
  }

  // ---------------------------------------------------------------------
  // Guided stage: a window of 10^6 numbers seeded by the previous best.
  // ---------------------------------------------------------------------

  /** A half-open candidate range `[start, end)`, scanned in steps of 10. */
  datatype Bounds = Bounds(start: int, end: int)

  /** Trailing digits of the previous best that are treated as unstable. */
  const UnstableDigits: nat := 5

  /** The window for `d+1` digits seeded by the best `d`-digit number `prev`:
      keep `str(prev)[:-5]`, append six digit positions, start at ...000009.
      `None` is the `int('')` failure when `prev` has at most five digits. */
  function StableWindow(prev: nat): (w: Option<Bounds>)
    ensures w.None? <==> NumDigits(prev) <= UnstableDigits
    ensures w.Some? ==> w.value.start % 10 == 9 && w.value.end - w.value.start == 1000000
    ensures w.Some? ==> w.value.start >= 9
  {
    var s := ToDigits(prev);
    if |s| <= UnstableDigits then None
    else
      WindowWidth();
      var lead := Value(s[..|s| - UnstableDigits]);
      var start := lead * Pow10(UnstableDigits + 1) + 9;
      Some(Bounds(start, start + Pow10(UnstableDigits + 1)))
  }

  lemma WindowWidth()
    ensures Pow10(UnstableDigits + 1) == 1000000
    ensures Pow10(6) == 1000000
  {
  }

  /** The window starts at `prev // 10^5` followed by 000009. */
  lemma StableWindowStart(prev: nat)
    requires StableWindow(prev).Some?
    ensures StableWindow(prev).value.start == DropLow(prev, 5) * 1000000 + 9
  {
    var s := ToDigits(prev);
    DropLowDigits(prev, 5);
    var q := DropLow(prev, 5);
    assert s[..|s| - 5] == ToDigits(q);
    ValueOfToDigits(q);
    WindowWidth();
  }

  /** Every window candidate has one digit more than `prev`, ends in 9 and
      keeps the leading digits of `prev` that survive dropping five. */
  lemma StableWindowCandidates(prev: nat, m: nat)
    requires StableWindow(prev).Some?
    requires IsCandidate(m, StableWindow(prev).value.start, StableWindow(prev).value.end)
    ensures m % 10 == 9
    ensures NumDigits(m) == NumDigits(prev) + 1
    ensures DropLow(m, 6) == DropLow(prev, 5)
    ensures ToDigits(m)[..NumDigits(prev) - 5] == ToDigits(prev)[..NumDigits(prev) - 5]
  {
    var d := NumDigits(prev);
    var q := DropLow(prev, 5);
    var r := m - q * 1000000;
    WindowCandidateSplit(prev, m);
    assert ToDigits(prev)[..d - 5] == ToDigits(q) by {
      DropLowDigits(prev, 5);
    }
    assert Pow10(d - 6) <= q < Pow10(d - 5) by {
      PrefixDigits(prev, 5);
    }
    WindowCandidateDigits(q, r, d);
  }

  /** A window candidate is `prev // 10^5` followed by six digits ending in 9. */
  lemma WindowCandidateSplit(prev: nat, m: nat)
    requires StableWindow(prev).Some?
    requires IsCandidate(m, StableWindow(prev).value.start, StableWindow(prev).value.end)
    ensures m % 10 == 9
    ensures 9 <= m - DropLow(prev, 5) * 1000000 < 1000000
  {
    StableWindowStart(prev);
    CandidateResidue(m, StableWindow(prev).value.start, StableWindow(prev).value.end);
  }

  /** `q * 10^6 + r` keeps `q` as its prefix and has one digit more than a
      `d`-digit number whose prefix after dropping five digits is `q`. */
  lemma WindowCandidateDigits(q: nat, r: nat, d: nat)
    requires d >= 6 && Pow10(d - 6) <= q < Pow10(d - 5) && r < 1000000
    ensures NumDigits(q * 1000000 + r) == d + 1
    ensures DropLow(q * 1000000 + r, 6) == q
    ensures ToDigits(q * 1000000 + r)[..d - 5] == ToDigits(q)
  {
    var m := q * 1000000 + r;
    assert DropLow(m, 6) == q by {
      WindowWidth();
      DropLowOf(q, r, 6);
    }
    assert NumDigits(m) == d + 1 by {
      WindowDigits(q, r, d);
      DigitCountOf(m, d + 1);
    }
    DropLowDigits(m, 6);
  }

  /** Dropping `k` digits of a number with more than `k` digits leaves a
      number of exactly `d - k` digits. */
  lemma PrefixDigits(n: nat, k: nat)
    requires 1 <= k < NumDigits(n)
    ensures Pow10(NumDigits(n) - k - 1) <= DropLow(n, k) < Pow10(NumDigits(n) - k)
  {
    var q := DropLow(n, k);
    var ds := ToDigits(n);
    assert ds[..|ds| - k] == ToDigits(q) by {
      DropLowDigits(n, k);
    }
    assert n >= 10;
    assert q >= 1 by {
      assert ToDigits(q)[0] == ds[0];
    }
    DigitCountBounds(q);
  }

  /** A number `q * 10^6 + r` with `r < 10^6` and `q` of `d-5` digits has `d+1` digits. */
  lemma WindowDigits(q: nat, r: nat, d: nat)
    requires d >= 6 && Pow10(d - 6) <= q < Pow10(d - 5) && r < 1000000
    ensures Pow10(d) <= q * 1000000 + r < Pow10(d + 1)
  {
    WindowWidth();
    Pow10Add(d - 6, 6);
    Pow10Add(d - 5, 6);
    MulMonotone(1000000, Pow10(d - 6), q);
    MulMonotone(1000000, q + 1, Pow10(d - 5));
  }

  /** The window holds exactly 10^5 candidates, the last of them
      `prefix * 10^6 + 999999`. */
  lemma StableWindowSize(prev: nat)
    requires StableWindow(prev).Some?
    ensures |Range10(StableWindow(prev).value.start, StableWindow(prev).value.end)| == 100000
    ensures Range10(StableWindow(prev).value.start, StableWindow(prev).value.end)[99999]
         == DropLow(prev, 5) * 1000000 + 999999
  {
    StableWindowStart(prev);
  }

  /** The bounds scanned for one digit-length: the exhaustive range in
      stage 1 and up to 8 digits, the window seeded by `prev` above that. */
  function SearchBounds(stage: int, digits: nat, prev: nat): (b: Option<Bounds>)
    requires digits >= 1
    ensures (stage == 1 || digits <= 8) ==> b == Some(Bounds(ExhaustiveStart(digits), ExhaustiveEnd(digits)))
    ensures b.None? <==> stage != 1 && digits > 8 && NumDigits(prev) <= UnstableDigits
    ensures b.Some? ==> b.value.start >= 9
  {
    if stage == 1 || digits <= 8 then Some(Bounds(ExhaustiveStart(digits), ExhaustiveEnd(digits)))
    else StableWindow(prev)
  }

  // ---------------------------------------------------------------------
  // The arg-min scan.
  // ---------------------------------------------------------------------

  /** `best = (n_diff, n)`; `(-1, 0)` before any candidate was seen. */
  datatype Best = Best(diff: int, n: nat)

  const NoBest := Best(-1, 0)

  /** `b` is the outcome the scan must produce on `range(start, end, 10)`
      under the distance `dist`: nothing for an empty range, else the first
      candidate of least distance. */
  ghost predicate IsArgMinOf(b: Best, start: nat, end: int, dist: nat -> nat) {
    && (start >= end ==> b == NoBest)
    && (start < end ==>
          && b.diff >= 0
          && IsCandidate(b.n, start, end)
          && b.diff == dist(b.n)
          && (forall m: nat :: IsCandidate(m, start, end) ==> b.diff <= dist(m))
          && (forall m: nat :: IsCandidate(m, start, end) && dist(m) == b.diff ==> b.n <= m))
  }

  /** The arg-min of the search: distance `Diff`. */
  ghost predicate IsArgMin(b: Best, start: nat, end: int) {
    IsArgMinOf(b, start, end, Diff)
  }

  /** Scan `range(start, end, 10)` keeping the candidate with
      the smallest distance; the strict `<` keeps the first of equals. */
  method BestInRange(start: nat, end: int) returns (best: Best)
    ensures IsArgMin(best, start, end)
    ensures best.diff == 0 <==> exists m: nat :: IsCandidate(m, start, end) && IsParasitic(m)
  {
    best := ScanRange(start, end, Diff);
    ArgMinFindsSolution(best, start, end);
  }

  /** The distance of the arg-min is 0 exactly when the range holds a solution. */
  lemma ArgMinFindsSolution(best: Best, start: nat, end: int)
    requires IsArgMin(best, start, end)
    ensures best.diff == 0 <==> exists m: nat :: IsCandidate(m, start, end) && IsParasitic(m)
  {
    if best.diff == 0 {
      DiffZeroIffParasitic(best.n);
    }
    if m: nat :| IsCandidate(m, start, end) && IsParasitic(m) {
      DiffZeroIffParasitic(m);
    }
  }

  /** The candidate loop of the search, for any distance function. */
  method ScanRange(start: nat, end: int, dist: nat -> nat) returns (best: Best)
    ensures IsArgMinOf(best, start, end, dist)
  {
    best := NoBest;
    var n := start;
    while n < end
      invariant start <= n
      invariant (n - start) % 10 == 0
      invariant n == start <==> best == NoBest
      invariant n > start ==>
        && best.diff >= 0
        && IsCandidate(best.n, start, end) && best.n < n
        && best.diff == dist(best.n)
      invariant forall m: nat :: IsCandidate(m, start, end) && m < n ==>
        best.diff <= dist(m) && (dist(m) == best.diff ==> best.n <= m)
      decreases end - n
    {
      var diff := dist(n);
      if diff < best.diff || best.diff == -1 {
        best := Best(diff, n);
      }
      forall m: nat | IsCandidate(m, start, end) && m < n + 10 && m != n
        ensures m < n
      {
        CandidateStep(m, n, start, end);
      }
      n := n + 10;
    }
  }

  // ---------------------------------------------------------------------
  // One stage: every digit-length from 4 up to 10 (stage 1) or 80 (stage 2).
  // ---------------------------------------------------------------------

  /** What the program prints for one digit-length. */
  datatype Report = Report(digits: nat, bounds: Bounds, best: Best)

  const MinDigits: nat := 4

  function MaxDigits(stage: int): nat {
    if stage == 1 then 10 else 80
  }

  /** The best number the bounds of report `i` are seeded with: that of
      report `i - 1`, or 0 (from `best = (-1, 0)`) for the first. */
  function SeedOf(rs: seq<Report>, i: int): nat
    requires 0 <= i <= |rs|
  {
    if i == 0 then 0 else rs[i - 1].best.n
  }

  /** Report `r` is the `i`-th of its stage: digit-length `4 + i`, the
      bounds `SearchBounds` gives when seeded by `seed`, and the arg-min of
      those bounds. */
  ghost predicate ValidReport(stage: int, r: Report, i: int, seed: nat) {
    && r.digits == MinDigits + i
    && r.digits >= 1
    && Some(r.bounds) == SearchBounds(stage, r.digits, seed)
    && r.bounds.start >= 0
    && IsArgMin(r.best, r.bounds.start, r.bounds.end)
  }

  /** Every report is valid, each seeded by the one before. */
  ghost predicate ValidReports(stage: int, rs: seq<Report>) {
    forall i :: 0 <= i < |rs| ==> ValidReport(stage, rs[i], i, SeedOf(rs, i))
  }

  /** Appending the report of the next digit-length keeps the reports valid. */
  lemma ValidReportsSnoc(stage: int, acc: seq<Report>, r: Report)
    requires ValidReports(stage, acc)
    requires ValidReport(stage, r, |acc|, SeedOf(acc, |acc|))
    ensures ValidReports(stage, acc + [r])
  {
    var rs := acc + [r];
    forall i | 0 <= i < |rs|
      ensures ValidReport(stage, rs[i], i, SeedOf(rs, i))
    {
      if i < |acc| {
        assert rs[i] == acc[i];
        assert SeedOf(rs, i) == SeedOf(acc, i);
      } else {
        assert rs[i] == r;
        assert SeedOf(rs, i) == SeedOf(acc, i);
      }
    }
  }

  /** One stage of the search: for every digit-length from 4 up to 10
      (stage 1) or 80, the bounds to scan and the arg-min over them, the
      guided bounds seeded by the previous length's best. The `None` of the
      `int('')` failure of the guided window is never produced: the best of
      each length has exactly that many digits, so the seed of a guided
      window always has at least eight. */
  method RunStage(stage: int) returns (reports: Option<seq<Report>>)
    ensures reports.Some?
    ensures reports.Some? ==> |reports.value| == MaxDigits(stage) - MinDigits + 1
    ensures reports.Some? ==> ValidReports(stage, reports.value)
  {
    var acc: seq<Report> := [];
    var best := NoBest;
    var digits := MinDigits;
    while digits <= MaxDigits(stage)
      invariant MinDigits <= digits <= MaxDigits(stage) + 1
      invariant |acc| == digits - MinDigits
      invariant acc != [] ==> best == acc[|acc| - 1].best
      invariant acc == [] ==> best == NoBest
      invariant digits > MinDigits ==> NumDigits(best.n) == digits - 1
      invariant ValidReports(stage, acc)
    {
      var bounds := SearchBounds(stage, digits, best.n);
      assert bounds.Some?;
      var b := bounds.value;
      var seed := best.n;
      assert seed == SeedOf(acc, |acc|);
      best := BestInRange(b.start, b.end);
      NextBestDigits(stage, digits, seed, b, best);
      ValidReportsSnoc(stage, acc, Report(digits, b, best));
      acc := acc + [Report(digits, b, best)];
      digits := digits + 1;
    }
    reports := Some(acc);
  }

  /** The best of a length's bounds has that many digits, when the seed of a
      guided window has one digit fewer. */
  lemma NextBestDigits(stage: int, digits: nat, seed: nat, b: Bounds, best: Best)
    requires digits >= MinDigits
    requires SearchBounds(stage, digits, seed) == Some(b) && b.start >= 0
    requires stage != 1 && digits > 8 ==> NumDigits(seed) == digits - 1
    requires IsArgMin(best, b.start, b.end)
    ensures NumDigits(best.n) == digits
  {
    if stage == 1 || digits <= 8 {
      ExhaustiveNonEmpty(digits);
      ExhaustiveCandidates(digits, best.n);
    } else {
      StableWindowCandidates(seed, best.n);
    }
  }

  /** From three digits on, the exhaustive range holds at least one candidate
      (the two-digit range `[19, 12)` is empty). */
  lemma ExhaustiveNonEmpty(d: nat)
    requires d >= 3
    ensures ExhaustiveStart(d) < ExhaustiveEnd(d)
  {
    ExhaustiveArith(d);
    Pow10Monotone(2, d - 1);
    assert Pow10(2) == 100;
  }

  // ---------------------------------------------------------------------
  // The documented answer.
  // ---------------------------------------------------------------------

  /** The 44-digit number the program reports with distance 0. */
  const DocumentedAnswer: nat := 10112359550561797752808988764044943820224719

  lemma Pow10Of10()
    ensures Pow10(10) == 10000000000
  {
  }

  lemma Pow10Of20()
    ensures Pow10(20) == 100000000000000000000
  {
    Pow10Of10();
    Pow10Add(10, 10);
  }

  lemma Pow10Of40()
    ensures Pow10(40) == 10000000000000000000000000000000000000000
  {
    Pow10Of20();
    Pow10Add(20, 20);
  }

  lemma Pow10Of43()
    ensures Pow10(43) == 10000000000000000000000000000000000000000000
  {
    Pow10Of40();
    assert Pow10(3) == 1000;
    Pow10Add(40, 3);
  }

  lemma DocumentedAnswerIsParasitic()
    ensures NumDigits(DocumentedAnswer) == 44
    ensures ToDigits(DocumentedAnswer)[0] == 1
    ensures DocumentedAnswer % 10 == 9
    ensures IsParasitic(DocumentedAnswer)
    ensures Diff(DocumentedAnswer) == 0
  {
    DocumentedAnswerDigits();
    DocumentedAnswerEquation();
    RotatedValueArith(DocumentedAnswer);
    DiffZeroIffParasitic(DocumentedAnswer);
  }

  /** The documented answer has 44 digits and leading digit 1. */
  lemma DocumentedAnswerDigits()
    ensures NumDigits(DocumentedAnswer) == 44
    ensures ToDigits(DocumentedAnswer)[0] == 1
  {
    assert 1 * Pow10(43) <= DocumentedAnswer < 2 * Pow10(43) by {
      Pow10Of43();
    }
    LeadingDigit(DocumentedAnswer, 44, 1);
  }

  /** Nine times the documented answer is its last digit 9 followed by its
      other 43 digits. */
  lemma DocumentedAnswerEquation()
    ensures DocumentedAnswer % 10 == 9
    ensures 9 * DocumentedAnswer == (DocumentedAnswer % 10) * Pow10(43) + DocumentedAnswer / 10
  {
    Pow10Of43();
  }
}
