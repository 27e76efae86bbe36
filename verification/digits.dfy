/** Decimal digit strings of non-negative integers: the model of Python's
    `str(n)` and `int(s)` on the values the parasitic-number search uses.
    A digit string is a `seq<int>`, most significant digit first. */
module Digits {

  /** Every element is a decimal digit. */
  predicate IsDigitSeq(ds: seq<int>) {
    forall i :: 0 <= i < |ds| ==> 0 <= ds[i] <= 9
  }

  /** 10 raised to `k`. */
  function Pow10(k: nat): (r: nat)
    ensures r >= 1
  {
    if k == 0 then 1 else 10 * Pow10(k - 1)
  }

  /** `int(s)`: the value of a digit string; leading zeros are allowed and
      the empty string is given the value 0 (callers never pass it). */
  function Value(ds: seq<int>): (r: nat)
    requires IsDigitSeq(ds)
    ensures r < Pow10(|ds|)
  {
    if ds == [] then 0 else 10 * Value(ds[..|ds| - 1]) + ds[|ds| - 1]
  }

  /** `str(n)`: the shortest decimal digit string of `n`. */
  function ToDigits(n: nat): (ds: seq<int>)
    ensures IsDigitSeq(ds)
    ensures |ds| >= 1
    ensures n > 0 ==> ds[0] != 0
    ensures ds[|ds| - 1] == n % 10
  {
    if n < 10 then [n] else ToDigits(n / 10) + [n % 10]
  }

  /** `int(str(n)) == n`. */
  lemma {:induction false} ValueOfToDigits(n: nat)
    ensures Value(ToDigits(n)) == n
  {
    if n >= 10 {
      var p := ToDigits(n / 10);
      assert (p + [n % 10])[..|p|] == p;
      ValueOfToDigits(n / 10);
    }
  }

  /** Number of decimal digits of `n`. */
  function NumDigits(n: nat): (d: nat)
    ensures d >= 1
  {
    |ToDigits(n)|
  }

  lemma Pow10Add(a: nat, b: nat)
    ensures Pow10(a + b) == Pow10(a) * Pow10(b)
  {
    if a > 0 {
      Pow10Add(a - 1, b);
    }
  }

  lemma Pow10Succ(k: nat)
    ensures Pow10(k + 1) == 10 * Pow10(k)
  {
  }

  lemma Pow10Monotone(a: nat, b: nat)
    requires a <= b
    ensures Pow10(a) <= Pow10(b)
  {
    if a < b {
      Pow10Monotone(a, b - 1);
    }
  }

  lemma MulDistrib(a: int, x: int, y: int)
    ensures a * (x + y) == a * x + a * y
  {
  }

  lemma MulSwap(a: int, b: int, c: int)
    ensures a * (b * c) == b * (a * c)
  {
  }

  lemma MulMonotone(a: nat, x: int, y: int)
    requires x <= y
    ensures a * x <= a * y
  {
    MulDistrib(a, x, y - x);
  }

  /** Quotient and remainder are determined by `n == d * q + r, 0 <= r < d`. */
  lemma DivUnique(n: int, d: int, q: int, r: int)
    requires d > 0 && 0 <= r < d && n == d * q + r
    ensures n / d == q && n % d == r
  {
    var q0 := n / d;
    var r0 := n % d;
    assert n == d * q0 + r0;
    if q0 < q {
      MulDistrib(d, q0, q - q0);
      MulStep(d, q - q0);
    } else if q0 > q {
      MulDistrib(d, q, q0 - q);
      MulStep(d, q0 - q);
    }
  }

  lemma MulStep(d: int, k: int)
    requires d > 0 && k >= 1
    ensures d * k >= d
  {
    MulDistrib(d, 1, k - 1);
  }

  /** A digit string without a leading zero is at least 10^(len-1). */
  lemma {:induction false} ValueLowerBound(ds: seq<int>)
    requires IsDigitSeq(ds) && |ds| >= 1 && ds[0] != 0
    ensures Value(ds) >= Pow10(|ds| - 1)
  {
    if |ds| > 1 {
      var p := ds[..|ds| - 1];
      assert p[0] == ds[0];
      ValueLowerBound(p);
    }
  }

  /** `n` has `d` digits exactly when 10^(d-1) <= n < 10^d (for n >= 1). */
  lemma DigitCountBounds(n: nat)
    requires n >= 1
    ensures Pow10(NumDigits(n) - 1) <= n < Pow10(NumDigits(n))
    ensures n < 10 * Pow10(NumDigits(n) - 1)
  {
    ValueOfToDigits(n);
    ValueLowerBound(ToDigits(n));
    Pow10Succ(NumDigits(n) - 1);
  }

  lemma {:induction false} DigitCountOf(n: nat, d: nat)
    requires d >= 1 && Pow10(d - 1) <= n < Pow10(d)
    ensures NumDigits(n) == d
  {
    DigitCountBounds(n);
    var e := NumDigits(n);
    if e < d {
      Pow10Monotone(e, d - 1);
    } else if e > d {
      Pow10Monotone(d, e - 1);
    }
  }

  /** Prepending a digit adds it at the place value of the string's length. */
  lemma {:induction false} ValuePrepend(x: int, p: seq<int>)
    requires 0 <= x <= 9 && IsDigitSeq(p)
    ensures IsDigitSeq([x] + p)
    ensures Value([x] + p) == x * Pow10(|p|) + Value(p)
  {
    var s := [x] + p;
    if p != [] {
      var p' := p[..|p| - 1];
      var last := p[|p| - 1];
      assert s[..|s| - 1] == [x] + p';
      ValuePrepend(x, p');
      var head := x * Pow10(|p'|);
      assert Value(s) == 10 * (head + Value(p')) + last;
      assert Value(p) == 10 * Value(p') + last;
      assert 10 * head == x * Pow10(|p|) by {
        assert Pow10(|p|) == 10 * Pow10(|p'|);
        MulSwap(10, x, Pow10(|p'|));
      }
      MulDistrib(10, head, Value(p'));
    } else {
      assert s == [x];
    }
  }

  /** `str(int(s)) == s` for a digit string without a leading zero. */
  lemma {:induction false} ToDigitsOfValue(ds: seq<int>)
    requires IsDigitSeq(ds) && |ds| >= 1 && ds[0] != 0
    ensures ToDigits(Value(ds)) == ds
  {
    if |ds| > 1 {
      var p := ds[..|ds| - 1];
      var x := ds[|ds| - 1];
      assert p[0] == ds[0];
      ValueLowerBound(p);
      ToDigitsOfValue(p);
      assert Value(ds) == 10 * Value(p) + x;
      ToDigitsSnoc(Value(p), x);
      assert ds == p + [x];
    }
  }

  /** Appending a digit `x` to a positive `q` appends it to `str(q)`. */
  lemma ToDigitsSnoc(q: nat, x: int)
    requires q >= 1 && 0 <= x <= 9
    ensures ToDigits(10 * q + x) == ToDigits(q) + [x]
  {
    DivUnique(10 * q + x, 10, q, x);
  }

  /** `n // 10^k`, computed as `k` successive removals of the last digit. */
  function DropLow(n: nat, k: nat): nat
  {
    if k == 0 then n else DropLow(n / 10, k - 1)
  }

  /** Dropping the last `k` characters of `str(n)` gives `str(n // 10^k)`. */
  lemma {:induction false} DropLowDigits(n: nat, k: nat)
    requires k < NumDigits(n)
    ensures ToDigits(n)[..NumDigits(n) - k] == ToDigits(DropLow(n, k))
  {
    if k > 0 {
      var ds := ToDigits(n);
      var p := ToDigits(n / 10);
      assert ds == p + [n % 10];
      DropLowDigits(n / 10, k - 1);
      assert ds[..|ds| - k] == p[..|p| - (k - 1)];
    }
  }

  /** `(q * 10^k + r) // 10^k == q` when `r < 10^k`. */
  lemma {:induction false} DropLowOf(q: nat, r: nat, k: nat)
    requires r < Pow10(k)
    ensures DropLow(q * Pow10(k) + r, k) == q
  {
    if k > 0 {
      var pk := Pow10(k - 1);
      var n := q * Pow10(k) + r;
      SplitLastDigit(q, pk, r);
      assert n / 10 == q * pk + r / 10;
      DropLowOf(q, r / 10, k - 1);
    }
  }

  /** Removing the last digit of `q * (10 * pk) + r`. */
  lemma SplitLastDigit(q: nat, pk: nat, r: nat)
    requires r < 10 * pk
    ensures r / 10 < pk
    ensures (q * (10 * pk) + r) / 10 == q * pk + r / 10
  {
    var n := q * (10 * pk) + r;
    assert n == 10 * (q * pk + r / 10) + r % 10 by {
      MulSwap(q, 10, pk);
      MulDistrib(10, q * pk, r / 10);
    }
    DivUnique(n, 10, q * pk + r / 10, r % 10);
  }
}
