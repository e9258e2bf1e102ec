/** Fixed-width big-endian numerals in any base, the arithmetic under every codec of the relayer. */
module Positional {

  function Pow(b: nat, e: nat): (p: nat)
    ensures b > 0 ==> p > 0
  {
    if e == 0 then 1 else b * Pow(b, e - 1)
  }

  predicate DigitsIn(ds: seq<nat>, b: nat) {
    forall i :: 0 <= i < |ds| ==> ds[i] < b
  }

  /** The number a digit string denotes: int(s, base) and int.from_bytes(s, "big"). */
  function Value(ds: seq<nat>, b: nat): nat {
    if ds == [] then 0 else Value(ds[..|ds| - 1], b) * b + ds[|ds| - 1]
  }

  /** The last w digits of n: int.to_bytes and a zero-filled hex(). */
  function Fixed(n: nat, b: nat, w: nat): (ds: seq<nat>)
    requires b >= 2
    ensures |ds| == w && DigitsIn(ds, b)
  {
    if w == 0 then [] else Fixed(n / b, b, w - 1) + [n % b]
  }

  lemma ValueSnoc(hi: seq<nat>, lo: nat, b: nat)
    ensures Value(hi + [lo], b) == Value(hi, b) * b + lo
  {
    assert (hi + [lo])[..|hi|] == hi;
  }

  lemma {:induction false} ValueFixed(n: nat, b: nat, w: nat)
    requires b >= 2 && n < Pow(b, w)
    ensures Value(Fixed(n, b, w), b) == n
    decreases w
  {
    if w > 0 {
      var q, r := LastDigit(n, b, w);
      ValueFixed(q, b, w - 1);
      ValueSplit(n, q, r, b, Fixed(q, b, w - 1));
    }
  }

  lemma LastDigit(n: nat, b: nat, w: nat) returns (q: nat, r: nat)
    requires b >= 2 && w > 0 && n < Pow(b, w)
    ensures n == q * b + r && q < Pow(b, w - 1) && Fixed(n, b, w) == Fixed(q, b, w - 1) + [r]
  {
    q, r := n / b, n % b;
    DivBound(n, b, Pow(b, w - 1));
    Division(n, b);
  }

  lemma ValueSplit(n: nat, q: nat, r: nat, b: nat, hi: seq<nat>)
    requires n == q * b + r && Value(hi, b) == q
    ensures Value(hi + [r], b) == n
  {
    ValueSnoc(hi, r, b);
  }

  lemma {:induction false} FixedValue(ds: seq<nat>, b: nat)
    requires b >= 2 && DigitsIn(ds, b)
    ensures Fixed(Value(ds, b), b, |ds|) == ds
    ensures Value(ds, b) < Pow(b, |ds|)
  {
    if ds != [] {
      var hi, lo := ds[..|ds| - 1], ds[|ds| - 1];
      FixedValue(hi, b);
      ValueSnoc(hi, lo, b);
      assert ds == hi + [lo];
      DivMod(Value(hi, b), b, lo);
      OneMoreDigit(Value(hi, b), lo, b, Pow(b, |ds| - 1));
    }
  }

  lemma OneMoreDigit(v: nat, lo: nat, b: nat, p: nat)
    requires lo < b && v < p
    ensures v * b + lo < b * p
  {
    MulLe(v + 1, p, b);
    assert (v + 1) * b == v * b + b;
  }

  lemma Division(n: nat, b: nat)
    requires b > 0
    ensures n / b * b + n % b == n && n % b < b
  {
  }

  lemma DivBound(n: nat, b: nat, p: nat)
    requires b > 0 && n < b * p
    ensures n / b < p
  {
    Division(n, b);
    if p <= n / b { MulLe(p, n / b, b); }
  }

  lemma DivMod(q: nat, b: nat, r: nat)
    requires r < b
    ensures (q * b + r) / b == q && (q * b + r) % b == r
  {
    var n := q * b + r;
    Division(n, b);
    if q + 1 <= n / b { MulLe(q + 1, n / b, b); }
    if n / b + 1 <= q { MulLe(n / b + 1, q, b); }
  }

  lemma MulLe(x: int, y: int, b: nat)
    requires x <= y
    ensures x * b <= y * b
  {
  }

  lemma {:induction false} PowMonotone(b: nat, e: nat, f: nat)
    requires b >= 1 && e <= f
    ensures Pow(b, e) <= Pow(b, f)
  {
    if e < f {
      PowMonotone(b, e, f - 1);
      MulLe(1, b, Pow(b, f - 1));
    }
  }

  lemma {:induction false} ValueConcat(x: seq<nat>, y: seq<nat>, b: nat)
    ensures Value(x + y, b) == Value(x, b) * Pow(b, |y|) + Value(y, b)
  {
    if y == [] {
      assert x + y == x;
    } else {
      var hi, lo := y[..|y| - 1], y[|y| - 1];
      assert y == hi + [lo];
      ValueConcat(x, hi, b);
      ValueSnoc(x + hi, lo, b);
      ValueSnoc(hi, lo, b);
      assert x + y == (x + hi) + [lo];
      Distribute(Value(x, b), Pow(b, |hi|), Value(hi, b), b);
    }
  }

  lemma Distribute(v: nat, p: nat, u: nat, b: nat)
    ensures (v * p + u) * b == v * (b * p) + u * b
  {
  }

  /** Numerals of one width that denote the same number are the same numeral. */
  lemma {:induction false} ValueInjective(x: seq<nat>, y: seq<nat>, b: nat)
    requires b >= 2 && DigitsIn(x, b) && DigitsIn(y, b) && |x| == |y| && Value(x, b) == Value(y, b)
    ensures x == y
  {
    FixedValue(x, b);
    FixedValue(y, b);
  }

  lemma {:induction false} FixedInjective(m: nat, n: nat, b: nat, w: nat)
    requires b >= 2 && m < Pow(b, w) && n < Pow(b, w) && Fixed(m, b, w) == Fixed(n, b, w)
    ensures m == n
  {
    ValueFixed(m, b, w);
    ValueFixed(n, b, w);
  }

  /** Leading zeros do not change the number. */
  lemma {:induction false} LeadingZero(ds: seq<nat>, b: nat)
    ensures Value([0] + ds, b) == Value(ds, b)
  {
    ValueConcat([0], ds, b);
    assert [0][..0] == [];
    assert Value([0], b) == 0;
  }

  // ----- dictionary order -----

  /** Python's < on two lists of digits. */
  predicate Less(x: seq<nat>, y: seq<nat>) {
    if y == [] then false
    else if x == [] then true
    else x[0] < y[0] || (x[0] == y[0] && Less(x[1..], y[1..]))
  }

  /** On numerals of one width, dictionary order is numeric order. */
  lemma {:induction false} LessIsNumeric(x: seq<nat>, y: seq<nat>, b: nat)
    requires b >= 2 && DigitsIn(x, b) && DigitsIn(y, b) && |x| == |y|
    ensures Less(x, y) <==> Value(x, b) < Value(y, b)
  {
    if x != [] {
      LessIsNumeric(x[1..], y[1..], b);
      HeadValue(x, b);
      HeadValue(y, b);
      var p := Pow(b, |x| - 1);
      LeadingDigit(x[0], Value(x[1..], b), y[0], Value(y[1..], b), p);
    }
  }

  lemma LeadingDigit(x: nat, u: nat, y: nat, v: nat, p: nat)
    requires u < p && v < p
    ensures x * p + u < y * p + v <==> x < y || (x == y && u < v)
  {
    if x < y { MulLe(x + 1, y, p); }
    if y < x { MulLe(y + 1, x, p); }
  }

  lemma OneDigit(d: nat, b: nat)
    ensures Value([d], b) == d
  {
    ValueSnoc([], d, b);
    assert [] + [d] == [d];
  }

  lemma {:induction false} HeadValue(x: seq<nat>, b: nat)
    requires b >= 2 && DigitsIn(x, b) && x != []
    ensures Value(x, b) == x[0] * Pow(b, |x| - 1) + Value(x[1..], b)
    ensures Value(x[1..], b) < Pow(b, |x| - 1)
  {
    assert x == [x[0]] + x[1..];
    ValueConcat([x[0]], x[1..], b);
    OneDigit(x[0], b);
    FixedValue(x[1..], b);
  }
}
