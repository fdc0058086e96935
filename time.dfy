/** Exact rational time (reducer.rs `Time` and its `Add`/`Sub`) and the conversions of util.rs
    between `Time` and the `fraction` crate's `GenericFraction<u64>`. */
module TimeAlgebra {
  import opened Wrappers
  import opened Ast

  type Pos = n: int | n > 0 witness 1

  /** 2^64: `as u64` on a negative `isize` adds this. */
  const U64: int := 0x1_0000_0000_0000_0000

  /** A time stamp in beats-of-four-quarters: `num / denom`, not necessarily in lowest terms. */
  datatype Time = Time(num: int, denom: Pos) {
    function Value(): real
    {
      num as real / denom as real
    }

    /** In lowest terms. */
    predicate Canonical()
    {
      Gcd(Abs(num), denom) == 1
    }
  }

  /** A finite `GenericFraction<u64>`: a sign and an unsigned numerator over a denominator. */
  datatype Frac = Frac(negative: bool, numer: nat, denom: Pos) {
    function Signed(): int
    {
      if negative then -(numer as int) else numer
    }

    function Value(): real
    {
      Signed() as real / denom as real
    }

    predicate Reduced()
    {
      Gcd(numer, denom) == 1
    }
  }

  function Abs(n: int): nat
  {
    if n < 0 then -n else n
  }

  function Gcd(a: nat, b: nat): nat
    decreases b
  {
    if b == 0 then a else Gcd(b, a % b)
  }

  lemma MulAtLeast(g: int, k: int)
    requires g > 0 && k >= 1
    ensures g * k >= g
  {
    assert g * k == g + g * (k - 1);
  }

  lemma MulNotPositive(g: int, k: int)
    requires g > 0 && k <= 0
    ensures g * k <= 0
  {
    assert g * k == -(g * (-k));
  }

  /** Euclidean division is determined by its defining equation. */
  lemma DivUnique(a: int, b: int, q: int, r: int)
    requires b > 0 && a == b * q + r && 0 <= r < b
    ensures a / b == q && a % b == r
  {
    var q0, r0 := a / b, a % b;
    assert a == b * q0 + r0 && 0 <= r0 < b;
    assert b * (q - q0) == r0 - r;
    if q - q0 >= 1 {
      MulAtLeast(b, q - q0);
    } else if q0 - q >= 1 {
      assert b * (q0 - q) == r - r0;
      MulAtLeast(b, q0 - q);
    }
  }

  lemma MulMod(g: int, m: int)
    requires g > 0
    ensures (g * m) % g == 0 && (g * m) / g == m
  {
    DivUnique(g * m, g, m, 0);
  }

  lemma DividesOut(n: int, g: int)
    requires g > 0 && n % g == 0
    ensures n == g * (n / g)
  {
  }

  lemma DivisibleCombination(a: int, b: int, k: int, q: int)
    requires k > 0 && a % k == 0 && b % k == 0
    ensures (q * a + b) % k == 0
  {
    var x, y := a / k, b / k;
    DividesOut(a, k);
    DividesOut(b, k);
    assert q * a + b == k * (q * x + y) by {
      assert q * (k * x) == k * (q * x);
    }
    MulMod(k, q * x + y);
  }

  lemma {:induction false} GcdDivides(a: nat, b: nat)
    requires a > 0 || b > 0
    ensures Gcd(a, b) > 0 && a % Gcd(a, b) == 0 && b % Gcd(a, b) == 0
    decreases b
  {
    if b == 0 {
      MulMod(a, 1);
    } else {
      GcdDivides(b, a % b);
      var g := Gcd(b, a % b);
      assert a == (a / b) * b + a % b;
      DivisibleCombination(b, a % b, g, a / b);
    }
  }

  lemma {:induction false} GcdGreatest(a: nat, b: nat, k: int)
    requires k > 0 && a % k == 0 && b % k == 0
    ensures Gcd(a, b) % k == 0
    decreases b
  {
    if b != 0 {
      assert a % b == -(a / b) * b + a;
      DivisibleCombination(b, a, k, -(a / b));
      GcdGreatest(b, a % b, k);
    }
  }

  lemma FactorIsOne(g: int, h: int, m: int)
    requires g > 0 && h > 0 && g == (g * h) * m
    ensures h == 1
  {
    assert (g * h) * m == g * (h * m);
    if h * m <= 0 {
      MulNotPositive(g, h * m);
    } else if h * m >= 2 {
      MulAtLeast(g, h * m);
      assert g * (h * m) == g + g * (h * m - 1);
      MulAtLeast(g, h * m - 1);
    }
    assert h * m == 1;
    if m <= 0 {
      MulNotPositive(h, m);
    } else if h >= 2 {
      assert m * h == h * m;
      MulAtLeast(m, h);
    }
  }

  /** A common factor of n/g and d/g, times g, divides both n and d. */
  lemma ScaledCommonDivisor(n: nat, d: Pos, g: Pos, h: Pos)
    requires n % g == 0 && d % g == 0 && (n / g) % h == 0 && (d / g) % h == 0
    ensures g * h > 0 && n % (g * h) == 0 && d % (g * h) == 0
  {
    MulAtLeast(g, h);
    DividesOut(n, g);
    DividesOut(d, g);
    DividesOut(n / g, h);
    DividesOut(d / g, h);
    var x, y := (n / g) / h, (d / g) / h;
    assert n == (g * h) * x by { assert g * (h * x) == (g * h) * x; }
    assert d == (g * h) * y by { assert g * (h * y) == (g * h) * y; }
    MulMod(g * h, x);
    MulMod(g * h, y);
  }

  /** Dividing both parts by their gcd leaves a fraction in lowest terms. */
  lemma LowestTerms(n: nat, d: Pos)
    ensures Gcd(n, d) > 0 && n % Gcd(n, d) == 0 && d % Gcd(n, d) == 0
    ensures d / Gcd(n, d) > 0 && Gcd(n / Gcd(n, d), d / Gcd(n, d)) == 1
  {
    GcdDivides(n, d);
    var g := Gcd(n, d);
    QuotientPositive(d, g);
    CoprimeQuotients(n, d, g);
  }

  lemma QuotientPositive(d: Pos, g: Pos)
    requires d % g == 0
    ensures d / g > 0
  {
    DividesOut(d, g);
    if d / g <= 0 { MulNotPositive(g, d / g); }
  }

  /** n/g and d/g have no common factor but 1 when g is the gcd of n and d. */
  lemma CoprimeQuotients(n: nat, d: Pos, g: Pos)
    requires g == Gcd(n, d) && n % g == 0 && d % g == 0 && d / g > 0
    ensures Gcd(n / g, d / g) == 1
  {
    var n', d' := n / g, d / g;
    GcdDivides(n', d');
    var h := Gcd(n', d');
    ScaledCommonDivisor(n, d, g, h);
    GcdGreatest(n, d, g * h);
    DividesOut(g, g * h);
    FactorIsOne(g, h, g / (g * h));
  }

  lemma ScaleFraction(x: int, y: Pos, g: Pos)
    ensures (g * x) as real / (g * y) as real == x as real / y as real
  {
    var yr, gr := y as real, g as real;
    assert (g * x) as real == gr * (x as real);
    assert (g * y) as real == gr * yr;
    assert (gr * (x as real)) / (gr * yr) == (x as real) / yr;
  }

  lemma ReducedValue(n: nat, d: Pos)
    ensures Gcd(n, d) > 0 && d / Gcd(n, d) > 0
    ensures (n / Gcd(n, d)) as real / (d / Gcd(n, d)) as real == n as real / d as real
  {
    LowestTerms(n, d);
    var g := Gcd(n, d);
    var a, b := n / g, d / g;
    DividesOut(n, g);
    DividesOut(d, g);
    ScaleFraction(a, b, g);
  }

  /** `Fraction::new(n, d)`: the fraction n/d reduced by the gcd of its parts. */
  function FracNew(n: nat, d: Pos): (f: Frac)
    ensures f.Reduced() && !f.negative
    ensures f.Value() == n as real / d as real
  {
    LowestTerms(n, d);
    ReducedValue(n, d);
    var g := Gcd(n, d);
    Frac(false, n / g, d / g)
  }

  /** The reduced fraction of a signed numerator over a positive denominator, keeping its sign. */
  function FracOfSigned(n: int, d: Pos): (f: Frac)
    ensures f.Reduced()
    ensures f.Value() == n as real / d as real
  {
    var m := FracNew(Abs(n), d);
    var f := Frac(n < 0 && m.numer > 0, m.numer, m.denom);
    SignedValue(n, d, m, f);
    f
  }

  lemma SignedValue(n: int, d: Pos, m: Frac, f: Frac)
    requires !m.negative && m.Value() == Abs(n) as real / d as real
    requires f == Frac(n < 0 && m.numer > 0, m.numer, m.denom)
    ensures f.Value() == n as real / d as real
  {
    NegDiv(m.numer, m.denom);
    NegDiv(Abs(n), d);
  }

  lemma NegDiv(x: int, y: Pos)
    ensures (-x) as real / y as real == -(x as real / y as real)
  {
  }

  /** The exact sum in reduced form, as the `fraction` crate's `+` returns it. */
  function FracAdd(a: Frac, b: Frac): (r: Frac)
    ensures r.Reduced() && r.Value() == a.Value() + b.Value()
  {
    var n, d := a.Signed() * b.denom + b.Signed() * a.denom, a.denom * b.denom;
    SumOverCommonDenominator(a.Signed(), a.denom, b.Signed(), b.denom);
    FracOfSigned(n, d)
  }

  /** The exact difference in reduced form, as the `fraction` crate's `-` returns it. */
  function FracSub(a: Frac, b: Frac): (r: Frac)
    ensures r.Reduced() && r.Value() == a.Value() - b.Value()
  {
    var n, d := a.Signed() * b.denom - b.Signed() * a.denom, a.denom * b.denom;
    DifferenceOverCommonDenominator(a.Signed(), a.denom, b.Signed(), b.denom);
    FracOfSigned(n, d)
  }

  lemma SumOverCommonDenominator(p: int, q: Pos, r: int, s: Pos)
    ensures (p * s + r * q) as real / (q * s) as real == p as real / q as real + r as real / s as real
  {
    var pr, qr, rr, sr := p as real, q as real, r as real, s as real;
    assert (p * s + r * q) as real == pr * sr + rr * qr;
    assert (q * s) as real == qr * sr;
    assert (pr * sr + rr * qr) / (qr * sr) == pr / qr + rr / sr;
  }

  lemma DifferenceOverCommonDenominator(p: int, q: Pos, r: int, s: Pos)
    ensures (p * s - r * q) as real / (q * s) as real == p as real / q as real - r as real / s as real
  {
    SumOverCommonDenominator(p, q, -r, s);
    assert p * s - r * q == p * s + (-r) * q;
    NegDiv(r, s);
  }

  /** The bit pattern `as u64` gives an `isize`: negatives wrap around by 2^64. */
  function AsU64(n: int): (u: nat)
    ensures n >= 0 ==> u == n
    ensures -U64 <= n < 0 ==> u == n + U64
  {
    if n >= 0 then n else n % U64
  }

  /** util.rs `time_to_frac`: `Fraction::new(num as u64, denom as u64)`. */
  function TimeToFrac(t: Time): (f: Frac)
    ensures f.Reduced() && !f.negative
    ensures f.Value() == AsU64(t.num) as real / t.denom as real
    ensures t.num >= 0 ==> f.Value() == t.Value()
  {
    FracNew(AsU64(t.num), t.denom)
  }

  /** util.rs `frac_to_time`: numerator = fract numerator + trunc * fract denominator, with the
      fraction's sign; denominator = the fract part's denominator. */
  function FracToTime(f: Frac): (t: Time)
    ensures f.Reduced() ==> t == Time(f.Signed(), f.denom)
  {
    var fract := FracNew(f.numer % f.denom, f.denom);
    var trunc := f.numer / f.denom;
    var num := (fract.numer + trunc * fract.denom) * (if f.negative then -1 else 1);
    if f.Reduced() then FracToTimeOfReduced(f); Time(num, fract.denom) else Time(num, fract.denom)
  }

  lemma FracToTimeOfReduced(f: Frac)
    requires f.Reduced()
    ensures var fract := FracNew(f.numer % f.denom, f.denom);
            fract.numer + (f.numer / f.denom) * fract.denom == f.numer && fract.denom == f.denom
  {
    var p, q := f.numer, f.denom;
    var rem := p % q;
    assert p == (p / q) * q + rem;
    if rem == 0 {
      // q divides p and gcd(p, q) = 1, so q = 1.
      MulMod(q, 1);
      GcdGreatest(p, q, q);
      if q > 1 {
        DivUnique(1, q, 0, 1);
      }
      assert Gcd(0, 1) == 1;
    } else {
      DivUnique(rem, q, 0, rem);
      assert Gcd(rem, q) == Gcd(q, rem);
      assert Gcd(p, q) == Gcd(q, rem);
      var g := Gcd(rem, q);
      assert rem / g == rem && q / g == q;
    }
  }

  /** `&a + &b` on `Time`: through fractions and back. */
  function TimeAdd(a: Time, b: Time): (r: Time)
    ensures a.num >= 0 && b.num >= 0 ==> r.num >= 0 && r.Canonical() && r.Value() == a.Value() + b.Value()
  {
    var f := FracAdd(TimeToFrac(a), TimeToFrac(b));
    if a.num >= 0 && b.num >= 0 then CanonicalOfFrac(f); FracToTime(f) else FracToTime(f)
  }

  /** `&a - &b` on `Time`: through fractions and back; the result may be negative. */
  function TimeSub(a: Time, b: Time): (r: Time)
    ensures a.num >= 0 && b.num >= 0 ==> r.Canonical() && r.Value() == a.Value() - b.Value()
    ensures a.num >= 0 && b.num >= 0 ==> (r.num < 0 <==> a.Value() < b.Value())
  {
    var f := FracSub(TimeToFrac(a), TimeToFrac(b));
    if a.num >= 0 && b.num >= 0 then CanonicalOfFrac(f); FracToTime(f) else FracToTime(f)
  }

  lemma CanonicalOfFrac(f: Frac)
    requires f.Reduced()
    ensures FracToTime(f).Canonical() && FracToTime(f).Value() == f.Value()
    ensures FracToTime(f).num < 0 <==> f.Value() < 0.0
    ensures !f.negative ==> FracToTime(f).num >= 0
  {
    var t := FracToTime(f);
    assert t == Time(f.Signed(), f.denom);
    assert Abs(t.num) == f.numer;
    DivSign(f.Signed(), f.denom);
  }

  lemma DivSign(x: int, y: Pos)
    ensures x as real / y as real < 0.0 <==> x < 0
  {
  }

  /** util.rs `time_expression_to_time`: 4 sixteenths per beat plus the sixteenth, over 16. */
  function TimeExpressionToTime(te: TimeExpression): (t: Time)
    ensures t.denom == 16 && t.num >= 0
    ensures t.Value() == (4 * te.beat + te.sixteenth.GetOr(0)) as real / 16.0
  {
    Time(te.beat * 4 + te.sixteenth.GetOr(0), 16)
  }

  /** The zero time `Time { num: 0, denom: 1 }` that truncation clamps to. */
  const Zero: Time := Time(0, 1)
}
