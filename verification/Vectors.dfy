/** Vectors of reals: what the cosine of two of them needs, square roots included. */
module Vectors {
  type Vector = seq<real>

  // Products, reasoned about by their laws

  function Times(x: real, y: real): real {
    x * y
  }

  lemma {:induction false} TimesPositive(x: real, y: real)
    requires x > 0.0 && y > 0.0
    ensures Times(x, y) > 0.0
  {
  }

  lemma {:induction false} TimesCommutes(x: real, y: real)
    ensures Times(x, y) == Times(y, x)
  {
  }

  lemma {:induction false} TimesAssociates(x: real, y: real, z: real)
    ensures Times(Times(x, y), z) == Times(x, Times(y, z))
  {
  }

  lemma {:induction false} TimesSum(s: real, x: real, t: real, y: real, z: real)
    ensures Times(Times(s, x) + Times(t, y), z) == Times(s, Times(x, z)) + Times(t, Times(y, z))
  {
  }

  lemma {:induction false} TimesDistributes(s: real, x: real, y: real)
    ensures Times(s, x + y) == Times(s, x) + Times(s, y)
    ensures Times(s, -x) == -Times(s, x) && Times(-s, x) == -Times(s, x)
    ensures Times(s, 0.0) == 0.0 && Times(s, 1.0) == s
  {
  }

  lemma {:induction false} TimesCancels(x: real, y: real, z: real)
    requires z > 0.0
    ensures Times(x, z) == Times(y, z) <==> x == y
    ensures Times(x, z) < Times(y, z) <==> x < y
  {
    if x < y {
      TimesPositive(y - x, z);
      TimesLess(x, y, z);
    } else if y < x {
      TimesPositive(x - y, z);
      TimesLess(y, x, z);
    }
  }

  lemma {:induction false} TimesLess(x: real, y: real, z: real)
    ensures Times(y - x, z) == Times(y, z) - Times(x, z)
  {
  }

  lemma {:induction false} SquareIsNotNegative(x: real)
    ensures Times(x, x) >= 0.0
    ensures Times(x, x) == 0.0 <==> x == 0.0
  {
    TimesDistributes(x, x, x);
    TimesDistributes(-x, x, x);
    if x > 0.0 {
      TimesPositive(x, x);
    } else if x < 0.0 {
      TimesPositive(-x, -x);
    }
  }

  // Vectors

  /** The sum of products over the shared positions, as a loop over `zip(a, b)` adds it up. */
  function Dot(a: Vector, b: Vector): real {
    if a == [] || b == [] then 0.0 else Times(a[0], b[0]) + Dot(a[1..], b[1..])
  }

  /** `s * a + t * b`. */
  function Combine(s: real, a: Vector, t: real, b: Vector): (r: Vector)
    requires |a| == |b|
    ensures |r| == |a|
  {
    seq(|a|, i requires 0 <= i < |a| => Times(s, a[i]) + Times(t, b[i]))
  }

  lemma {:induction false} CombineTail(s: real, a: Vector, t: real, b: Vector)
    requires |a| == |b| && a != []
    ensures Combine(s, a, t, b)[0] == Times(s, a[0]) + Times(t, b[0])
    ensures Combine(s, a, t, b)[1..] == Combine(s, a[1..], t, b[1..])
  {
    forall i | 0 <= i < |a| - 1 ensures Combine(s, a, t, b)[1..][i] == Combine(s, a[1..], t, b[1..])[i] {
      assert Combine(s, a, t, b)[i + 1] == Times(s, a[i + 1]) + Times(t, b[i + 1]);
    }
  }

  lemma {:induction false} DotCommutes(a: Vector, b: Vector)
    ensures Dot(a, b) == Dot(b, a)
  {
    if a != [] && b != [] {
      TimesCommutes(a[0], b[0]);
      DotCommutes(a[1..], b[1..]);
    }
  }

  /** The product is linear in its first factor. */
  lemma {:induction false} DotOfCombine(s: real, a: Vector, t: real, b: Vector, x: Vector)
    requires |a| == |b| == |x|
    ensures Dot(Combine(s, a, t, b), x) == Times(s, Dot(a, x)) + Times(t, Dot(b, x))
  {
    if a == [] {
      TimesDistributes(s, 0.0, 0.0);
      TimesDistributes(t, 0.0, 0.0);
    } else {
      CombineTail(s, a, t, b);
      DotOfCombine(s, a[1..], t, b[1..], x[1..]);
      TimesSum(s, a[0], t, b[0], x[0]);
      TimesDistributes(s, Times(a[0], x[0]), Dot(a[1..], x[1..]));
      TimesDistributes(t, Times(b[0], x[0]), Dot(b[1..], x[1..]));
    }
  }

  lemma {:induction false} NormIsNotNegative(a: Vector)
    ensures Dot(a, a) >= 0.0
  {
    if a != [] {
      SquareIsNotNegative(a[0]);
      NormIsNotNegative(a[1..]);
    }
  }

  /** A vector of norm zero is orthogonal to everything. */
  lemma {:induction false} ZeroIsOrthogonal(a: Vector, x: Vector)
    requires Dot(a, a) == 0.0
    ensures Dot(a, x) == 0.0
  {
    if a != [] && x != [] {
      SquareIsNotNegative(a[0]);
      NormIsNotNegative(a[1..]);
      TimesCommutes(a[0], x[0]);
      TimesDistributes(x[0], 0.0, 0.0);
      ZeroIsOrthogonal(a[1..], x[1..]);
    }
  }

  /** `math.sqrt`, as far as it matters. */
  ghost predicate IsSquareRoot(sqrt: real -> real) {
    forall x: real :: x >= 0.0 ==> sqrt(x) >= 0.0 && Times(sqrt(x), sqrt(x)) == x
  }

  function Length(a: Vector, sqrt: real -> real): real {
    sqrt(Dot(a, a))
  }

  lemma {:induction false} LengthSquared(a: Vector, sqrt: real -> real)
    requires IsSquareRoot(sqrt)
    ensures Length(a, sqrt) >= 0.0 && Times(Length(a, sqrt), Length(a, sqrt)) == Dot(a, a)
    ensures Length(a, sqrt) == 0.0 <==> Dot(a, a) == 0.0
  {
    NormIsNotNegative(a);
    SquareIsNotNegative(Length(a, sqrt));
  }

  /** The norm of `s * a + t * b`. */
  lemma {:induction false} NormOfCombine(s: real, a: Vector, t: real, b: Vector)
    requires |a| == |b|
    ensures var v := Combine(s, a, t, b);
            Dot(v, v) == Times(s, Times(s, Dot(a, a)) + Times(t, Dot(a, b)))
                         + Times(t, Times(s, Dot(a, b)) + Times(t, Dot(b, b)))
  {
    var v := Combine(s, a, t, b);
    assert Dot(a, v) == Times(s, Dot(a, a)) + Times(t, Dot(a, b)) by {
      DotCommutes(a, v);
      DotOfCombine(s, a, t, b, a);
      DotCommutes(a, b);
    }
    assert Dot(b, v) == Times(s, Dot(a, b)) + Times(t, Dot(b, b)) by {
      DotCommutes(b, v);
      DotOfCombine(s, a, t, b, b);
    }
    DotOfCombine(s, a, t, b, v);
  }

  /** The norm of `q * a - p * b` for vectors of lengths `p` and `q` and product `d`. */
  lemma {:induction false} NormOfDifference(p: real, q: real, d: real)
    ensures Times(q, Times(q, Times(p, p)) + Times(-p, d)) + Times(-p, Times(q, d) + Times(-p, Times(q, q)))
            == 2.0 * Times(Times(p, q), Times(p, q) - d)
  {
  }

  /**
   Where Cauchy and Schwarz allow no more: vectors of the same direction differ by a
   factor only.
   */
  lemma {:induction false} SameDirection(a: Vector, b: Vector, x: Vector, sqrt: real -> real)
    requires |a| == |b| == |x| && IsSquareRoot(sqrt)
    requires Dot(a, b) >= Times(Length(a, sqrt), Length(b, sqrt))
    ensures Times(Length(b, sqrt), Dot(a, x)) == Times(Length(a, sqrt), Dot(b, x))
  {
    var p, q, d := Length(a, sqrt), Length(b, sqrt), Dot(a, b);
    var v := Combine(q, a, -p, b);
    LengthSquared(a, sqrt);
    LengthSquared(b, sqrt);
    NormOfCombine(q, a, -p, b);
    NormOfDifference(p, q, d);
    NotAbove(p, q, d);
    NormIsNotNegative(v);
    ZeroIsOrthogonal(v, x);
    DotOfCombine(q, a, -p, b, x);
    TimesDistributes(p, Dot(b, x), 0.0);
  }

  lemma {:induction false} NotAbove(p: real, q: real, d: real)
    requires p >= 0.0 && q >= 0.0 && d >= Times(p, q)
    ensures Times(Times(p, q), Times(p, q) - d) <= 0.0
  {
    if p > 0.0 && q > 0.0 {
      TimesPositive(p, q);
      if d > Times(p, q) {
        TimesPositive(Times(p, q), d - Times(p, q));
        TimesDistributes(Times(p, q), d - Times(p, q), 0.0);
      }
    }
  }

  lemma {:induction false} Negated(a: Vector, x: Vector)
    requires |a| == |x|
    ensures var n := Combine(-1.0, a, 0.0, a);
            Dot(n, x) == -Dot(a, x) && Dot(n, n) == Dot(a, a)
  {
    var n := Combine(-1.0, a, 0.0, a);
    DotOfCombine(-1.0, a, 0.0, a, x);
    DotOfCombine(-1.0, a, 0.0, a, n);
    DotCommutes(a, n);
    DotOfCombine(-1.0, a, 0.0, a, a);
  }

  /** The same for vectors of opposite direction. */
  lemma {:induction false} OppositeDirection(a: Vector, b: Vector, x: Vector, sqrt: real -> real)
    requires |a| == |b| == |x| && IsSquareRoot(sqrt)
    requires Dot(a, b) <= -Times(Length(a, sqrt), Length(b, sqrt))
    ensures Times(Length(b, sqrt), Dot(a, x)) == -Times(Length(a, sqrt), Dot(b, x))
  {
    var n := Combine(-1.0, a, 0.0, a);
    Negated(a, b);
    Negated(a, x);
    SameDirection(n, b, x, sqrt);
    TimesDistributes(Length(b, sqrt), Dot(a, x), 0.0);
  }

  /** Numbers that are not negative and have the same square are the same. */
  lemma {:induction false} SquaresAgree(x: real, y: real)
    requires x >= 0.0 && y >= 0.0 && Times(x, x) == Times(y, y)
    ensures x == y
  {
    SquareIsNotNegative(x);
    SquareIsNotNegative(y);
    if x > 0.0 && y > 0.0 {
      TimesCancels(x, y, x);
      TimesCancels(x, y, y);
      TimesCommutes(x, y);
    }
  }

  lemma {:induction false} DotOfMultiple(n: real, m: Vector, x: Vector)
    requires |m| == |x|
    ensures Dot(Combine(n, m, 0.0, m), x) == Times(n, Dot(m, x))
  {
    DotOfCombine(n, m, 0.0, m, x);
    TimesCommutes(0.0, Dot(m, x));
    TimesDistributes(Dot(m, x), 0.0, 0.0);
  }

  lemma {:induction false} SquareOfProduct(n: real, l: real)
    ensures Times(n, Times(n, Times(l, l))) == Times(Times(n, l), Times(n, l))
  {
    TimesAssociates(n, l, Times(n, l));
    TimesCommutes(l, Times(n, l));
    TimesAssociates(n, l, l);
  }

  lemma {:induction false} LengthOfMultiple(n: real, m: Vector, sqrt: real -> real)
    requires IsSquareRoot(sqrt) && n > 0.0
    ensures var s := Combine(n, m, 0.0, m);
            Length(s, sqrt) == Times(n, Length(m, sqrt)) && Dot(s, s) == Times(n, Times(n, Dot(m, m)))
  {
    var s, l := Combine(n, m, 0.0, m), Length(m, sqrt);
    DotOfMultiple(n, m, s);
    DotCommutes(m, s);
    DotOfMultiple(n, m, m);
    LengthSquared(m, sqrt);
    LengthSquared(s, sqrt);
    SquareOfProduct(n, l);
    if l > 0.0 {
      TimesPositive(n, l);
    } else {
      TimesDistributes(n, 0.0, 0.0);
    }
    SquaresAgree(Length(s, sqrt), Times(n, l));
  }
}
