/** Fixed-point arithmetic on int64 raw values scaled by 10^8 (internal/decimal). */
module Decimal {
  import opened Int64

  const PRECISION: nat := 8
  const SCALE: int := 1_0000_0000
  /** The largest magnitude whose product with SCALE still fits in an int64. */
  const QUO_LIMIT: int := 92233720368
  const MUL_LIMIT: int := 0x8000_0000

  type D = int64

  function Clamp(x: int): (r: D)
    ensures MIN <= x <= MAX ==> r == x
    ensures x > MAX ==> r == MAX
    ensures x < MIN ==> r == MIN
  {
    if x > MAX then MAX else if x < MIN then MIN else x
  }

  /** The wrapped sum is kept when it agrees in sign with an operand. */
  function Add(a: D, b: D): (r: D)
  {
    var sum := Wrap(a + b);
    if Xor(sum, a) >= 0 || Xor(sum, b) >= 0 then sum
    else if a > 0 then MAX
    else MIN
  }

  function Mul(a: D, b: D): (r: D)
  {
    if a > MUL_LIMIT || a < -MUL_LIMIT || b > MUL_LIMIT || b < -MUL_LIMIT then
      Wrap((a * b) / SCALE)
    else
      Wrap(TruncDiv(Wrap(a * b), SCALE))
  }

  /** Division by zero panics in the source. */
  function Quo(a: D, b: D): (r: D)
    requires b != 0
  {
    Wrap(TruncDiv(Wrap(a * SCALE), b))
  }

  function Cmp(a: D, b: D): int {
    if a < b then -1 else if a > b then 1 else 0
  }

  function Sign(a: D): int {
    if a < 0 then -1 else if a > 0 then 1 else 0
  }

  // ---------------------------------------------------------------- Add

  /** The sign-bit overflow test is exact: Add saturates the true sum. */
  lemma AddSaturates(a: D, b: D)
    ensures Add(a, b) == Clamp(a + b)
  {
    var sum := Wrap(a + b);
    XorSign(sum, a);
    XorSign(sum, b);
    if a + b > MAX {
      WrapCongruent(a + b, a + b - MODULUS, 1);
    } else if a + b < MIN {
      WrapCongruent(a + b, a + b + MODULUS, -1);
    }
  }

  /** Add as callers see it. */
  method Sum(a: D, b: D) returns (r: D)
    ensures r == Clamp(a + b)
  {
    AddSaturates(a, b);
    r := Add(a, b);
  }

  /** A way of bracketing a sum of decimals. */
  datatype Grouping = Leaf(value: D) | Node(left: Grouping, right: Grouping)
  {
    function Eval(): D {
      match this
      case Leaf(v) => v
      case Node(l, r) => Add(l.Eval(), r.Eval())
    }

    function Leaves(): multiset<D> {
      match this
      case Leaf(v) => multiset{v}
      case Node(l, r) => l.Leaves() + r.Leaves()
    }

    function TrueSum(): int {
      match this
      case Leaf(v) => v
      case Node(l, r) => l.TrueSum() + r.TrueSum()
    }

    ghost predicate NonNegative() {
      forall v :: v in Leaves() ==> v >= 0
    }
  }

  /** Adding non-negative values, however bracketed, gives the true sum capped at MAX. */
  lemma {:induction false} GroupedSum(g: Grouping)
    requires g.NonNegative()
    ensures 0 <= g.TrueSum()
    ensures g.Eval() == if g.TrueSum() > MAX then MAX else g.TrueSum()
  {
    match g
    case Leaf(v) => assert v in g.Leaves();
    case Node(l, r) =>
      assert forall v :: v in l.Leaves() || v in r.Leaves() ==> v in g.Leaves();
      GroupedSum(l);
      GroupedSum(r);
      AddSaturates(l.Eval(), r.Eval());
  }

  /** Takes one leaf out of a bracketing that has another. */
  lemma {:induction false} WithoutLeaf(g: Grouping, v: D) returns (rest: Grouping)
    requires g.Node? && v in g.Leaves()
    ensures rest.Leaves() == g.Leaves() - multiset{v}
    ensures rest.TrueSum() == g.TrueSum() - v
  {
    if v in g.left.Leaves() {
      if g.left.Leaf? {
        rest := g.right;
      } else {
        var l := WithoutLeaf(g.left, v);
        rest := Node(l, g.right);
      }
    } else if g.right.Leaf? {
      rest := g.left;
    } else {
      var r := WithoutLeaf(g.right, v);
      rest := Node(g.left, r);
    }
  }

  lemma {:induction false} LeafCount(g: Grouping)
    ensures |g.Leaves()| >= 1
    ensures g.Node? ==> |g.Leaves()| >= 2
  {
    if g.Node? {
      LeafCount(g.left);
      LeafCount(g.right);
    }
  }

  lemma {:induction false} SameLeavesSameSum(g: Grouping, h: Grouping)
    requires g.Leaves() == h.Leaves()
    ensures g.TrueSum() == h.TrueSum()
    decreases |g.Leaves()|
  {
    LeafCount(g);
    LeafCount(h);
    if g.Leaf? {
      assert g.value in h.Leaves();
    } else {
      var v :| v in g.Leaves();
      var g' := WithoutLeaf(g, v);
      var h' := WithoutLeaf(h, v);
      SameLeavesSameSum(g', h');
    }
  }

  /** Neither the order nor the bracketing of a sum of non-negative values matters, even when it saturates. */
  lemma SumOrderIrrelevant(g: Grouping, h: Grouping)
    requires g.NonNegative() && g.Leaves() == h.Leaves()
    ensures g.Eval() == h.Eval()
  {
    GroupedSum(g);
    GroupedSum(h);
    SameLeavesSameSum(g, h);
  }

  /** With mixed signs a saturating sum does depend on the bracketing. */
  lemma MixedSignsOrderMatters()
    ensures var g, h := Node(Node(Leaf(MAX), Leaf(1)), Leaf(-1)), Node(Leaf(MAX), Node(Leaf(1), Leaf(-1)));
            g.Leaves() == h.Leaves() && g.Eval() != h.Eval()
  {
    AddSaturates(MAX, 1);
    AddSaturates(MAX, -1);
    AddSaturates(1, -1);
    AddSaturates(MAX, 0);
  }

  // ---------------------------------------------------------------- Mul

  /** Both factors are at most 2^31 in magnitude. */
  ghost predicate SmallFactors(a: D, b: D) {
    -0x8000_0000 <= a <= 0x8000_0000 && -0x8000_0000 <= b <= 0x8000_0000
  }

  lemma SmallProduct(a: D, b: D)
    requires SmallFactors(a, b)
    ensures -MUL_LIMIT * MUL_LIMIT <= a * b <= MUL_LIMIT * MUL_LIMIT
  {
    var x, y := if a < 0 then -a else a, if b < 0 then -b else b;
    MulMonotone(x, MUL_LIMIT, y);
    MulMonotone(y, MUL_LIMIT, MUL_LIMIT);
    assert MUL_LIMIT * y == y * MUL_LIMIT;
    assert a * b == x * y || a * b == -(x * y) by {
      assert (-x) * y == -(x * y) && x * (-y) == -(x * y) && (-x) * (-y) == x * y;
    }
    assert 0 <= x * y;
  }

  /** The two paths of Mul round the same way exactly when the product is not a negative inexact small one. */
  lemma MulRounding(a: D, b: D)
    ensures Mul(a, b) == Wrap((a * b) / SCALE)
            <==> !SmallFactors(a, b) || a * b >= 0 || (a * b) % SCALE == 0
    ensures Mul(a, b) != Wrap((a * b) / SCALE) ==> Mul(a, b) == (a * b) / SCALE + 1
  {
    if SmallFactors(a, b) {
      SmallProduct(a, b);
    }
  }

  /** For non-negative factors the product is rounded down, and is exact to one raw unit
      precisely when it fits. */
  lemma MulExact(a: D, b: D)
    requires a >= 0 && b >= 0
    ensures Mul(a, b) * SCALE <= a * b < Mul(a, b) * SCALE + SCALE <==> (a * b) / SCALE <= MAX
  {
    MulMonotone(0, a, b);
    MulRounding(a, b);
    FloorExact(a * b);
  }

  lemma FloorExact(x: int)
    requires x >= 0
    ensures Wrap(x / SCALE) * SCALE <= x < Wrap(x / SCALE) * SCALE + SCALE <==> x / SCALE <= MAX
  {
  }

  // ---------------------------------------------------------------- Quo

  lemma SameQuotientClose(x: int, w: int, b: int)
    requires b != 0 && TruncDiv(x, b) == TruncDiv(w, b)
    ensures Abs(x - w) < 2 * Abs(b)
  {
    var r, r' := TruncRem(x, b), TruncRem(w, b);
    assert x - w == r - r';
  }

  /** Quo is the truncated quotient of the scaled dividend exactly when the scaled dividend fits. */
  lemma QuoExact(a: D, b: D)
    requires b != 0
    ensures Quo(a, b) == TruncDiv(a * SCALE, b) <==> -QUO_LIMIT <= a <= QUO_LIMIT
  {
    var x := a * SCALE;
    if -QUO_LIMIT <= a <= QUO_LIMIT {
      assert Wrap(x) == x;
    } else {
      QuoOverflows(x, b);
    }
  }

  lemma QuoOverflows(x: int, b: D)
    requires b != 0 && !(MIN <= x <= MAX) && x % SCALE == 0
    ensures Wrap(TruncDiv(Wrap(x), b)) != TruncDiv(x, b)
  {
    var w := Wrap(x);
    var k := WrapQuotient(x);
    assert Abs(x - w) >= MODULUS;
    if TruncDiv(w, b) == TruncDiv(x, b) {
      SameQuotientClose(x, w, b);
    } else if TruncDiv(w, b) > MAX {
      QuoWrapImpossible(x, b, w);
    }
  }

  lemma QuoWrapImpossible(x: int, b: D, w: D)
    requires b != 0 && TruncDiv(w, b) > MAX && x % SCALE == 0
    ensures TruncDiv(x, b) != MIN
  {
    var q := TruncDiv(w, b);
    assert w == MIN && q == -MIN;
    assert w == q * b + TruncRem(w, b);
    assert b == -1 by {
      if b <= -2 { MulMonotone(b, -2, q); } else if b >= 0 { MulMonotone(0, b, q); }
    }
    assert TruncDiv(x, -1) == -x by { assert Abs(x) / 1 == Abs(x); }
  }
}
