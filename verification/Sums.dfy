/** Finite sums of real-valued terms over integer ranges and over grid boxes.
    Every volume ledger of the project is an equation between such sums. */
module Sums {

  /** The sum of f over [lo, hi). */
  ghost function Sum(lo: int, hi: int, f: int -> real): real
    decreases hi - lo
  {
    if lo >= hi then 0.0 else Sum(lo, hi - 1, f) + f(hi - 1)
  }

  lemma {:induction false} SumExt(lo: int, hi: int, f: int -> real, g: int -> real)
    requires forall n :: lo <= n < hi ==> f(n) == g(n)
    ensures Sum(lo, hi, f) == Sum(lo, hi, g)
    decreases hi - lo
  {
    if lo < hi { SumExt(lo, hi - 1, f, g); }
  }

  lemma {:induction false} SumLinear(lo: int, hi: int, f: int -> real, c: real, g: int -> real, h: int -> real)
    requires forall n :: lo <= n < hi ==> h(n) == f(n) + c * g(n)
    ensures Sum(lo, hi, h) == Sum(lo, hi, f) + c * Sum(lo, hi, g)
    decreases hi - lo
  {
    if lo < hi { SumLinear(lo, hi - 1, f, c, g, h); }
  }

  lemma {:induction false} SumZero(lo: int, hi: int, f: int -> real)
    requires forall n :: lo <= n < hi ==> f(n) == 0.0
    ensures Sum(lo, hi, f) == 0.0
    decreases hi - lo
  {
    if lo < hi { SumZero(lo, hi - 1, f); }
  }

  lemma {:induction false} SumNonneg(lo: int, hi: int, f: int -> real)
    requires forall n :: lo <= n < hi ==> f(n) >= 0.0
    ensures Sum(lo, hi, f) >= 0.0
    decreases hi - lo
  {
    if lo < hi { SumNonneg(lo, hi - 1, f); }
  }

  /** A sum of non-negative terms is at least each of them. */
  lemma {:induction false} SumAtLeast(lo: int, hi: int, f: int -> real, p: int)
    requires lo <= p < hi
    requires forall n :: lo <= n < hi ==> f(n) >= 0.0
    ensures Sum(lo, hi, f) >= f(p)
    decreases hi - lo
  {
    if p == hi - 1 { SumNonneg(lo, hi - 1, f); } else { SumAtLeast(lo, hi - 1, f, p); }
  }

  /** Terms that differ in one place change the sum by that difference. */
  lemma {:induction false} SumPoint(lo: int, hi: int, f: int -> real, g: int -> real, p: int)
    requires lo <= p < hi
    requires forall n :: lo <= n < hi && n != p ==> f(n) == g(n)
    ensures Sum(lo, hi, g) == Sum(lo, hi, f) + (g(p) - f(p))
    decreases hi - lo
  {
    if p == hi - 1 { SumExt(lo, hi - 1, f, g); } else { SumPoint(lo, hi - 1, f, g, p); }
  }

  /** Equal differences term by term give equal differences of the sums. */
  lemma {:induction false} SumDifference(lo: int, hi: int, f: int -> real, f': int -> real, g: int -> real,
                                         g': int -> real)
    requires forall n :: lo <= n < hi ==> f'(n) - f(n) == g'(n) - g(n)
    ensures Sum(lo, hi, f') - Sum(lo, hi, f) == Sum(lo, hi, g') - Sum(lo, hi, g)
    decreases hi - lo
  {
    if lo < hi { SumDifference(lo, hi - 1, f, f', g, g'); }
  }

  lemma {:induction false} SumSplit(lo: int, mid: int, hi: int, f: int -> real)
    requires lo <= mid <= hi
    ensures Sum(lo, hi, f) == Sum(lo, mid, f) + Sum(mid, hi, f)
    decreases hi - mid
  {
    if mid < hi { SumSplit(lo, mid, hi - 1, f); }
  }

  /** The sum of row a of f, and of its column b. */
  ghost function Row(lo: int, hi: int, f: (int, int) -> real, a: int): real { Sum(lo, hi, b => f(a, b)) }
  ghost function Col(lo: int, hi: int, f: (int, int) -> real, b: int): real { Sum(lo, hi, a => f(a, b)) }

  /** A double sum does not depend on which index runs innermost. */
  lemma {:induction false} SumSwap(lo: int, hi: int, lo': int, hi': int, f: (int, int) -> real)
    ensures Sum(lo, hi, a => Row(lo', hi', f, a)) == Sum(lo', hi', b => Col(lo, hi, f, b))
    decreases hi - lo
  {
    var cols := b => Col(lo, hi, f, b);
    if lo >= hi {
      SumZero(lo', hi', cols);
    } else {
      SumSwap(lo, hi - 1, lo', hi', f);
      SumLinear(lo', hi', b => Col(lo, hi - 1, f, b), 1.0, b => f(hi - 1, b), cols);
    }
  }

  // ----- sums over the interior cells of a grid block: rows j in [1, ny],
  // ----- columns i in [1, nx], layers k in [0, nz)

  type Field3 = (int, int, int) -> real
  type Field2 = (int, int) -> real

  datatype Box = Box(ny: nat, nx: nat, nz: nat) {
    ghost predicate Has2(j: int, i: int) { 1 <= j <= ny && 1 <= i <= nx }
    ghost predicate Has(j: int, i: int, k: int) { Has2(j, i) && 0 <= k < nz }
  }

  ghost function RowSum(b: Box, f: Field2, j: int): real { Row(1, b.nx + 1, f, j) }

  ghost function Sum2(b: Box, f: Field2): real { Sum(1, b.ny + 1, j => RowSum(b, f, j)) }

  ghost function ColumnSum(b: Box, f: Field3, j: int, i: int): real { Sum(0, b.nz, k => f(j, i, k)) }

  ghost function Sum3(b: Box, f: Field3): real { Sum2(b, (j, i) => ColumnSum(b, f, j, i)) }

  lemma RowLinear(b: Box, f: Field2, c: real, g: Field2, h: Field2, j: int)
    requires forall i :: 1 <= i <= b.nx ==> h(j, i) == f(j, i) + c * g(j, i)
    ensures RowSum(b, h, j) == RowSum(b, f, j) + c * RowSum(b, g, j)
  {
    RowAlong(b, f, j);
    RowAlong(b, g, j);
    RowAlong(b, h, j);
    hide RowSum;
    SumLinear(1, b.nx + 1, i => f(j, i), c, i => g(j, i), i => h(j, i));
  }

  lemma RowAlong(b: Box, f: Field2, j: int)
    ensures RowSum(b, f, j) == Sum(1, b.nx + 1, i => f(j, i))
  {
  }

  lemma Sum2Linear(b: Box, f: Field2, c: real, g: Field2, h: Field2)
    requires forall j, i :: b.Has2(j, i) ==> h(j, i) == f(j, i) + c * g(j, i)
    ensures Sum2(b, h) == Sum2(b, f) + c * Sum2(b, g)
  {
    hide RowSum;
    forall j | 1 <= j <= b.ny
      ensures RowSum(b, h, j) == RowSum(b, f, j) + c * RowSum(b, g, j)
    {
      RowLinear(b, f, c, g, h, j);
    }
    SumLinear(1, b.ny + 1, j => RowSum(b, f, j), c, j => RowSum(b, g, j), j => RowSum(b, h, j));
  }

  lemma Sum2Ext(b: Box, f: Field2, g: Field2)
    requires forall j, i :: b.Has2(j, i) ==> f(j, i) == g(j, i)
    ensures Sum2(b, f) == Sum2(b, g)
  {
    Sum2Linear(b, f, 0.0, f, g);
  }

  lemma Sum2Nonneg(b: Box, f: Field2)
    requires forall j, i :: b.Has2(j, i) ==> f(j, i) >= 0.0
    ensures Sum2(b, f) >= 0.0
  {
    forall j | 1 <= j <= b.ny ensures RowSum(b, f, j) >= 0.0 { SumNonneg(1, b.nx + 1, i => f(j, i)); }
    SumNonneg(1, b.ny + 1, j => RowSum(b, f, j));
  }

  lemma Sum2AtLeast(b: Box, f: Field2, j: int, i: int)
    requires b.Has2(j, i)
    requires forall j', i' :: b.Has2(j', i') ==> f(j', i') >= 0.0
    ensures Sum2(b, f) >= f(j, i)
  {
    forall j' | 1 <= j' <= b.ny ensures RowSum(b, f, j') >= 0.0 { SumNonneg(1, b.nx + 1, i' => f(j', i')); }
    SumAtLeast(1, b.nx + 1, i' => f(j, i'), i);
    SumAtLeast(1, b.ny + 1, j' => RowSum(b, f, j'), j);
  }

  lemma Sum2Point(b: Box, f: Field2, g: Field2, j: int, i: int)
    requires b.Has2(j, i)
    requires forall j', i' :: b.Has2(j', i') && (j', i') != (j, i) ==> f(j', i') == g(j', i')
    ensures Sum2(b, g) == Sum2(b, f) + (g(j, i) - f(j, i))
  {
    forall j' | 1 <= j' <= b.ny && j' != j ensures RowSum(b, f, j') == RowSum(b, g, j') {
      SumExt(1, b.nx + 1, i' => f(j', i'), i' => g(j', i'));
    }
    SumPoint(1, b.nx + 1, i' => f(j, i'), i' => g(j, i'), i);
    SumPoint(1, b.ny + 1, j' => RowSum(b, f, j'), j' => RowSum(b, g, j'), j);
  }

  lemma ColumnLinear(b: Box, f: Field3, c: real, g: Field3, h: Field3, j: int, i: int)
    requires forall k :: 0 <= k < b.nz ==> h(j, i, k) == f(j, i, k) + c * g(j, i, k)
    ensures ColumnSum(b, h, j, i) == ColumnSum(b, f, j, i) + c * ColumnSum(b, g, j, i)
  {
    SumLinear(0, b.nz, k => f(j, i, k), c, k => g(j, i, k), k => h(j, i, k));
  }

  lemma Sum3Linear(b: Box, f: Field3, c: real, g: Field3, h: Field3)
    requires forall j, i, k :: b.Has(j, i, k) ==> h(j, i, k) == f(j, i, k) + c * g(j, i, k)
    ensures Sum3(b, h) == Sum3(b, f) + c * Sum3(b, g)
  {
    hide ColumnSum, Sum2;
    forall j, i | b.Has2(j, i) ensures ColumnSum(b, h, j, i) == ColumnSum(b, f, j, i) + c * ColumnSum(b, g, j, i) {
      ColumnLinear(b, f, c, g, h, j, i);
    }
    Sum2Linear(b, (j, i) => ColumnSum(b, f, j, i), c, (j, i) => ColumnSum(b, g, j, i), (j, i) => ColumnSum(b, h, j, i));
  }

  ghost function Scaled(c: real, f: Field3): Field3 { (j, i, k) => c * f(j, i, k) }

  lemma Sum3Scaled(b: Box, c: real, f: Field3)
    ensures Sum3(b, Scaled(c, f)) == c * Sum3(b, f)
  {
    var none := (j, i, k) => 0.0;
    Sum3Linear(b, none, c, f, Scaled(c, f));
    Sum3Linear(b, none, -1.0, none, none);
  }

  lemma Sum3Combine(b: Box, a: Field3, c: real, x: Field3, y: Field3, h: Field3)
    requires forall j, i, k :: b.Has(j, i, k) ==> h(j, i, k) == a(j, i, k) + c * x(j, i, k) - y(j, i, k)
    ensures Sum3(b, h) == Sum3(b, a) + c * Sum3(b, x) - Sum3(b, y)
  {
    hide Sum3;
    var ax := (j, i, k) => a(j, i, k) + c * x(j, i, k);
    Sum3Linear(b, a, c, x, ax);
    Sum3Linear(b, ax, -1.0, y, h);
  }

  lemma Sum3Ext(b: Box, f: Field3, g: Field3)
    requires forall j, i, k :: b.Has(j, i, k) ==> f(j, i, k) == g(j, i, k)
    ensures Sum3(b, f) == Sum3(b, g)
  {
    Sum3Linear(b, f, 0.0, f, g);
  }

  lemma Sum3Nonneg(b: Box, f: Field3)
    requires forall j, i, k :: b.Has(j, i, k) ==> f(j, i, k) >= 0.0
    ensures Sum3(b, f) >= 0.0
  {
    forall j, i | b.Has2(j, i) ensures ColumnSum(b, f, j, i) >= 0.0 { SumNonneg(0, b.nz, k => f(j, i, k)); }
    Sum2Nonneg(b, (j, i) => ColumnSum(b, f, j, i));
  }

  lemma Sum3AtLeast(b: Box, f: Field3, j: int, i: int, k: int)
    requires b.Has(j, i, k)
    requires forall j', i', k' :: b.Has(j', i', k') ==> f(j', i', k') >= 0.0
    ensures Sum3(b, f) >= f(j, i, k)
  {
    forall j', i' | b.Has2(j', i') ensures ColumnSum(b, f, j', i') >= 0.0 { SumNonneg(0, b.nz, k' => f(j', i', k')); }
    SumAtLeast(0, b.nz, k' => f(j, i, k'), k);
    Sum2AtLeast(b, (j', i') => ColumnSum(b, f, j', i'), j, i);
  }

  /** Fields that differ in one column change the sum by that column's difference. */
  lemma Sum3Column(b: Box, f: Field3, g: Field3, j: int, i: int)
    requires b.Has2(j, i)
    requires forall j', i', k :: b.Has(j', i', k) && (j', i') != (j, i) ==> f(j', i', k) == g(j', i', k)
    ensures Sum3(b, g) == Sum3(b, f) + (ColumnSum(b, g, j, i) - ColumnSum(b, f, j, i))
  {
    forall j', i' | b.Has2(j', i') && (j', i') != (j, i) ensures ColumnSum(b, f, j', i') == ColumnSum(b, g, j', i') {
      SumExt(0, b.nz, k => f(j', i', k), k => g(j', i', k));
    }
    Sum2Point(b, (j', i') => ColumnSum(b, f, j', i'), (j', i') => ColumnSum(b, g, j', i'), j, i);
  }

  lemma Sum3Point(b: Box, f: Field3, g: Field3, j: int, i: int, k: int)
    requires b.Has(j, i, k)
    requires forall j', i', k' :: b.Has(j', i', k') && (j', i', k') != (j, i, k) ==> f(j', i', k') == g(j', i', k')
    ensures Sum3(b, g) == Sum3(b, f) + (g(j, i, k) - f(j, i, k))
  {
    SumPoint(0, b.nz, k' => f(j, i, k'), k' => g(j, i, k'), k);
    Sum3Column(b, f, g, j, i);
  }

  // ----- fields that agree along every line of one axis agree in total

  ghost function LineX(b: Box, f: Field3, j: int, k: int): real { Sum(1, b.nx + 1, i => f(j, i, k)) }
  ghost function LineY(b: Box, f: Field3, i: int, k: int): real { Sum(1, b.ny + 1, j => f(j, i, k)) }

  lemma EqualAlongZ(b: Box, f: Field3, g: Field3)
    requires forall j, i :: b.Has2(j, i) ==> ColumnSum(b, f, j, i) == ColumnSum(b, g, j, i)
    ensures Sum3(b, f) == Sum3(b, g)
  {
    Sum2Ext(b, (j, i) => ColumnSum(b, f, j, i), (j, i) => ColumnSum(b, g, j, i));
  }

  lemma PlaneByX(b: Box, f: Field3, j: int)
    ensures Sum(1, b.nx + 1, i => ColumnSum(b, f, j, i)) == Sum(0, b.nz, k => LineX(b, f, j, k))
  {
    var plane := (i, k) => f(j, i, k);
    SumSwap(1, b.nx + 1, 0, b.nz, plane);
    forall i ensures Row(0, b.nz, plane, i) == ColumnSum(b, f, j, i) {
      SumExt(0, b.nz, k => plane(i, k), k => f(j, i, k));
    }
    forall k ensures Col(1, b.nx + 1, plane, k) == LineX(b, f, j, k) {
      SumExt(1, b.nx + 1, i => plane(i, k), i => f(j, i, k));
    }
    SumExt(1, b.nx + 1, i => ColumnSum(b, f, j, i), i => Row(0, b.nz, plane, i));
    SumExt(0, b.nz, k => Col(1, b.nx + 1, plane, k), k => LineX(b, f, j, k));
  }

  lemma EqualAlongX(b: Box, f: Field3, g: Field3)
    requires forall j, k :: 1 <= j <= b.ny && 0 <= k < b.nz ==> LineX(b, f, j, k) == LineX(b, g, j, k)
    ensures Sum3(b, f) == Sum3(b, g)
  {
    var cf, cg := (j, i) => ColumnSum(b, f, j, i), (j, i) => ColumnSum(b, g, j, i);
    forall j | 1 <= j <= b.ny ensures RowSum(b, cf, j) == RowSum(b, cg, j) {
      PlaneByX(b, f, j);
      PlaneByX(b, g, j);
      SumExt(1, b.nx + 1, i => cf(j, i), i => ColumnSum(b, f, j, i));
      SumExt(1, b.nx + 1, i => cg(j, i), i => ColumnSum(b, g, j, i));
      SumExt(0, b.nz, k => LineX(b, f, j, k), k => LineX(b, g, j, k));
    }
    SumExt(1, b.ny + 1, j => RowSum(b, cf, j), j => RowSum(b, cg, j));
  }

  /** Rows and columns of the box exchanged. */
  ghost function Transpose(f: Field3): (t: Field3)
    ensures forall j, i, k :: t(j, i, k) == f(i, j, k)
  {
    (j, i, k) => f(i, j, k)
  }

  /** A plane summed by columns first. */
  lemma Sum2Transpose(b: Box, f: Field2, g: Field2)
    requires forall j, i :: f(j, i) == g(i, j)
    ensures Sum2(b, f) == Sum2(Box(b.nx, b.ny, b.nz), g)
  {
    var t := Box(b.nx, b.ny, b.nz);
    SumSwap(1, b.ny + 1, 1, b.nx + 1, f);
    var rows, rows', cols, cols' := j => RowSum(b, f, j), j => Row(1, b.nx + 1, f, j), i => Col(1, b.ny + 1, f, i),
      i => RowSum(t, g, i);
    forall i ensures cols(i) == cols'(i) { SumExt(1, b.ny + 1, j => f(j, i), j => g(i, j)); }
    SumExt(1, b.ny + 1, rows, rows');
    SumExt(1, b.nx + 1, cols, cols');
  }

  lemma ColumnTransposed(b: Box, t: Box, f: Field3, j: int, i: int)
    requires t.nz == b.nz
    ensures ColumnSum(b, f, j, i) == ColumnSum(t, Transpose(f), i, j)
  {
    var g := Transpose(f);
    SumExt(0, b.nz, k => f(j, i, k), k => g(i, j, k));
  }

  lemma Sum3Transpose(b: Box, f: Field3)
    ensures Sum3(b, f) == Sum3(Box(b.nx, b.ny, b.nz), Transpose(f))
  {
    var t := Box(b.nx, b.ny, b.nz);
    var cf, ct := (j, i) => ColumnSum(b, f, j, i), (j, i) => ColumnSum(t, Transpose(f), j, i);
    forall j, i ensures cf(j, i) == ct(i, j) { ColumnTransposed(b, t, f, j, i); }
    hide ColumnSum, Sum2;
    Sum2Transpose(b, cf, ct);
    Sum2Ext(b, cf, (j, i) => ColumnSum(b, f, j, i));
    Sum2Ext(t, ct, (j, i) => ColumnSum(t, Transpose(f), j, i));
  }

  lemma EqualAlongY(b: Box, f: Field3, g: Field3)
    requires forall i, k :: 1 <= i <= b.nx && 0 <= k < b.nz ==> LineY(b, f, i, k) == LineY(b, g, i, k)
    ensures Sum3(b, f) == Sum3(b, g)
  {
    var t, tf, tg := Box(b.nx, b.ny, b.nz), Transpose(f), Transpose(g);
    Sum3Transpose(b, f);
    Sum3Transpose(b, g);
    forall i, k | 1 <= i <= t.ny && 0 <= k < t.nz ensures LineX(t, tf, i, k) == LineX(t, tg, i, k) {
      SumExt(1, b.ny + 1, j => tf(i, j, k), j => f(j, i, k));
      SumExt(1, b.ny + 1, j => tg(i, j, k), j => g(j, i, k));
      assert LineY(b, f, i, k) == LineY(b, g, i, k);
    }
    EqualAlongX(t, tf, tg);
  }
}
