/** The matrices of both implicit systems: one row per unknown cell of a block, its diagonal and
    its six neighbour coefficients.  A matrix that comes from a network of non-negative cell and
    face terms is symmetric, positive semidefinite, conservative, and definite exactly when no
    closed set of cells is without a cell term. */
module Stencil {
  import opened Sums

  type Mask = (int, int, int) -> bool

  /** One row: the diagonal and the coefficients toward the neighbours. */
  datatype Row = Row(ct: real, xm: real, xp: real, ym: real, yp: real, zm: real, zp: real)

  type Matrix = (int, int, int) -> Row

  /** Cell terms, and face terms: wx toward the next column, wy toward the next row, wz toward
      the layer above. */
  datatype Net = Net(own: Field3, wx: Field3, wy: Field3, wz: Field3)

  function Mul(a: real, b: real): real { a * b }

  /** A coefficient times the neighbour's value; columns without an unknown are dropped. */
  function Leg(m: Mask, coef: real, x: Field3, j: int, i: int, k: int): real {
    if m(j, i, k) then Mul(coef, x(j, i, k)) else 0.0
  }

  function RowTimes(m: Mask, r: Row, x: Field3, j: int, i: int, k: int): real {
    Mul(r.ct, x(j, i, k)) + Leg(m, r.xm, x, j, i - 1, k) + Leg(m, r.xp, x, j, i + 1, k)
    + Leg(m, r.ym, x, j - 1, i, k) + Leg(m, r.yp, x, j + 1, i, k)
    + Leg(m, r.zm, x, j, i, k - 1) + Leg(m, r.zp, x, j, i, k + 1)
  }

  /** The matrix times x, zero off the unknowns. */
  ghost function Product(m: Mask, a: Matrix, x: Field3): Field3 {
    (j, i, k) => if m(j, i, k) then RowTimes(m, a(j, i, k), x, j, i, k) else 0.0
  }

  ghost function Times(x: Field3, y: Field3): Field3 { (j, i, k) => Mul(x(j, i, k), y(j, i, k)) }

  ghost function Dot(b: Box, x: Field3, y: Field3): real { Sum3(b, Times(x, y)) }

  ghost predicate Inside(b: Box, m: Mask) { forall j, i, k :: m(j, i, k) ==> b.Has(j, i, k) }

  /** Non-negative terms, faces only between two unknowns, cell terms only on unknowns. */
  ghost predicate TermsOk(m: Mask, net: Net, j: int, i: int, k: int) {
    && net.own(j, i, k) >= 0.0 && (net.own(j, i, k) != 0.0 ==> m(j, i, k))
    && net.wx(j, i, k) >= 0.0 && (net.wx(j, i, k) != 0.0 ==> m(j, i, k) && m(j, i + 1, k))
    && net.wy(j, i, k) >= 0.0 && (net.wy(j, i, k) != 0.0 ==> m(j, i, k) && m(j + 1, i, k))
    && net.wz(j, i, k) >= 0.0 && (net.wz(j, i, k) != 0.0 ==> m(j, i, k) && m(j, i, k - 1))
  }

  ghost predicate NetOk(m: Mask, net: Net) { forall j, i, k :: TermsOk(m, net, j, i, k) }

  /** Row (j, i, k) is the network's: paired legs share one face term. */
  ghost predicate RowIs(m: Mask, r: Row, net: Net, j: int, i: int, k: int) {
    && (m(j, i - 1, k) ==> r.xm == -net.wx(j, i - 1, k)) && (m(j, i + 1, k) ==> r.xp == -net.wx(j, i, k))
    && (m(j - 1, i, k) ==> r.ym == -net.wy(j - 1, i, k)) && (m(j + 1, i, k) ==> r.yp == -net.wy(j, i, k))
    && (m(j, i, k - 1) ==> r.zm == -net.wz(j, i, k)) && (m(j, i, k + 1) ==> r.zp == -net.wz(j, i, k + 1))
    && r.ct == net.own(j, i, k) + net.wx(j, i - 1, k) + net.wx(j, i, k) + net.wy(j - 1, i, k) + net.wy(j, i, k)
               + net.wz(j, i, k) + net.wz(j, i, k + 1)
  }

  ghost predicate FromNet(b: Box, m: Mask, a: Matrix, net: Net) {
    Inside(b, m) && NetOk(m, net) && forall j, i, k :: m(j, i, k) ==> RowIs(m, a(j, i, k), net, j, i, k)
  }

  // ----- the block

  /** The balance of the flows over a cell's faces, per axis. */
  ghost function FlowX(net: Net, x: Field3, j: int, i: int, k: int): real {
    Mul(net.wx(j, i, k), x(j, i, k) - x(j, i + 1, k))
  }
  ghost function FlowY(net: Net, x: Field3, j: int, i: int, k: int): real {
    Mul(net.wy(j, i, k), x(j, i, k) - x(j + 1, i, k))
  }
  ghost function FlowZ(net: Net, x: Field3, j: int, i: int, k: int): real {
    Mul(net.wz(j, i, k + 1), x(j, i, k) - x(j, i, k + 1))
  }

  ghost function WeightedX(net: Net, x: Field3, y: Field3): Field3 {
    (j, i, k) => Mul(y(j, i, k), FlowX(net, x, j, i, k) - FlowX(net, x, j, i - 1, k))
  }
  ghost function WeightedY(net: Net, x: Field3, y: Field3): Field3 {
    (j, i, k) => Mul(y(j, i, k), FlowY(net, x, j, i, k) - FlowY(net, x, j - 1, i, k))
  }
  ghost function WeightedZ(net: Net, x: Field3, y: Field3): Field3 {
    (j, i, k) => Mul(y(j, i, k), FlowZ(net, x, j, i, k) - FlowZ(net, x, j, i, k - 1))
  }

  /** A face term times the two differences across it. */
  ghost function BondX(net: Net, x: Field3, y: Field3): Field3 {
    (j, i, k) => Mul(net.wx(j, i, k), Mul(x(j, i, k) - x(j, i + 1, k), y(j, i, k) - y(j, i + 1, k)))
  }
  ghost function BondY(net: Net, x: Field3, y: Field3): Field3 {
    (j, i, k) => Mul(net.wy(j, i, k), Mul(x(j, i, k) - x(j + 1, i, k), y(j, i, k) - y(j + 1, i, k)))
  }
  ghost function BondZ(net: Net, x: Field3, y: Field3): Field3 {
    (j, i, k) => Mul(net.wz(j, i, k + 1), Mul(x(j, i, k) - x(j, i, k + 1), y(j, i, k) - y(j, i, k + 1)))
  }
  ghost function Kept(net: Net, x: Field3, y: Field3): Field3 {
    (j, i, k) => Mul(net.own(j, i, k), Mul(x(j, i, k), y(j, i, k)))
  }

  lemma MulZero(a: real, b: real)
    ensures a == 0.0 || b == 0.0 ==> Mul(a, b) == 0.0
  {
  }

  lemma ByPartsStep(w: real, d: real, before: real, y: real, y': real)
    ensures Mul(y, before) + Mul(y, Mul(w, d) - before) == Mul(w, Mul(d, y - y')) + Mul(y', Mul(w, d))
  {
  }

  /** Nothing flows out of the block. */
  lemma Closed(b: Box, m: Mask, net: Net, j: int, i: int, k: int)
    requires Inside(b, m) && NetOk(m, net)
    ensures net.wx(j, 0, k) == net.wx(j, b.nx, k) == 0.0
    ensures net.wy(0, i, k) == net.wy(b.ny, i, k) == 0.0
    ensures net.wz(j, i, 0) == net.wz(j, i, b.nz) == 0.0
  {
    assert TermsOk(m, net, j, 0, k) && TermsOk(m, net, j, b.nx, k) && !m(j, 0, k) && !m(j, b.nx + 1, k);
    assert TermsOk(m, net, 0, i, k) && TermsOk(m, net, b.ny, i, k) && !m(0, i, k) && !m(b.ny + 1, i, k);
    assert TermsOk(m, net, j, i, 0) && TermsOk(m, net, j, i, b.nz) && !m(j, i, -1) && !m(j, i, b.nz);
  }

  // Summation by parts along a line: after n cells what is left is the flow over the last face.

  lemma StepX(net: Net, x: Field3, y: Field3, j: int, k: int, n: int)
    ensures Mul(y(j, n, k), FlowX(net, x, j, n - 1, k)) + WeightedX(net, x, y)(j, n, k)
            == BondX(net, x, y)(j, n, k) + Mul(y(j, n + 1, k), FlowX(net, x, j, n, k))
  {
    hide Mul;
    ByPartsStep(net.wx(j, n, k), x(j, n, k) - x(j, n + 1, k), FlowX(net, x, j, n - 1, k), y(j, n, k), y(j, n + 1, k));
  }

  lemma {:induction false} RunX(net: Net, x: Field3, y: Field3, j: int, k: int, n: nat)
    requires net.wx(j, 0, k) == 0.0
    ensures Sum(1, n + 1, i => WeightedX(net, x, y)(j, i, k))
            == Sum(1, n + 1, i => BondX(net, x, y)(j, i, k)) + Mul(y(j, n + 1, k), FlowX(net, x, j, n, k))
  {
    hide WeightedX, BondX, Mul;
    if n == 0 {
      MulZero(net.wx(j, 0, k), x(j, 0, k) - x(j, 1, k));
      MulZero(y(j, n + 1, k), FlowX(net, x, j, 0, k));
    } else {
      RunX(net, x, y, j, k, n - 1);
      StepX(net, x, y, j, k, n);
      hide FlowX;
    }
  }

  lemma StepY(net: Net, x: Field3, y: Field3, i: int, k: int, n: int)
    ensures Mul(y(n, i, k), FlowY(net, x, n - 1, i, k)) + WeightedY(net, x, y)(n, i, k)
            == BondY(net, x, y)(n, i, k) + Mul(y(n + 1, i, k), FlowY(net, x, n, i, k))
  {
    hide Mul;
    ByPartsStep(net.wy(n, i, k), x(n, i, k) - x(n + 1, i, k), FlowY(net, x, n - 1, i, k), y(n, i, k), y(n + 1, i, k));
  }

  lemma {:induction false} RunY(net: Net, x: Field3, y: Field3, i: int, k: int, n: nat)
    requires net.wy(0, i, k) == 0.0
    ensures Sum(1, n + 1, j => WeightedY(net, x, y)(j, i, k))
            == Sum(1, n + 1, j => BondY(net, x, y)(j, i, k)) + Mul(y(n + 1, i, k), FlowY(net, x, n, i, k))
  {
    hide WeightedY, BondY, Mul;
    if n == 0 {
      MulZero(net.wy(0, i, k), x(0, i, k) - x(1, i, k));
      MulZero(y(n + 1, i, k), FlowY(net, x, 0, i, k));
    } else {
      RunY(net, x, y, i, k, n - 1);
      StepY(net, x, y, i, k, n);
      hide FlowY;
    }
  }

  lemma StepZ(net: Net, x: Field3, y: Field3, j: int, i: int, n: int)
    ensures Mul(y(j, i, n - 1), FlowZ(net, x, j, i, n - 2)) + WeightedZ(net, x, y)(j, i, n - 1)
            == BondZ(net, x, y)(j, i, n - 1) + Mul(y(j, i, n), FlowZ(net, x, j, i, n - 1))
  {
    hide Mul;
    ByPartsStep(net.wz(j, i, n), x(j, i, n - 1) - x(j, i, n), FlowZ(net, x, j, i, n - 2), y(j, i, n - 1), y(j, i, n));
  }

  lemma {:induction false} RunZ(net: Net, x: Field3, y: Field3, j: int, i: int, n: nat)
    requires net.wz(j, i, 0) == 0.0
    ensures Sum(0, n, k => WeightedZ(net, x, y)(j, i, k))
            == Sum(0, n, k => BondZ(net, x, y)(j, i, k)) + Mul(y(j, i, n), FlowZ(net, x, j, i, n - 1))
  {
    hide WeightedZ, BondZ, Mul;
    if n == 0 {
      MulZero(net.wz(j, i, 0), x(j, i, -1) - x(j, i, 0));
      MulZero(y(j, i, n), FlowZ(net, x, j, i, -1));
    } else {
      RunZ(net, x, y, j, i, n - 1);
      StepZ(net, x, y, j, i, n);
      hide FlowZ;
    }
  }

  lemma LinePartsX(b: Box, net: Net, x: Field3, y: Field3, j: int, k: int)
    requires net.wx(j, 0, k) == net.wx(j, b.nx, k) == 0.0
    ensures LineX(b, WeightedX(net, x, y), j, k) == LineX(b, BondX(net, x, y), j, k)
  {
    hide WeightedX, BondX, Mul;
    RunX(net, x, y, j, k, b.nx);
    MulZero(net.wx(j, b.nx, k), x(j, b.nx, k) - x(j, b.nx + 1, k));
    MulZero(y(j, b.nx + 1, k), FlowX(net, x, j, b.nx, k));
  }

  lemma LinePartsY(b: Box, net: Net, x: Field3, y: Field3, i: int, k: int)
    requires net.wy(0, i, k) == net.wy(b.ny, i, k) == 0.0
    ensures LineY(b, WeightedY(net, x, y), i, k) == LineY(b, BondY(net, x, y), i, k)
  {
    hide WeightedY, BondY, Mul;
    RunY(net, x, y, i, k, b.ny);
    MulZero(net.wy(b.ny, i, k), x(b.ny, i, k) - x(b.ny + 1, i, k));
    MulZero(y(b.ny + 1, i, k), FlowY(net, x, b.ny, i, k));
  }

  lemma LinePartsZ(b: Box, net: Net, x: Field3, y: Field3, j: int, i: int)
    requires net.wz(j, i, 0) == net.wz(j, i, b.nz) == 0.0
    ensures ColumnSum(b, WeightedZ(net, x, y), j, i) == ColumnSum(b, BondZ(net, x, y), j, i)
  {
    hide WeightedZ, BondZ, Mul;
    RunZ(net, x, y, j, i, b.nz);
    MulZero(net.wz(j, i, b.nz), x(j, i, b.nz - 1) - x(j, i, b.nz));
    MulZero(y(j, i, b.nz), FlowZ(net, x, j, i, b.nz - 1));
  }

  lemma Parts(b: Box, m: Mask, net: Net, x: Field3, y: Field3)
    requires Inside(b, m) && NetOk(m, net)
    ensures Sum3(b, WeightedX(net, x, y)) == Sum3(b, BondX(net, x, y))
    ensures Sum3(b, WeightedY(net, x, y)) == Sum3(b, BondY(net, x, y))
    ensures Sum3(b, WeightedZ(net, x, y)) == Sum3(b, BondZ(net, x, y))
  {
    hide *;
    forall j, k | 1 <= j <= b.ny && 0 <= k < b.nz
      ensures LineX(b, WeightedX(net, x, y), j, k) == LineX(b, BondX(net, x, y), j, k)
    {
      Closed(b, m, net, j, 0, k);
      LinePartsX(b, net, x, y, j, k);
    }
    EqualAlongX(b, WeightedX(net, x, y), BondX(net, x, y));
    forall i, k | 1 <= i <= b.nx && 0 <= k < b.nz
      ensures LineY(b, WeightedY(net, x, y), i, k) == LineY(b, BondY(net, x, y), i, k)
    {
      Closed(b, m, net, 0, i, k);
      LinePartsY(b, net, x, y, i, k);
    }
    EqualAlongY(b, WeightedY(net, x, y), BondY(net, x, y));
    forall j, i | b.Has2(j, i)
      ensures ColumnSum(b, WeightedZ(net, x, y), j, i) == ColumnSum(b, BondZ(net, x, y), j, i)
    {
      Closed(b, m, net, j, i, 0);
      LinePartsZ(b, net, x, y, j, i);
    }
    EqualAlongZ(b, WeightedZ(net, x, y), BondZ(net, x, y));
  }

  // ----- the quadratic form

  /** Cell terms times both values plus face terms times both differences. */
  ghost function Energies(net: Net, x: Field3, y: Field3): Field3 {
    (j, i, k) => Kept(net, x, y)(j, i, k) + BondX(net, x, y)(j, i, k) + BondY(net, x, y)(j, i, k)
      + BondZ(net, x, y)(j, i, k)
  }

  ghost function Energy(b: Box, net: Net, x: Field3, y: Field3): real { Sum3(b, Energies(net, x, y)) }

  /** What a row of the network gives, weighted by y. */
  ghost function Balanced(net: Net, x: Field3, y: Field3): Field3 {
    (j, i, k) => Kept(net, x, y)(j, i, k) + WeightedX(net, x, y)(j, i, k) + WeightedY(net, x, y)(j, i, k)
      + WeightedZ(net, x, y)(j, i, k)
  }

  lemma AddFour(b: Box, p: Field3, q: Field3, r: Field3, s: Field3, t: Field3)
    requires forall j, i, k :: b.Has(j, i, k) ==> t(j, i, k) == p(j, i, k) + q(j, i, k) + r(j, i, k) + s(j, i, k)
    ensures Sum3(b, t) == Sum3(b, p) + Sum3(b, q) + Sum3(b, r) + Sum3(b, s)
  {
    hide Sum3;
    var pq := (j, i, k) => p(j, i, k) + q(j, i, k);
    var pqr := (j, i, k) => p(j, i, k) + q(j, i, k) + r(j, i, k);
    Sum3Linear(b, p, 1.0, q, pq);
    Sum3Linear(b, pq, 1.0, r, pqr);
    Sum3Linear(b, pqr, 1.0, s, t);
  }

  /** A leg to a dropped column carries no face term. */
  lemma LegIs(m: Mask, coef: real, w: real, x: Field3, j: int, i: int, k: int)
    requires m(j, i, k) ==> coef == -w
    requires !m(j, i, k) ==> w == 0.0
    ensures Leg(m, coef, x, j, i, k) == -Mul(w, x(j, i, k))
  {
  }

  /** The net flow out of a cell, per axis. */
  ghost function NetX(net: Net, x: Field3, j: int, i: int, k: int): real {
    FlowX(net, x, j, i, k) - FlowX(net, x, j, i - 1, k)
  }
  ghost function NetY(net: Net, x: Field3, j: int, i: int, k: int): real {
    FlowY(net, x, j, i, k) - FlowY(net, x, j - 1, i, k)
  }
  ghost function NetZ(net: Net, x: Field3, j: int, i: int, k: int): real {
    FlowZ(net, x, j, i, k) - FlowZ(net, x, j, i, k - 1)
  }

  lemma RowBalance(m: Mask, a: Row, net: Net, x: Field3, j: int, i: int, k: int)
    requires NetOk(m, net) && m(j, i, k) && RowIs(m, a, net, j, i, k)
    ensures RowTimes(m, a, x, j, i, k)
            == Mul(net.own(j, i, k), x(j, i, k)) + NetX(net, x, j, i, k) + NetY(net, x, j, i, k) + NetZ(net, x, j, i, k)
  {
    assert TermsOk(m, net, j, i, k) && TermsOk(m, net, j, i - 1, k) && TermsOk(m, net, j - 1, i, k)
      && TermsOk(m, net, j, i, k + 1);
    LegIs(m, a.xm, net.wx(j, i - 1, k), x, j, i - 1, k);
    LegIs(m, a.xp, net.wx(j, i, k), x, j, i + 1, k);
    LegIs(m, a.ym, net.wy(j - 1, i, k), x, j - 1, i, k);
    LegIs(m, a.yp, net.wy(j, i, k), x, j + 1, i, k);
    LegIs(m, a.zm, net.wz(j, i, k), x, j, i, k - 1);
    LegIs(m, a.zp, net.wz(j, i, k + 1), x, j, i, k + 1);
    hide Leg, NetOk, Mul;
    var v := x(j, i, k);
    Diagonal(net.own(j, i, k), net.wx(j, i - 1, k), net.wx(j, i, k), net.wy(j - 1, i, k), net.wy(j, i, k),
             net.wz(j, i, k),
             net.wz(j, i, k + 1), v);
    Difference(net.wx(j, i - 1, k), x(j, i - 1, k), v);
    Difference(net.wx(j, i, k), v, x(j, i + 1, k));
    Difference(net.wy(j - 1, i, k), x(j - 1, i, k), v);
    Difference(net.wy(j, i, k), v, x(j + 1, i, k));
    Difference(net.wz(j, i, k), x(j, i, k - 1), v);
    Difference(net.wz(j, i, k + 1), v, x(j, i, k + 1));
  }

  lemma Diagonal(o: real, a: real, b: real, c: real, d: real, e: real, f: real, v: real)
    ensures Mul(o + a + b + c + d + e + f, v) == Mul(o, v) + Mul(a, v) + Mul(b, v) + Mul(c, v) + Mul(d, v) + Mul(e, v)
            + Mul(f, v)
  {
  }

  lemma Difference(w: real, u: real, v: real)
    ensures Mul(w, u - v) == Mul(w, u) - Mul(w, v)
  {
  }

  lemma BalancedAt(net: Net, x: Field3, y: Field3, j: int, i: int, k: int)
    ensures Balanced(net, x, y)(j, i, k)
            == Mul(net.own(j, i, k), Mul(x(j, i, k), y(j, i, k))) + Mul(y(j, i, k), NetX(net, x, j, i, k))
               + Mul(y(j, i, k), NetY(net, x, j, i, k)) + Mul(y(j, i, k), NetZ(net, x, j, i, k))
  {
    hide Mul, FlowX, FlowY, FlowZ;
    assert Kept(net, x, y)(j, i, k) == Mul(net.own(j, i, k), Mul(x(j, i, k), y(j, i, k)));
    assert WeightedX(net, x, y)(j, i, k) == Mul(y(j, i, k), NetX(net, x, j, i, k));
    assert WeightedY(net, x, y)(j, i, k) == Mul(y(j, i, k), NetY(net, x, j, i, k));
    assert WeightedZ(net, x, y)(j, i, k) == Mul(y(j, i, k), NetZ(net, x, j, i, k));
  }

  lemma ProductAt(m: Mask, a: Matrix, x: Field3, y: Field3, j: int, i: int, k: int)
    ensures Times(y, Product(m, a, x))(j, i, k)
            == Mul(y(j, i, k), if m(j, i, k) then RowTimes(m, a(j, i, k), x, j, i, k) else 0.0)
  {
    hide Mul, RowTimes;
  }

  lemma CellBalance(m: Mask, a: Matrix, net: Net, x: Field3, y: Field3, j: int, i: int, k: int)
    requires NetOk(m, net) && m(j, i, k) && RowIs(m, a(j, i, k), net, j, i, k)
    ensures Times(y, Product(m, a, x))(j, i, k) == Balanced(net, x, y)(j, i, k)
  {
    hide *;
    RowBalance(m, a(j, i, k), net, x, j, i, k);
    BalancedAt(net, x, y, j, i, k);
    ProductAt(m, a, x, y, j, i, k);
    Spread(y(j, i, k), net.own(j, i, k), x(j, i, k), NetX(net, x, j, i, k), NetY(net, x, j, i, k),
           NetZ(net, x, j, i, k));
  }

  lemma Nothing(w: real, d: real)
    requires w == 0.0
    ensures Mul(w, d) == 0.0
  {
  }

  /** Off the unknowns nothing flows. */
  lemma NoFlow(m: Mask, net: Net, x: Field3, j: int, i: int, k: int)
    requires NetOk(m, net) && !m(j, i, k)
    ensures NetX(net, x, j, i, k) == 0.0 && NetY(net, x, j, i, k) == 0.0 && NetZ(net, x, j, i, k) == 0.0
    ensures net.own(j, i, k) == 0.0
  {
    hide Mul;
    assert TermsOk(m, net, j, i, k) && TermsOk(m, net, j, i - 1, k) && TermsOk(m, net, j - 1, i, k)
      && TermsOk(m, net, j, i, k + 1);
    assert net.wx(j, i, k) == 0.0 && net.wy(j, i, k) == 0.0 && net.wz(j, i, k + 1) == 0.0;
    assert net.wx(j, i - 1, k) == 0.0 && net.wy(j - 1, i, k) == 0.0 && net.wz(j, i, k) == 0.0;
    Nothing(net.wx(j, i, k), x(j, i, k) - x(j, i + 1, k));
    Nothing(net.wx(j, i - 1, k), x(j, i - 1, k) - x(j, i, k));
    Nothing(net.wy(j, i, k), x(j, i, k) - x(j + 1, i, k));
    Nothing(net.wy(j - 1, i, k), x(j - 1, i, k) - x(j, i, k));
    Nothing(net.wz(j, i, k + 1), x(j, i, k) - x(j, i, k + 1));
    Nothing(net.wz(j, i, k), x(j, i, k - 1) - x(j, i, k));
  }

  lemma EmptyBalance(m: Mask, a: Matrix, net: Net, x: Field3, y: Field3, j: int, i: int, k: int)
    requires NetOk(m, net) && !m(j, i, k)
    ensures Times(y, Product(m, a, x))(j, i, k) == Balanced(net, x, y)(j, i, k)
  {
    hide *;
    NoFlow(m, net, x, j, i, k);
    BalancedAt(net, x, y, j, i, k);
    ProductAt(m, a, x, y, j, i, k);
    MulZero(y(j, i, k), 0.0);
    Nothing(net.own(j, i, k), Mul(x(j, i, k), y(j, i, k)));
  }

  lemma Spread(y: real, own: real, x: real, p: real, q: real, r: real)
    ensures Mul(y, Mul(own, x) + p + q + r) == Mul(own, Mul(x, y)) + Mul(y, p) + Mul(y, q) + Mul(y, r)
  {
  }

  /** The matrix's bilinear form is the network's, which does not care which side is which. */
  lemma BilinearForm(b: Box, m: Mask, a: Matrix, net: Net, x: Field3, y: Field3)
    requires FromNet(b, m, a, net)
    ensures Dot(b, y, Product(m, a, x)) == Energy(b, net, x, y)
  {
    hide *;
    NetOf(b, m, a, net);
    forall j, i, k | b.Has(j, i, k) ensures Times(y, Product(m, a, x))(j, i, k) == Balanced(net, x, y)(j, i, k) {
      RowOf(b, m, a, net, j, i, k);
      if m(j, i, k) { CellBalance(m, a, net, x, y, j, i, k); } else { EmptyBalance(m, a, net, x, y, j, i, k); }
    }
    Sum3Ext(b, Times(y, Product(m, a, x)), Balanced(net, x, y));
    FormSums(b, net, x, y);
    Parts(b, m, net, x, y);
    DotIs(b, y, Product(m, a, x));
  }

  lemma NetOf(b: Box, m: Mask, a: Matrix, net: Net)
    requires FromNet(b, m, a, net)
    ensures NetOk(m, net) && Inside(b, m)
  {
  }

  lemma RowOf(b: Box, m: Mask, a: Matrix, net: Net, j: int, i: int, k: int)
    requires FromNet(b, m, a, net)
    ensures m(j, i, k) ==> RowIs(m, a(j, i, k), net, j, i, k)
  {
  }

  lemma DotIs(b: Box, x: Field3, y: Field3)
    ensures Dot(b, x, y) == Sum3(b, Times(x, y))
  {
  }

  lemma FormSums(b: Box, net: Net, x: Field3, y: Field3)
    ensures Sum3(b, Balanced(net, x, y))
            == Sum3(b, Kept(net, x, y)) + Sum3(b, WeightedX(net, x, y)) + Sum3(b, WeightedY(net, x, y))
              + Sum3(b, WeightedZ(net, x, y))
    ensures Energy(b, net, x, y)
            == Sum3(b, Kept(net, x, y)) + Sum3(b, BondX(net, x, y)) + Sum3(b, BondY(net, x, y))
              + Sum3(b, BondZ(net, x, y))
  {
    hide Sum3, Kept, WeightedX, WeightedY, WeightedZ, BondX, BondY, BondZ;
    AddFour(b, Kept(net, x, y), WeightedX(net, x, y), WeightedY(net, x, y), WeightedZ(net, x, y), Balanced(net, x, y));
    AddFour(b, Kept(net, x, y), BondX(net, x, y), BondY(net, x, y), BondZ(net, x, y), Energies(net, x, y));
  }

  // ----- what both systems rely on

  ghost predicate Symmetric(b: Box, m: Mask, a: Matrix) {
    forall x: Field3, y: Field3 :: Dot(b, y, Product(m, a, x)) == Dot(b, x, Product(m, a, y))
  }

  ghost predicate Semidefinite(b: Box, m: Mask, a: Matrix) {
    forall x: Field3 :: Dot(b, x, Product(m, a, x)) >= 0.0
  }

  ghost predicate Vanishes(m: Mask, x: Field3) { forall j, i, k :: m(j, i, k) ==> x(j, i, k) == 0.0 }

  ghost predicate Definite(b: Box, m: Mask, a: Matrix) {
    forall x: Field3 :: Vanishes(m, x) || Dot(b, x, Product(m, a, x)) > 0.0
  }

  /** A set of unknowns that no face term joins to the rest. */
  ghost predicate ClosedSet(m: Mask, net: Net, s: Mask) {
    && (forall j, i, k :: s(j, i, k) ==> m(j, i, k))
    && (forall j, i, k {:trigger net.wx(j, i, k)} :: net.wx(j, i, k) != 0.0 ==> s(j, i, k) == s(j, i + 1, k))
    && (forall j, i, k {:trigger net.wy(j, i, k)} :: net.wy(j, i, k) != 0.0 ==> s(j, i, k) == s(j + 1, i, k))
    && (forall j, i, k {:trigger net.wz(j, i, k)} :: net.wz(j, i, k) != 0.0 ==> s(j, i, k) == s(j, i, k - 1))
  }

  /** Every nonempty closed set holds a cell term: a storage or a leg to a prescribed value. */
  ghost predicate Anchored(m: Mask, net: Net) {
    forall s: Mask :: ClosedSet(m, net, s) && (exists j, i, k :: s(j, i, k)) ==>
      exists j, i, k :: s(j, i, k) && net.own(j, i, k) > 0.0
  }

  lemma SwapSides(b: Box, net: Net, x: Field3, y: Field3)
    ensures Energy(b, net, x, y) == Energy(b, net, y, x)
  {
    forall j, i, k | b.Has(j, i, k) ensures Energies(net, x, y)(j, i, k) == Energies(net, y, x)(j, i, k) {
      EnergiesAt(net, x, y, j, i, k);
      EnergiesAt(net, y, x, j, i, k);
      Commutes(x(j, i, k), y(j, i, k));
      Commutes(x(j, i, k) - x(j, i + 1, k), y(j, i, k) - y(j, i + 1, k));
      Commutes(x(j, i, k) - x(j + 1, i, k), y(j, i, k) - y(j + 1, i, k));
      Commutes(x(j, i, k) - x(j, i, k + 1), y(j, i, k) - y(j, i, k + 1));
    }
    hide *;
    EnergyIs(b, net, x, y);
    EnergyIs(b, net, y, x);
    Sum3Ext(b, Energies(net, x, y), Energies(net, y, x));
  }

  lemma EnergyIs(b: Box, net: Net, x: Field3, y: Field3)
    ensures Energy(b, net, x, y) == Sum3(b, Energies(net, x, y))
  {
  }

  lemma Commutes(a: real, b: real)
    ensures Mul(a, b) == Mul(b, a)
  {
  }

  lemma EnergiesAt(net: Net, x: Field3, y: Field3, j: int, i: int, k: int)
    ensures Energies(net, x, y)(j, i, k)
            == Mul(net.own(j, i, k), Mul(x(j, i, k), y(j, i, k)))
               + Mul(net.wx(j, i, k), Mul(x(j, i, k) - x(j, i + 1, k), y(j, i, k) - y(j, i + 1, k)))
               + Mul(net.wy(j, i, k), Mul(x(j, i, k) - x(j + 1, i, k), y(j, i, k) - y(j + 1, i, k)))
               + Mul(net.wz(j, i, k + 1), Mul(x(j, i, k) - x(j, i, k + 1), y(j, i, k) - y(j, i, k + 1)))
  {
    hide Mul, Kept, BondX, BondY, BondZ;
    KeptAt(net, x, y, j, i, k);
    BondXAt(net, x, y, j, i, k);
    BondYAt(net, x, y, j, i, k);
    BondZAt(net, x, y, j, i, k);
  }

  lemma KeptAt(net: Net, x: Field3, y: Field3, j: int, i: int, k: int)
    ensures Kept(net, x, y)(j, i, k) == Mul(net.own(j, i, k), Mul(x(j, i, k), y(j, i, k)))
  {
    hide Mul;
  }

  lemma BondXAt(net: Net, x: Field3, y: Field3, j: int, i: int, k: int)
    ensures BondX(net, x, y)(j, i, k)
            == Mul(net.wx(j, i, k), Mul(x(j, i, k) - x(j, i + 1, k), y(j, i, k) - y(j, i + 1, k)))
  {
    hide Mul;
  }

  lemma BondYAt(net: Net, x: Field3, y: Field3, j: int, i: int, k: int)
    ensures BondY(net, x, y)(j, i, k)
            == Mul(net.wy(j, i, k), Mul(x(j, i, k) - x(j + 1, i, k), y(j, i, k) - y(j + 1, i, k)))
  {
    hide Mul;
  }

  lemma BondZAt(net: Net, x: Field3, y: Field3, j: int, i: int, k: int)
    ensures BondZ(net, x, y)(j, i, k)
            == Mul(net.wz(j, i, k + 1), Mul(x(j, i, k) - x(j, i, k + 1), y(j, i, k) - y(j, i, k + 1)))
  {
    hide Mul;
  }

  /** Main result: any matrix of a network is symmetric and positive semidefinite. */
  lemma NetIsSymmetric(b: Box, m: Mask, a: Matrix, net: Net)
    requires FromNet(b, m, a, net)
    ensures Symmetric(b, m, a) && Semidefinite(b, m, a)
  {
    hide FromNet, Dot, Energy;
    forall x: Field3, y: Field3 ensures Dot(b, y, Product(m, a, x)) == Dot(b, x, Product(m, a, y)) {
      BilinearForm(b, m, a, net, x, y);
      BilinearForm(b, m, a, net, y, x);
      SwapSides(b, net, x, y);
    }
    forall x: Field3 ensures Dot(b, x, Product(m, a, x)) >= 0.0 {
      BilinearForm(b, m, a, net, x, x);
      NetOf(b, m, a, net);
      EnergyNonneg(b, m, net, x);
    }
  }

  lemma PositiveProduct(a: real, b: real)
    ensures a > 0.0 && b > 0.0 ==> Mul(a, b) > 0.0
    ensures a < 0.0 && b < 0.0 ==> Mul(a, b) > 0.0
  {
  }

  lemma Weighs(w: real, d: real)
    requires w >= 0.0
    ensures Mul(w, Mul(d, d)) >= 0.0
    ensures Mul(w, Mul(d, d)) == 0.0 <==> w == 0.0 || d == 0.0
  {
    hide Mul;
    MulZero(d, d);
    PositiveProduct(d, d);
    MulZero(w, Mul(d, d));
    PositiveProduct(w, Mul(d, d));
  }

  /** A cell's share of the energy vanishes exactly when all its terms do. */
  lemma ShareNonneg(m: Mask, net: Net, x: Field3, j: int, i: int, k: int)
    requires NetOk(m, net)
    ensures Energies(net, x, x)(j, i, k) >= 0.0
    ensures Energies(net, x, x)(j, i, k) == 0.0 <==>
      && (net.own(j, i, k) == 0.0 || x(j, i, k) == 0.0)
      && (net.wx(j, i, k) == 0.0 || x(j, i, k) == x(j, i + 1, k))
      && (net.wy(j, i, k) == 0.0 || x(j, i, k) == x(j + 1, i, k))
      && (net.wz(j, i, k + 1) == 0.0 || x(j, i, k) == x(j, i, k + 1))
  {
    hide Mul, Energies;
    EnergiesAt(net, x, x, j, i, k);
    assert TermsOk(m, net, j, i, k) && TermsOk(m, net, j, i, k + 1);
    Weighs(net.own(j, i, k), x(j, i, k));
    Weighs(net.wx(j, i, k), x(j, i, k) - x(j, i + 1, k));
    Weighs(net.wy(j, i, k), x(j, i, k) - x(j + 1, i, k));
    Weighs(net.wz(j, i, k + 1), x(j, i, k) - x(j, i, k + 1));
  }

  lemma EnergyNonneg(b: Box, m: Mask, net: Net, x: Field3)
    requires NetOk(m, net)
    ensures Energy(b, net, x, x) >= 0.0
  {
    hide *;
    forall j, i, k | b.Has(j, i, k) ensures Energies(net, x, x)(j, i, k) >= 0.0 { ShareNonneg(m, net, x, j, i, k); }
    EnergyIs(b, net, x, x);
    Sum3Nonneg(b, Energies(net, x, x));
  }

  lemma NoEnergy(b: Box, m: Mask, net: Net, x: Field3, j: int, i: int, k: int)
    requires NetOk(m, net) && Energy(b, net, x, x) <= 0.0 && b.Has(j, i, k)
    ensures Energies(net, x, x)(j, i, k) == 0.0
  {
    hide *;
    forall j, i, k | b.Has(j, i, k) ensures Energies(net, x, x)(j, i, k) >= 0.0 { ShareNonneg(m, net, x, j, i, k); }
    EnergyIs(b, net, x, x);
    Sum3AtLeast(b, Energies(net, x, x), j, i, k);
  }

  /** Where x is not zero. */
  ghost function Support(m: Mask, x: Field3): Mask { (j, i, k) => m(j, i, k) && x(j, i, k) != 0.0 }

  ghost function Indicator(s: Mask): Field3 { (j, i, k) => if s(j, i, k) then 1.0 else 0.0 }

  /** The support of a field without energy is closed and without a cell term. */
  lemma SupportIsClosed(b: Box, m: Mask, net: Net, x: Field3)
    requires Inside(b, m) && NetOk(m, net) && Energy(b, net, x, x) <= 0.0
    ensures ClosedSet(m, net, Support(m, x))
    ensures forall j, i, k :: Support(m, x)(j, i, k) ==> net.own(j, i, k) == 0.0
  {
    hide Energy, Energies;
    var s := Support(m, x);
    forall j, i, k | net.wx(j, i, k) != 0.0 ensures s(j, i, k) == s(j, i + 1, k) {
      assert TermsOk(m, net, j, i, k);
      NoEnergy(b, m, net, x, j, i, k);
      ShareNonneg(m, net, x, j, i, k);
    }
    forall j, i, k | net.wy(j, i, k) != 0.0 ensures s(j, i, k) == s(j + 1, i, k) {
      assert TermsOk(m, net, j, i, k);
      NoEnergy(b, m, net, x, j, i, k);
      ShareNonneg(m, net, x, j, i, k);
    }
    forall j, i, k | net.wz(j, i, k) != 0.0 ensures s(j, i, k) == s(j, i, k - 1) {
      assert TermsOk(m, net, j, i, k);
      NoEnergy(b, m, net, x, j, i, k - 1);
      ShareNonneg(m, net, x, j, i, k - 1);
    }
    forall j, i, k | s(j, i, k) ensures net.own(j, i, k) == 0.0 {
      NoEnergy(b, m, net, x, j, i, k);
      ShareNonneg(m, net, x, j, i, k);
    }
  }

  /** The indicator of a closed set without a cell term has no energy. */
  lemma IndicatorIsFree(b: Box, m: Mask, net: Net, s: Mask)
    requires NetOk(m, net) && ClosedSet(m, net, s)
    requires forall j, i, k :: s(j, i, k) ==> net.own(j, i, k) == 0.0
    ensures Energy(b, net, Indicator(s), Indicator(s)) == 0.0
  {
    var x := Indicator(s);
    var zero := Scaled(0.0, Energies(net, x, x));
    forall j, i, k ensures Energies(net, x, x)(j, i, k) == zero(j, i, k) {
      assert net.wz(j, i, k + 1) == 0.0 || s(j, i, k + 1) == s(j, i, k + 1 - 1);
      ShareNonneg(m, net, x, j, i, k);
      hide Energies;
    }
    hide *;
    Sum3Ext(b, Energies(net, x, x), zero);
    Sum3Scaled(b, 0.0, Energies(net, x, x));
    EnergyIs(b, net, x, x);
  }

  lemma SupportStands(m: Mask, x: Field3)
    requires !Vanishes(m, x)
    ensures exists j, i, k :: Support(m, x)(j, i, k)
  {
    var j, i, k :| m(j, i, k) && x(j, i, k) != 0.0;
    assert Support(m, x)(j, i, k);
  }

  lemma AnchoredIsDefinite(b: Box, m: Mask, a: Matrix, net: Net, x: Field3)
    requires FromNet(b, m, a, net) && Anchored(m, net) && !Vanishes(m, x)
    ensures Dot(b, x, Product(m, a, x)) > 0.0
  {
    hide FromNet, NetOk, Inside, Energy, Dot, Product, ClosedSet, Vanishes, Support;
    NetOf(b, m, a, net);
    BilinearForm(b, m, a, net, x, x);
    SupportStands(m, x);
    if Energy(b, net, x, x) <= 0.0 {
      SupportIsClosed(b, m, net, x);
      assert false;
    }
  }

  lemma DefiniteIsAnchored(b: Box, m: Mask, a: Matrix, net: Net, s: Mask)
    requires FromNet(b, m, a, net) && Definite(b, m, a)
    requires ClosedSet(m, net, s) && exists j, i, k :: s(j, i, k)
    ensures exists j, i, k :: s(j, i, k) && net.own(j, i, k) > 0.0
  {
    hide FromNet, NetOk, Inside, Energy, Dot, Product, ClosedSet;
    if forall j, i, k :: s(j, i, k) ==> !(net.own(j, i, k) > 0.0) {
      NetOf(b, m, a, net);
      OwnNonneg(m, net, s);
      IndicatorIsFree(b, m, net, s);
      BilinearForm(b, m, a, net, Indicator(s), Indicator(s));
      hide Indicator, Vanishes;
      IndicatorStands(m, net, s);
      assert false;
    }
  }

  /** Main result: the matrix is positive definite exactly when every nonempty closed set of
      unknowns holds a cell term. */
  lemma DefiniteIffAnchored(b: Box, m: Mask, a: Matrix, net: Net)
    requires FromNet(b, m, a, net)
    ensures Definite(b, m, a) <==> Anchored(m, net)
  {
    hide FromNet, Dot, Product, ClosedSet, Vanishes;
    if Anchored(m, net) {
      forall x: Field3 ensures Vanishes(m, x) || Dot(b, x, Product(m, a, x)) > 0.0 {
        if !Vanishes(m, x) { AnchoredIsDefinite(b, m, a, net, x); }
      }
    }
    if Definite(b, m, a) {
      forall s: Mask | ClosedSet(m, net, s) && (exists j, i, k :: s(j, i, k))
        ensures exists j, i, k :: s(j, i, k) && net.own(j, i, k) > 0.0
      {
        DefiniteIsAnchored(b, m, a, net, s);
      }
    }
  }

  lemma OwnNonneg(m: Mask, net: Net, s: Mask)
    requires NetOk(m, net) && forall j, i, k :: s(j, i, k) ==> !(net.own(j, i, k) > 0.0)
    ensures forall j, i, k :: s(j, i, k) ==> net.own(j, i, k) == 0.0
  {
    forall j, i, k | s(j, i, k) ensures net.own(j, i, k) == 0.0 { assert TermsOk(m, net, j, i, k); }
  }

  lemma IndicatorStands(m: Mask, net: Net, s: Mask)
    requires ClosedSet(m, net, s) && exists j, i, k :: s(j, i, k)
    ensures !Vanishes(m, Indicator(s))
  {
    var j, i, k :| s(j, i, k);
    assert m(j, i, k) && Indicator(s)(j, i, k) == 1.0;
  }

  /** Row sums are conservative: summed over the unknowns, the face terms cancel. */
  lemma RowsAreConservative(b: Box, m: Mask, a: Matrix, net: Net, x: Field3)
    requires FromNet(b, m, a, net)
    ensures Sum3(b, Product(m, a, x)) == Sum3(b, Times(net.own, x))
  {
    hide *;
    var one: Field3 := (j, i, k) => 1.0;
    BilinearForm(b, m, a, net, x, one);
    forall j, i, k | b.Has(j, i, k)
      ensures Times(one, Product(m, a, x))(j, i, k) == Product(m, a, x)(j, i, k)
      ensures Energies(net, x, one)(j, i, k) == Times(net.own, x)(j, i, k)
    {
      OneTimes(Product(m, a, x), j, i, k);
      EnergiesAt(net, x, one, j, i, k);
      OneEnergy(net, x, j, i, k);
    }
    DotIs(b, one, Product(m, a, x));
    EnergyIs(b, net, x, one);
    Sum3Ext(b, Times(one, Product(m, a, x)), Product(m, a, x));
    Sum3Ext(b, Energies(net, x, one), Times(net.own, x));
  }

  lemma OneTimes(p: Field3, j: int, i: int, k: int)
    ensures Times((j, i, k) => 1.0, p)(j, i, k) == p(j, i, k)
  {
  }

  lemma OneEnergy(net: Net, x: Field3, j: int, i: int, k: int)
    ensures Mul(net.own(j, i, k), Mul(x(j, i, k), 1.0)) == Times(net.own, x)(j, i, k)
    ensures Mul(net.wx(j, i, k), Mul(x(j, i, k) - x(j, i + 1, k), 1.0 - 1.0)) == 0.0
    ensures Mul(net.wy(j, i, k), Mul(x(j, i, k) - x(j + 1, i, k), 1.0 - 1.0)) == 0.0
    ensures Mul(net.wz(j, i, k + 1), Mul(x(j, i, k) - x(j, i, k + 1), 1.0 - 1.0)) == 0.0
  {
  }

  // ----- solutions

  ghost predicate Solution(m: Mask, a: Matrix, rhs: Field3, x: Field3) {
    forall j, i, k :: m(j, i, k) ==> RowTimes(m, a(j, i, k), x, j, i, k) == rhs(j, i, k)
  }

  ghost function Minus(x: Field3, y: Field3): Field3 { (j, i, k) => x(j, i, k) - y(j, i, k) }

  lemma RowDifference(m: Mask, r: Row, x: Field3, y: Field3, j: int, i: int, k: int)
    ensures RowTimes(m, r, Minus(x, y), j, i, k) == RowTimes(m, r, x, j, i, k) - RowTimes(m, r, y, j, i, k)
  {
    hide Mul;
    Difference(r.ct, x(j, i, k), y(j, i, k));
    Difference(r.xm, x(j, i - 1, k), y(j, i - 1, k));
    Difference(r.xp, x(j, i + 1, k), y(j, i + 1, k));
    Difference(r.ym, x(j - 1, i, k), y(j - 1, i, k));
    Difference(r.yp, x(j + 1, i, k), y(j + 1, i, k));
    Difference(r.zm, x(j, i, k - 1), y(j, i, k - 1));
    Difference(r.zp, x(j, i, k + 1), y(j, i, k + 1));
  }

  /** A definite system has at most one solution. */
  lemma SolutionIsUnique(b: Box, m: Mask, a: Matrix, rhs: Field3, x: Field3, y: Field3)
    requires Definite(b, m, a) && Solution(m, a, rhs, x) && Solution(m, a, rhs, y)
    ensures forall j, i, k :: m(j, i, k) ==> x(j, i, k) == y(j, i, k)
  {
    var d := Minus(x, y);
    forall j, i, k ensures Times(d, Product(m, a, d))(j, i, k) == Scaled(0.0, d)(j, i, k) {
      ProductAt(m, a, d, d, j, i, k);
      RowDifference(m, a(j, i, k), x, y, j, i, k);
      MulZero(d(j, i, k), 0.0);
      hide Mul, RowTimes, Product, Times;
    }
    assert Dot(b, d, Product(m, a, d)) == 0.0 by {
      hide Mul, RowTimes, Product, Times;
      Sum3Ext(b, Times(d, Product(m, a, d)), Scaled(0.0, d));
      Sum3Scaled(b, 0.0, d);
    }
    hide Dot, Product;
    assert Vanishes(m, d);
  }

  /** Every other solution agrees on the unknowns. */
  ghost predicate OnlySolution(m: Mask, a: Matrix, rhs: Field3, x: Field3) {
    forall y: Field3 :: Solution(m, a, rhs, y) ==> forall j, i, k :: m(j, i, k) ==> x(j, i, k) == y(j, i, k)
  }

  /** No row sees a closed set without a cell term. */
  lemma ClosedRow(b: Box, m: Mask, a: Matrix, net: Net, s: Mask, j: int, i: int, k: int)
    requires FromNet(b, m, a, net) && ClosedSet(m, net, s) && m(j, i, k)
    requires forall j, i, k :: s(j, i, k) ==> net.own(j, i, k) == 0.0
    ensures RowTimes(m, a(j, i, k), Indicator(s), j, i, k) == 0.0
  {
    var x := Indicator(s);
    RowBalance(m, a(j, i, k), net, x, j, i, k);
    hide Mul, RowTimes, RowIs;
    MulZero(net.own(j, i, k), x(j, i, k));
    MulZero(net.wx(j, i, k), x(j, i, k) - x(j, i + 1, k));
    MulZero(net.wx(j, i - 1, k), x(j, i - 1, k) - x(j, i, k));
    MulZero(net.wy(j, i, k), x(j, i, k) - x(j + 1, i, k));
    MulZero(net.wy(j - 1, i, k), x(j - 1, i, k) - x(j, i, k));
    MulZero(net.wz(j, i, k + 1), x(j, i, k) - x(j, i, k + 1));
    MulZero(net.wz(j, i, k), x(j, i, k - 1) - x(j, i, k));
  }

  lemma ShiftSolves(b: Box, m: Mask, a: Matrix, net: Net, rhs: Field3, x: Field3, s: Mask)
    requires FromNet(b, m, a, net) && ClosedSet(m, net, s) && Solution(m, a, rhs, x)
    requires forall j, i, k :: s(j, i, k) ==> net.own(j, i, k) == 0.0
    ensures Solution(m, a, rhs, Minus(x, Indicator(s)))
  {
    hide RowTimes, FromNet, ClosedSet, Indicator, Minus;
    forall j, i, k | m(j, i, k) ensures RowTimes(m, a(j, i, k), Minus(x, Indicator(s)), j, i, k) == rhs(j, i, k) {
      ClosedRow(b, m, a, net, s, j, i, k);
      RowDifference(m, a(j, i, k), x, Indicator(s), j, i, k);
    }
  }

  /** Main result: a solvable network system has exactly one solution exactly when it is anchored. */
  lemma UniqueIffAnchored(b: Box, m: Mask, a: Matrix, net: Net, rhs: Field3, x: Field3)
    requires FromNet(b, m, a, net) && Solution(m, a, rhs, x)
    ensures OnlySolution(m, a, rhs, x) <==> Anchored(m, net)
  {
    hide FromNet, Solution, ClosedSet, Definite;
    if Anchored(m, net) {
      DefiniteIffAnchored(b, m, a, net);
      forall y: Field3 | Solution(m, a, rhs, y) ensures forall j, i, k :: m(j, i, k) ==> x(j, i, k) == y(j, i, k) {
        SolutionIsUnique(b, m, a, rhs, x, y);
      }
    } else {
      var s: Mask :| ClosedSet(m, net, s) && (exists j, i, k :: s(j, i, k))
                     && !(exists j, i, k :: s(j, i, k) && net.own(j, i, k) > 0.0);
      var j, i, k :| s(j, i, k);
      assert m(j, i, k) by { InClosed(m, net, s, j, i, k); }
      forall j, i, k | s(j, i, k) ensures net.own(j, i, k) == 0.0 { TermNonneg(b, m, a, net, j, i, k); }
      ShiftSolves(b, m, a, net, rhs, x, s);
      assert Minus(x, Indicator(s))(j, i, k) == x(j, i, k) - 1.0;
    }
  }

  lemma InClosed(m: Mask, net: Net, s: Mask, j: int, i: int, k: int)
    requires ClosedSet(m, net, s) && s(j, i, k)
    ensures m(j, i, k)
  {
  }

  lemma TermNonneg(b: Box, m: Mask, a: Matrix, net: Net, j: int, i: int, k: int)
    requires FromNet(b, m, a, net)
    ensures net.own(j, i, k) >= 0.0
  {
    assert TermsOk(m, net, j, i, k);
  }
}
