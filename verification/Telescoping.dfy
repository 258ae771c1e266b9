/** Summation by parts over the cells of a block: face terms between two cells of the domain
    cancel, and the faces on its boundary remain.  The domain is any subset of the block. */
module Telescoping {
  import opened Sums

  // ----- one line of cells; cell c lies between its low face a(c) and its high face b(c)

  ghost predicate Paired(lo: int, hi: int, a: int -> real, b: int -> real) {
    forall c :: lo <= c < hi - 1 ==> b(c) == a(c + 1)
  }

  /** What cell c contributes: its two faces, or only those it does not share with a cell of
      the domain. */
  ghost function Net(m: int -> bool, a: int -> real, b: int -> real, c: int): real {
    if m(c) then b(c) - a(c) else 0.0
  }

  ghost function Outer(lo: int, hi: int, m: int -> bool, a: int -> real, b: int -> real, c: int): real {
    if m(c) then
      (if c == hi - 1 || !m(c + 1) then b(c) else 0.0) - (if c == lo || !m(c - 1) then a(c) else 0.0)
    else 0.0
  }

  lemma {:induction false} LineTelescopes(lo: int, hi: int, m: int -> bool, a: int -> real, b: int -> real)
    requires Paired(lo, hi, a, b)
    ensures Sum(lo, hi, c => Net(m, a, b, c)) == Sum(lo, hi, c => Outer(lo, hi, m, a, b, c))
    decreases hi - lo
  {
    if lo < hi {
      var h := hi - 1;
      LineTelescopes(lo, h, m, a, b);
      if lo < h {
        SumPoint(lo, h, c => Outer(lo, h, m, a, b, c), c => Outer(lo, hi, m, a, b, c), h - 1);
      }
    }
  }

  // ----- the block

  type Mask = (int, int, int) -> bool

  /** Face fields: fx(j, i, k) lies between cells i and i + 1, fy between rows j and j + 1, and
      fz(j, i, k) above layer k. */
  ghost function NetX(m: Mask, f: Field3, j: int, i: int, k: int): real {
    if m(j, i, k) then f(j, i, k) - f(j, i - 1, k) else 0.0
  }
  ghost function NetY(m: Mask, f: Field3, j: int, i: int, k: int): real {
    if m(j, i, k) then f(j, i, k) - f(j - 1, i, k) else 0.0
  }
  ghost function NetZ(m: Mask, f: Field3, j: int, i: int, k: int): real {
    if m(j, i, k) then f(j, i, k + 1) - f(j, i, k) else 0.0
  }
  ghost function OuterX(b: Box, m: Mask, f: Field3, j: int, i: int, k: int): real {
    if m(j, i, k) then
      (if i == b.nx || !m(j, i + 1, k) then f(j, i, k) else 0.0)
        - (if i == 1 || !m(j, i - 1, k) then f(j, i - 1, k) else 0.0)
    else 0.0
  }
  ghost function OuterY(b: Box, m: Mask, f: Field3, j: int, i: int, k: int): real {
    if m(j, i, k) then
      (if j == b.ny || !m(j + 1, i, k) then f(j, i, k) else 0.0)
        - (if j == 1 || !m(j - 1, i, k) then f(j - 1, i, k) else 0.0)
    else 0.0
  }
  ghost function OuterZ(b: Box, m: Mask, f: Field3, j: int, i: int, k: int): real {
    if m(j, i, k) then
      (if k == b.nz - 1 || !m(j, i, k + 1) then f(j, i, k + 1) else 0.0)
        - (if k == 0 || !m(j, i, k - 1) then f(j, i, k) else 0.0)
    else 0.0
  }

  lemma TelescopesX(b: Box, m: Mask, f: Field3)
    ensures Sum3(b, (j, i, k) => NetX(m, f, j, i, k)) == Sum3(b, (j, i, k) => OuterX(b, m, f, j, i, k))
  {
    var n, o := (j, i, k) => NetX(m, f, j, i, k), (j, i, k) => OuterX(b, m, f, j, i, k);
    forall j, k | 1 <= j <= b.ny && 0 <= k < b.nz ensures LineX(b, n, j, k) == LineX(b, o, j, k) {
      var lm, la, lb := i => m(j, i, k), i => f(j, i - 1, k), i => f(j, i, k);
      LineTelescopes(1, b.nx + 1, lm, la, lb);
      SumExt(1, b.nx + 1, i => n(j, i, k), i => Net(lm, la, lb, i));
      SumExt(1, b.nx + 1, i => o(j, i, k), i => Outer(1, b.nx + 1, lm, la, lb, i));
    }
    EqualAlongX(b, n, o);
  }

  lemma TelescopesY(b: Box, m: Mask, f: Field3)
    ensures Sum3(b, (j, i, k) => NetY(m, f, j, i, k)) == Sum3(b, (j, i, k) => OuterY(b, m, f, j, i, k))
  {
    var n, o := (j, i, k) => NetY(m, f, j, i, k), (j, i, k) => OuterY(b, m, f, j, i, k);
    forall i, k | 1 <= i <= b.nx && 0 <= k < b.nz ensures LineY(b, n, i, k) == LineY(b, o, i, k) {
      var lm, la, lb := j => m(j, i, k), j => f(j - 1, i, k), j => f(j, i, k);
      LineTelescopes(1, b.ny + 1, lm, la, lb);
      SumExt(1, b.ny + 1, j => n(j, i, k), j => Net(lm, la, lb, j));
      SumExt(1, b.ny + 1, j => o(j, i, k), j => Outer(1, b.ny + 1, lm, la, lb, j));
    }
    EqualAlongY(b, n, o);
  }

  lemma TelescopesZ(b: Box, m: Mask, f: Field3)
    ensures Sum3(b, (j, i, k) => NetZ(m, f, j, i, k)) == Sum3(b, (j, i, k) => OuterZ(b, m, f, j, i, k))
  {
    var n, o := (j, i, k) => NetZ(m, f, j, i, k), (j, i, k) => OuterZ(b, m, f, j, i, k);
    forall j, i | b.Has2(j, i) ensures ColumnSum(b, n, j, i) == ColumnSum(b, o, j, i) {
      var lm, la, lb := k => m(j, i, k), k => f(j, i, k), k => f(j, i, k + 1);
      LineTelescopes(0, b.nz, lm, la, lb);
      SumExt(0, b.nz, k => n(j, i, k), k => Net(lm, la, lb, k));
      SumExt(0, b.nz, k => o(j, i, k), k => Outer(0, b.nz, lm, la, lb, k));
    }
    EqualAlongZ(b, n, o);
  }

  ghost function NetFlow(m: Mask, fx: Field3, fy: Field3, fz: Field3): Field3 {
    (j, i, k) => NetX(m, fx, j, i, k) + NetY(m, fy, j, i, k) + NetZ(m, fz, j, i, k)
  }

  ghost function OuterFlow(b: Box, m: Mask, fx: Field3, fy: Field3, fz: Field3): Field3 {
    (j, i, k) => OuterX(b, m, fx, j, i, k) + OuterY(b, m, fy, j, i, k) + OuterZ(b, m, fz, j, i, k)
  }

  /** The divergence theorem of the block. */
  lemma FlowTelescopes(b: Box, m: Mask, fx: Field3, fy: Field3, fz: Field3)
    ensures Sum3(b, NetFlow(m, fx, fy, fz)) == Sum3(b, OuterFlow(b, m, fx, fy, fz))
  {
    TelescopesX(b, m, fx);
    TelescopesY(b, m, fy);
    TelescopesZ(b, m, fz);
    hide Sum3, NetX, NetY, NetZ, OuterX, OuterY, OuterZ;
    var nx, ny, nz := (j, i, k) => NetX(m, fx, j, i, k), (j, i, k) => NetY(m, fy, j, i, k), (j, i, k) =>
      NetZ(m, fz, j, i, k);
    var ox, oy, oz := (j, i, k) => OuterX(b, m, fx, j, i, k), (j, i, k) => OuterY(b, m, fy, j, i, k), (j, i, k) =>
      OuterZ(b, m, fz, j, i, k);
    var nxy, oxy := (j, i, k) => nx(j, i, k) + ny(j, i, k), (j, i, k) => ox(j, i, k) + oy(j, i, k);
    Sum3Linear(b, nx, 1.0, ny, nxy);
    Sum3Linear(b, nxy, 1.0, nz, NetFlow(m, fx, fy, fz));
    Sum3Linear(b, ox, 1.0, oy, oxy);
    Sum3Linear(b, oxy, 1.0, oz, OuterFlow(b, m, fx, fy, fz));
  }
}
