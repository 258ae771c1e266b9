/** Ledgers over all ranks (src/core/Grid.cpp:23-70, src/gw/RichardsSolver.cpp:866-901): the blocks of a
    decomposition add up to the domain, and the fluxes through the faces between ranks cancel. */
module RankLedger {
  import opened Sums
  import opened Telescoping
  import opened Decomposition
  import G = GroundwaterTerms
  import L = CellLedger

  /** A value per rank, by its row and column in the layout. */
  type PerRank<T> = (int, int) -> T

  // ----- extents

  ghost function Cols(l: Layout, p: int): nat { if l.px > 0 && p >= 0 then BlockSize(l.nx, l.px, p) else 0 }
  ghost function Rows(l: Layout, p: int): nat { if l.py > 0 && p >= 0 then BlockSize(l.ny, l.py, p) else 0 }
  ghost function Col0(l: Layout, p: int): nat { if l.px > 0 && p >= 0 then BlockStart(l.nx, l.px, p) else 0 }
  ghost function Row0(l: Layout, p: int): nat { if l.py > 0 && p >= 0 then BlockStart(l.ny, l.py, p) else 0 }

  ghost predicate IsRank(l: Layout, pj: int, pi: int) { 0 <= pj < l.py && 0 <= pi < l.px }

  /** A rank's block, and the domain. */
  ghost function Block(l: Layout, nz: nat, pj: int, pi: int): Box { Box(Rows(l, pj), Cols(l, pi), nz) }
  ghost function Domain(l: Layout, nz: nat): Box { Box(l.ny, l.nx, nz) }

  // ----- sums over ranks

  ghost function RowOfRanks(l: Layout, v: PerRank<real>, pj: int): real { Sum(0, l.px, pi => v(pj, pi)) }

  /** A value added up over all ranks. */
  ghost function OverRanks(l: Layout, v: PerRank<real>): real { Sum(0, l.py, pj => RowOfRanks(l, v, pj)) }

  lemma RowOfRanksLinear(l: Layout, u: PerRank<real>, c: real, v: PerRank<real>, w: PerRank<real>, pj: int)
    requires forall pi :: 0 <= pi < l.px ==> w(pj, pi) == u(pj, pi) + c * v(pj, pi)
    ensures RowOfRanks(l, w, pj) == RowOfRanks(l, u, pj) + c * RowOfRanks(l, v, pj)
  {
    hide Sum;
    SumLinear(0, l.px, pi => u(pj, pi), c, pi => v(pj, pi), pi => w(pj, pi));
  }

  lemma OverRanksLinear(l: Layout, u: PerRank<real>, c: real, v: PerRank<real>, w: PerRank<real>)
    requires forall pj, pi :: IsRank(l, pj, pi) ==> w(pj, pi) == u(pj, pi) + c * v(pj, pi)
    ensures OverRanks(l, w) == OverRanks(l, u) + c * OverRanks(l, v)
  {
    forall pj | 0 <= pj < l.py ensures RowOfRanks(l, w, pj) == RowOfRanks(l, u, pj) + c * RowOfRanks(l, v, pj) {
      RowOfRanksLinear(l, u, c, v, w, pj);
    }
    hide RowOfRanks, Sum;
    SumLinear(0, l.py, pj => RowOfRanks(l, u, pj), c, pj => RowOfRanks(l, v, pj), pj => RowOfRanks(l, w, pj));
  }

  lemma OverRanksSame(l: Layout, u: PerRank<real>, v: PerRank<real>)
    requires forall pj, pi :: IsRank(l, pj, pi) ==> u(pj, pi) == v(pj, pi)
    ensures OverRanks(l, u) == OverRanks(l, v)
  {
    OverRanksLinear(l, u, 0.0, u, v);
  }

  // ----- blocks along one axis

  /** The part of a line that block p holds. */
  ghost function Part(n: nat, parts: nat, h: int -> real, p: int): real
    requires parts > 0
  {
    if p >= 0 then Sum(1, BlockSize(n, parts, p) + 1, i => h(BlockStart(n, parts, p) + i)) else 0.0
  }

  lemma {:induction false} ShiftedSum(lo: int, hi: int, s: int, h: int -> real)
    ensures Sum(lo, hi, i => h(s + i)) == Sum(lo + s, hi + s, h)
    decreases hi - lo
  {
    if lo < hi { ShiftedSum(lo, hi - 1, s, h); }
  }

  /** The blocks before q hold the line up to where q starts. */
  lemma {:induction false} PartsAdd(n: nat, parts: nat, h: int -> real, q: nat)
    requires parts > 0
    ensures Sum(0, q, p => Part(n, parts, h, p)) == Sum(1, BlockStart(n, parts, q) + 1, h)
    decreases q
  {
    hide BlockSize, BlockStart;
    BlocksAbut(n, parts, 0);
    if q > 0 {
      PartsAdd(n, parts, h, q - 1);
      BlocksAbut(n, parts, q - 1);
      var s, m := BlockStart(n, parts, q - 1), BlockSize(n, parts, q - 1);
      ShiftedSum(1, m + 1, s, h);
      SumSplit(1, s + 1, s + m + 1, h);
    }
  }

  lemma LineAdds(n: nat, parts: nat, h: int -> real)
    requires parts > 0
    ensures Sum(0, parts, p => Part(n, parts, h, p)) == Sum(1, n + 1, h)
  {
    PartsAdd(n, parts, h, parts);
    BlocksAbut(n, parts, parts);
  }

  // ----- blocks in the plane and in the domain

  /** A global field as a rank at (pj, pi) indexes it. */
  ghost function Local2<T>(l: Layout, h: (int, int) -> T, pj: int, pi: int): (r: (int, int) -> T)
    ensures forall j, i :: r(j, i) == h(Row0(l, pj) + j, Col0(l, pi) + i)
  {
    (j, i) => h(Row0(l, pj) + j, Col0(l, pi) + i)
  }
  ghost function Local3<T>(l: Layout, h: (int, int, int) -> T, pj: int, pi: int): (r: (int, int, int) -> T)
    ensures forall j, i, k :: r(j, i, k) == h(Row0(l, pj) + j, Col0(l, pi) + i, k)
  {
    (j, i, k) => h(Row0(l, pj) + j, Col0(l, pi) + i, k)
  }

  /** One rank's plane, row by row. */
  ghost function Piece(l: Layout, h: Field2, pj: int, pi: int, j: int): real
    requires l.Ok()
  {
    Part(l.nx, l.px, i => h(Row0(l, pj) + j, i), pi)
  }

  lemma PlaneOfRank(l: Layout, nz: nat, h: Field2, pj: int, pi: int)
    requires l.Ok() && IsRank(l, pj, pi)
    ensures Sum2(Block(l, nz, pj, pi), Local2(l, h, pj, pi)) == Sum(1, Rows(l, pj) + 1, j => Piece(l, h, pj, pi, j))
  {
    var b, f := Block(l, nz, pj, pi), Local2(l, h, pj, pi);
    forall j ensures RowSum(b, f, j) == Piece(l, h, pj, pi, j) {
      var line := i => h(Row0(l, pj) + j, i);
      SumExt(1, b.nx + 1, i => f(j, i), i => line(Col0(l, pi) + i));
    }
    SumExt(1, Rows(l, pj) + 1, j => RowSum(b, f, j), j => Piece(l, h, pj, pi, j));
  }

  ghost function Planes(l: Layout, nz: nat, h: Field2): PerRank<real> {
    (pj, pi) => Sum2(Block(l, nz, pj, pi), Local2(l, h, pj, pi))
  }

  /** The pieces of one row of ranks: by rank and row. */
  ghost function Pieces(l: Layout, h: Field2, pj: int): (r: (int, int) -> real)
    requires l.Ok()
    ensures forall pi, j :: r(pi, j) == Piece(l, h, pj, pi, j)
  {
    (pi, j) => Piece(l, h, pj, pi, j)
  }

  lemma PieceRow(l: Layout, nz: nat, h: Field2, pj: int, j: int)
    requires l.Ok()
    ensures Col(0, l.px, Pieces(l, h, pj), j) == RowSum(Domain(l, nz), h, Row0(l, pj) + j)
  {
    var line := i => h(Row0(l, pj) + j, i);
    LineAdds(l.nx, l.px, line);
    hide Part, Row0;
    var pieces := Pieces(l, h, pj);
    SumExt(0, l.px, pi => pieces(pi, j), pi => Part(l.nx, l.px, line, pi));
    SumExt(1, l.nx + 1, line, i => h(Row0(l, pj) + j, i));
  }

  /** One row of ranks holds its rows of the plane. */
  lemma RanksOfRow(l: Layout, nz: nat, h: Field2, pj: int)
    requires l.Ok() && 0 <= pj < l.py
    ensures RowOfRanks(l, Planes(l, nz, h), pj) == Part(l.ny, l.py, j => RowSum(Domain(l, nz), h, j), pj)
  {
    hide Sum2, BlockSize, BlockStart, Piece, RowSum;
    var pieces, planes := Pieces(l, h, pj), Planes(l, nz, h);
    forall pi | 0 <= pi < l.px ensures planes(pj, pi) == Row(1, Rows(l, pj) + 1, pieces, pi) {
      PlaneOfRank(l, nz, h, pj, pi);
      SumExt(1, Rows(l, pj) + 1, j => Piece(l, h, pj, pi, j), j => pieces(pi, j));
    }
    SumExt(0, l.px, pi => planes(pj, pi), pi => Row(1, Rows(l, pj) + 1, pieces, pi));
    SumSwap(0, l.px, 1, Rows(l, pj) + 1, pieces);
    var rows := j => RowSum(Domain(l, nz), h, j);
    forall j ensures Col(0, l.px, pieces, j) == rows(Row0(l, pj) + j) { PieceRow(l, nz, h, pj, j); }
    SumExt(1, Rows(l, pj) + 1, j => Col(0, l.px, pieces, j), j => rows(Row0(l, pj) + j));
  }

  lemma PlanesAddUp(l: Layout, nz: nat, h: Field2)
    requires l.Ok()
    ensures OverRanks(l, Planes(l, nz, h)) == Sum2(Domain(l, nz), h)
  {
    hide BlockSize, BlockStart, Planes;
    var rows := j => RowSum(Domain(l, nz), h, j);
    forall pj | 0 <= pj < l.py ensures RowOfRanks(l, Planes(l, nz, h), pj) == Part(l.ny, l.py, rows, pj) {
      RanksOfRow(l, nz, h, pj);
      SamePart(l.ny, l.py, j => RowSum(Domain(l, nz), h, j), rows, pj);
    }
    hide Part, RowSum, RowOfRanks;
    SumExt(0, l.py, pj => RowOfRanks(l, Planes(l, nz, h), pj), pj => Part(l.ny, l.py, rows, pj));
    LineAdds(l.ny, l.py, rows);
    SumExt(1, l.ny + 1, rows, j => RowSum(Domain(l, nz), h, j));
  }

  lemma SamePart(n: nat, parts: nat, h: int -> real, g: int -> real, p: int)
    requires parts > 0 && forall i :: h(i) == g(i)
    ensures Part(n, parts, h, p) == Part(n, parts, g, p)
  {
    if p >= 0 {
      SumExt(1, BlockSize(n, parts, p) + 1, i => h(BlockStart(n, parts, p) + i), i => g(BlockStart(n, parts, p) + i));
    }
  }

  /** The sums of all ranks' blocks. */
  ghost function BlockSums(l: Layout, nz: nat, f: PerRank<Field3>): PerRank<real> {
    (pj, pi) => Sum3(Block(l, nz, pj, pi), f(pj, pi))
  }

  ghost function Locals<T>(l: Layout, h: (int, int, int) -> T): PerRank<(int, int, int) -> T> {
    (pj, pi) => Local3(l, h, pj, pi)
  }

  /** The ranks' parts of a field add up to the field. */
  lemma BlocksAddUp(l: Layout, nz: nat, h: Field3)
    requires l.Ok()
    ensures OverRanks(l, BlockSums(l, nz, Locals(l, h))) == Sum3(Domain(l, nz), h)
  {
    var flat: Field2 := (j, i) => ColumnSum(Domain(l, nz), h, j, i);
    var parts := Locals(l, h);
    forall pj, pi | IsRank(l, pj, pi) ensures BlockSums(l, nz, parts)(pj, pi) == Planes(l, nz, flat)(pj, pi) {
      FlatBlock(l, nz, h, flat, pj, pi);
    }
    hide BlockSums, Planes, Sum2;
    OverRanksSame(l, BlockSums(l, nz, parts), Planes(l, nz, flat));
    PlanesAddUp(l, nz, flat);
    Sum2Ext(Domain(l, nz), flat, (j, i) => ColumnSum(Domain(l, nz), h, j, i));
  }

  lemma FlatBlock(l: Layout, nz: nat, h: Field3, flat: Field2, pj: int, pi: int)
    requires forall j, i :: flat(j, i) == ColumnSum(Domain(l, nz), h, j, i)
    ensures Sum3(Block(l, nz, pj, pi), Local3(l, h, pj, pi)) == Sum2(Block(l, nz, pj, pi), Local2(l, flat, pj, pi))
  {
    var b, f, g := Block(l, nz, pj, pi), Local3(l, h, pj, pi), Local2(l, flat, pj, pi);
    forall j, i ensures ColumnSum(b, f, j, i) == g(j, i) {
      SumExt(0, nz, k => f(j, i, k), k => h(Row0(l, pj) + j, Col0(l, pi) + i, k));
    }
    hide ColumnSum, Sum2;
    Sum2Ext(b, (j, i) => ColumnSum(b, f, j, i), g);
  }

  // ----- what the ranks hold, stitched together

  lemma OwnerAlong(n: nat, parts: nat, g: nat)
    requires parts > 0 && g < n
    ensures exists p: nat :: p < parts && Owns(n, parts, p, g)
  {
    BlocksAbut(n, parts, 0);
    var p := OwnerExists(n, parts, g, parts);
  }

  /** The rank position that holds global index g (counted from 1); index 0 belongs to the first. */
  ghost function Holder(n: nat, parts: nat, g: int): (p: nat)
    requires parts > 0
    ensures 1 <= g <= n ==> p < parts && Owns(n, parts, p, g - 1)
    ensures g == 0 ==> p == 0
  {
    if 1 <= g <= n then
      OwnerAlong(n, parts, g - 1);
      var p: nat :| p < parts && Owns(n, parts, p, g - 1); p
    else 0
  }

  /** Index i of position p is held by p. */
  lemma HolderIs(n: nat, parts: nat, p: nat, i: int)
    requires parts > 0 && p < parts && 1 <= i <= BlockSize(n, parts, p)
    ensures 1 <= BlockStart(n, parts, p) + i <= n && Holder(n, parts, BlockStart(n, parts, p) + i) == p
  {
    var g := BlockStart(n, parts, p) + i;
    BlocksAbut(n, parts, p);
    BlocksAbut(n, parts, parts);
    StartsGrow(n, parts, p + 1, parts);
    hide BlockStart, BlockSize;
    OwnerIsUnique(n, parts, p, Holder(n, parts, g), g - 1);
  }

  /** The last index of one position and the index before the first of the next are the same place. */
  lemma HolderBefore(n: nat, parts: nat, p: nat)
    requires parts > 0 && 0 < p < parts && BlockSize(n, parts, p - 1) >= 1
    ensures BlockStart(n, parts, p) == BlockStart(n, parts, p - 1) + BlockSize(n, parts, p - 1)
    ensures Holder(n, parts, BlockStart(n, parts, p)) == p - 1
  {
    BlocksAbut(n, parts, p - 1);
    HolderIs(n, parts, p - 1, BlockSize(n, parts, p - 1));
  }

  /** Each place of the domain as the rank that holds it sees it. */
  ghost function Stitched<T>(l: Layout, q: PerRank<(int, int, int) -> T>): (r: (int, int, int) -> T)
    requires l.Ok()
    ensures forall j, i, k ::
      r(j, i, k) == var pj, pi := Holder(l.ny, l.py, j),
        Holder(l.nx, l.px, i); q(pj, pi)(j - Row0(l, pj), i - Col0(l, pi), k)
  {
    (j, i, k) => var pj, pi := Holder(l.ny, l.py, j),
      Holder(l.nx, l.px, i); q(pj, pi)(j - Row0(l, pj), i - Col0(l, pi), k)
  }

  /** What a rank holds at a place, and what its neighbour toward d holds there: the columns and rows
      of faces between two ranks, and the halo cells on the far sides. */
  ghost predicate WestMeets<T(!new)>(l: Layout, nz: nat, q: PerRank<(int, int, int) -> T>, pj: int, pi: int, j: int,
                                     k: int) {
    IsRank(l, pj, pi) && pi > 0 && 1 <= j <= Rows(l, pj) && 0 <= k < nz ==>
      q(pj, pi)(j, 0, k) == q(pj, pi - 1)(j, Cols(l, pi - 1), k)
  }
  ghost predicate SouthMeets<T(!new)>(l: Layout, nz: nat, q: PerRank<(int, int, int) -> T>, pj: int, pi: int, i: int,
                                      k: int) {
    IsRank(l, pj, pi) && pj > 0 && 1 <= i <= Cols(l, pi) && 0 <= k < nz ==>
      q(pj, pi)(0, i, k) == q(pj - 1, pi)(Rows(l, pj - 1), i, k)
  }
  ghost predicate EastMeets<T(!new)>(l: Layout, nz: nat, q: PerRank<(int, int, int) -> T>, pj: int, pi: int, j: int,
                                     k: int) {
    IsRank(l, pj, pi) && pi + 1 < l.px && 1 <= j <= Rows(l, pj) && 0 <= k < nz ==>
      q(pj, pi)(j, Cols(l, pi) + 1, k) == q(pj, pi + 1)(j, 1, k)
  }
  ghost predicate NorthMeets<T(!new)>(l: Layout, nz: nat, q: PerRank<(int, int, int) -> T>, pj: int, pi: int, i: int,
                                      k: int) {
    IsRank(l, pj, pi) && pj + 1 < l.py && 1 <= i <= Cols(l, pi) && 0 <= k < nz ==>
      q(pj, pi)(Rows(l, pj) + 1, i, k) == q(pj + 1, pi)(1, i, k)
  }

  ghost predicate ColumnsMeet<T(!new)>(l: Layout, nz: nat, q: PerRank<(int, int, int) -> T>) {
    forall pj, pi, j, k :: WestMeets(l, nz, q, pj, pi, j, k)
  }
  ghost predicate RowsMeet<T(!new)>(l: Layout, nz: nat, q: PerRank<(int, int, int) -> T>) {
    forall pj, pi, i, k :: SouthMeets(l, nz, q, pj, pi, i, k)
  }
  ghost predicate FarColumnsMeet<T(!new)>(l: Layout, nz: nat, q: PerRank<(int, int, int) -> T>) {
    forall pj, pi, j, k :: EastMeets(l, nz, q, pj, pi, j, k)
  }
  ghost predicate FarRowsMeet<T(!new)>(l: Layout, nz: nat, q: PerRank<(int, int, int) -> T>) {
    forall pj, pi, i, k :: NorthMeets(l, nz, q, pj, pi, i, k)
  }

  lemma NoneEmpty(l: Layout, pj: int, pi: int)
    requires l.Ok() && IsRank(l, pj, pi)
    ensures Rows(l, pj) >= 1 && Cols(l, pi) >= 1
  {
    NoEmptyBlockIff(l.ny, l.py);
    NoEmptyBlockIff(l.nx, l.px);
  }

  lemma StitchedInside<T>(l: Layout, q: PerRank<(int, int, int) -> T>, pj: int, pi: int, j: int, i: int, k: int)
    requires l.Ok() && IsRank(l, pj, pi) && 1 <= j <= Rows(l, pj) && 1 <= i <= Cols(l, pi)
    ensures Stitched(l, q)(Row0(l, pj) + j, Col0(l, pi) + i, k) == q(pj, pi)(j, i, k)
  {
    HolderIs(l.ny, l.py, pj, j);
    HolderIs(l.nx, l.px, pi, i);
    hide BlockSize, BlockStart, Holder;
  }

  lemma StitchedWest<T(!new)>(l: Layout, nz: nat, q: PerRank<(int, int, int) -> T>, pj: int, pi: int, j: int, k: int)
    requires l.Ok() && 0 <= k < nz && IsRank(l, pj, pi) && 1 <= j <= Rows(l, pj) && ColumnsMeet(l, nz, q)
    ensures Stitched(l, q)(Row0(l, pj) + j, Col0(l, pi), k) == q(pj, pi)(j, 0, k)
  {
    HolderIs(l.ny, l.py, pj, j);
    assert WestMeets(l, nz, q, pj, pi, j, k);
    if pi > 0 {
      NoneEmpty(l, pj, pi - 1);
      HolderBefore(l.nx, l.px, pi);
    } else {
      BlocksAbut(l.nx, l.px, 0);
    }
    hide BlockSize, BlockStart, Holder;
  }

  lemma StitchedSouth<T(!new)>(l: Layout, nz: nat, q: PerRank<(int, int, int) -> T>, pj: int, pi: int, i: int, k: int)
    requires l.Ok() && 0 <= k < nz && IsRank(l, pj, pi) && 1 <= i <= Cols(l, pi) && RowsMeet(l, nz, q)
    ensures Stitched(l, q)(Row0(l, pj), Col0(l, pi) + i, k) == q(pj, pi)(0, i, k)
  {
    HolderIs(l.nx, l.px, pi, i);
    assert SouthMeets(l, nz, q, pj, pi, i, k);
    if pj > 0 {
      NoneEmpty(l, pj - 1, pi);
      HolderBefore(l.ny, l.py, pj);
    } else {
      BlocksAbut(l.ny, l.py, 0);
    }
    hide BlockSize, BlockStart, Holder;
  }

  lemma NextCol(l: Layout, pi: int)
    requires l.Ok() && 0 <= pi < l.px
    ensures Col0(l, pi + 1) == Col0(l, pi) + Cols(l, pi)
  {
    BlocksAbut(l.nx, l.px, pi);
  }

  lemma NextRow(l: Layout, pj: int)
    requires l.Ok() && 0 <= pj < l.py
    ensures Row0(l, pj + 1) == Row0(l, pj) + Rows(l, pj)
  {
    BlocksAbut(l.ny, l.py, pj);
  }

  // ----- the fluxes of all ranks

  /** The domain's activity, and the face fluxes each rank computed. */
  datatype Flows = Flows(active: Mask, x: PerRank<Field3>, y: PerRank<Field3>, z: PerRank<Field3>)

  /** Faces shared by two ranks carry one flux. */
  ghost predicate Consistent(l: Layout, nz: nat, f: Flows) {
    ColumnsMeet(l, nz, f.x) && RowsMeet(l, nz, f.y)
  }

  /** The net flux of a rank's cells, all their faces counted. */
  ghost function NetOf(l: Layout, f: Flows): PerRank<Field3> {
    (pj, pi) => NetFlow(Local3(l, f.active, pj, pi), f.x(pj, pi), f.y(pj, pi), f.z(pj, pi))
  }

  /** A face at the domain's edge, or toward an inactive cell. */
  ghost function EdgeX(l: Layout, m: Mask, q: Field3, pj: int, pi: int, j: int, i: int, k: int): real {
    (if (pi == l.px - 1 && i == Cols(l, pi)) || !m(j, i + 1, k) then q(j, i, k) else 0.0)
    - (if (pi == 0 && i == 1) || !m(j, i - 1, k) then q(j, i - 1, k) else 0.0)
  }
  ghost function EdgeY(l: Layout, m: Mask, q: Field3, pj: int, pi: int, j: int, i: int, k: int): real {
    (if (pj == l.py - 1 && j == Rows(l, pj)) || !m(j + 1, i, k) then q(j, i, k) else 0.0)
    - (if (pj == 0 && j == 1) || !m(j - 1, i, k) then q(j - 1, i, k) else 0.0)
  }

  /** What a rank counts through the boundary of the domain's active cells: faces between ranks are
      not among it. */
  ghost function BoundaryAt(l: Layout, nz: nat, f: Flows, pj: int, pi: int, j: int, i: int, k: int): real {
    var m := Local3(l, f.active, pj, pi);
    if m(j, i, k)
    then EdgeX(l, m, f.x(pj, pi), pj, pi, j, i, k) + EdgeY(l, m, f.y(pj, pi), pj, pi, j, i, k)
         + OuterZ(Block(l, nz, pj, pi), m, f.z(pj, pi), j, i, k)
    else 0.0
  }
  ghost function BoundaryField(l: Layout, nz: nat, f: Flows, pj: int, pi: int): (r: Field3)
    ensures forall j, i, k :: r(j, i, k) == BoundaryAt(l, nz, f, pj, pi, j, i, k)
  {
    (j, i, k) => BoundaryAt(l, nz, f, pj, pi, j, i, k)
  }
  ghost function BoundaryOf(l: Layout, nz: nat, f: Flows): PerRank<Field3> {
    (pj, pi) => BoundaryField(l, nz, f, pj, pi)
  }

  /** The net and the boundary flux of the whole domain. */
  ghost function NetOfWhole(l: Layout, f: Flows): Field3
    requires l.Ok()
  {
    NetFlow(f.active, Stitched(l, f.x), Stitched(l, f.y), Stitched(l, f.z))
  }
  ghost function OuterOfWhole(l: Layout, nz: nat, f: Flows): Field3
    requires l.Ok()
  {
    OuterFlow(Domain(l, nz), f.active, Stitched(l, f.x), Stitched(l, f.y), Stitched(l, f.z))
  }

  // Around a rank's cell the stitched fields are the rank's own, wherever the neighbour lies.

  lemma WestOf<T(!new)>(l: Layout, nz: nat, q: PerRank<(int, int, int) -> T>, pj: int, pi: int, j: int, i: int, k: int)
    requires l.Ok() && 0 <= k < nz && ColumnsMeet(l, nz, q) && IsRank(l, pj, pi) && 1 <= j <= Rows(l, pj)
             && 1 <= i <= Cols(l, pi)
    ensures Stitched(l, q)(Row0(l, pj) + j, Col0(l, pi) + i - 1, k) == q(pj, pi)(j, i - 1, k)
  {
    hide ColumnsMeet, Stitched, Rows, Cols, Row0, Col0;
    if i > 1 { StitchedInside(l, q, pj, pi, j, i - 1, k); } else { StitchedWest(l, nz, q, pj, pi, j, k); }
  }

  lemma SouthOf<T(!new)>(l: Layout, nz: nat, q: PerRank<(int, int, int) -> T>, pj: int, pi: int, j: int, i: int, k: int)
    requires l.Ok() && 0 <= k < nz && RowsMeet(l, nz, q) && IsRank(l, pj, pi) && 1 <= j <= Rows(l, pj)
             && 1 <= i <= Cols(l, pi)
    ensures Stitched(l, q)(Row0(l, pj) + j - 1, Col0(l, pi) + i, k) == q(pj, pi)(j - 1, i, k)
  {
    hide RowsMeet, Stitched, Rows, Cols, Row0, Col0;
    if j > 1 { StitchedInside(l, q, pj, pi, j - 1, i, k); } else { StitchedSouth(l, nz, q, pj, pi, i, k); }
  }

  /** The x faces of a rank's cell, as the domain counts them. */
  lemma XOfWhole(l: Layout, nz: nat, a: Mask, x: PerRank<Field3>, pj: int, pi: int, j: int, i: int, k: int)
    requires l.Ok() && ColumnsMeet(l, nz, x) && 0 <= k < nz
    requires IsRank(l, pj, pi) && 1 <= j <= Rows(l, pj) && 1 <= i <= Cols(l, pi)
    ensures var m, gj, gi := Local3(l, a, pj, pi), Row0(l, pj) + j, Col0(l, pi) + i;
      && NetX(a, Stitched(l, x), gj, gi, k) == NetX(m, x(pj, pi), j, i, k)
      && OuterX(Domain(l, nz), a, Stitched(l, x), gj, gi, k)
         == if m(j, i, k) then EdgeX(l, m, x(pj, pi), pj, pi, j, i, k) else 0.0
  {
    hide ColumnsMeet, Stitched, Rows, Cols, Row0, Col0;
    StitchedInside(l, x, pj, pi, j, i, k);
    WestOf(l, nz, x, pj, pi, j, i, k);
    ColumnEnds(l, pi, i);
  }

  lemma YOfWhole(l: Layout, nz: nat, a: Mask, y: PerRank<Field3>, pj: int, pi: int, j: int, i: int, k: int)
    requires l.Ok() && RowsMeet(l, nz, y) && 0 <= k < nz
    requires IsRank(l, pj, pi) && 1 <= j <= Rows(l, pj) && 1 <= i <= Cols(l, pi)
    ensures var m, gj, gi := Local3(l, a, pj, pi), Row0(l, pj) + j, Col0(l, pi) + i;
      && NetY(a, Stitched(l, y), gj, gi, k) == NetY(m, y(pj, pi), j, i, k)
      && OuterY(Domain(l, nz), a, Stitched(l, y), gj, gi, k)
         == if m(j, i, k) then EdgeY(l, m, y(pj, pi), pj, pi, j, i, k) else 0.0
  {
    hide RowsMeet, Stitched, Rows, Cols, Row0, Col0;
    StitchedInside(l, y, pj, pi, j, i, k);
    SouthOf(l, nz, y, pj, pi, j, i, k);
    RowEnds(l, pj, j);
  }

  lemma ZOfWhole(l: Layout, nz: nat, a: Mask, z: PerRank<Field3>, pj: int, pi: int, j: int, i: int, k: int)
    requires l.Ok() && IsRank(l, pj, pi) && 1 <= j <= Rows(l, pj) && 1 <= i <= Cols(l, pi)
    ensures var m, gj, gi := Local3(l, a, pj, pi), Row0(l, pj) + j, Col0(l, pi) + i;
      && NetZ(a, Stitched(l, z), gj, gi, k) == NetZ(m, z(pj, pi), j, i, k)
      && OuterZ(Domain(l, nz), a, Stitched(l, z), gj, gi, k) == OuterZ(Block(l, nz, pj, pi), m, z(pj, pi), j, i, k)
  {
    hide Stitched, Rows, Cols, Row0, Col0;
    StitchedInside(l, z, pj, pi, j, i, k);
    StitchedInside(l, z, pj, pi, j, i, k + 1);
  }

  lemma ColumnEnds(l: Layout, pi: int, i: int)
    requires l.Ok() && 0 <= pi < l.px && 1 <= i <= Cols(l, pi)
    ensures Col0(l, pi) + i == 1 <==> pi == 0 && i == 1
    ensures Col0(l, pi) + i == l.nx <==> pi == l.px - 1 && i == Cols(l, pi)
    ensures 1 <= Col0(l, pi) + i <= l.nx
  {
    EndsAlong(l.nx, l.px, pi, i);
    hide BlockSize, BlockStart;
  }

  lemma RowEnds(l: Layout, pj: int, j: int)
    requires l.Ok() && 0 <= pj < l.py && 1 <= j <= Rows(l, pj)
    ensures Row0(l, pj) + j == 1 <==> pj == 0 && j == 1
    ensures Row0(l, pj) + j == l.ny <==> pj == l.py - 1 && j == Rows(l, pj)
    ensures 1 <= Row0(l, pj) + j <= l.ny
  {
    EndsAlong(l.ny, l.py, pj, j);
    hide BlockSize, BlockStart;
  }

  /** A block's first and last places lie at the domain's edges exactly for the first and last ranks. */
  lemma EndsAlong(n: nat, parts: nat, p: nat, i: int)
    requires 0 < parts <= n && p < parts && 1 <= i <= BlockSize(n, parts, p)
    ensures BlockStart(n, parts, p) + i == 1 <==> p == 0 && i == 1
    ensures BlockStart(n, parts, p) + i == n <==> p == parts - 1 && i == BlockSize(n, parts, p)
    ensures BlockStart(n, parts, p) + i <= n
  {
    NoEmptyBlockIff(n, parts);
    BlocksAbut(n, parts, p);
    BlocksAbut(n, parts, parts);
    if p > 0 {
      StartsGrow(n, parts, 0, p);
      BlocksAbut(n, parts, 0);
    }
    StartsGrow(n, parts, p + 1, parts);
    hide BlockStart, BlockSize;
    if p + 1 < parts {
      assert BlockSize(n, parts, p + 1) >= 1;
      StartsGrow(n, parts, p + 2, parts);
      BlocksAbut(n, parts, p + 1);
    }
    if p > 0 { assert BlockSize(n, parts, 0) >= 1; }
  }

  /** A rank's net flux at a cell is the domain's. */
  lemma NetOfCell(l: Layout, nz: nat, f: Flows, pj: int, pi: int, j: int, i: int, k: int)
    requires l.Ok() && 0 <= k < nz && Consistent(l, nz, f) && IsRank(l, pj, pi) && 1 <= j <= Rows(l, pj)
             && 1 <= i <= Cols(l, pi)
    ensures NetOfWhole(l, f)(Row0(l, pj) + j, Col0(l, pi) + i, k)
            == NetFlow(Local3(l, f.active, pj, pi), f.x(pj, pi), f.y(pj, pi), f.z(pj, pi))(j, i, k)
  {
    hide ColumnsMeet, RowsMeet, Stitched, Rows, Cols, Row0, Col0;
    XOfWhole(l, nz, f.active, f.x, pj, pi, j, i, k);
    YOfWhole(l, nz, f.active, f.y, pj, pi, j, i, k);
    ZOfWhole(l, nz, f.active, f.z, pj, pi, j, i, k);
    var gj, gi := Row0(l, pj) + j, Col0(l, pi) + i;
    hide *;
    NetOfWholeAt(l, nz, f, gj, gi, k);
    FlowsAt(Domain(l, nz), Local3(l, f.active, pj, pi), f.x(pj, pi), f.y(pj, pi), f.z(pj, pi), j, i, k);
  }

  lemma NetOfWholeAt(l: Layout, nz: nat, f: Flows, gj: int, gi: int, k: int)
    requires l.Ok()
    ensures NetOfWhole(l, f)(gj, gi, k) == NetX(f.active, Stitched(l, f.x), gj, gi, k)
      + NetY(f.active, Stitched(l, f.y), gj, gi, k)
        + NetZ(f.active, Stitched(l, f.z), gj, gi, k)
    ensures OuterOfWhole(l, nz, f)(gj, gi, k)
            == OuterX(Domain(l, nz), f.active, Stitched(l, f.x), gj, gi, k)
      + OuterY(Domain(l, nz), f.active, Stitched(l, f.y), gj, gi, k)
        + OuterZ(Domain(l, nz), f.active, Stitched(l, f.z), gj, gi, k)
  {
    FlowsAt(Domain(l, nz), f.active, Stitched(l, f.x), Stitched(l, f.y), Stitched(l, f.z), gj, gi, k);
    hide Stitched, NetX, NetY, NetZ, OuterX, OuterY, OuterZ, NetFlow, OuterFlow;
  }

  /** And so is its boundary count. */
  lemma BoundaryOfCell(l: Layout, nz: nat, f: Flows, pj: int, pi: int, j: int, i: int, k: int)
    requires l.Ok() && 0 <= k < nz && Consistent(l, nz, f) && IsRank(l, pj, pi) && 1 <= j <= Rows(l, pj)
             && 1 <= i <= Cols(l, pi)
    ensures OuterOfWhole(l, nz, f)(Row0(l, pj) + j, Col0(l, pi) + i, k) == BoundaryAt(l, nz, f, pj, pi, j, i, k)
  {
    hide ColumnsMeet, RowsMeet, Stitched, Rows, Cols, Row0, Col0;
    XOfWhole(l, nz, f.active, f.x, pj, pi, j, i, k);
    YOfWhole(l, nz, f.active, f.y, pj, pi, j, i, k);
    ZOfWhole(l, nz, f.active, f.z, pj, pi, j, i, k);
    FlowsAt(Block(l, nz, pj, pi), Local3(l, f.active, pj, pi), f.x(pj, pi), f.y(pj, pi), f.z(pj, pi), j, i, k);
    var gj, gi := Row0(l, pj) + j, Col0(l, pi) + i;
    NetOfWholeAt(l, nz, f, gj, gi, k);
    hide NetX, NetY, NetZ, OuterX, OuterY, OuterZ, NetFlow, OuterFlow, EdgeX, EdgeY, Consistent, IsRank, Layout.Ok,
      OuterOfWhole, NetOfWhole, Block, Domain;
  }

  lemma FlowsAt(b: Box, m: Mask, x: Field3, y: Field3, z: Field3, j: int, i: int, k: int)
    ensures NetFlow(m, x, y, z)(j, i, k) == NetX(m, x, j, i, k) + NetY(m, y, j, i, k) + NetZ(m, z, j, i, k)
    ensures OuterFlow(b, m, x, y, z)(j, i, k) == OuterX(b, m, x, j, i, k) + OuterY(b, m, y, j, i, k)
            + OuterZ(b, m, z, j, i, k)
    ensures !m(j, i, k) ==> OuterZ(b, m, z, j, i, k) == 0.0
  {
    hide NetX, NetY, NetZ, OuterX, OuterY;
  }

  /** Main result: summed over all ranks, the net fluxes of their cells are what passes the boundary
      of the domain's active cells; every face between two ranks enters once with each sign. */
  lemma RanksTelescope(l: Layout, nz: nat, f: Flows)
    requires l.Ok() && Consistent(l, nz, f)
    ensures OverRanks(l, BlockSums(l, nz, NetOf(l, f))) == OverRanks(l, BlockSums(l, nz, BoundaryOf(l, nz, f)))
  {
    FlowTelescopes(Domain(l, nz), f.active, Stitched(l, f.x), Stitched(l, f.y), Stitched(l, f.z));
    assert Sum3(Domain(l, nz), NetOfWhole(l, f)) == Sum3(Domain(l, nz), OuterOfWhole(l, nz, f));
    forall pj, pi | IsRank(l, pj, pi)
      ensures BlockSums(l, nz, Locals(l, NetOfWhole(l, f)))(pj, pi) == BlockSums(l, nz, NetOf(l, f))(pj, pi)
      ensures BlockSums(l, nz, Locals(l, OuterOfWhole(l, nz, f)))(pj, pi)
              == BlockSums(l, nz, BoundaryOf(l, nz, f))(pj, pi)
    {
      NetSums(l, nz, f, pj, pi);
      BoundarySums(l, nz, f, pj, pi);
    }
    hide *;
    BlocksAddUp(l, nz, NetOfWhole(l, f));
    BlocksAddUp(l, nz, OuterOfWhole(l, nz, f));
    OverRanksSame(l, BlockSums(l, nz, Locals(l, NetOfWhole(l, f))), BlockSums(l, nz, NetOf(l, f)));
    OverRanksSame(l, BlockSums(l, nz, Locals(l, OuterOfWhole(l, nz, f))), BlockSums(l, nz, BoundaryOf(l, nz, f)));
  }

  lemma NetOfIs(l: Layout, f: Flows, pj: int, pi: int)
    ensures NetOf(l, f)(pj, pi) == NetFlow(Local3(l, f.active, pj, pi), f.x(pj, pi), f.y(pj, pi), f.z(pj, pi))
  {
    hide NetFlow;
  }

  lemma BoundaryOfIs(l: Layout, nz: nat, f: Flows, pj: int, pi: int)
    ensures BoundaryOf(l, nz, f)(pj, pi) == BoundaryField(l, nz, f, pj, pi)
  {
    hide BoundaryField, BoundaryAt;
  }

  /** A field of the domain, seen from a rank, is the rank's own. */
  ghost predicate Seen(l: Layout, nz: nat, h: Field3, g: Field3, pj: int, pi: int) {
    forall j, i, k :: 1 <= j <= Rows(l, pj) && 1 <= i <= Cols(l, pi) && 0 <= k < nz ==>
        h(Row0(l, pj) + j, Col0(l, pi) + i, k) == g(j, i, k)
  }

  lemma SeenSum(l: Layout, nz: nat, h: Field3, g: Field3, pj: int, pi: int)
    requires Seen(l, nz, h, g, pj, pi)
    ensures Sum3(Block(l, nz, pj, pi), Local3(l, h, pj, pi)) == Sum3(Block(l, nz, pj, pi), g)
  {
    hide Sum3, Rows, Cols, Row0, Col0;
    Sum3Ext(Block(l, nz, pj, pi), Local3(l, h, pj, pi), g);
  }

  lemma NetSeen(l: Layout, nz: nat, f: Flows, pj: int, pi: int)
    requires l.Ok() && Consistent(l, nz, f) && IsRank(l, pj, pi)
    ensures Seen(l, nz, NetOfWhole(l, f), NetFlow(Local3(l, f.active, pj, pi), f.x(pj, pi), f.y(pj, pi), f.z(pj, pi)),
                 pj, pi)
  {
    hide Layout.Ok, Consistent, IsRank, NetOfWhole, NetFlow, Rows, Cols, Row0, Col0;
    forall j, i, k | 1 <= j <= Rows(l, pj) && 1 <= i <= Cols(l, pi) && 0 <= k < nz
      ensures NetOfWhole(l, f)(Row0(l, pj) + j, Col0(l, pi) + i, k)
              == NetFlow(Local3(l, f.active, pj, pi), f.x(pj, pi), f.y(pj, pi), f.z(pj, pi))(j, i, k)
    {
      NetOfCell(l, nz, f, pj, pi, j, i, k);
    }
  }

  lemma BoundarySeen(l: Layout, nz: nat, f: Flows, pj: int, pi: int)
    requires l.Ok() && Consistent(l, nz, f) && IsRank(l, pj, pi)
    ensures Seen(l, nz, OuterOfWhole(l, nz, f), BoundaryField(l, nz, f, pj, pi), pj, pi)
  {
    hide Layout.Ok, Consistent, IsRank, OuterOfWhole, BoundaryField, BoundaryAt, Rows, Cols, Row0, Col0;
    forall j, i, k | 1 <= j <= Rows(l, pj) && 1 <= i <= Cols(l, pi) && 0 <= k < nz
      ensures OuterOfWhole(l, nz, f)(Row0(l, pj) + j, Col0(l, pi) + i, k) == BoundaryField(l, nz, f, pj, pi)(j, i, k)
    {
      BoundaryOfCell(l, nz, f, pj, pi, j, i, k);
    }
  }

  lemma NetSums(l: Layout, nz: nat, f: Flows, pj: int, pi: int)
    requires l.Ok() && Consistent(l, nz, f) && IsRank(l, pj, pi)
    ensures Sum3(Block(l, nz, pj, pi), Local3(l, NetOfWhole(l, f), pj, pi))
            == Sum3(Block(l, nz, pj, pi), NetOf(l, f)(pj, pi))
  {
    hide *;
    NetOfIs(l, f, pj, pi);
    NetSeen(l, nz, f, pj, pi);
    SeenSum(l, nz, NetOfWhole(l, f), NetOf(l, f)(pj, pi), pj, pi);
  }

  lemma BoundarySums(l: Layout, nz: nat, f: Flows, pj: int, pi: int)
    requires l.Ok() && Consistent(l, nz, f) && IsRank(l, pj, pi)
    ensures Sum3(Block(l, nz, pj, pi), Local3(l, OuterOfWhole(l, nz, f), pj, pi))
            == Sum3(Block(l, nz, pj, pi), BoundaryOf(l, nz, f)(pj, pi))
  {
    hide *;
    BoundaryOfIs(l, nz, f, pj, pi);
    BoundarySeen(l, nz, f, pj, pi);
    SeenSum(l, nz, OuterOfWhole(l, nz, f), BoundaryOf(l, nz, f)(pj, pi), pj, pi);
  }

  /** The ledger of the whole domain from those of its ranks: when every rank's stored volume changes
      by the net flux of its own cells and by other terms, the domain's changes by what crosses its
      boundary and by all those terms. */
  lemma DomainLedger(l: Layout, nz: nat, f: Flows, dt: real, change: PerRank<real>, other: PerRank<real>)
    requires l.Ok() && Consistent(l, nz, f)
    requires forall pj, pi :: IsRank(l, pj, pi) ==>
               change(pj, pi) == other(pj, pi) + dt * BlockSums(l, nz, NetOf(l, f))(pj, pi)
    ensures OverRanks(l, change) == OverRanks(l, other) + dt * OverRanks(l, BlockSums(l, nz, BoundaryOf(l, nz, f)))
  {
    hide BlockSums;
    OverRanksLinear(l, other, dt, BlockSums(l, nz, NetOf(l, f)), change);
    RanksTelescope(l, nz, f);
  }

  // ----- one rank's groundwater step

  /** The vertical fluxes with their path corrections. */
  ghost function Corrected(f: G.Faces): (r: Field3)
    ensures forall j, i, k :: r(j, i, k) == f(j, i, k).q + f(j, i, k).corr
  {
    (j, i, k) => f(j, i, k).q + f(j, i, k).corr
  }

  /** The net flux of a block's cells as a groundwater step leaves it. */
  ghost function StepFlow(g: G.Geometry, c: G.Cells, f: G.Faces): Field3 {
    NetFlow(G.ActiveMask(g), G.FluxX(c), G.FluxY(c), Corrected(f))
  }

  /** A settled block's volume changes by the net flux of its cells and by its remainders. */
  lemma SettledChange(g: G.Geometry, c: G.Cells, c': G.Cells, f: G.Faces, dtg: real, rest: Field3)
    requires L.Settled(g, c, c', f, dtg, rest)
    ensures G.Volume(g, c') == G.Volume(g, c) + Sum3(g.box, rest) + dtg * Sum3(g.box, StepFlow(g, c', f))
  {
    var moved := Scaled(dtg, StepFlow(g, c', f));
    hide G.WaterField, StepFlow, Scaled, Sum3, L.Settled;
    forall j, i, k | g.box.Has(j, i, k)
      ensures G.WaterField(g, c')(j, i, k) == G.WaterField(g, c)(j, i, k) + rest(j, i, k) + moved(j, i, k)
    {
      CellSettles(g, c, c', f, dtg, rest, j, i, k);
    }
    Sum3Plus(g.box, G.WaterField(g, c), rest, moved, G.WaterField(g, c'));
    Sum3Scaled(g.box, dtg, StepFlow(g, c', f));
  }

  lemma Sum3Plus(b: Box, u: Field3, v: Field3, w: Field3, t: Field3)
    requires forall j, i, k :: b.Has(j, i, k) ==> t(j, i, k) == u(j, i, k) + v(j, i, k) + w(j, i, k)
    ensures Sum3(b, t) == Sum3(b, u) + Sum3(b, v) + Sum3(b, w)
  {
    hide Sum3;
    var uv: Field3 := (j, i, k) => u(j, i, k) + v(j, i, k);
    Sum3Linear(b, u, 1.0, v, uv);
    Sum3Linear(b, uv, 1.0, w, t);
  }

  lemma CellSettles(g: G.Geometry, c: G.Cells, c': G.Cells, f: G.Faces, dtg: real, rest: Field3, j: int, i: int, k: int)
    requires L.Settled(g, c, c', f, dtg, rest) && g.box.Has(j, i, k)
    ensures G.WaterField(g, c')(j, i, k)
            == G.WaterField(g, c)(j, i, k) + rest(j, i, k) + Scaled(dtg, StepFlow(g, c', f))(j, i, k)
  {
    assert if g.Active(j, i, k) then L.SettledAt(g, c, c', f, dtg, rest(j, i, k), j, i, k) else rest(j, i, k) == 0.0;
    if g.Active(j, i, k) {
      G.Distribute(dtg, c'(j, i, k).qx - c'(j, i - 1, k).qx, c'(j, i, k).qy - c'(j - 1, i, k).qy,
                   Corrected(f)(j, i, k + 1) - Corrected(f)(j, i, k));
      G.Distribute(dtg, c'(j, i, k).qx - c'(j, i - 1, k).qx, c'(j, i, k).qy - c'(j - 1, i, k).qy, 0.0);
      hide G.Geometry.Vol, G.Geometry.Active;
    }
  }

  // ----- all ranks' groundwater steps

  /** One rank's step: its block, the cells before and after it, the faces it leaves, and its cells'
      remainders. */
  datatype RankStep = RankStep(g: G.Geometry, before: G.Cells, after: G.Cells, faces: G.Faces, rest: Field3) {
    ghost predicate Ok(dtg: real) { L.Settled(g, before, after, faces, dtg, rest) }
    ghost function Change(): real { G.Volume(g, after) - G.Volume(g, before) }
  }

  /** The ranks' activity, and the lateral fluxes their steps leave. */
  ghost function Masks(s: PerRank<RankStep>): (r: PerRank<Mask>)
    ensures forall pj, pi :: r(pj, pi) == G.ActiveMask(s(pj, pi).g)
  {
    (pj, pi) => G.ActiveMask(s(pj, pi).g)
  }
  ghost function FluxesX(s: PerRank<RankStep>): PerRank<Field3> { (pj, pi) => G.FluxX(s(pj, pi).after) }
  ghost function FluxesY(s: PerRank<RankStep>): PerRank<Field3> { (pj, pi) => G.FluxY(s(pj, pi).after) }

  /** The domain's activity, each place's as the rank that holds it has it, and the fluxes all ranks'
      steps leave. */
  ghost function FlowsOf(l: Layout, s: PerRank<RankStep>): Flows
    requires l.Ok()
  {
    Flows(Stitched(l, Masks(s)), FluxesX(s), FluxesY(s), (pj, pi) => Corrected(s(pj, pi).faces))
  }

  /** Net fluxes count the faces of active cells alone. */
  lemma NetSame(b: Box, m: Mask, m': Mask, x: Field3, y: Field3, z: Field3)
    requires forall j, i, k :: b.Has(j, i, k) ==> m(j, i, k) == m'(j, i, k)
    ensures Sum3(b, NetFlow(m, x, y, z)) == Sum3(b, NetFlow(m', x, y, z))
  {
    forall j, i, k | b.Has(j, i, k) ensures NetFlow(m, x, y, z)(j, i, k) == NetFlow(m', x, y, z)(j, i, k) {}
    hide NetFlow, Sum3;
    Sum3Ext(b, NetFlow(m, x, y, z), NetFlow(m', x, y, z));
  }

  /** Inside its block a rank sees the domain's activity as its own. */
  lemma OwnActivity(l: Layout, nz: nat, a: PerRank<Mask>, pj: int, pi: int)
    requires l.Ok() && IsRank(l, pj, pi)
    ensures forall j, i, k :: Block(l, nz, pj, pi).Has(j, i, k) ==>
      Local3(l, Stitched(l, a), pj, pi)(j, i, k) == a(pj, pi)(j, i, k)
  {
    hide Stitched, Rows, Cols, Row0, Col0;
    forall j, i, k | Block(l, nz, pj, pi).Has(j, i, k)
      ensures Local3(l, Stitched(l, a), pj, pi)(j, i, k) == a(pj, pi)(j, i, k)
    {
      StitchedInside(l, a, pj, pi, j, i, k);
    }
  }

  lemma StepFlowIs(l: Layout, nz: nat, s: PerRank<RankStep>, pj: int, pi: int)
    requires l.Ok() && IsRank(l, pj, pi)
    ensures BlockSums(l, nz, NetOf(l, FlowsOf(l, s)))(pj, pi)
            == Sum3(Block(l, nz, pj, pi), StepFlow(s(pj, pi).g, s(pj, pi).after, s(pj, pi).faces))
  {
    var r, b := s(pj, pi), Block(l, nz, pj, pi);
    OwnActivity(l, nz, Masks(s), pj, pi);
    NetSame(b, Local3(l, Stitched(l, Masks(s)), pj, pi), G.ActiveMask(r.g), G.FluxX(r.after), G.FluxY(r.after),
            Corrected(r.faces));
    hide NetFlow, Sum3, Block, Corrected, Stitched, Masks, G.ActiveMask, G.FluxX, G.FluxY;
  }

  lemma RankChange(l: Layout, nz: nat, s: PerRank<RankStep>, dtg: real, pj: int, pi: int)
    requires l.Ok() && IsRank(l, pj, pi) && s(pj, pi).g.box == Block(l, nz, pj, pi) && s(pj, pi).Ok(dtg)
    ensures s(pj, pi).Change()
            == Sum3(s(pj, pi).g.box, s(pj, pi).rest) + dtg * BlockSums(l, nz, NetOf(l, FlowsOf(l, s)))(pj, pi)
  {
    var r := s(pj, pi);
    hide NetOf, FlowsOf, StepFlow, Sum3, L.Settled, G.Volume, BlockSums, Block;
    StepFlowIs(l, nz, s, pj, pi);
    SettledChange(r.g, r.before, r.after, r.faces, dtg, r.rest);
  }

  lemma FlowsConsistent(l: Layout, nz: nat, s: PerRank<RankStep>)
    requires l.Ok() && ColumnsMeet(l, nz, FluxesX(s)) && RowsMeet(l, nz, FluxesY(s))
    ensures Consistent(l, nz, FlowsOf(l, s))
  {
    hide ColumnsMeet, RowsMeet, Stitched, FluxesX, FluxesY;
  }

  /** Main result: when every rank's step settles its cells with remainders that add up to its audit,
      and shared faces carry one flux, the whole domain's volume changes by the audits of all ranks and
      by what crosses the boundary of the domain's active cells; nothing is gained or lost between
      ranks. */
  lemma DomainSettles(l: Layout, nz: nat, s: PerRank<RankStep>, dtg: real, audit: PerRank<real>)
    requires l.Ok() && ColumnsMeet(l, nz, FluxesX(s)) && RowsMeet(l, nz, FluxesY(s))
    requires forall pj, pi :: IsRank(l, pj, pi) ==> s(pj, pi).g.box == Block(l, nz, pj, pi) && s(pj, pi).Ok(dtg)
    requires forall pj, pi :: IsRank(l, pj, pi) ==> audit(pj, pi) == Sum3(s(pj, pi).g.box, s(pj, pi).rest)
    ensures OverRanks(l, (pj, pi) => s(pj, pi).Change())
            == OverRanks(l, audit) + dtg * OverRanks(l, BlockSums(l, nz, BoundaryOf(l, nz, FlowsOf(l, s))))
  {
    var change: PerRank<real> := (pj, pi) => s(pj, pi).Change();
    hide *;
    FlowsConsistent(l, nz, s);
    forall pj, pi | IsRank(l, pj, pi)
      ensures change(pj, pi) == audit(pj, pi) + dtg * BlockSums(l, nz, NetOf(l, FlowsOf(l, s)))(pj, pi)
    {
      RankChange(l, nz, s, dtg, pj, pi);
    }
    DomainLedger(l, nz, FlowsOf(l, s), dtg, change, audit);
    OverRanksSame(l, change, (pj, pi) => s(pj, pi).Change());
  }

  /** A steady stream of rate q along the rows of a domain whose every cell is active. */
  ghost function Stream(l: Layout, nz: nat, q: real): PerRank<RankStep> {
    var c: G.Cells := (j, i, k) => G.Cell(0.0, 0.0, 0.0, 0.0, 0.0, 0.0, 0.0, 0.0, q, 0.0, 0.0, 0.0);
    var none: Field3 := (j, i, k) => 0.0;
    var one: Field3 := (j, i, k) => 1.0;
    (pj, pi) => RankStep(G.Geometry(Block(l, nz, pj, pi), 1.0, 1.0, 1.0, (j, i) => 0, one, none, one, one, none, one,
                                    none, one, G.WHOLE_RIM),
                         c, c, (j, i, k) => G.Face(0.0, 0.0, 0.0), none)
  }

  /** Over any layout the stream meets what the ledger of the domain asks for, while it passes every face
      between two ranks. */
  lemma StreamSettles(l: Layout, nz: nat, q: real, dtg: real)
    requires l.Ok()
    ensures ColumnsMeet(l, nz, FluxesX(Stream(l, nz, q))) && RowsMeet(l, nz, FluxesY(Stream(l, nz, q)))
    ensures forall pj, pi :: IsRank(l, pj, pi) ==>
      Stream(l, nz, q)(pj, pi).g.box == Block(l, nz, pj, pi) && Stream(l, nz, q)(pj, pi).Ok(dtg)
    ensures forall pj, pi, j, i, k :: Block(l, nz, pj, pi).Has(j, i, k) ==>
      Masks(Stream(l, nz, q))(pj, pi)(j, i, k) && FluxesX(Stream(l, nz, q))(pj, pi)(j, i, k) == q
  {
    hide Rows, Cols;
    forall pj, pi | IsRank(l, pj, pi) ensures Stream(l, nz, q)(pj, pi).Ok(dtg) { StreamRests(l, nz, q, dtg, pj, pi); }
  }

  lemma StreamRests(l: Layout, nz: nat, q: real, dtg: real, pj: int, pi: int)
    ensures Stream(l, nz, q)(pj, pi).Ok(dtg)
  {
    var x := Stream(l, nz, q)(pj, pi);
    hide Block;
    assert dtg * 0.0 == 0.0;
    forall j, i, k | x.g.Active(j, i, k) ensures L.SettledAt(x.g, x.before, x.after, x.faces, dtg, 0.0, j, i, k) {}
    hide L.SettledAt;
  }
}
