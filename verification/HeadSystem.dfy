/** The seven-point head system (src/gw/Predictor.cpp:300-442): its rows as the code fills them,
    the network behind them, and exactly when the matrix is positive definite. */
module HeadSystem {
  import opened Sums
  import opened Fields
  import opened Retention
  import opened TopExchange
  import opened FaceFlux
  import opened GroundwaterTerms
  import opened SendWalk
  import opened SweepLedger
  import opened Corrector
  import opened Predictor
  import S = Stencil

  /** What the assembly reads besides the setting. */
  datatype HeadState = HeadState(e: Setting, c: Cells, f: Faces, s: Ponds, dtg: real)

  function Product(a: real, b: real): real { a * b }

  lemma ProductPositive(a: real, b: real)
    ensures (a > 0.0 && b > 0.0) || (a < 0.0 && b < 0.0) ==> Product(a, b) > 0.0
  {
  }

  function Sq(d: real): (r: real)
    ensures d != 0.0 ==> r > 0.0
  {
    ProductPositive(d, d);
    Product(d, d)
  }

  function LegX(q: HeadState, j: int, i: int, k: int): real
    requires q.e.g.dx != 0.0
  {
    q.c(j, i, k).kx * q.dtg * q.e.ratios.rhoX(j, i, k) * q.e.ratios.viscX(j, i, k) * q.e.g.cosx(j, i, k)
    / Sq(q.e.g.dx) * (q.e.g.ax(j, i, k) * q.e.g.dx)
  }

  function LegY(q: HeadState, j: int, i: int, k: int): real
    requires q.e.g.dy != 0.0
  {
    q.c(j, i, k).ky * q.dtg * q.e.ratios.rhoY(j, i, k) * q.e.ratios.viscY(j, i, k) * q.e.g.cosy(j, i, k)
    / Sq(q.e.g.dy) * (q.e.g.ay(j, i, k) * q.e.g.dy)
  }

  /** The leg of vertical face n seen from cell k at distance dzf. */
  function LegZ(q: HeadState, j: int, i: int, n: int, k: int, dzf: real): real
    requires q.e.g.dz(j, i, k) * dzf != 0.0
  {
    FaceTerm(q, j, i, n) / (q.e.g.dz(j, i, k) * dzf) * q.e.g.Vol(j, i, k)
  }
  function FaceTerm(q: HeadState, j: int, i: int, n: int): real {
    q.f(j, i, n).k * q.dtg * q.e.ratios.rhoZ(j, i, n) * q.e.ratios.viscZ(j, i, n)
  }

  /** Positive layers, spacings and areas in the block. */
  ghost predicate Ready(q: HeadState) { q.e.Ok() && q.dtg > 0.0 }

  predicate IsTop(q: HeadState, j: int, i: int, k: int) { k == 0 || !q.e.g.Active(j, i, k - 1) }

  lemma Spans(q: HeadState, j: int, i: int, k: int)
    requires Ready(q) && q.e.g.Active(j, i, k)
    ensures q.e.g.dx > 0.0 && q.e.g.dy > 0.0 && q.e.g.dz(j, i, k) > 0.0 && q.e.soil.at(j, i, k).thetaS > 0.0
    ensures q.e.soil.at(j, i, k).vgn != 0.0
    ensures DistanceBelow(q, j, i, k) > 0.0 && DistanceAbove(q, j, i, k) > 0.0
    ensures q.e.g.dz(j, i, k) * DistanceBelow(q, j, i, k) != 0.0 && q.e.g.dz(j, i, k) * DistanceAbove(q, j, i, k) != 0.0
  {
    assert q.e.g.box.Has(j, i, k);
    if k + 1 < q.e.g.box.nz { assert q.e.g.box.Has(j, i, k + 1); }
    if k > 0 { assert q.e.g.box.Has(j, i, k - 1); }
    assert SoilOk(q.e.soil.at(j, i, k));
    NonzeroProduct(q.e.g.dz(j, i, k), DistanceBelow(q, j, i, k));
    NonzeroProduct(q.e.g.dz(j, i, k), DistanceAbove(q, j, i, k));
  }

  lemma NonzeroProduct(a: real, b: real)
    requires a > 0.0 && b > 0.0
    ensures a * b > 0.0
  {
  }

  /** The head distances across the faces below and above a cell: half a cell at the boundary. */
  function DistanceBelow(q: HeadState, j: int, i: int, k: int): real {
    if k == q.e.g.box.nz - 1 then 0.5 * q.e.g.dz(j, i, k) else 0.5 * (q.e.g.dz(j, i, k) + q.e.g.dz(j, i, k + 1))
  }
  function DistanceAbove(q: HeadState, j: int, i: int, k: int): real {
    if IsTop(q, j, i, k) then 0.5 * q.e.g.dz(j, i, k) else 0.5 * (q.e.g.dz(j, i, k) + q.e.g.dz(j, i, k - 1))
  }

  // The six legs of a cell; a prescribed-head edge sits at half spacing and doubles its leg.
  function GXp(q: HeadState, j: int, i: int, k: int): real
    requires q.e.g.dx != 0.0
  {
    if i == q.e.g.box.nx && IsHead(q.e.bc.east(j).code) then LegX(q, j, i, k) * 2.0 else LegX(q, j, i, k)
  }
  function GXm(q: HeadState, j: int, i: int, k: int): real
    requires q.e.g.dx != 0.0
  {
    if i == 1 && IsHead(q.e.bc.west(j).code) then LegX(q, j, i - 1, k) * 2.0 else LegX(q, j, i - 1, k)
  }
  function GYp(q: HeadState, j: int, i: int, k: int): real
    requires q.e.g.dy != 0.0
  {
    if j == q.e.g.box.ny && IsHead(q.e.bc.north(i).code) then LegY(q, j, i, k) * 2.0 else LegY(q, j, i, k)
  }
  function GYm(q: HeadState, j: int, i: int, k: int): real
    requires q.e.g.dy != 0.0
  {
    if j == 1 && IsHead(q.e.bc.south(i).code) then LegY(q, j - 1, i, k) * 2.0 else LegY(q, j - 1, i, k)
  }
  function GZp(q: HeadState, j: int, i: int, k: int): real
    requires Ready(q) && q.e.g.Active(j, i, k)
  {
    Spans(q, j, i, k);
    LegZ(q, j, i, k + 1, k, DistanceBelow(q, j, i, k))
  }
  function GZm(q: HeadState, j: int, i: int, k: int): real
    requires Ready(q) && q.e.g.Active(j, i, k)
  {
    Spans(q, j, i, k);
    LegZ(q, j, i, k, k, DistanceAbove(q, j, i, k))
  }

  /** The storage coefficient from the step-start head and moisture. */
  function Storage(q: HeadState, j: int, i: int, k: int): real
    requires Ready(q) && q.e.g.Active(j, i, k)
  {
    Spans(q, j, i, k);
    (CapacityFromHead(q.e.soil.pow, q.e.soil.at(j, i, k), q.c(j, i, k).hn)
     + q.e.soil.ss * q.c(j, i, k).wcn / q.e.soil.at(j, i, k).thetaS) * q.e.ratios.rho(j, i, k)
  }

  /** Whether the top face enters the diagonal. */
  predicate DirichletTop(q: HeadState, j: int, i: int) {
    if q.e.opt.coupled then q.s(j, i).mode == 1 else q.e.bc.top(j, i).code == Head
  }

  /** The diagonal with its lateral legs, prescribed-flux edges taken back. */
  function WithSides(q: HeadState, j: int, i: int, k: int): real
    requires Ready(q) && q.e.g.Active(j, i, k)
  {
    Spans(q, j, i, k);
    var gxp, gxm, gyp, gym := GXp(q, j, i, k), GXm(q, j, i, k), GYp(q, j, i, k), GYm(q, j, i, k);
    var base := Storage(q, j, i, k) * q.e.g.Vol(j, i, k) + (gxp + gxm + gyp + gym);
    var east := if i == q.e.g.box.nx && q.e.bc.east(j).code == Flux then base - gxp else base;
    var west := if i == 1 && q.e.bc.west(j).code == Flux then east - gxm else east;
    var north := if j == q.e.g.box.ny && q.e.bc.north(i).code == Flux then west - gyp else west;
    if j == 1 && q.e.bc.south(i).code == Flux then north - gym else north
  }

  function Diagonal(q: HeadState, j: int, i: int, k: int): real
    requires Ready(q) && q.e.g.Active(j, i, k)
  {
    var sides, gzp, gzm := WithSides(q, j, i, k), GZp(q, j, i, k), GZm(q, j, i, k);
    var below := if !(k == q.e.g.box.nz - 1 && q.e.bc.bottom(j, i).code != Head) then sides + gzp else sides;
    if IsTop(q, j, i, k) then if DirichletTop(q, j, i) then below + gzm else below
    else below + gzm
  }

  /** One assembled row. */
  function HeadRow(q: HeadState, j: int, i: int, k: int): S.Row
    requires Ready(q) && q.e.g.Active(j, i, k)
  {
    Spans(q, j, i, k);
    S.Row(Diagonal(q, j, i, k), -GXm(q, j, i, k), -GXp(q, j, i, k), -GYm(q, j, i, k), -GYp(q, j, i, k),
          -GZm(q, j, i, k), -GZp(q, j, i, k))
  }

  const NO_ROW := S.Row(0.0, 0.0, 0.0, 0.0, 0.0, 0.0, 0.0)

  ghost function Assembled(q: HeadState): S.Matrix
    requires Ready(q)
  {
    (j, i, k) => if q.e.g.Active(j, i, k) then HeadRow(q, j, i, k) else NO_ROW
  }

  /** The assembly kernel over the active cells.  Over conductivities that the passes leave, the
      matrix it fills is symmetric and positive semidefinite, and definite exactly when anchored. */
  method Assemble(q: HeadState, rows: array3<S.Row>)
    requires Ready(q)
    requires rows.Length0 == q.e.g.box.ny + 2 && rows.Length1 == q.e.g.box.nx + 2 && rows.Length2 == q.e.g.box.nz
    modifies rows
    ensures forall j, i, k :: q.e.g.Active(j, i, k) ==> rows[j, i, k] == HeadRow(q, j, i, k)
    ensures forall j, i, k :: 0 <= j < rows.Length0 && 0 <= i < rows.Length1 && 0 <= k < rows.Length2
                              && !q.e.g.Active(j, i, k) ==>
      rows[j, i, k] == old(rows[j, i, k])
    ensures Conducts(q) && Physical(q) ==>
      var a := Snap3(rows, NO_ROW);
      && S.Symmetric(q.e.g.box, Unknowns(q), a) && S.Semidefinite(q.e.g.box, Unknowns(q), a)
      && (S.Definite(q.e.g.box, Unknowns(q), a) <==> Anchored(q))
  {
    hide HeadRow, Conducts, Physical, Anchored, S.Symmetric, S.Semidefinite, S.Definite;
    forall j, i, k | 1 <= j <= q.e.g.box.ny && 1 <= i <= q.e.g.box.nx && 0 <= k < q.e.g.box.nz
      && q.e.g.Active(j, i, k) {
      rows[j, i, k] := HeadRow(q, j, i, k);
    }
    if Conducts(q) && Physical(q) { FilledMatrixDefinite(q, Snap3(rows, NO_ROW)); }
  }

  // ----- the network

  ghost function Unknowns(q: HeadState): S.Mask { (j, i, k) => q.e.g.Active(j, i, k) }

  /** The legs of a cell's boundary faces that enter its diagonal: prescribed heads and, at the
      sides, anything but a prescribed flux. */
  function SideTerms(q: HeadState, j: int, i: int, k: int): real
    requires Ready(q) && q.e.g.Active(j, i, k)
  {
    Spans(q, j, i, k);
    (if i == q.e.g.box.nx && q.e.bc.east(j).code != Flux then GXp(q, j, i, k) else 0.0)
    + (if i == 1 && q.e.bc.west(j).code != Flux then GXm(q, j, i, k) else 0.0)
    + (if j == q.e.g.box.ny && q.e.bc.north(i).code != Flux then GYp(q, j, i, k) else 0.0)
    + (if j == 1 && q.e.bc.south(i).code != Flux then GYm(q, j, i, k) else 0.0)
  }

  function EndTerms(q: HeadState, j: int, i: int, k: int): real
    requires Ready(q) && q.e.g.Active(j, i, k)
  {
    (if k == q.e.g.box.nz - 1 && q.e.bc.bottom(j, i).code == Head then GZp(q, j, i, k) else 0.0)
    + (if IsTop(q, j, i, k) && DirichletTop(q, j, i) then GZm(q, j, i, k) else 0.0)
  }

  function EdgeTerms(q: HeadState, j: int, i: int, k: int): real
    requires Ready(q) && q.e.g.Active(j, i, k)
  {
    SideTerms(q, j, i, k) + EndTerms(q, j, i, k)
  }

  ghost function OwnTerm(q: HeadState, j: int, i: int, k: int): real
    requires Ready(q)
  {
    if q.e.g.Active(j, i, k) then Storage(q, j, i, k) * q.e.g.Vol(j, i, k) + EdgeTerms(q, j, i, k) else 0.0
  }
  ghost function JoinX(q: HeadState, j: int, i: int, k: int): real
    requires Ready(q)
  {
    if q.e.g.Active(j, i, k) && q.e.g.Active(j, i + 1, k) then LegX(q, j, i, k) else 0.0
  }
  ghost function JoinY(q: HeadState, j: int, i: int, k: int): real
    requires Ready(q)
  {
    if q.e.g.Active(j, i, k) && q.e.g.Active(j + 1, i, k) then LegY(q, j, i, k) else 0.0
  }
  ghost function JoinZ(q: HeadState, j: int, i: int, k: int): real
    requires Ready(q)
  {
    if q.e.g.Active(j, i, k) && q.e.g.Active(j, i, k - 1) then GZm(q, j, i, k) else 0.0
  }

  ghost function OwnField(q: HeadState): (r: Field3)
    requires Ready(q)
    ensures forall j, i, k :: r(j, i, k) == OwnTerm(q, j, i, k)
  {
    (j, i, k) => OwnTerm(q, j, i, k)
  }
  ghost function XField(q: HeadState): (r: Field3)
    requires Ready(q)
    ensures forall j, i, k :: r(j, i, k) == JoinX(q, j, i, k)
  {
    (j, i, k) => JoinX(q, j, i, k)
  }
  ghost function YField(q: HeadState): (r: Field3)
    requires Ready(q)
    ensures forall j, i, k :: r(j, i, k) == JoinY(q, j, i, k)
  {
    (j, i, k) => JoinY(q, j, i, k)
  }
  ghost function ZField(q: HeadState): (r: Field3)
    requires Ready(q)
    ensures forall j, i, k :: r(j, i, k) == JoinZ(q, j, i, k)
  {
    (j, i, k) => JoinZ(q, j, i, k)
  }

  ghost function HeadNet(q: HeadState): S.Net
    requires Ready(q)
  {
    S.Net(OwnField(q), XField(q), YField(q), ZField(q))
  }

  /** Conductivities as the passes leave them: none negative, none across the mask. */
  ghost predicate Conducts(q: HeadState) {
    && (forall j, i, k :: IsX(q.e.g, j, i) && 0 <= k < q.e.g.box.nz ==> q.c(j, i, k).kx >= 0.0)
    && (forall j, i, k :: IsY(q.e.g, j, i) && 0 <= k < q.e.g.box.nz ==> q.c(j, i, k).ky >= 0.0)
    && (forall j, i, k :: q.e.g.box.Has2(j, i) && 0 <= k <= q.e.g.box.nz ==> q.f(j, i, k).k >= 0.0)
    && (forall j, i, k :: q.e.g.box.Has(j, i, k) && i < q.e.g.box.nx && q.e.g.Active(j, i, k) != q.e.g.Active(j, i + 1,
        k) ==> q.c(j, i, k).kx == 0.0)
    && (forall j, i, k :: q.e.g.box.Has(j, i, k) && j < q.e.g.box.ny && q.e.g.Active(j, i, k) != q.e.g.Active(j + 1, i,
        k) ==> q.c(j, i, k).ky == 0.0)
  }

  /** Ratios, slopes, soils and moistures in their physical ranges. */
  ghost predicate Physical(q: HeadState) {
    && (forall j, i, k :: q.e.ratios.rho(j, i, k) >= 0.0 && q.e.ratios.rhoX(j, i, k) >= 0.0
                          && q.e.ratios.rhoY(j, i, k) >= 0.0
                          && q.e.ratios.rhoZ(j, i, k) >= 0.0)
    && (forall j, i, k :: q.e.ratios.viscX(j, i, k) >= 0.0 && q.e.ratios.viscY(j, i, k) >= 0.0
                          && q.e.ratios.viscZ(j, i, k) >= 0.0)
    && (forall j, i, k :: q.e.g.cosx(j, i, k) >= 0.0 && q.e.g.cosy(j, i, k) >= 0.0 && q.e.g.ax(j, i, k) >= 0.0
                          && q.e.g.ay(j, i, k) >= 0.0)
    && NonnegativePower(q.e.soil.pow) && q.e.soil.ss >= 0.0
    && (forall j, i, k :: q.e.soil.at(j, i, k).vga >= 0.0 && q.e.soil.at(j, i, k).vgn > 1.0)
    && (forall j, i, k :: q.e.soil.ksx(j, i, k) >= 0.0 && q.e.soil.ksy(j, i, k) >= 0.0 && q.e.soil.ksz(j, i, k) >= 0.0)
    && (forall j, i, k :: q.c(j, i, k).wcn >= 0.0)
  }

  lemma NonnegTimes(a: real, b: real)
    requires a >= 0.0 && b >= 0.0
    ensures a * b >= 0.0
  {
  }

  lemma NonnegOver(a: real, b: real)
    requires a >= 0.0 && b > 0.0
    ensures a / b >= 0.0
  {
  }

  /** A product of non-negative leg factors. */
  lemma LegNonneg(k: real, dtg: real, r: real, v: real, cosine: real, d: real, a: real)
    requires k >= 0.0 && dtg > 0.0 && r >= 0.0 && v >= 0.0 && cosine >= 0.0 && d > 0.0 && a >= 0.0
    ensures k * dtg * r * v * cosine / Sq(d) * (a * d) >= 0.0
  {
    hide Sq;
    NonnegTimes(k, dtg);
    NonnegTimes(k * dtg, r);
    NonnegTimes(k * dtg * r, v);
    NonnegTimes(k * dtg * r * v, cosine);
    NonnegTimes(a, d);
    NonnegOver(k * dtg * r * v * cosine, Sq(d));
    NonnegTimes(k * dtg * r * v * cosine / Sq(d), a * d);
  }

  lemma VerticalNonneg(k: real, dtg: real, r: real, v: real, d: real, vol: real)
    requires k >= 0.0 && dtg > 0.0 && r >= 0.0 && v >= 0.0 && d > 0.0 && vol >= 0.0
    ensures k * dtg * r * v / d * vol >= 0.0
  {
    NonnegTimes(k, dtg);
    NonnegTimes(k * dtg, r);
    NonnegTimes(k * dtg * r, v);
    NonnegOver(k * dtg * r * v, d);
    NonnegTimes(k * dtg * r * v / d, vol);
  }

  lemma LegXNonneg(q: HeadState, j: int, i: int, k: int)
    requires Ready(q) && Physical(q) && q.c(j, i, k).kx >= 0.0
    ensures LegX(q, j, i, k) >= 0.0
  {
    hide Sq;
    LegNonneg(q.c(j, i, k).kx, q.dtg, q.e.ratios.rhoX(j, i, k), q.e.ratios.viscX(j, i, k), q.e.g.cosx(j, i, k),
              q.e.g.dx, q.e.g.ax(j, i, k));
  }

  lemma LegYNonneg(q: HeadState, j: int, i: int, k: int)
    requires Ready(q) && Physical(q) && q.c(j, i, k).ky >= 0.0
    ensures LegY(q, j, i, k) >= 0.0
  {
    hide Sq;
    LegNonneg(q.c(j, i, k).ky, q.dtg, q.e.ratios.rhoY(j, i, k), q.e.ratios.viscY(j, i, k), q.e.g.cosy(j, i, k),
              q.e.g.dy, q.e.g.ay(j, i, k));
  }

  lemma LegsNonneg(q: HeadState, j: int, i: int, k: int)
    requires Ready(q) && Conducts(q) && Physical(q)
    ensures IsX(q.e.g, j, i) && 0 <= k < q.e.g.box.nz ==> LegX(q, j, i, k) >= 0.0
    ensures IsY(q.e.g, j, i) && 0 <= k < q.e.g.box.nz ==> LegY(q, j, i, k) >= 0.0
  {
    hide LegX, LegY, Physical;
    if IsX(q.e.g, j, i) && 0 <= k < q.e.g.box.nz { LegXNonneg(q, j, i, k); }
    if IsY(q.e.g, j, i) && 0 <= k < q.e.g.box.nz { LegYNonneg(q, j, i, k); }
  }

  lemma LegZNonneg(q: HeadState, j: int, i: int, n: int, k: int, d: real)
    requires Ready(q) && q.f(j, i, n).k >= 0.0 && q.e.ratios.rhoZ(j, i, n) >= 0.0 && q.e.ratios.viscZ(j, i, n) >= 0.0
    requires q.e.g.dz(j, i, k) * d > 0.0 && q.e.g.Vol(j, i, k) > 0.0
    ensures LegZ(q, j, i, n, k, d) >= 0.0
  {
    hide Geometry.Vol;
    VerticalNonneg(q.f(j, i, n).k, q.dtg, q.e.ratios.rhoZ(j, i, n), q.e.ratios.viscZ(j, i, n), q.e.g.dz(j, i, k) * d,
                   q.e.g.Vol(j, i, k));
  }

  lemma VerticalLegsNonneg(q: HeadState, j: int, i: int, k: int)
    requires Ready(q) && Conducts(q) && Physical(q) && q.e.g.Active(j, i, k)
    ensures GZp(q, j, i, k) >= 0.0 && GZm(q, j, i, k) >= 0.0
  {
    hide LegZ, Geometry.Vol, DistanceBelow, DistanceAbove, Ready;
    VolumePositive(q, j, i, k);
    ReachesPositive(q, j, i, k);
    assert q.f(j, i, k).k >= 0.0 && q.f(j, i, k + 1).k >= 0.0;
    LegZNonneg(q, j, i, k + 1, k, DistanceBelow(q, j, i, k));
    LegZNonneg(q, j, i, k, k, DistanceAbove(q, j, i, k));
  }

  lemma ReachesPositive(q: HeadState, j: int, i: int, k: int)
    requires Ready(q) && q.e.g.Active(j, i, k)
    ensures q.e.g.dz(j, i, k) * DistanceBelow(q, j, i, k) > 0.0 && q.e.g.dz(j, i, k) * DistanceAbove(q, j, i, k) > 0.0
  {
    Spans(q, j, i, k);
    NonzeroProduct(q.e.g.dz(j, i, k), DistanceBelow(q, j, i, k));
    NonzeroProduct(q.e.g.dz(j, i, k), DistanceAbove(q, j, i, k));
  }

  lemma VolumePositive(q: HeadState, j: int, i: int, k: int)
    requires Ready(q) && q.e.g.Active(j, i, k)
    ensures q.e.g.Vol(j, i, k) > 0.0
  {
    Spans(q, j, i, k);
    NonzeroProduct(q.e.g.az, q.e.g.dz(j, i, k));
  }

  lemma StorageNonneg(q: HeadState, j: int, i: int, k: int)
    requires Ready(q) && Physical(q) && q.e.g.Active(j, i, k)
    ensures Storage(q, j, i, k) >= 0.0
  {
    Spans(q, j, i, k);
    var s := q.e.soil.at(j, i, k);
    assert s.vga >= 0.0 && s.vgn > 1.0 && q.c(j, i, k).wcn >= 0.0 && q.e.ratios.rho(j, i, k) >= 0.0;
    assert s.thetaR <= s.thetaS;
    CapacityNonneg(q.e.soil.pow, s, q.c(j, i, k).hn);
    NonnegTimes(q.e.soil.ss, q.c(j, i, k).wcn);
    NonnegOver(q.e.soil.ss * q.c(j, i, k).wcn, s.thetaS);
    hide CapacityFromHead, Physical;
    NonnegTimes(CapacityFromHead(q.e.soil.pow, s, q.c(j, i, k).hn) + q.e.soil.ss * q.c(j, i, k).wcn / s.thetaS,
                q.e.ratios.rho(j, i, k));
  }

  lemma OwnNonneg(q: HeadState, j: int, i: int, k: int)
    requires Ready(q) && Conducts(q) && Physical(q) && q.e.g.Active(j, i, k)
    ensures EdgeTerms(q, j, i, k) >= 0.0 && OwnTerm(q, j, i, k) >= 0.0
    ensures OwnTerm(q, j, i, k) > 0.0 <==> Storage(q, j, i, k) > 0.0 || EdgeTerms(q, j, i, k) > 0.0
  {
    hide LegX, LegY, GZp, GZm, Storage, Geometry.Vol, Conducts, Physical, EdgeTerms, Ready;
    EdgeTermsNonneg(q, j, i, k);
    StorageNonneg(q, j, i, k);
    VolumePositive(q, j, i, k);
    StoredSign(Storage(q, j, i, k), q.e.g.Vol(j, i, k));
  }

  lemma StoredSign(s: real, v: real)
    requires s >= 0.0 && v > 0.0
    ensures s * v >= 0.0 && (s * v > 0.0 <==> s > 0.0)
  {
    if s > 0.0 { NonzeroProduct(s, v); }
  }

  lemma EdgeTermsNonneg(q: HeadState, j: int, i: int, k: int)
    requires Ready(q) && Conducts(q) && Physical(q) && q.e.g.Active(j, i, k)
    ensures EdgeTerms(q, j, i, k) >= 0.0
  {
    LegsNonneg(q, j, i, k);
    LegsNonneg(q, j, i - 1, k);
    LegsNonneg(q, j - 1, i, k);
    VerticalLegsNonneg(q, j, i, k);
    hide LegX, LegY, GZp, GZm, Conducts, Physical, Ready;
  }

  lemma TermsAt(q: HeadState, j: int, i: int, k: int)
    requires Ready(q) && Conducts(q) && Physical(q)
    ensures S.TermsOk(Unknowns(q), HeadNet(q), j, i, k)
  {
    LegsNonneg(q, j, i, k);
    if q.e.g.Active(j, i, k) {
      OwnNonneg(q, j, i, k);
      VerticalLegsNonneg(q, j, i, k);
    }
    hide LegX, LegY, GZp, GZm, Storage, EdgeTerms, Geometry.Vol, Conducts, Physical, Ready, Geometry.Active;
  }

  /** The two cells of an interior vertical face see the same leg. */
  lemma SameVerticalLeg(q: HeadState, j: int, i: int, k: int)
    requires Ready(q) && q.e.g.Active(j, i, k) && q.e.g.Active(j, i, k + 1)
    ensures GZp(q, j, i, k) == GZm(q, j, i, k + 1)
  {
    Spans(q, j, i, k);
    Spans(q, j, i, k + 1);
    hide FaceTerm;
    var a := FaceTerm(q, j, i, k + 1);
    assert DistanceBelow(q, j, i, k) == DistanceAbove(q, j, i, k + 1);
    LayerCancels(a, q.e.g.dz(j, i, k), DistanceBelow(q, j, i, k), q.e.g.az);
    LayerCancels(a, q.e.g.dz(j, i, k + 1), DistanceBelow(q, j, i, k), q.e.g.az);
  }

  lemma LayerCancels(a: real, dz: real, d: real, az: real)
    requires dz > 0.0 && d > 0.0
    ensures dz * d != 0.0 && a / (dz * d) * (az * dz) == a / d * az
  {
    NonzeroProduct(dz, d);
    var x := a / (dz * d);
    assert x * (dz * d) == a;
    assert x * dz == a / d by {
      assert (x * dz) * d == a;
    }
    assert x * (az * dz) == (x * dz) * az;
  }

  /** A lateral interior face with an inactive side conducts nothing. */
  lemma SealedLeg(q: HeadState, j: int, i: int, k: int)
    requires Ready(q) && Conducts(q)
    ensures q.e.g.box.Has(j, i, k) && i < q.e.g.box.nx && q.e.g.Active(j, i, k) != q.e.g.Active(j, i + 1, k) ==>
      LegX(q, j, i, k) == 0.0
    ensures q.e.g.box.Has(j, i, k) && j < q.e.g.box.ny && q.e.g.Active(j, i, k) != q.e.g.Active(j + 1, i, k) ==>
      LegY(q, j, i, k) == 0.0
  {
    if q.e.g.box.Has(j, i, k) && i < q.e.g.box.nx && q.e.g.Active(j, i, k) != q.e.g.Active(j, i + 1, k) {
      assert q.c(j, i, k).kx == 0.0;
      ZeroLeg(q.dtg, q.e.ratios.rhoX(j, i, k), q.e.ratios.viscX(j, i, k), q.e.g.cosx(j, i, k), Sq(q.e.g.dx),
              q.e.g.ax(j, i, k) * q.e.g.dx);
    }
    if q.e.g.box.Has(j, i, k) && j < q.e.g.box.ny && q.e.g.Active(j, i, k) != q.e.g.Active(j + 1, i, k) {
      assert q.c(j, i, k).ky == 0.0;
      ZeroLeg(q.dtg, q.e.ratios.rhoY(j, i, k), q.e.ratios.viscY(j, i, k), q.e.g.cosy(j, i, k), Sq(q.e.g.dy),
              q.e.g.ay(j, i, k) * q.e.g.dy);
    }
  }

  lemma ZeroLeg(dtg: real, r: real, v: real, cosine: real, d: real, a: real)
    requires d != 0.0
    ensures 0.0 * dtg * r * v * cosine / d * a == 0.0
  {
  }

  /** The diagonal is storage, boundary legs and one leg per face toward another unknown. */
  lemma DiagonalIs(q: HeadState, j: int, i: int, k: int)
    requires Ready(q) && Conducts(q) && q.e.g.Active(j, i, k)
    ensures Diagonal(q, j, i, k)
            == OwnTerm(q, j, i, k) + JoinX(q, j, i - 1, k) + JoinX(q, j, i, k) + JoinY(q, j - 1, i, k)
              + JoinY(q, j, i, k)
               + JoinZ(q, j, i, k) + JoinZ(q, j, i, k + 1)
  {
    hide GZp, GZm, WithSides, SideTerms, JoinX, JoinY, JoinZ, Storage, Geometry.Vol, Conducts, Ready, IsTop,
      DirichletTop;
    SidesAre(q, j, i, k);
    ZShares(q, j, i, k);
  }

  lemma SidesAre(q: HeadState, j: int, i: int, k: int)
    requires Ready(q) && Conducts(q) && q.e.g.Active(j, i, k)
    ensures WithSides(q, j, i, k)
            == Storage(q, j, i, k) * q.e.g.Vol(j, i, k) + SideTerms(q, j, i, k)
               + JoinX(q, j, i - 1, k) + JoinX(q, j, i, k) + JoinY(q, j - 1, i, k) + JoinY(q, j, i, k)
  {
    hide GXp, GXm, GYp, GYm, JoinX, JoinY, Storage, Geometry.Vol, Conducts, Ready;
    XpShare(q, j, i, k);
    XmShare(q, j, i, k);
    YpShare(q, j, i, k);
    YmShare(q, j, i, k);
  }

  // Each leg stays in the diagonal, as a boundary leg or toward another unknown, or is taken back.

  lemma XpShare(q: HeadState, j: int, i: int, k: int)
    requires Ready(q) && Conducts(q) && q.e.g.Active(j, i, k)
    ensures if i == q.e.g.box.nx then JoinX(q, j, i, k) == 0.0 else JoinX(q, j, i, k) == GXp(q, j, i, k)
  {
    SealedLeg(q, j, i, k);
    hide LegX, Conducts, Ready;
  }

  lemma XmShare(q: HeadState, j: int, i: int, k: int)
    requires Ready(q) && Conducts(q) && q.e.g.Active(j, i, k)
    ensures if i == 1 then JoinX(q, j, i - 1, k) == 0.0 else JoinX(q, j, i - 1, k) == GXm(q, j, i, k)
  {
    SealedLeg(q, j, i - 1, k);
    hide LegX, Conducts, Ready;
  }

  lemma YpShare(q: HeadState, j: int, i: int, k: int)
    requires Ready(q) && Conducts(q) && q.e.g.Active(j, i, k)
    ensures if j == q.e.g.box.ny then JoinY(q, j, i, k) == 0.0 else JoinY(q, j, i, k) == GYp(q, j, i, k)
  {
    SealedLeg(q, j, i, k);
    hide LegY, Conducts, Ready;
  }

  lemma YmShare(q: HeadState, j: int, i: int, k: int)
    requires Ready(q) && Conducts(q) && q.e.g.Active(j, i, k)
    ensures if j == 1 then JoinY(q, j - 1, i, k) == 0.0 else JoinY(q, j - 1, i, k) == GYm(q, j, i, k)
  {
    SealedLeg(q, j - 1, i, k);
    hide LegY, Conducts, Ready;
  }

  lemma ZShares(q: HeadState, j: int, i: int, k: int)
    requires Ready(q) && q.e.g.Active(j, i, k)
    ensures JoinZ(q, j, i, k) == if IsTop(q, j, i, k) then 0.0 else GZm(q, j, i, k)
    ensures JoinZ(q, j, i, k + 1) == if k == q.e.g.box.nz - 1 then 0.0 else GZp(q, j, i, k)
  {
    if k + 1 < q.e.g.box.nz { SameVerticalLeg(q, j, i, k); }
    hide GZp, GZm, Ready;
  }

  lemma HeadRowIs(q: HeadState, j: int, i: int, k: int)
    requires Ready(q) && Conducts(q) && q.e.g.Active(j, i, k)
    ensures S.RowIs(Unknowns(q), HeadRow(q, j, i, k), HeadNet(q), j, i, k)
  {
    DiagonalIs(q, j, i, k);
    if q.e.g.Active(j, i, k + 1) { SameVerticalLeg(q, j, i, k); }
    hide LegX, LegY, GZp, GZm, Diagonal, OwnTerm, Conducts, Ready;
  }

  /** Every active cell's row is the assembled one. */
  ghost predicate Rows(q: HeadState, a: S.Matrix)
    requires Ready(q)
  {
    forall j, i, k :: q.e.g.Active(j, i, k) ==> a(j, i, k) == HeadRow(q, j, i, k)
  }

  lemma HeadFromNet(q: HeadState, a: S.Matrix)
    requires Ready(q) && Conducts(q) && Physical(q) && Rows(q, a)
    ensures S.FromNet(q.e.g.box, Unknowns(q), a, HeadNet(q))
  {
    forall j, i, k ensures S.TermsOk(Unknowns(q), HeadNet(q), j, i, k) {
      TermsAt(q, j, i, k);
      hide S.TermsOk;
    }
    forall j, i, k | Unknowns(q)(j, i, k) ensures S.RowIs(Unknowns(q), a(j, i, k), HeadNet(q), j, i, k) {
      HeadRowIs(q, j, i, k);
      hide S.RowIs, HeadRow, HeadNet;
    }
    hide HeadNet, S.TermsOk, S.RowIs, HeadRow;
  }

  /** Every nonempty set of active cells that no conducting face joins to the rest holds a cell with
      storage or a live boundary leg. */
  ghost predicate Anchored(q: HeadState)
    requires Ready(q)
  {
    forall s: S.Mask :: S.ClosedSet(Unknowns(q), HeadNet(q), s) && (exists j, i, k :: s(j, i, k)) ==>
      exists j, i, k :: s(j, i, k) && q.e.g.Active(j, i, k)
                        && (Storage(q, j, i, k) > 0.0 || EdgeTerms(q, j, i, k) > 0.0)
  }

  lemma AssembledRows(q: HeadState)
    requires Ready(q)
    ensures Rows(q, Assembled(q))
  {
    hide HeadRow;
  }

  /** Main result: the head matrix is symmetric and positive semidefinite for every admissible
      state, and positive definite exactly when every nonempty set of active cells that no
      conducting face joins to the rest holds a cell with storage or a live boundary leg. */
  lemma HeadMatrixDefinite(q: HeadState)
    requires Ready(q) && Conducts(q) && Physical(q)
    ensures S.Symmetric(q.e.g.box, Unknowns(q), Assembled(q)) && S.Semidefinite(q.e.g.box, Unknowns(q), Assembled(q))
    ensures S.Definite(q.e.g.box, Unknowns(q), Assembled(q)) <==> Anchored(q)
  {
    AssembledRows(q);
    hide *;
    FilledMatrixDefinite(q, Assembled(q));
  }

  /** The same of any matrix with the assembled rows. */
  lemma FilledMatrixDefinite(q: HeadState, a: S.Matrix)
    requires Ready(q) && Conducts(q) && Physical(q) && Rows(q, a)
    ensures S.Symmetric(q.e.g.box, Unknowns(q), a) && S.Semidefinite(q.e.g.box, Unknowns(q), a)
    ensures S.Definite(q.e.g.box, Unknowns(q), a) <==> Anchored(q)
  {
    hide S.FromNet, S.ClosedSet, HeadNet, S.Definite, S.Symmetric, S.Semidefinite, Storage, EdgeTerms, Conducts,
      Physical, Ready, Rows;
    HeadFromNet(q, a);
    S.NetIsSymmetric(q.e.g.box, Unknowns(q), a, HeadNet(q));
    S.DefiniteIffAnchored(q.e.g.box, Unknowns(q), a, HeadNet(q));
    forall j, i, k
      ensures HeadNet(q).own(j, i, k) > 0.0
              <==> q.e.g.Active(j, i, k) && (Storage(q, j, i, k) > 0.0 || EdgeTerms(q, j, i, k) > 0.0)
    {
      OwnSign(q, j, i, k);
    }
  }

  /** Main result: whatever the right-hand side, a solved head is the only one exactly when the state is
      anchored. */
  lemma HeadsUniqueIff(q: HeadState, rhs: Field3, x: Field3)
    requires Ready(q) && Conducts(q) && Physical(q) && S.Solution(Unknowns(q), Assembled(q), rhs, x)
    ensures S.OnlySolution(Unknowns(q), Assembled(q), rhs, x) <==> Anchored(q)
  {
    AssembledRows(q);
    hide *;
    HeadFromNet(q, Assembled(q));
    HeadMatrixDefinite(q);
    S.DefiniteIffAnchored(q.e.g.box, Unknowns(q), Assembled(q), HeadNet(q));
    S.UniqueIffAnchored(q.e.g.box, Unknowns(q), Assembled(q), HeadNet(q), rhs, x);
  }

  lemma OwnSign(q: HeadState, j: int, i: int, k: int)
    requires Ready(q) && Conducts(q) && Physical(q)
    ensures HeadNet(q).own(j, i, k) > 0.0 <==> q.e.g.Active(j, i, k)
                                               && (Storage(q, j, i, k) > 0.0 || EdgeTerms(q, j, i, k) > 0.0)
  {
    if q.e.g.Active(j, i, k) { OwnNonneg(q, j, i, k); }
    hide Storage, EdgeTerms;
  }

  /** Specific storage with moisture everywhere makes it definite. */
  lemma StorageMakesDefinite(q: HeadState)
    requires Ready(q) && Conducts(q) && Physical(q)
    requires forall j, i, k :: q.e.g.Active(j, i, k) ==> Storage(q, j, i, k) > 0.0
    ensures S.Definite(q.e.g.box, Unknowns(q), Assembled(q))
  {
    hide S.Definite, Assembled, HeadNet, Storage, EdgeTerms, Conducts, Physical, Ready;
    HeadMatrixDefinite(q);
    forall s: S.Mask | S.ClosedSet(Unknowns(q), HeadNet(q), s) && (exists j, i, k :: s(j, i, k))
      ensures exists j, i, k :: s(j, i, k) && q.e.g.Active(j, i, k)
                                && (Storage(q, j, i, k) > 0.0 || EdgeTerms(q, j, i, k) > 0.0)
    {
      var j, i, k :| s(j, i, k);
      assert Unknowns(q)(j, i, k);
    }
  }

  // ----- the passes' conductivities qualify

  lemma CellKNonneg(q: HeadState, ks: Field3, j: int, i: int, k: int)
    requires Ready(q) && Physical(q) && ks(j, i, k) >= 0.0
    ensures CellK(q.e, q.c, ks, j, i, k) >= 0.0
  {
    assert SoilOk(q.e.soil.at(j, i, k));
    ConductivityNonneg(q.e.soil.pow, q.e.soil.at(j, i, k), q.c(j, i, k).h, ks(j, i, k));
  }

  lemma LateralKNonneg(q: HeadState, j: int, i: int, k: int)
    requires Ready(q) && Physical(q)
    ensures KX(q.e, q.c, j, i, k) >= 0.0 && KY(q.e, q.c, j, i, k) >= 0.0
  {
    hide CellK, Ready;
    CellKNonneg(q, q.e.soil.ksx, j, i, k);
    CellKNonneg(q, q.e.soil.ksx, j, i + 1, k);
    CellKNonneg(q, q.e.soil.ksx, j, 1, k);
    CellKNonneg(q, q.e.soil.ksy, j, i, k);
    CellKNonneg(q, q.e.soil.ksy, j + 1, i, k);
    CellKNonneg(q, q.e.soil.ksy, 1, i, k);
  }

  lemma VerticalKNonneg(q: HeadState, j: int, i: int, k: int)
    requires Ready(q) && Physical(q)
    ensures KZ(q.e, q.c, q.s(j, i), j, i, k) >= 0.0
  {
    assert q.e.soil.ksz(j, i, k) >= 0.0;
    CellKNonneg(q, q.e.soil.ksz, j, i, k);
    CellKNonneg(q, q.e.soil.ksz, j, i, k - 1);
    hide CellK, Physical, Ready;
  }

  /** Whatever the heads, the passes leave conductivities the assembly can rely on. */
  lemma PassesConduct(q: HeadState)
    requires Ready(q) && Physical(q)
    requires forall j, i, k :: IsX(q.e.g, j, i) && 0 <= k < q.e.g.box.nz ==> q.c(j, i, k).kx == KX(q.e, q.c, j, i, k)
    requires forall j, i, k :: IsY(q.e.g, j, i) && 0 <= k < q.e.g.box.nz ==> q.c(j, i, k).ky == KY(q.e, q.c, j, i, k)
    requires forall j, i, k :: q.e.g.box.Has2(j, i) && 0 <= k <= q.e.g.box.nz ==>
               q.f(j, i, k).k == KZ(q.e, q.c, q.s(j, i), j, i, k)
    ensures Conducts(q)
  {
    forall j, i, k | 0 <= k < q.e.g.box.nz
      ensures (IsX(q.e.g, j, i) ==> q.c(j, i, k).kx >= 0.0) && (IsY(q.e.g, j, i) ==> q.c(j, i, k).ky >= 0.0)
    {
      LateralKNonneg(q, j, i, k);
      hide KX, KY;
    }
    forall j, i, k | q.e.g.box.Has2(j, i) && 0 <= k <= q.e.g.box.nz ensures q.f(j, i, k).k >= 0.0 {
      VerticalKNonneg(q, j, i, k);
      hide KZ;
    }
    forall j, i, k | q.e.g.box.Has(j, i, k) && i < q.e.g.box.nx && q.e.g.Active(j, i, k) != q.e.g.Active(j, i + 1, k)
      ensures q.c(j, i, k).kx == 0.0
    {
      assert q.c(j, i, k).kx == KX(q.e, q.c, j, i, k);
    }
    forall j, i, k | q.e.g.box.Has(j, i, k) && j < q.e.g.box.ny && q.e.g.Active(j, i, k) != q.e.g.Active(j + 1, i, k)
      ensures q.c(j, i, k).ky == 0.0
    {
      assert q.c(j, i, k).ky == KY(q.e, q.c, j, i, k);
    }
    hide KX, KY, KZ;
  }

  // ----- where definiteness fails

  /** A block without storage and without live boundary legs has a singular matrix. */
  lemma ConfinedIsSingular(q: HeadState)
    requires Ready(q) && Conducts(q) && Physical(q)
    requires exists j, i, k :: q.e.g.Active(j, i, k)
    requires forall j, i, k :: q.e.g.Active(j, i, k) ==> Storage(q, j, i, k) == 0.0 && EdgeTerms(q, j, i, k) == 0.0
    ensures !S.Definite(q.e.g.box, Unknowns(q), Assembled(q))
  {
    hide S.Definite, Assembled, HeadNet, Storage, EdgeTerms, Conducts, Physical, Ready;
    HeadMatrixDefinite(q);
    EverythingIsClosed(q);
    var j, i, k :| q.e.g.Active(j, i, k);
    assert Unknowns(q)(j, i, k);
  }

  lemma EverythingIsClosed(q: HeadState)
    requires Ready(q) && Conducts(q) && Physical(q)
    ensures S.ClosedSet(Unknowns(q), HeadNet(q), Unknowns(q))
  {
    hide Conducts, Physical, Ready, LegX, LegY, GZm, OwnTerm;
  }

  /** One saturated cell under a closed boundary, without specific storage. */
  ghost function ConfinedCell(): HeadState {
    var one, zero: Field3 := (j, i, k) => 1.0, (j, i, k) => 0.0;
    var none := Prescription(NoFlux, 0.0);
    HeadState(
      Setting(Geometry(Box(1, 1, 1), 1.0, 1.0, 1.0, (j, i) => 0, one, zero, one, one, zero, one, zero, one, WHOLE_RIM),
              Soil((x, y) => 1.0, (j, i, k) => VgSoil(1.0, 2.0, 0.5, 0.1, 0.0), one, one, one, 0.0),
              Options(true, false, false, false, false, 0.0),
              Boundary((j, i) => none, (j, i) => none, j => none, j => none, i => none, i => none),
              Ratios(one, one, one, one, one, one, one)),
      (j, i, k) => Cell(1.0, 1.0, 0.5, 0.5, 0.0, 0.0, 0.0, 0.0, 0.0, 0.0, 0.0, 0.0),
      (j, i, k) => Face(0.0, 0.0, 0.0), (j, i) => Pond(0.0, 0.0, 0.0, 0.0, 0.0, 0.0, 0.0, 0), 1.0)
  }

  lemma ConfinedHas()
    ensures forall j, i, k :: ConfinedCell().e.g.Active(j, i, k) <==> (j, i, k) == (1, 1, 0)
  {
    var g := ConfinedCell().e.g;
    assert g.box == Box(1, 1, 1) && g.ktop(1, 1) == 0;
    assert g.Active(1, 1, 0);
  }

  lemma ConfinedConducts()
    ensures Conducts(ConfinedCell()) && Physical(ConfinedCell())
  {
    hide CapacityFromHead, Geometry.Active;
  }

  lemma ConfinedIsReady()
    ensures Ready(ConfinedCell())
  {
    hide CapacityFromHead, Geometry.Active;
  }

  lemma ConfinedTerms()
    requires Ready(ConfinedCell()) && ConfinedCell().e.g.Active(1, 1, 0)
    ensures var q := ConfinedCell(); Storage(q, 1, 1, 0) == 0.0 && EdgeTerms(q, 1, 1, 0) == 0.0
  {
    var q := ConfinedCell();
    assert CapacityFromHead(q.e.soil.pow, q.e.soil.at(1, 1, 0), q.c(1, 1, 0).hn) == 0.0;
    assert LegX(q, 1, 1, 0) == 0.0 && LegX(q, 1, 0, 0) == 0.0 && LegY(q, 1, 1, 0) == 0.0 && LegY(q, 0, 1, 0) == 0.0;
    hide Ready, LegX, LegY, LegZ, CapacityFromHead;
  }

  /** The head matrix is not always positive definite. */
  lemma ConfinedCellIsSingular()
    ensures var q := ConfinedCell();
      && Ready(q) && Conducts(q) && Physical(q)
      && !S.Definite(q.e.g.box, Unknowns(q), Assembled(q))
  {
    hide *;
    ConfinedHas();
    ConfinedConducts();
    ConfinedIsReady();
    ConfinedTerms();
    ConfinedIsSingular(ConfinedCell());
  }
}
