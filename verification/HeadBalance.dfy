/** The right-hand side of the head system (src/gw/Predictor.cpp:443-546), and what its exact
    solutions conserve. */
module HeadBalance {
  import opened Sums
  import opened Fields
  import opened Telescoping
  import opened TopExchange
  import opened SendWalk
  import opened Corrector
  import opened HeadSystem
  import S = Stencil

  // ----- the terms as the kernel computes them

  /** Gravity across vertical face n as cell k books it. */
  function GravityTerm(q: HeadState, j: int, i: int, n: int, k: int): real
    requires q.e.g.dz(j, i, k) != 0.0
  {
    q.dtg * q.e.g.Vol(j, i, k) * q.f(j, i, n).k * q.e.ratios.rhoZ(j, i, n) * q.e.ratios.rhoZ(j, i,
        n) * q.e.ratios.viscZ(j, i, n)
    / q.e.g.dz(j, i, k)
  }

  /** A prescribed flux qv through end face n, with the gravity it replaces. */
  function EndFlux(q: HeadState, j: int, i: int, n: int, k: int, qv: real): real
    requires q.e.g.dz(j, i, k) != 0.0
  {
    q.dtg * q.e.ratios.rhoZ(j, i, n) * q.e.g.Vol(j, i, k)
    * (qv + q.f(j, i, n).k * q.e.ratios.rhoZ(j, i, n) * q.e.ratios.viscZ(j, i, n)) / q.e.g.dz(j, i, k)
  }

  /** The terrain term of a lateral face, toward the cell before it; the cell after it books the
      opposite sign. */
  function Slope(terrain: bool, before: real, after: real, dtg: real, area: real, conductivity: real,
                 sine: real): real {
    if !terrain then 0.0 else (if after > before then 1.0 else -1.0) * dtg * area * conductivity * sine
  }
  function SlopeBack(terrain: bool, before: real, after: real, dtg: real, area: real, conductivity: real,
                     sine: real): real {
    if !terrain then 0.0 else (if after > before then -1.0 else 1.0) * dtg * area * conductivity * sine
  }

  function SlopeX(q: HeadState, terrain: bool, j: int, i: int, k: int): real {
    Slope(terrain, q.e.g.bottom(j, i, k), q.e.g.bottom(j, i + 1, k), q.dtg, q.e.g.ax(j, i, k), q.c(j, i, k).kx,
          q.e.g.sinx(j, i, k))
  }
  function SlopeY(q: HeadState, terrain: bool, j: int, i: int, k: int): real {
    Slope(terrain, q.e.g.bottom(j, i, k), q.e.g.bottom(j + 1, i, k), q.dtg, q.e.g.ay(j, i, k), q.c(j, i, k).ky,
          q.e.g.siny(j, i, k))
  }
  function SlopeXBack(q: HeadState, terrain: bool, j: int, i: int, k: int): real {
    SlopeBack(terrain, q.e.g.bottom(j, i - 1, k), q.e.g.bottom(j, i, k), q.dtg, q.e.g.ax(j, i - 1, k),
              q.c(j, i - 1, k).kx, q.e.g.sinx(j, i - 1, k))
  }
  function SlopeYBack(q: HeadState, terrain: bool, j: int, i: int, k: int): real {
    SlopeBack(terrain, q.e.g.bottom(j - 1, i, k), q.e.g.bottom(j, i, k), q.dtg, q.e.g.ay(j - 1, i, k),
              q.c(j - 1, i, k).ky, q.e.g.siny(j - 1, i, k))
  }

  /** A side edge: a prescribed flux, or the leg times the ghost head. */
  function SideRhs(p: Prescription, leg: real, ghostHead: real, ratio: real, area: real, dtg: real): real {
    if p.code == Flux then ratio * area * p.value * dtg else Product(leg, ghostHead)
  }

  function EastRhs(q: HeadState, j: int, i: int, k: int): real
    requires q.e.g.dx != 0.0
  {
    if i == q.e.g.box.nx
    then SideRhs(q.e.bc.east(j), GXp(q, j, i, k), q.c(j, i + 1, k).hn, q.e.ratios.rhoX(j, i, k), q.e.g.ax(j, i, k),
                 q.dtg) else 0.0
  }
  function WestRhs(q: HeadState, j: int, i: int, k: int): real
    requires q.e.g.dx != 0.0
  {
    if i == 1
    then SideRhs(q.e.bc.west(j), GXm(q, j, i, k), q.c(j, i - 1, k).hn, q.e.ratios.rhoX(j, i - 1, k),
                 q.e.g.ax(j, i - 1, k), q.dtg) else 0.0
  }
  function NorthRhs(q: HeadState, j: int, i: int, k: int): real
    requires q.e.g.dy != 0.0
  {
    if j == q.e.g.box.ny
    then SideRhs(q.e.bc.north(i), GYp(q, j, i, k), q.c(j + 1, i, k).hn, q.e.ratios.rhoY(j, i, k), q.e.g.ay(j, i, k),
                 q.dtg) else 0.0
  }
  function SouthRhs(q: HeadState, j: int, i: int, k: int): real
    requires q.e.g.dy != 0.0
  {
    if j == 1
    then SideRhs(q.e.bc.south(i), GYm(q, j, i, k), q.c(j - 1, i, k).hn, q.e.ratios.rhoY(j - 1, i, k),
                 q.e.g.ay(j - 1, i, k), q.dtg) else 0.0
  }

  function BottomRhs(q: HeadState, j: int, i: int, k: int): real
    requires Ready(q) && q.e.g.Active(j, i, k)
  {
    Spans(q, j, i, k);
    var p := q.e.bc.bottom(j, i);
    if k != q.e.g.box.nz - 1 then 0.0
    else if p.code == Flux then EndFlux(q, j, i, q.e.g.box.nz, k, p.value)
    else if p.code == Head then Product(GZp(q, j, i, k), p.value)
    else 0.0
  }

  /** The flux a top face prescribes: what is left of the surface water, bounded by the pore room,
      under a supply-limited surface; the guarded condition under a dry one. */
  function TopPrescribed(q: HeadState, j: int, i: int, k: int): real
    requires q.dtg != 0.0
  {
    var p, at, x := q.e.bc.top(j, i), q.e.soil.at(j, i, k), q.c(j, i, k);
    if !q.e.opt.coupled then p.value
    else if q.s(j, i).mode == 2
      then -Min(q.s(j, i).avail, Max0((0.9999 * at.thetaS - x.wcn) * q.e.g.dz(j, i, k))) / q.dtg
    else if p.code == Flux && ((p.value > 0.0 && x.wcn < at.thetaS) || (p.value < 0.0 && x.wcn > at.thetaR))
      then p.value
    else 0.0
  }

  /** Whether the top face carries a prescribed flux, and the head it sees when it is a head face. */
  predicate FluxTop(q: HeadState, j: int, i: int) {
    if q.e.opt.coupled then q.s(j, i).mode != 1 else q.e.bc.top(j, i).code == Flux
  }
  function TopHead(q: HeadState, j: int, i: int): real {
    if q.e.opt.coupled then q.s(j, i).dept else q.e.bc.top(j, i).value
  }

  function TopRhs(q: HeadState, j: int, i: int, k: int): real
    requires Ready(q) && q.e.g.Active(j, i, k)
  {
    Spans(q, j, i, k);
    if !IsTop(q, j, i, k) then 0.0
    else if DirichletTop(q, j, i) then Product(GZm(q, j, i, k), TopHead(q, j, i))
    else if FluxTop(q, j, i) then -EndFlux(q, j, i, k, k, TopPrescribed(q, j, i, k))
    else 0.0
  }

  /** The storage of the step-start head. */
  function StoredTerm(q: HeadState, j: int, i: int, k: int): real
    requires Ready(q) && q.e.g.Active(j, i, k)
  {
    Storage(q, j, i, k) * q.c(j, i, k).hn * q.e.g.Vol(j, i, k)
  }

  /** One right-hand side. */
  function HeadRhs(q: HeadState, terrain: bool, j: int, i: int, k: int): real
    requires Ready(q) && q.e.g.Active(j, i, k)
  {
    Spans(q, j, i, k);
    var vertical := StoredTerm(q, j, i, k) - GravityTerm(q, j, i, k + 1, k) + GravityTerm(q, j, i, k, k);
    var sloped := vertical + SlopeX(q, terrain, j, i, k) + SlopeXBack(q, terrain, j, i, k)
                  + SlopeY(q, terrain, j, i, k) + SlopeYBack(q, terrain, j, i, k);
    sloped + EastRhs(q, j, i, k) + WestRhs(q, j, i, k) + NorthRhs(q, j, i, k) + SouthRhs(q, j, i, k)
    + BottomRhs(q, j, i, k) + TopRhs(q, j, i, k)
  }

  // ----- what crosses the boundary

  /** Gravity across a vertical face, the same for both its cells. */
  ghost function Gravity(q: HeadState, j: int, i: int, n: int): real {
    q.e.g.az * (q.dtg * q.f(j, i, n).k * q.e.ratios.rhoZ(j, i, n) * q.e.ratios.rhoZ(j, i, n) * q.e.ratios.viscZ(j, i,
        n))
  }

  /** The volume a prescribed flux brings through end face n. */
  ghost function Prescribes(q: HeadState, j: int, i: int, n: int, qv: real): real {
    q.e.g.az * (q.dtg * q.e.ratios.rhoZ(j, i, n) * qv)
  }

  /** A side edge's inflow for cell head x: the prescribed flux, or conduction from the ghost head. */
  ghost function SideInflow(p: Prescription, leg: real, ghostHead: real, ratio: real, area: real, dtg: real,
                            x: real): real {
    if p.code == Flux then ratio * area * p.value * dtg else Product(leg, ghostHead - x)
  }

  ghost function EastInflow(q: HeadState, x: real, j: int, i: int, k: int): real
    requires q.e.g.dx != 0.0
  {
    if i == q.e.g.box.nx
    then SideInflow(q.e.bc.east(j), GXp(q, j, i, k), q.c(j, i + 1, k).hn, q.e.ratios.rhoX(j, i, k), q.e.g.ax(j, i, k),
                    q.dtg, x) else 0.0
  }
  ghost function WestInflow(q: HeadState, x: real, j: int, i: int, k: int): real
    requires q.e.g.dx != 0.0
  {
    if i == 1
    then SideInflow(q.e.bc.west(j), GXm(q, j, i, k), q.c(j, i - 1, k).hn, q.e.ratios.rhoX(j, i - 1, k),
                    q.e.g.ax(j, i - 1, k), q.dtg, x) else 0.0
  }
  ghost function NorthInflow(q: HeadState, x: real, j: int, i: int, k: int): real
    requires q.e.g.dy != 0.0
  {
    if j == q.e.g.box.ny
    then SideInflow(q.e.bc.north(i), GYp(q, j, i, k), q.c(j + 1, i, k).hn, q.e.ratios.rhoY(j, i, k), q.e.g.ay(j, i, k),
                    q.dtg, x) else 0.0
  }
  ghost function SouthInflow(q: HeadState, x: real, j: int, i: int, k: int): real
    requires q.e.g.dy != 0.0
  {
    if j == 1
    then SideInflow(q.e.bc.south(i), GYm(q, j, i, k), q.c(j - 1, i, k).hn, q.e.ratios.rhoY(j - 1, i, k),
                    q.e.g.ay(j - 1, i, k), q.dtg, x) else 0.0
  }

  /** The slope terms of a cell's faces on the sides of the domain. */
  ghost function OuterSides(q: HeadState, terrain: bool, j: int, i: int, k: int): real {
    (if i == q.e.g.box.nx then SlopeX(q, terrain, j, i, k) else 0.0)
      - (if i == 1 then SlopeX(q, terrain, j, i - 1, k) else 0.0)
    + (if j == q.e.g.box.ny then SlopeY(q, terrain, j, i, k) else 0.0)
      - (if j == 1 then SlopeY(q, terrain, j - 1, i, k) else 0.0)
  }

  /** What comes in through those faces, slope terms included. */
  ghost function SidesInflow(q: HeadState, terrain: bool, x: Field3, j: int, i: int, k: int): real
    requires q.e.g.dx != 0.0 && q.e.g.dy != 0.0
  {
    EastInflow(q, x(j, i, k), j, i, k) + WestInflow(q, x(j, i, k), j, i, k) + NorthInflow(q, x(j, i, k), j, i, k)
    + SouthInflow(q, x(j, i, k), j, i, k) + OuterSides(q, terrain, j, i, k)
  }

  /** What comes in through the bottom: the prescribed flux; else gravity leaves, and a prescribed
      head conducts. */
  ghost function BottomInflow(q: HeadState, x: Field3, j: int, i: int, k: int): real
    requires Ready(q) && q.e.g.Active(j, i, k)
  {
    var p, n := q.e.bc.bottom(j, i), q.e.g.box.nz;
    if k != n - 1 then 0.0
    else if p.code == Flux then Prescribes(q, j, i, n, p.value)
    else -Gravity(q, j, i, n) + if p.code == Head then Product(GZp(q, j, i, k), p.value - x(j, i, k)) else 0.0
  }

  /** What comes in through a column's top. */
  ghost function TopInflow(q: HeadState, x: Field3, j: int, i: int, k: int): real
    requires Ready(q) && q.e.g.Active(j, i, k)
  {
    if !IsTop(q, j, i, k) then 0.0
    else if DirichletTop(q, j, i) then Gravity(q, j, i, k) + Product(GZm(q, j, i, k), TopHead(q, j, i) - x(j, i, k))
    else if FluxTop(q, j, i) then -Prescribes(q, j, i, k, TopPrescribed(q, j, i, k))
    else Gravity(q, j, i, k)
  }

  ghost function InflowAt(q: HeadState, terrain: bool, x: Field3, j: int, i: int, k: int): real
    requires Ready(q)
  {
    if q.e.g.Active(j, i, k) then
      Spans(q, j, i, k);
      SidesInflow(q, terrain, x, j, i, k) + BottomInflow(q, x, j, i, k) + TopInflow(q, x, j, i, k)
    else 0.0
  }

  /** A cell's storage coefficient times its volume. */
  function Stores(q: HeadState, j: int, i: int, k: int): real
    requires Ready(q) && q.e.g.Active(j, i, k)
  {
    Storage(q, j, i, k) * q.e.g.Vol(j, i, k)
  }

  /** The volume a cell's head change stores. */
  ghost function RiseAt(q: HeadState, x: Field3, j: int, i: int, k: int): real
    requires Ready(q)
  {
    if q.e.g.Active(j, i, k) then Product(Stores(q, j, i, k), x(j, i, k) - q.c(j, i, k).hn) else 0.0
  }

  ghost function Inflows(q: HeadState, terrain: bool, x: Field3): (r: Field3)
    requires Ready(q)
    ensures forall j, i, k :: r(j, i, k) == InflowAt(q, terrain, x, j, i, k)
  {
    (j, i, k) => InflowAt(q, terrain, x, j, i, k)
  }
  ghost function Rises(q: HeadState, x: Field3): (r: Field3)
    requires Ready(q)
    ensures forall j, i, k :: r(j, i, k) == RiseAt(q, x, j, i, k)
  {
    (j, i, k) => RiseAt(q, x, j, i, k)
  }
  ghost function RhsField(q: HeadState, terrain: bool): (r: Field3)
    requires Ready(q)
    ensures forall j, i, k :: r(j, i, k) == if q.e.g.Active(j, i, k) then HeadRhs(q, terrain, j, i, k) else 0.0
  {
    (j, i, k) => if q.e.g.Active(j, i, k) then HeadRhs(q, terrain, j, i, k) else 0.0
  }
  ghost function SlopesX(q: HeadState, terrain: bool): (r: Field3)
    ensures forall j, i, k :: r(j, i, k) == SlopeX(q, terrain, j, i, k)
  {
    (j, i, k) => SlopeX(q, terrain, j, i, k)
  }
  ghost function SlopesY(q: HeadState, terrain: bool): (r: Field3)
    ensures forall j, i, k :: r(j, i, k) == SlopeY(q, terrain, j, i, k)
  {
    (j, i, k) => SlopeY(q, terrain, j, i, k)
  }
  ghost function Sinking(q: HeadState): (r: Field3)
    ensures forall j, i, k :: r(j, i, k) == -Gravity(q, j, i, k)
  {
    (j, i, k) => -Gravity(q, j, i, k)
  }

  // ----- one cell

  lemma GravityIs(q: HeadState, j: int, i: int, n: int, k: int)
    requires q.e.g.dz(j, i, k) != 0.0
    ensures GravityTerm(q, j, i, n, k) == Gravity(q, j, i, n)
  {
    var r := q.e.ratios.rhoZ(j, i, n);
    Cancel6(q.dtg, q.e.g.az, q.e.g.dz(j, i, k), q.f(j, i, n).k, r, r, q.e.ratios.viscZ(j, i, n));
  }

  lemma Cancel6(t: real, a: real, d: real, k: real, r: real, s: real, v: real)
    requires d != 0.0
    ensures t * (a * d) * k * r * s * v / d == a * (t * k * r * s * v)
  {
    var w := a * (t * k * r * s * v);
    assert t * (a * d) * k * r * s * v == w * d;
  }

  lemma EndFluxIs(q: HeadState, j: int, i: int, n: int, k: int, qv: real)
    requires q.e.g.dz(j, i, k) != 0.0
    ensures EndFlux(q, j, i, n, k, qv) == Prescribes(q, j, i, n, qv) + Gravity(q, j, i, n)
  {
    Cancel4(q.dtg, q.e.ratios.rhoZ(j, i, n), q.e.g.az, q.e.g.dz(j, i, k), qv,
            q.f(j, i, n).k * q.e.ratios.rhoZ(j, i, n) * q.e.ratios.viscZ(j, i, n));
    Reorder(q.e.g.az, q.dtg, q.e.ratios.rhoZ(j, i, n), q.f(j, i, n).k, q.e.ratios.viscZ(j, i, n));
  }

  lemma Cancel4(t: real, r: real, a: real, d: real, x: real, y: real)
    requires d != 0.0
    ensures t * r * (a * d) * (x + y) / d == a * (t * r * x) + a * (t * r * y)
  {
    var w := a * (t * r * (x + y));
    assert t * r * (a * d) * (x + y) == w * d;
    assert t * r * (x + y) == t * r * x + t * r * y;
  }

  lemma Reorder(a: real, t: real, r: real, k: real, v: real)
    ensures a * (t * r * (k * r * v)) == a * (t * k * r * r * v)
  {
  }

  lemma SlopeFlips(terrain: bool, before: real, after: real, dtg: real, area: real, conductivity: real, sine: real)
    ensures SlopeBack(terrain, before, after, dtg, area, conductivity, sine)
            == -Slope(terrain, before, after, dtg, area, conductivity, sine)
    ensures conductivity == 0.0 ==> Slope(terrain, before, after, dtg, area, conductivity, sine) == 0.0
  {
  }

  lemma ProductMinus(a: real, b: real, c: real)
    ensures Product(a, b - c) == Product(a, b) - Product(a, c)
  {
  }

  /** A boundary leg taken off its right-hand side is the conduction through it. */
  lemma SideShare(p: Prescription, leg: real, ghostHead: real, ratio: real, area: real, dtg: real, x: real)
    ensures SideRhs(p, leg, ghostHead, ratio, area, dtg) - Product(if p.code != Flux then leg else 0.0, x)
            == SideInflow(p, leg, ghostHead, ratio, area, dtg, x)
  {
    ProductMinus(leg, ghostHead, x);
    ProductZero(x);
    hide Product;
  }

  lemma ProductZero(x: real)
    ensures Product(0.0, x) == 0.0
  {
  }

  lemma ProductSum4(a: real, b: real, c: real, d: real, x: real)
    ensures Product(a + b + c + d, x) == Product(a, x) + Product(b, x) + Product(c, x) + Product(d, x)
  {
  }

  lemma ProductSum2(a: real, b: real, x: real)
    ensures Product(a + b, x) == Product(a, x) + Product(b, x)
  {
  }

  /** The side faces of a cell: right-hand sides less their legs. */
  lemma SidesShare(q: HeadState, x: real, j: int, i: int, k: int)
    requires Ready(q) && q.e.g.Active(j, i, k) && q.e.g.dx != 0.0 && q.e.g.dy != 0.0
    ensures EastRhs(q, j, i, k) + WestRhs(q, j, i, k) + NorthRhs(q, j, i, k) + SouthRhs(q, j, i, k)
            - Product(SideTerms(q, j, i, k), x)
            == EastInflow(q, x, j, i, k) + WestInflow(q, x, j, i, k) + NorthInflow(q, x, j, i, k)
              + SouthInflow(q, x, j, i, k)
  {
    hide GXp, GXm, GYp, GYm, Product;
    LateralShares(q, x, j, i, k);
    var e, w := if i == q.e.g.box.nx && q.e.bc.east(j).code != Flux then GXp(q, j, i, k) else 0.0,
                if i == 1 && q.e.bc.west(j).code != Flux then GXm(q, j, i, k) else 0.0;
    var n, s := if j == q.e.g.box.ny && q.e.bc.north(i).code != Flux then GYp(q, j, i, k) else 0.0,
                if j == 1 && q.e.bc.south(i).code != Flux then GYm(q, j, i, k) else 0.0;
    assert SideTerms(q, j, i, k) == e + w + n + s;
    hide EastRhs, WestRhs, NorthRhs, SouthRhs, EastInflow, WestInflow, NorthInflow, SouthInflow, SideTerms, Ready;
    ProductSum4(e, w, n, s, x);
  }

  lemma LateralShares(q: HeadState, x: real, j: int, i: int, k: int)
    requires q.e.g.dx != 0.0 && q.e.g.dy != 0.0
    ensures EastRhs(q, j, i, k) - Product(if i == q.e.g.box.nx && q.e.bc.east(j).code != Flux then GXp(q, j, i, k)
                                          else 0.0, x) == EastInflow(q, x, j, i, k)
    ensures WestRhs(q, j, i, k) - Product(if i == 1 && q.e.bc.west(j).code != Flux then GXm(q, j, i, k) else 0.0, x)
            == WestInflow(q, x, j, i, k)
    ensures NorthRhs(q, j, i, k) - Product(if j == q.e.g.box.ny && q.e.bc.north(i).code != Flux then GYp(q, j, i, k)
                                           else 0.0, x) == NorthInflow(q, x, j, i, k)
    ensures SouthRhs(q, j, i, k) - Product(if j == 1 && q.e.bc.south(i).code != Flux then GYm(q, j, i, k) else 0.0, x)
            == SouthInflow(q, x, j, i, k)
  {
    ProductZero(x);
    SideShare(q.e.bc.east(j), GXp(q, j, i, k), q.c(j, i + 1, k).hn, q.e.ratios.rhoX(j, i, k), q.e.g.ax(j, i, k), q.dtg,
              x);
    SideShare(q.e.bc.west(j), GXm(q, j, i, k), q.c(j, i - 1, k).hn, q.e.ratios.rhoX(j, i - 1, k),
              q.e.g.ax(j, i - 1, k), q.dtg, x);
    SideShare(q.e.bc.north(i), GYp(q, j, i, k), q.c(j + 1, i, k).hn, q.e.ratios.rhoY(j, i, k), q.e.g.ay(j, i, k),
              q.dtg, x);
    SideShare(q.e.bc.south(i), GYm(q, j, i, k), q.c(j - 1, i, k).hn, q.e.ratios.rhoY(j - 1, i, k),
              q.e.g.ay(j - 1, i, k), q.dtg, x);
    hide GXp, GXm, GYp, GYm, Product, SideRhs, SideInflow;
  }

  /** Its end faces. */
  lemma EndsShare(q: HeadState, x: Field3, j: int, i: int, k: int)
    requires Ready(q) && q.e.g.Active(j, i, k)
    ensures BottomRhs(q, j, i, k) + TopRhs(q, j, i, k) - Product(EndTerms(q, j, i, k), x(j, i, k))
            - (if k == q.e.g.box.nz - 1 then Gravity(q, j, i, k + 1) else 0.0)
              + (if IsTop(q, j, i, k) then Gravity(q, j, i, k) else 0.0)
            == BottomInflow(q, x, j, i, k) + TopInflow(q, x, j, i, k)
  {
    Spans(q, j, i, k);
    var v := x(j, i, k);
    EndFluxIs(q, j, i, q.e.g.box.nz, k, q.e.bc.bottom(j, i).value);
    EndFluxIs(q, j, i, k, k, TopPrescribed(q, j, i, k));
    ProductMinus(GZp(q, j, i, k), q.e.bc.bottom(j, i).value, v);
    ProductMinus(GZm(q, j, i, k), TopHead(q, j, i), v);
    ProductZero(v);
    ProductSum2(if k == q.e.g.box.nz - 1 && q.e.bc.bottom(j, i).code == Head then GZp(q, j, i, k) else 0.0,
                if IsTop(q, j, i, k) && DirichletTop(q, j, i) then GZm(q, j, i, k) else 0.0, v);
    hide GZp, GZm, Gravity, Prescribes, EndFlux, TopPrescribed, TopHead, Product, Ready, IsTop, DirichletTop, FluxTop;
  }

  /** The right-hand side of a cell: its stored head, the net of slopes and gravity, its boundary. */
  lemma RhsIs(q: HeadState, terrain: bool, j: int, i: int, k: int)
    requires Ready(q) && q.e.g.Active(j, i, k)
    ensures q.e.g.dx != 0.0 && q.e.g.dy != 0.0
    ensures HeadRhs(q, terrain, j, i, k)
            == Product(Stores(q, j, i, k), q.c(j, i, k).hn)
               + (SlopeX(q, terrain, j, i, k) - SlopeX(q, terrain, j, i - 1, k))
                 + (SlopeY(q, terrain, j, i, k) - SlopeY(q, terrain, j - 1, i, k))
               + (Gravity(q, j, i, k) - Gravity(q, j, i, k + 1))
               + EastRhs(q, j, i, k) + WestRhs(q, j, i, k) + NorthRhs(q, j, i, k) + SouthRhs(q, j, i, k)
               + BottomRhs(q, j, i, k) + TopRhs(q, j, i, k)
  {
    Spans(q, j, i, k);
    GravityIs(q, j, i, k + 1, k);
    GravityIs(q, j, i, k, k);
    SlopesFlip(q, terrain, j, i, k);
    StoredHead(q, j, i, k);
    hide Storage, StoredTerm, Stores, Gravity, GravityTerm, SlopeX, SlopeY, SlopeXBack, SlopeYBack, EastRhs, WestRhs,
      NorthRhs, SouthRhs, BottomRhs, TopRhs, Ready, Product;
  }

  lemma SlopesFlip(q: HeadState, terrain: bool, j: int, i: int, k: int)
    ensures SlopeXBack(q, terrain, j, i, k) == -SlopeX(q, terrain, j, i - 1, k)
    ensures SlopeYBack(q, terrain, j, i, k) == -SlopeY(q, terrain, j - 1, i, k)
  {
    SlopeFlips(terrain, q.e.g.bottom(j, i - 1, k), q.e.g.bottom(j, i, k), q.dtg, q.e.g.ax(j, i - 1, k),
               q.c(j, i - 1, k).kx, q.e.g.sinx(j, i - 1, k));
    SlopeFlips(terrain, q.e.g.bottom(j - 1, i, k), q.e.g.bottom(j, i, k), q.dtg, q.e.g.ay(j - 1, i, k),
               q.c(j - 1, i, k).ky, q.e.g.siny(j - 1, i, k));
    hide Slope, SlopeBack;
  }

  lemma StoredHead(q: HeadState, j: int, i: int, k: int)
    requires Ready(q) && q.e.g.Active(j, i, k)
    ensures StoredTerm(q, j, i, k) == Product(Stores(q, j, i, k), q.c(j, i, k).hn)
  {
    Swapped3(Storage(q, j, i, k), q.c(j, i, k).hn, q.e.g.Vol(j, i, k));
    hide Storage, Product;
  }

  lemma Swapped3(s: real, h: real, v: real)
    ensures s * h * v == Product(s * v, h)
  {
  }

  /** No slope term crosses between an active and an inactive cell. */
  lemma SlopesSealed(q: HeadState, terrain: bool, j: int, i: int, k: int)
    requires Ready(q) && Conducts(q) && q.e.g.Active(j, i, k)
    ensures OuterX(q.e.g.box, Unknowns(q), SlopesX(q, terrain), j, i, k)
            + OuterY(q.e.g.box, Unknowns(q), SlopesY(q, terrain), j, i, k)
            == OuterSides(q, terrain, j, i, k)
  {
    XSealed(q, terrain, j, i, k);
    YSealed(q, terrain, j, i, k);
    hide SlopeX, SlopeY, Conducts, Ready, OuterX, OuterY;
  }

  lemma XSealed(q: HeadState, terrain: bool, j: int, i: int, k: int)
    requires Conducts(q) && q.e.g.Active(j, i, k)
    ensures OuterX(q.e.g.box, Unknowns(q), SlopesX(q, terrain), j, i, k)
            == (if i == q.e.g.box.nx then SlopeX(q, terrain, j, i, k) else 0.0)
              - (if i == 1 then SlopeX(q, terrain, j, i - 1, k) else 0.0)
  {
    hide SlopeX, Conducts;
    if i < q.e.g.box.nx && !q.e.g.Active(j, i + 1, k) { NoSlopeX(q, terrain, j, i, k); }
    if i > 1 && !q.e.g.Active(j, i - 1, k) { NoSlopeX(q, terrain, j, i - 1, k); }
  }

  lemma YSealed(q: HeadState, terrain: bool, j: int, i: int, k: int)
    requires Conducts(q) && q.e.g.Active(j, i, k)
    ensures OuterY(q.e.g.box, Unknowns(q), SlopesY(q, terrain), j, i, k)
            == (if j == q.e.g.box.ny then SlopeY(q, terrain, j, i, k) else 0.0)
              - (if j == 1 then SlopeY(q, terrain, j - 1, i, k) else 0.0)
  {
    hide SlopeY, Conducts;
    if j < q.e.g.box.ny && !q.e.g.Active(j + 1, i, k) { NoSlopeY(q, terrain, j, i, k); }
    if j > 1 && !q.e.g.Active(j - 1, i, k) { NoSlopeY(q, terrain, j - 1, i, k); }
  }

  lemma NoSlopeX(q: HeadState, terrain: bool, j: int, i: int, k: int)
    requires Conducts(q) && q.e.g.box.Has(j, i, k) && i < q.e.g.box.nx
             && q.e.g.Active(j, i, k) != q.e.g.Active(j, i + 1, k)
    ensures SlopeX(q, terrain, j, i, k) == 0.0
  {
    SlopeFlips(terrain, q.e.g.bottom(j, i, k), q.e.g.bottom(j, i + 1, k), q.dtg, q.e.g.ax(j, i, k), q.c(j, i, k).kx,
               q.e.g.sinx(j, i, k));
    hide Slope, SlopeBack;
  }

  lemma NoSlopeY(q: HeadState, terrain: bool, j: int, i: int, k: int)
    requires Conducts(q) && q.e.g.box.Has(j, i, k) && j < q.e.g.box.ny
             && q.e.g.Active(j, i, k) != q.e.g.Active(j + 1, i, k)
    ensures SlopeY(q, terrain, j, i, k) == 0.0
  {
    SlopeFlips(terrain, q.e.g.bottom(j, i, k), q.e.g.bottom(j + 1, i, k), q.dtg, q.e.g.ay(j, i, k), q.c(j, i, k).ky,
               q.e.g.siny(j, i, k));
    hide Slope, SlopeBack;
  }

  /** Gravity leaves a column at its bottom and enters at its top. */
  lemma GravityOuter(q: HeadState, j: int, i: int, k: int)
    requires Ready(q) && q.e.g.Active(j, i, k)
    ensures OuterZ(q.e.g.box, Unknowns(q), Sinking(q), j, i, k)
            == (if IsTop(q, j, i, k) then Gravity(q, j, i, k) else 0.0)
              - (if k == q.e.g.box.nz - 1 then Gravity(q, j, i, k + 1) else 0.0)
  {
    hide Gravity;
  }

  ghost function Nets(q: HeadState, terrain: bool): Field3 {
    NetFlow(Unknowns(q), SlopesX(q, terrain), SlopesY(q, terrain), Sinking(q))
  }
  ghost function Outers(q: HeadState, terrain: bool): Field3 {
    OuterFlow(q.e.g.box, Unknowns(q), SlopesX(q, terrain), SlopesY(q, terrain), Sinking(q))
  }

  lemma NetsAt(q: HeadState, terrain: bool, j: int, i: int, k: int)
    ensures Nets(q, terrain)(j, i, k)
            == if q.e.g.Active(j, i, k)
               then (SlopeX(q, terrain, j, i, k) - SlopeX(q, terrain, j, i - 1, k))
                    + (SlopeY(q, terrain, j, i, k) - SlopeY(q, terrain, j - 1, i, k))
                    + (Gravity(q, j, i, k) - Gravity(q, j, i, k + 1))
               else 0.0
  {
    hide SlopeX, SlopeY, Gravity;
  }

  lemma OutersAt(q: HeadState, terrain: bool, j: int, i: int, k: int)
    requires Ready(q) && Conducts(q)
    ensures Outers(q, terrain)(j, i, k)
            == if q.e.g.Active(j, i, k)
               then OuterSides(q, terrain, j, i, k) + (if IsTop(q, j, i, k) then Gravity(q, j, i, k) else 0.0)
                    - (if k == q.e.g.box.nz - 1 then Gravity(q, j, i, k + 1) else 0.0)
               else 0.0
  {
    if q.e.g.Active(j, i, k) {
      SlopesSealed(q, terrain, j, i, k);
      GravityOuter(q, j, i, k);
      hide OuterX, OuterY, OuterZ, OuterSides, Gravity, IsTop, Conducts;
    }
  }

  /** One cell's part of the balance. */
  lemma CellBalances(q: HeadState, terrain: bool, x: Field3, j: int, i: int, k: int)
    requires Ready(q) && Conducts(q)
    ensures RiseAt(q, x, j, i, k)
            == InflowAt(q, terrain, x, j, i, k) + (Product(OwnTerm(q, j, i, k), x(j, i, k))
                                                   - RhsField(q, terrain)(j, i, k))
               + (Nets(q, terrain)(j, i, k) - Outers(q, terrain)(j, i, k))
  {
    NetsAt(q, terrain, j, i, k);
    OutersAt(q, terrain, j, i, k);
    hide Nets, Outers;
    if q.e.g.Active(j, i, k) {
      RhsIs(q, terrain, j, i, k);
      SidesShare(q, x(j, i, k), j, i, k);
      EndsShare(q, x, j, i, k);
      OwnSplits(q, x, j, i, k);
      ProductMinus(Stores(q, j, i, k), x(j, i, k), q.c(j, i, k).hn);
      ActiveParts(q, terrain, x, j, i, k);
      hide *;
    } else {
      ProductZero(x(j, i, k));
      hide Product;
    }
  }

  lemma ActiveParts(q: HeadState, terrain: bool, x: Field3, j: int, i: int, k: int)
    requires Ready(q) && q.e.g.Active(j, i, k) && q.e.g.dx != 0.0 && q.e.g.dy != 0.0
    ensures InflowAt(q, terrain, x, j, i, k)
            == EastInflow(q, x(j, i, k), j, i, k) + WestInflow(q, x(j, i, k), j, i, k)
              + NorthInflow(q, x(j, i, k), j, i, k)
               + SouthInflow(q, x(j, i, k), j, i, k) + OuterSides(q, terrain, j, i, k) + BottomInflow(q, x, j, i, k)
                 + TopInflow(q, x, j, i, k)
    ensures RiseAt(q, x, j, i, k) == Product(Stores(q, j, i, k), x(j, i, k) - q.c(j, i, k).hn)
    ensures RhsField(q, terrain)(j, i, k) == HeadRhs(q, terrain, j, i, k)
  {
    hide EastInflow, WestInflow, NorthInflow, SouthInflow, OuterSides, BottomInflow, TopInflow, Stores, Product,
      HeadRhs, Ready;
  }

  lemma OwnSplits(q: HeadState, x: Field3, j: int, i: int, k: int)
    requires Ready(q) && q.e.g.Active(j, i, k)
    ensures Product(OwnTerm(q, j, i, k), x(j, i, k))
            == Product(Stores(q, j, i, k), x(j, i, k)) + Product(SideTerms(q, j, i, k), x(j, i, k))
               + Product(EndTerms(q, j, i, k), x(j, i, k))
  {
    assert OwnTerm(q, j, i, k) == Stores(q, j, i, k) + EdgeTerms(q, j, i, k);
    hide Storage, Stores, SideTerms, EndTerms, Ready;
    ProductSum2(Stores(q, j, i, k), EdgeTerms(q, j, i, k), x(j, i, k));
    ProductSum2(SideTerms(q, j, i, k), EndTerms(q, j, i, k), x(j, i, k));
    hide Product;
  }

  // ----- the whole block

  /** Main result: any exact solution of the head system stores exactly what comes in through the
      domain's boundary; conduction, gravity and slope terms inside it cancel around the mask. */
  lemma SolutionStoresInflow(q: HeadState, terrain: bool, x: Field3)
    requires Ready(q) && Conducts(q) && Physical(q) && S.Solution(Unknowns(q), Assembled(q), RhsField(q, terrain), x)
    ensures Sum3(q.e.g.box, Rises(q, x)) == Sum3(q.e.g.box, Inflows(q, terrain, x))
  {
    hide *;
    RowsBalance(q, terrain, x);
    NetsVanish(q, terrain);
    forall j, i, k | q.e.g.box.Has(j, i, k)
      ensures Rises(q, x)(j, i, k) == Inflows(q, terrain, x)(j, i, k) + 1.0 * Rest(q, terrain, x)(j, i, k)
              - RhsField(q, terrain)(j, i, k)
    {
      CellBalances(q, terrain, x, j, i, k);
      OwnTimes(q, x, j, i, k);
    }
    Sum3Combine(q.e.g.box, S.Times(OwnField(q), x), 1.0, Nets(q, terrain), Outers(q, terrain), Rest(q, terrain, x));
    Sum3Combine(q.e.g.box, Inflows(q, terrain, x), 1.0, Rest(q, terrain, x), RhsField(q, terrain), Rises(q, x));
  }

  /** The cell terms times a solution add up to the right-hand sides. */
  lemma RowsBalance(q: HeadState, terrain: bool, x: Field3)
    requires Ready(q) && Conducts(q) && Physical(q) && S.Solution(Unknowns(q), Assembled(q), RhsField(q, terrain), x)
    ensures Sum3(q.e.g.box, S.Times(OwnField(q), x)) == Sum3(q.e.g.box, RhsField(q, terrain))
  {
    assert HeadNet(q).own == OwnField(q);
    hide *;
    AssembledRows(q);
    HeadFromNet(q, Assembled(q));
    S.RowsAreConservative(q.e.g.box, Unknowns(q), Assembled(q), HeadNet(q), x);
    SolvedField(q, terrain, x);
  }

  ghost function Rest(q: HeadState, terrain: bool, x: Field3): (r: Field3)
    requires Ready(q)
    ensures forall j, i, k :: r(j, i, k) == S.Times(OwnField(q), x)(j, i, k) + 1.0 * Nets(q, terrain)(j, i, k)
                              - Outers(q, terrain)(j, i, k)
  {
    (j, i, k) => S.Times(OwnField(q), x)(j, i, k) + Nets(q, terrain)(j, i, k) - Outers(q, terrain)(j, i, k)
  }

  lemma NetsVanish(q: HeadState, terrain: bool)
    ensures Sum3(q.e.g.box, Nets(q, terrain)) == Sum3(q.e.g.box, Outers(q, terrain))
  {
    FlowTelescopes(q.e.g.box, Unknowns(q), SlopesX(q, terrain), SlopesY(q, terrain), Sinking(q));
    hide NetFlow, OuterFlow, Sum3;
  }

  lemma OwnTimes(q: HeadState, x: Field3, j: int, i: int, k: int)
    requires Ready(q)
    ensures S.Times(OwnField(q), x)(j, i, k) == Product(OwnTerm(q, j, i, k), x(j, i, k))
  {
    hide OwnTerm;
  }

  lemma SolvedField(q: HeadState, terrain: bool, x: Field3)
    requires Ready(q) && S.Solution(Unknowns(q), Assembled(q), RhsField(q, terrain), x)
    ensures Sum3(q.e.g.box, S.Product(Unknowns(q), Assembled(q), x)) == Sum3(q.e.g.box, RhsField(q, terrain))
  {
    hide HeadRhs, HeadRow, S.RowTimes, Assembled, Ready;
    Sum3Ext(q.e.g.box, S.Product(Unknowns(q), Assembled(q), x), RhsField(q, terrain));
  }

  // ----- the kernel

  /** Zero heads, and the storage of the step-start heads. */
  ghost function NoHead(): (r: Field3)
    ensures forall j, i, k :: r(j, i, k) == 0.0
  {
    (j, i, k) => 0.0
  }
  ghost function StoredHeads(q: HeadState): (r: Field3)
    requires Ready(q)
    ensures forall j, i, k :: r(j, i, k) == if q.e.g.Active(j, i, k) then StoredTerm(q, j, i, k) else 0.0
  {
    (j, i, k) => if q.e.g.Active(j, i, k) then StoredTerm(q, j, i, k) else 0.0
  }

  /** One right-hand side against stored head, boundary and face terms. */
  lemma RhsParts(q: HeadState, terrain: bool, j: int, i: int, k: int)
    requires Ready(q) && Conducts(q)
    ensures RhsField(q, terrain)(j, i, k)
            == StoredHeads(q)(j, i, k) + InflowAt(q, terrain, NoHead(), j, i, k)
              + (Nets(q, terrain)(j, i, k) - Outers(q, terrain)(j, i, k))
  {
    hide *;
    CellBalances(q, terrain, NoHead(), j, i, k);
    ZeroRise(q, j, i, k);
  }

  /** Over zero heads a cell gives its stored head back. */
  lemma ZeroRise(q: HeadState, j: int, i: int, k: int)
    requires Ready(q)
    ensures RiseAt(q, NoHead(), j, i, k) == -StoredHeads(q)(j, i, k)
    ensures Product(OwnTerm(q, j, i, k), NoHead()(j, i, k)) == 0.0
  {
    ZeroProduct(OwnTerm(q, j, i, k));
    if q.e.g.Active(j, i, k) {
      StoredHead(q, j, i, k);
      OppositeProduct(Stores(q, j, i, k), q.c(j, i, k).hn);
    }
    hide OwnTerm, Stores, StoredTerm, Product, Ready;
  }

  lemma ZeroProduct(a: real)
    ensures Product(a, 0.0) == 0.0
  {
  }

  lemma OppositeProduct(a: real, b: real)
    ensures Product(a, 0.0 - b) == -Product(a, b)
  {
  }

  /** All right-hand sides together are the stored head and what the boundary brings over zero heads. */
  lemma RhsAddUp(q: HeadState, terrain: bool)
    requires Ready(q) && Conducts(q)
    ensures Sum3(q.e.g.box, RhsField(q, terrain)) == Sum3(q.e.g.box, StoredHeads(q))
            + Sum3(q.e.g.box, Inflows(q, terrain, NoHead()))
  {
    hide *;
    NetsVanish(q, terrain);
    var parts := Parts(q, terrain);
    forall j, i, k | q.e.g.box.Has(j, i, k)
      ensures RhsField(q, terrain)(j, i, k) == parts(j, i, k) + 1.0 * Nets(q, terrain)(j, i, k)
              - Outers(q, terrain)(j, i, k)
    {
      RhsParts(q, terrain, j, i, k);
    }
    Sum3Combine(q.e.g.box, parts, 1.0, Nets(q, terrain), Outers(q, terrain), RhsField(q, terrain));
    Sum3Linear(q.e.g.box, StoredHeads(q), 1.0, Inflows(q, terrain, NoHead()), parts);
  }

  ghost function Parts(q: HeadState, terrain: bool): (r: Field3)
    requires Ready(q)
    ensures forall j, i, k :: r(j, i, k) == StoredHeads(q)(j, i, k) + Inflows(q, terrain, NoHead())(j, i, k)
  {
    (j, i, k) => StoredHeads(q)(j, i, k) + Inflows(q, terrain, NoHead())(j, i, k)
  }

  /** The right-hand sides an array holds. */
  ghost function Held(q: HeadState, rhs: array3<real>): (r: Field3)
    reads rhs
    ensures forall j, i, k :: q.e.g.Active(j, i, k) && j < rhs.Length0 && i < rhs.Length1 && k < rhs.Length2 ==>
              r(j, i, k) == rhs[j, i, k]
    ensures forall j, i, k :: !q.e.g.Active(j, i, k) ==> r(j, i, k) == 0.0
  {
    var s := Snap3(rhs, 0.0);
    (j, i, k) => if q.e.g.Active(j, i, k) then s(j, i, k) else 0.0
  }

  /** The right-hand-side kernel over the active cells.  What it fills adds up to the stored head and
      the boundary's terms, and any exact solution against it stores exactly what comes in. */
  method AssembleRhs(q: HeadState, terrain: bool, rhs: array3<real>)
    requires Ready(q)
    requires rhs.Length0 == q.e.g.box.ny + 2 && rhs.Length1 == q.e.g.box.nx + 2 && rhs.Length2 == q.e.g.box.nz
    modifies rhs
    ensures forall j, i, k :: q.e.g.Active(j, i, k) ==> rhs[j, i, k] == HeadRhs(q, terrain, j, i, k)
    ensures forall j, i, k :: 0 <= j < rhs.Length0 && 0 <= i < rhs.Length1 && 0 <= k < rhs.Length2
                              && !q.e.g.Active(j, i, k) ==>
      rhs[j, i, k] == old(rhs[j, i, k])
    ensures Conducts(q) ==>
      Sum3(q.e.g.box, Held(q, rhs)) == Sum3(q.e.g.box, StoredHeads(q)) + Sum3(q.e.g.box, Inflows(q, terrain, NoHead()))
    ensures Conducts(q) && Physical(q) ==> forall x: Field3 ::
      S.Solution(Unknowns(q), Assembled(q), Held(q, rhs), x) ==>
      Sum3(q.e.g.box, Rises(q, x)) == Sum3(q.e.g.box, Inflows(q, terrain, x))
  {
    hide HeadRhs, Conducts, Physical, Sum3, Rises, Inflows, StoredHeads, S.Solution;
    forall j, i, k | 1 <= j <= q.e.g.box.ny && 1 <= i <= q.e.g.box.nx && 0 <= k < q.e.g.box.nz
      && q.e.g.Active(j, i, k) {
      rhs[j, i, k] := HeadRhs(q, terrain, j, i, k);
    }
    ghost var held := Held(q, rhs);
    forall j, i, k ensures held(j, i, k) == RhsField(q, terrain)(j, i, k) {}
    if Conducts(q) {
      RhsAddUp(q, terrain);
      Sum3Ext(q.e.g.box, held, RhsField(q, terrain));
      if Physical(q) {
        forall x: Field3 | S.Solution(Unknowns(q), Assembled(q), held, x)
          ensures Sum3(q.e.g.box, Rises(q, x)) == Sum3(q.e.g.box, Inflows(q, terrain, x))
        {
          SameSolution(q, held, RhsField(q, terrain), x);
          SolutionStoresInflow(q, terrain, x);
        }
      }
    }
  }

  lemma SameSolution(q: HeadState, r: Field3, r': Field3, x: Field3)
    requires Ready(q) && S.Solution(Unknowns(q), Assembled(q), r, x) && forall j, i, k :: r(j, i, k) == r'(j, i, k)
    ensures S.Solution(Unknowns(q), Assembled(q), r', x)
  {
    hide S.RowTimes, Assembled;
  }
}
