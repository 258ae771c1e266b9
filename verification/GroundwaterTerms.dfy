/** The groundwater step's state, terms and ledger as values: what one cell of the corrector and
    of the boundary audit computes (src/gw/Corrector.cpp:473-502, src/gw/RichardsSolver.cpp:
    786-806, 866-901), and why the step's volume identity closes. */
module GroundwaterTerms {
  import opened Sums
  import opened Telescoping
  import opened Retention

  /** One cell's slots of the solver's cell-centred views; qx, kx lie on its x+ face, qy, ky on
      its y+ face; up and down are the sends of the post-allocation. */
  datatype Cell = Cell(h: real, hn: real, wc: real, wcn: real, room: real, up: real, down: real, vloss: real,
                       qx: real, qy: real, kx: real, ky: real)

  /** The slots of the vertical faces, face k lying above cell k. */
  datatype Face = Face(q: real, corr: real, k: real)

  type Cells = (int, int, int) -> Cell
  type Faces = (int, int, int) -> Face

  /** The rim of a rank's block: which sides lie on the domain's edge, and beyond the others the
      activity the neighbouring ranks' ids show in the halo. */
  datatype Rim = Rim(west: bool, east: bool, south: bool, north: bool, live: Mask)

  /** The rim of a block that is the whole domain. */
  const WHOLE_RIM := Rim(true, true, true, true, (j, i, k) => false)

  datatype Geometry = Geometry(box: Box, dx: real, dy: real, az: real, ktop: (int, int) -> int, dz: Field3,
                               bottom: Field3,
                               ax: Field3, ay: Field3, sinx: Field3, cosx: Field3, siny: Field3, cosy: Field3, rim: Rim)
  {
    /** The compressed ids of src/core/Grid.cpp: a column is active from its ktop down. */
    predicate Active(j: int, i: int, k: int) {
      1 <= j <= box.ny && 1 <= i <= box.nx && ktop(j, i) <= k && 0 <= k < box.nz
    }

    /** Whether a place of the block or its halo lies in the domain, and whether it is active. */
    predicate InDomain(j: int, i: int) {
      (rim.west ==> 1 <= i) && (rim.east ==> i <= box.nx) && (rim.south ==> 1 <= j) && (rim.north ==> j <= box.ny)
    }
    predicate Live(j: int, i: int, k: int) {
      if 1 <= j <= box.ny && 1 <= i <= box.nx then Active(j, i, k) else InDomain(j, i) && rim.live(j, i, k)
    }

    /** The block is the whole domain. */
    predicate Whole() { rim.west && rim.east && rim.south && rim.north }

    function Vol(j: int, i: int, k: int): real { az * dz(j, i, k) }

    ghost predicate Ok() {
      && dx > 0.0 && dy > 0.0 && az > 0.0
      && (forall j, i :: box.Has2(j, i) ==> 0 <= ktop(j, i) <= box.nz)
      && (forall j, i, k :: box.Has(j, i, k) ==> dz(j, i, k) > 0.0 && ax(j, i, k) > 0.0 && ay(j, i, k) > 0.0)
    }
  }

  /** Density and viscosity ratios of cells and faces. */
  datatype Ratios = Ratios(rho: Field3, rhoX: Field3, rhoY: Field3, rhoZ: Field3, viscX: Field3, viscY: Field3,
                           viscZ: Field3)
  {
    ghost predicate Unit() {
      forall j, i, k :: rho(j, i, k) == 1.0 && rhoX(j, i, k) == 1.0 && rhoY(j, i, k) == 1.0 && rhoZ(j, i, k) == 1.0
    }
  }

  datatype Soil = Soil(pow: Power, at: (int, int, int) -> VgSoil, ksx: Field3, ksy: Field3, ksz: Field3, ss: real)

  // ----- stored water

  ghost function WaterField(g: Geometry, c: Cells): Field3 {
    (j, i, k) => if g.Active(j, i, k) then c(j, i, k).wc * g.Vol(j, i, k) else 0.0
  }
  ghost function WaterStartField(g: Geometry, c: Cells): Field3 {
    (j, i, k) => if g.Active(j, i, k) then c(j, i, k).wcn * g.Vol(j, i, k) else 0.0
  }

  /** The owned volume, and the volume frozen at the start of the step. */
  ghost function Volume(g: Geometry, c: Cells): real { Sum3(g.box, WaterField(g, c)) }
  ghost function VolumeStart(g: Geometry, c: Cells): real { Sum3(g.box, WaterStartField(g, c)) }

  // ----- the corrector's moisture update

  /** The compressibility factor of a cell's storage. */
  function Storativity(s: Soil, r: Ratios, c: Cells, j: int, i: int, k: int): real
    requires s.at(j, i, k).thetaS != 0.0
  {
    r.rho(j, i, k) * s.ss * (c(j, i, k).h - c(j, i, k).hn) / s.at(j, i, k).thetaS
  }

  function Coefficient(g: Geometry, s: Soil, r: Ratios, c: Cells, j: int, i: int, k: int): real
    requires s.at(j, i, k).thetaS != 0.0
  {
    g.Vol(j, i, k) * (r.rho(j, i, k) + Storativity(s, r, c, j, i, k))
  }

  /** The volume the fluxes bring into a cell. */
  function FluxIn(r: Ratios, c: Cells, f: Faces, dtg: real, j: int, i: int, k: int): real {
    dtg * (c(j, i, k).qx * r.rhoX(j, i, k) - c(j, i - 1, k).qx * r.rhoX(j, i - 1, k))
    + dtg * (c(j, i, k).qy * r.rhoY(j, i, k) - c(j - 1, i, k).qy * r.rhoY(j - 1, i, k))
    + dtg * (f(j, i, k + 1).q * r.rhoZ(j, i, k + 1) - f(j, i, k).q * r.rhoZ(j, i, k))
  }

  function UpdatedContent(g: Geometry, s: Soil, r: Ratios, c: Cells, f: Faces, dtg: real, j: int, i: int, k: int): real
    requires s.at(j, i, k).thetaS != 0.0 && Coefficient(g, s, r, c, j, i, k) != 0.0
  {
    (c(j, i, k).wcn * r.rho(j, i, k) * g.Vol(j, i, k) + FluxIn(r, c, f, dtg, j, i, k)) / Coefficient(g, s, r, c, j, i,
        k)
  }

  /** The volume a cell's update moves into compressible storage. */
  function Compressed(g: Geometry, s: Soil, r: Ratios, c: Cells, updated: real, j: int, i: int, k: int): real
    requires s.at(j, i, k).thetaS != 0.0
  {
    updated * g.Vol(j, i, k) * Storativity(s, r, c, j, i, k)
  }

  /** The volumes the lateral, the vertical and the corrected vertical fluxes bring into a cell. */
  ghost function LateralIn(c: Cells, dtg: real, j: int, i: int, k: int): real {
    dtg * ((c(j, i, k).qx - c(j, i - 1, k).qx) + (c(j, i, k).qy - c(j - 1, i, k).qy))
  }
  ghost function PlainIn(f: Faces, dtg: real, j: int, i: int, k: int): real { dtg * (f(j, i, k + 1).q - f(j, i, k).q) }
  ghost function CorrectedIn(f: Faces, dtg: real, j: int, i: int, k: int): real {
    dtg * ((f(j, i, k + 1).q + f(j, i, k + 1).corr) - (f(j, i, k).q + f(j, i, k).corr))
  }

  /** The storage coefficients read the heads alone. */
  lemma SameCoefficients(g: Geometry, s: Soil, r: Ratios, c: Cells, c': Cells)
    requires forall j, i, k :: g.Active(j, i, k) ==> s.at(j, i, k).thetaS != 0.0 && c'(j, i, k).h == c(j, i, k).h
                                                     && c'(j, i, k).hn == c(j, i, k).hn
    ensures forall j, i, k :: g.Active(j, i, k) ==>
              Coefficient(g, s, r, c', j, i, k) == Coefficient(g, s, r, c, j, i, k)
  {
    forall j, i, k | g.Active(j, i, k) ensures Coefficient(g, s, r, c', j, i, k) == Coefficient(g, s, r, c, j, i, k) {
      assert Storativity(s, r, c', j, i, k) == Storativity(s, r, c, j, i, k);
      hide Storativity, Geometry.Vol;
    }
  }

  // ----- the boundary audit

  /** An active cell's face fluxes, zero where the face is not on the domain boundary. */
  datatype Hull = Hull(zm: real, zp: real, xm: real, xp: real, ym: real, yp: real) {
    function Inflow(dtg: real): real { -zm * dtg + zp * dtg - xm * dtg + xp * dtg - ym * dtg + yp * dtg }
    function Rate(): real { (xp - xm) + (yp - ym) + (zp - zm) }
    lemma InflowIsRate(dtg: real)
      ensures Inflow(dtg) == dtg * Rate()
    {
    }
  }

  function HullOf(g: Geometry, c: Cells, f: Faces, j: int, i: int, k: int): Hull {
    Hull(if k == 0 || !g.Active(j, i, k - 1) then f(j, i, k).q else 0.0,
         if k == g.box.nz - 1 then f(j, i, k + 1).q else 0.0,
         if i == 1 && g.rim.west then c(j, i - 1, k).qx else 0.0,
         if i == g.box.nx && g.rim.east then c(j, i, k).qx else 0.0,
         if j == 1 && g.rim.south then c(j - 1, i, k).qy else 0.0,
         if j == g.box.ny && g.rim.north then c(j, i, k).qy else 0.0)
  }

  /** The inflow through those of an active cell's faces that lie on the domain boundary. */
  function BoundaryTerm(g: Geometry, c: Cells, f: Faces, dtg: real, j: int, i: int, k: int): real {
    if g.Active(j, i, k) then HullOf(g, c, f, j, i, k).Inflow(dtg) else 0.0
  }

  ghost function BoundaryTerms(g: Geometry, c: Cells, f: Faces, dtg: real): Field3 {
    (j, i, k) => BoundaryTerm(g, c, f, dtg, j, i, k)
  }

  ghost function BoundaryIn(g: Geometry, c: Cells, f: Faces, dtg: real): real {
    Sum3(g.box, BoundaryTerms(g, c, f, dtg))
  }

  /** The faces the flux kernels fill, and those with both cells in the domain. */
  predicate IsFaceX(g: Geometry, j: int, i: int, k: int) {
    1 <= j <= g.box.ny && 0 <= i <= g.box.nx && 0 <= k < g.box.nz
  }
  predicate IsFaceY(g: Geometry, j: int, i: int, k: int) {
    0 <= j <= g.box.ny && 1 <= i <= g.box.nx && 0 <= k < g.box.nz
  }
  predicate InnerFaceX(g: Geometry, j: int, i: int, k: int) {
    IsFaceX(g, j, i, k) && g.InDomain(j, i) && g.InDomain(j, i + 1)
  }
  predicate InnerFaceY(g: Geometry, j: int, i: int, k: int) {
    IsFaceY(g, j, i, k) && g.InDomain(j, i) && g.InDomain(j + 1, i)
  }

  /** Lateral faces between an active and an inactive cell of the domain carry nothing, those toward the
      halo included. */
  ghost predicate Sealed(g: Geometry, c: Cells) {
    && (forall j, i, k {:trigger InnerFaceX(g, j, i, k)} ::
          InnerFaceX(g, j, i, k) && g.Live(j, i, k) != g.Live(j, i + 1, k) ==> c(j, i, k).qx == 0.0)
    && (forall j, i, k {:trigger InnerFaceY(g, j, i, k)} ::
          InnerFaceY(g, j, i, k) && g.Live(j, i, k) != g.Live(j + 1, i, k) ==> c(j, i, k).qy == 0.0)
  }

  ghost function ActiveMask(g: Geometry): Mask { (j, i, k) => g.Active(j, i, k) }
  ghost function FluxX(c: Cells): Field3 { (j, i, k) => c(j, i, k).qx }
  ghost function FluxY(c: Cells): Field3 { (j, i, k) => c(j, i, k).qy }
  ghost function FluxZ(f: Faces): Field3 { (j, i, k) => f(j, i, k).q }

  ghost function FlowDivergence(g: Geometry, c: Cells, f: Faces): Field3 {
    NetFlow(ActiveMask(g), FluxX(c), FluxY(c), FluxZ(f))
  }

  lemma SealedX(g: Geometry, c: Cells, j: int, i: int, k: int)
    requires g.Ok() && Sealed(g, c) && g.Active(j, i, k)
    ensures OuterX(g.box, ActiveMask(g), FluxX(c), j, i, k)
            == (if i == g.box.nx then c(j, i, k).qx else 0.0) - (if i == 1 then c(j, i - 1, k).qx else 0.0)
  {
    assert i > 1 ==> InnerFaceX(g, j, i - 1, k) && g.Live(j, i - 1 + 1, k)
                     && g.Live(j, i - 1, k) == g.Active(j, i - 1, k);
    assert i < g.box.nx ==> InnerFaceX(g, j, i, k) && g.Live(j, i, k) && g.Live(j, i + 1, k) == g.Active(j, i + 1, k);
  }

  lemma SealedY(g: Geometry, c: Cells, j: int, i: int, k: int)
    requires g.Ok() && Sealed(g, c) && g.Active(j, i, k)
    ensures OuterY(g.box, ActiveMask(g), FluxY(c), j, i, k)
            == (if j == g.box.ny then c(j, i, k).qy else 0.0) - (if j == 1 then c(j - 1, i, k).qy else 0.0)
  {
    assert j > 1 ==> InnerFaceY(g, j - 1, i, k) && g.Live(j - 1 + 1, i, k)
                     && g.Live(j - 1, i, k) == g.Active(j - 1, i, k);
    assert j < g.box.ny ==> InnerFaceY(g, j, i, k) && g.Live(j, i, k) && g.Live(j + 1, i, k) == g.Active(j + 1, i, k);
  }

  /** The net rate through an active cell's boundary faces. */
  ghost function BoundaryRate(g: Geometry, c: Cells, f: Faces, j: int, i: int, k: int): real {
    if g.Active(j, i, k) then HullOf(g, c, f, j, i, k).Rate() else 0.0
  }

  /** The net rate through an active cell's faces toward other ranks. */
  ghost function CrossRate(g: Geometry, c: Cells, j: int, i: int, k: int): real {
    if g.Active(j, i, k) then
      (if i == g.box.nx && !g.rim.east then c(j, i, k).qx else 0.0)
        - (if i == 1 && !g.rim.west then c(j, i - 1, k).qx else 0.0)
      + (if j == g.box.ny && !g.rim.north then c(j, i, k).qy else 0.0)
        - (if j == 1 && !g.rim.south then c(j - 1, i, k).qy else 0.0)
    else 0.0
  }

  ghost function CrossRates(g: Geometry, c: Cells): (r: Field3)
    ensures forall j, i, k :: r(j, i, k) == CrossRate(g, c, j, i, k)
  {
    (j, i, k) => CrossRate(g, c, j, i, k)
  }

  /** The inflow from other ranks. */
  ghost function CrossIn(g: Geometry, c: Cells, dtg: real): real { dtg * Sum3(g.box, CrossRates(g, c)) }

  lemma WholeCrossesNothing(g: Geometry, c: Cells, dtg: real)
    requires g.Whole()
    ensures CrossIn(g, c, dtg) == 0.0
  {
    Sum3Linear(g.box, CrossRates(g, c), -1.0, CrossRates(g, c), CrossRates(g, c));
  }

  lemma SameCrossIn(g: Geometry, c: Cells, c': Cells, dtg: real)
    requires forall j, i, k :: 0 <= j <= g.box.ny + 1 && 0 <= i <= g.box.nx + 1 && 0 <= k < g.box.nz ==>
      c'(j, i, k).qx == c(j, i, k).qx && c'(j, i, k).qy == c(j, i, k).qy
    ensures CrossIn(g, c', dtg) == CrossIn(g, c, dtg)
  {
    hide Sum3;
    Sum3Ext(g.box, CrossRates(g, c'), CrossRates(g, c));
  }

  lemma BoundaryIsOuterFlow(g: Geometry, c: Cells, f: Faces, j: int, i: int, k: int)
    requires g.Ok() && Sealed(g, c) && g.box.Has(j, i, k)
    ensures BoundaryRate(g, c, f, j, i, k) + CrossRate(g, c, j, i, k)
            == OuterFlow(g.box, ActiveMask(g), FluxX(c), FluxY(c), FluxZ(f))(j, i, k)
  {
    OuterAt(g, c, f, j, i, k);
    if g.Active(j, i, k) {
      SealedX(g, c, j, i, k);
      SealedY(g, c, j, i, k);
      DownTo(g, f, j, i, k);
    }
    hide Sealed, Geometry.Ok, OuterX, OuterY, OuterZ, OuterFlow, Geometry.Active;
  }

  lemma DownTo(g: Geometry, f: Faces, j: int, i: int, k: int)
    requires g.Active(j, i, k)
    ensures OuterZ(g.box, ActiveMask(g), FluxZ(f), j, i, k)
            == (if k == g.box.nz - 1 then f(j, i, k + 1).q else 0.0)
               - (if k == 0 || !g.Active(j, i, k - 1) then f(j, i, k).q else 0.0)
  {
    assert k == g.box.nz - 1 || g.Active(j, i, k + 1);
  }

  lemma OuterAt(g: Geometry, c: Cells, f: Faces, j: int, i: int, k: int)
    ensures OuterFlow(g.box, ActiveMask(g), FluxX(c), FluxY(c), FluxZ(f))(j, i, k)
            == OuterX(g.box, ActiveMask(g), FluxX(c), j, i, k) + OuterY(g.box, ActiveMask(g), FluxY(c), j, i, k)
               + OuterZ(g.box, ActiveMask(g), FluxZ(f), j, i, k)
    ensures !g.Active(j, i, k) ==> OuterFlow(g.box, ActiveMask(g), FluxX(c), FluxY(c), FluxZ(f))(j, i, k) == 0.0
  {
    hide FluxX, FluxY, FluxZ;
  }

  ghost function BoundaryRates(g: Geometry, c: Cells, f: Faces): (r: Field3)
    ensures forall j, i, k :: r(j, i, k) == BoundaryRate(g, c, f, j, i, k)
  {
    (j, i, k) => BoundaryRate(g, c, f, j, i, k)
  }

  /** The domain's boundary faces and those toward other ranks account for the whole divergence: the
      block's other faces telescope around the inactive cells. */
  lemma BoundaryRateIsDivergence(g: Geometry, c: Cells, f: Faces)
    requires g.Ok() && Sealed(g, c)
    ensures Sum3(g.box, BoundaryRates(g, c, f)) + Sum3(g.box, CrossRates(g, c)) == Sum3(g.box, FlowDivergence(g, c, f))
  {
    hide Sum3, OuterFlow, NetFlow, BoundaryRate, CrossRate, BoundaryRates, CrossRates, Sealed, Geometry.Ok;
    var outer := OuterFlow(g.box, ActiveMask(g), FluxX(c), FluxY(c), FluxZ(f));
    FlowTelescopes(g.box, ActiveMask(g), FluxX(c), FluxY(c), FluxZ(f));
    forall j, i, k | g.box.Has(j, i, k)
      ensures outer(j, i, k) == BoundaryRates(g, c, f)(j, i, k) + 1.0 * CrossRates(g, c)(j, i, k)
    {
      BoundaryIsOuterFlow(g, c, f, j, i, k);
    }
    Sum3Linear(g.box, BoundaryRates(g, c, f), 1.0, CrossRates(g, c), outer);
  }

  lemma TermIsRate(g: Geometry, c: Cells, f: Faces, dtg: real, j: int, i: int, k: int)
    ensures BoundaryTerms(g, c, f, dtg)(j, i, k) == Scaled(dtg, BoundaryRates(g, c, f))(j, i, k)
  {
    HullOf(g, c, f, j, i, k).InflowIsRate(dtg);
    hide HullOf;
  }

  lemma BoundaryInIsDivergence(g: Geometry, c: Cells, f: Faces, dtg: real)
    requires g.Ok() && Sealed(g, c)
    ensures BoundaryIn(g, c, f, dtg) + CrossIn(g, c, dtg) == dtg * Sum3(g.box, FlowDivergence(g, c, f))
  {
    hide Sum3, CrossRates, BoundaryTerms, BoundaryRates, FlowDivergence, Scaled, Sealed, Geometry.Ok;
    var rates, scaled := BoundaryRates(g, c, f), Scaled(dtg, BoundaryRates(g, c, f));
    forall j, i, k | g.box.Has(j, i, k) ensures BoundaryTerms(g, c, f, dtg)(j, i, k) == scaled(j, i, k) {
      TermIsRate(g, c, f, dtg, j, i, k);
    }
    Sum3Ext(g.box, BoundaryTerms(g, c, f, dtg), scaled);
    Sum3Scaled(g.box, dtg, rates);
    BoundaryRateIsDivergence(g, c, f);
  }

  // ----- the corrector closes

  /** c' is c with every active cell's content updated. */
  ghost predicate Corrected(g: Geometry, s: Soil, r: Ratios, c: Cells, c': Cells, f: Faces, dtg: real) {
    forall j, i, k :: g.Active(j, i, k) ==>
      && s.at(j, i, k).thetaS != 0.0 && Coefficient(g, s, r, c, j, i, k) != 0.0
      && c'(j, i, k).wc == UpdatedContent(g, s, r, c, f, dtg, j, i, k)
  }

  ghost function SsStorage(g: Geometry, s: Soil, r: Ratios, c: Cells, c': Cells): real {
    Sum3(g.box, CompressedField(g, s, r, c, c'))
  }

  lemma QuotientTimes(n: real, v: real, e: real)
    requires v * (1.0 + e) != 0.0
    ensures (n / (v * (1.0 + e))) * v == n - (n / (v * (1.0 + e))) * v * e
  {
    var u := n / (v * (1.0 + e));
    assert u * (v * (1.0 + e)) == n;
    assert u * (v * (1.0 + e)) == u * v + u * v * e;
  }

  lemma CellBalance(g: Geometry, s: Soil, r: Ratios, c: Cells, f: Faces, dtg: real, j: int, i: int, k: int)
    requires r.Unit() && s.at(j, i, k).thetaS != 0.0 && Coefficient(g, s, r, c, j, i, k) != 0.0
    ensures var u := UpdatedContent(g, s, r, c, f, dtg, j, i, k);
      u * g.Vol(j, i, k) == c(j, i, k).wcn * g.Vol(j, i, k) + FluxIn(r, c, f, dtg, j, i, k)
        - Compressed(g, s, r, c, u, j, i, k)
  {
    QuotientTimes(c(j, i, k).wcn * 1.0 * g.Vol(j, i, k) + FluxIn(r, c, f, dtg, j, i, k), g.Vol(j, i, k),
                  Storativity(s, r, c, j, i, k));
  }

  lemma FluxInIsDivergence(g: Geometry, r: Ratios, c: Cells, f: Faces, dtg: real, j: int, i: int, k: int)
    requires r.Unit() && g.Active(j, i, k)
    ensures FluxIn(r, c, f, dtg, j, i, k) == dtg * FlowDivergence(g, c, f)(j, i, k)
  {
    Distribute(dtg, c(j, i, k).qx - c(j, i - 1, k).qx, c(j, i, k).qy - c(j - 1, i, k).qy,
               f(j, i, k + 1).q - f(j, i, k).q);
  }

  lemma Distribute(d: real, a: real, b: real, c: real)
    ensures d * a + d * b + d * c == d * (a + b + c)
  {
  }

  ghost function CompressedField(g: Geometry, s: Soil, r: Ratios, c: Cells, c': Cells): Field3 {
    (j, i, k) => if g.Active(j, i, k) && s.at(j, i, k).thetaS != 0.0
      then Compressed(g, s, r, c, c'(j, i, k).wc, j, i, k) else 0.0
  }

  ghost function FluxField(g: Geometry, r: Ratios, c: Cells, f: Faces, dtg: real): Field3 {
    (j, i, k) => if g.Active(j, i, k) then FluxIn(r, c, f, dtg, j, i, k) else 0.0
  }

  lemma FluxScaled(g: Geometry, r: Ratios, c: Cells, f: Faces, dtg: real, j: int, i: int, k: int)
    requires r.Unit()
    ensures FluxField(g, r, c, f, dtg)(j, i, k) == Scaled(dtg, FlowDivergence(g, c, f))(j, i, k)
  {
    if g.Active(j, i, k) { FluxInIsDivergence(g, r, c, f, dtg, j, i, k); }
    hide FluxIn;
  }

  lemma FluxIsBoundaryIn(g: Geometry, r: Ratios, c: Cells, f: Faces, dtg: real)
    requires g.Ok() && r.Unit() && Sealed(g, c)
    ensures Sum3(g.box, FluxField(g, r, c, f, dtg)) == BoundaryIn(g, c, f, dtg) + CrossIn(g, c, dtg)
  {
    hide Sum3, FlowDivergence, BoundaryIn, CrossIn, FluxIn, Sealed, Geometry.Ok, Ratios.Unit;
    var scaled := Scaled(dtg, FlowDivergence(g, c, f));
    forall j, i, k | g.box.Has(j, i, k) ensures FluxField(g, r, c, f, dtg)(j, i, k) == scaled(j, i, k) {
      FluxScaled(g, r, c, f, dtg, j, i, k);
    }
    hide FluxField, Scaled;
    Sum3Ext(g.box, FluxField(g, r, c, f, dtg), scaled);
    Sum3Scaled(g.box, dtg, FlowDivergence(g, c, f));
    BoundaryInIsDivergence(g, c, f, dtg);
  }

  lemma CellCloses(g: Geometry, s: Soil, r: Ratios, c: Cells, c': Cells, f: Faces, dtg: real, j: int, i: int, k: int)
    requires r.Unit() && Corrected(g, s, r, c, c', f, dtg)
    ensures WaterField(g, c')(j, i, k)
            == WaterStartField(g, c)(j, i, k) + FluxField(g, r, c, f, dtg)(j, i, k)
              - CompressedField(g, s, r, c, c')(j, i, k)
  {
    if g.Active(j, i, k) {
      CellBalance(g, s, r, c, f, dtg, j, i, k);
      hide UpdatedContent, FluxIn, Compressed;
    }
  }

  /** After the moisture update, the water gained over the step's start is the inflow through the
      domain's boundary and from other ranks, minus what went into compressible storage. */
  lemma CorrectorCloses(g: Geometry, s: Soil, r: Ratios, c: Cells, c': Cells, f: Faces, dtg: real)
    requires g.Ok() && r.Unit() && Sealed(g, c) && Corrected(g, s, r, c, c', f, dtg)
    ensures Volume(g, c')
            == VolumeStart(g, c) + BoundaryIn(g, c, f, dtg) + CrossIn(g, c, dtg) - SsStorage(g, s, r, c, c')
  {
    hide Sum3, CrossIn, WaterField, WaterStartField, FluxField, CompressedField, Corrected, Sealed, Geometry.Ok,
      Ratios.Unit;
    var flux, comp := FluxField(g, r, c, f, dtg), CompressedField(g, s, r, c, c');
    forall j, i, k | g.box.Has(j, i, k)
      ensures WaterField(g, c')(j, i, k) == WaterStartField(g, c)(j, i, k) + 1.0 * flux(j, i, k) - comp(j, i, k)
    {
      CellCloses(g, s, r, c, c', f, dtg, j, i, k);
    }
    Sum3Combine(g.box, WaterStartField(g, c), 1.0, flux, comp, WaterField(g, c'));
    FluxIsBoundaryIn(g, r, c, f, dtg);
  }
}
