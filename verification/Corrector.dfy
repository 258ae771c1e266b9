/** The corrector's kernels over a block (src/gw/Corrector.cpp): which face gets which flux, the
    coupled top's substep and bookkeeping, and the final clamp, as values of a block's state. */
module Corrector {
  import opened Sums
  import opened Retention
  import opened TopExchange
  import opened FaceFlux
  import opened GroundwaterTerms
  import opened SendWalk
  import opened SweepLedger

  datatype Options = Options(full3d: bool, redistribute: bool, densityGradient: bool, record: bool, coupled: bool,
                             minDepth: real)

  /** A prescribed condition and its current value. */
  datatype Prescription = Prescription(code: BcCode, value: real)

  /** The staged boundary conditions: per column at top and bottom, per row or column at the sides. */
  datatype Boundary = Boundary(top: (int, int) -> Prescription, bottom: (int, int) -> Prescription,
                               west: int -> Prescription, east: int -> Prescription,
                               south: int -> Prescription, north: int -> Prescription)

  /** Admissible geometry, soils and thresholds. */
  ghost predicate Admissible(g: Geometry, soil: Soil, opt: Options) {
    && g.Ok() && opt.minDepth >= 0.0
    && forall j, i, k :: SoilOk(soil.at(j, i, k)) && 0.0 < soil.at(j, i, k).thetaS
                         && soil.at(j, i, k).thetaR <= soil.at(j, i, k).thetaS
  }

  /** What a step reads and does not change: geometry, soils, options, conditions and ratios. */
  datatype Setting = Setting(g: Geometry, soil: Soil, opt: Options, bc: Boundary, ratios: Ratios) {
    ghost predicate Ok() { Admissible(g, soil, opt) }
  }

  // ----- the funding of all surface cells

  /** Columns whose top prescribes no infiltration. */
  ghost function SafeTops(bc: Boundary): (int, int) -> bool {
    (j, i) => NoForcedInfiltration(bc.top(j, i).code, bc.top(j, i).value)
  }
  ghost function AlwaysSafe(): (int, int) -> bool { (j, i) => true }

  /** No surface cell's budget is overdrawn between s and s', and the safe ones stay funded. */
  ghost predicate AllKeepFunding(g: Geometry, s: Ponds, s': Ponds, minDepth: real, safe: (int, int) -> bool) {
    forall j, i :: g.box.Has2(j, i) ==> KeepsFunding(s(j, i), s'(j, i), minDepth, safe(j, i))
  }

  lemma FundingRefl(g: Geometry, s: Ponds, minDepth: real, safe: (int, int) -> bool)
    ensures AllKeepFunding(g, s, s, minDepth, safe)
  {
    forall j, i | g.box.Has2(j, i) ensures KeepsFunding(s(j, i), s(j, i), minDepth, safe(j, i)) {
      KeepsFundingRefl(s(j, i), minDepth, safe(j, i));
    }
  }

  lemma FundingSame(g: Geometry, s: Ponds, s': Ponds, minDepth: real, safe: (int, int) -> bool)
    requires forall j, i :: g.box.Has2(j, i) ==> s'(j, i) == s(j, i)
    ensures AllKeepFunding(g, s, s', minDepth, safe)
  {
    FundingRefl(g, s, minDepth, safe);
    hide KeepsFunding;
  }

  lemma FundingTrans(g: Geometry, s: Ponds, m: Ponds, s': Ponds, minDepth: real, safe: (int, int) -> bool)
    requires AllKeepFunding(g, s, m, minDepth, safe) && AllKeepFunding(g, m, s', minDepth, safe)
    ensures AllKeepFunding(g, s, s', minDepth, safe)
  {
    hide KeepsFunding;
    forall j, i | g.box.Has2(j, i) ensures KeepsFunding(s(j, i), s'(j, i), minDepth, safe(j, i)) {
      KeepsFundingTrans(s(j, i), m(j, i), s'(j, i), minDepth, safe(j, i));
    }
  }

  lemma FundingWeaker(g: Geometry, s: Ponds, s': Ponds, minDepth: real, safer: (int, int) -> bool,
                      safe: (int, int) -> bool)
    requires AllKeepFunding(g, s, s', minDepth, safer) && forall j, i :: safe(j, i) ==> safer(j, i)
    ensures AllKeepFunding(g, s, s', minDepth, safe)
  {
    hide KeepsFunding;
    forall j, i | g.box.Has2(j, i) ensures KeepsFunding(s(j, i), s'(j, i), minDepth, safe(j, i)) {
      KeepsFundingWeaker(s(j, i), s'(j, i), minDepth, safer(j, i), safe(j, i));
    }
  }

  lemma OneKeepsFunding(g: Geometry, s: Ponds, s': Ponds, minDepth: real, safe: (int, int) -> bool, j: int, i: int)
    requires forall j', i' :: g.box.Has2(j', i') && (j', i') != (j, i) ==> s'(j', i') == s(j', i')
    requires KeepsFunding(s(j, i), s'(j, i), minDepth, true)
    ensures AllKeepFunding(g, s, s', minDepth, safe)
  {
    hide KeepsFunding;
    forall j', i' | g.box.Has2(j', i') ensures KeepsFunding(s(j', i'), s'(j', i'), minDepth, safe(j', i')) {
      KeepsFundingRefl(s(j', i'), minDepth, safe(j', i'));
      KeepsFundingWeaker(s(j, i), s'(j, i), minDepth, true, safe(j', i'));
    }
  }

  // ----- lateral faces

  function FlankAt(e: Setting, c: Cells, ks: Field3, j: int, i: int, k: int): Flank {
    Flank(c(j, i, k).h, c(j, i, k).wc, e.soil.at(j, i, k), ks(j, i, k), e.g.bottom(j, i, k), e.g.Live(j, i, k),
          e.g.InDomain(j, i))
  }

  /** The x+ face of cell (j, i, k); i = 0 is the block's western face, the domain's where the rim says
      so.  The y+ face likewise. */
  function FaceX(e: Setting, j: int, i: int, k: int): Lateral {
    var p := if i == 0 then e.bc.west(j) else e.bc.east(j);
    Lateral(e.g.ax(j, i, k), e.g.dx, e.g.sinx(j, i, k), e.g.cosx(j, i, k), e.ratios.viscX(j, i, k),
            i == 0 && e.g.rim.west, i == e.g.box.nx && e.g.rim.east, p.code, p.value)
  }
  function FaceY(e: Setting, j: int, i: int, k: int): Lateral {
    var p := if j == 0 then e.bc.south(i) else e.bc.north(i);
    Lateral(e.g.ay(j, i, k), e.g.dy, e.g.siny(j, i, k), e.g.cosy(j, i, k), e.ratios.viscY(j, i, k),
            j == 0 && e.g.rim.south, j == e.g.box.ny && e.g.rim.north, p.code, p.value)
  }

  /** The fluxes through them. */
  function XFlux(e: Setting, c: Cells, j: int, i: int, k: int): real
    requires e.Ok()
  {
    LateralFlux(e.soil.pow, e.opt.full3d, FaceX(e, j, i, k), FlankAt(e, c, e.soil.ksx, j, i, k),
                FlankAt(e, c, e.soil.ksx, j, i + 1, k))
  }
  function YFlux(e: Setting, c: Cells, j: int, i: int, k: int): real
    requires e.Ok()
  {
    LateralFlux(e.soil.pow, e.opt.full3d, FaceY(e, j, i, k), FlankAt(e, c, e.soil.ksy, j, i, k),
                FlankAt(e, c, e.soil.ksy, j + 1, i, k))
  }

  /** Every lateral face of the block holds its flux under the cells c. */
  ghost predicate LateralsFilled(e: Setting, c: Cells, c': Cells)
    requires e.Ok()
  {
    && (forall j, i, k {:trigger IsFaceX(e.g, j, i, k)} :: IsFaceX(e.g, j, i, k) ==>
          c'(j, i, k).qx == XFlux(e, c, j, i, k))
    && (forall j, i, k {:trigger IsFaceY(e.g, j, i, k)} :: IsFaceY(e.g, j, i, k) ==>
          c'(j, i, k).qy == YFlux(e, c, j, i, k))
  }

  /** The corrector's lateral fluxes never cross between an active and an inactive cell of the domain. */
  lemma FluxesSealed(e: Setting, c: Cells, c': Cells)
    requires e.Ok()
    requires LateralsFilled(e, c, c')
    ensures Sealed(e.g, c')
  {
    forall j, i, k | InnerFaceX(e.g, j, i, k) && e.g.Live(j, i, k) != e.g.Live(j, i + 1, k)
      ensures c'(j, i, k).qx == 0.0
    {
      LateralSealed(e.soil.pow, e.opt.full3d, FaceX(e, j, i, k), FlankAt(e, c, e.soil.ksx, j, i, k),
                    FlankAt(e, c, e.soil.ksx, j, i + 1, k));
    }
    forall j, i, k | InnerFaceY(e.g, j, i, k) && e.g.Live(j, i, k) != e.g.Live(j + 1, i, k)
      ensures c'(j, i, k).qy == 0.0
    {
      LateralSealed(e.soil.pow, e.opt.full3d, FaceY(e, j, i, k), FlankAt(e, c, e.soil.ksy, j, i, k),
                    FlankAt(e, c, e.soil.ksy, j + 1, i, k));
    }
  }

  // ----- vertical faces

  predicate HasTop(g: Geometry, j: int, i: int) {
    1 <= j <= g.box.ny && 1 <= i <= g.box.nx && 0 <= g.ktop(j, i) < g.box.nz
  }

  /** What the coupled top of a column reads: heads before and after the solve, moisture, and the
      conductivities under the ponded and the cell's own head. */
  function TopCellOf(e: Setting, c: Cells, j: int, i: int, pond: Pond): (x: TopCell)
    requires e.Ok() && HasTop(e.g, j, i)
    ensures x.dz > 0.0 && x.code == e.bc.top(j, i).code && x.value == e.bc.top(j, i).value
  {
    var k := e.g.ktop(j, i);
    var s, ks, y := e.soil.at(j, i, k), e.soil.ksz(j, i, k), c(j, i, k);
    TopCell(e.bc.top(j, i).code, e.bc.top(j, i).value, y.hn, y.h, y.wc, s.thetaS, s.thetaR, ks,
            ConductivityFromHead(e.soil.pow, s, pond.dept, ks), ConductivityFromHead(e.soil.pow, s, y.h, ks),
            e.g.dz(j, i, k), e.ratios.viscZ(j, i, k), e.ratios.rhoZ(j, i, k))
  }

  function LayerAt(e: Setting, c: Cells, j: int, i: int, k: int): Layer {
    Layer(c(j, i, k).h, e.soil.at(j, i, k), e.soil.ksz(j, i, k), e.g.dz(j, i, k))
  }

  /** The flux through vertical face k of column (j, i). */
  function ZFlux(e: Setting, c: Cells, pond: Pond, dtg: real, j: int, i: int, k: int): real
    requires e.Ok() && e.g.box.Has2(j, i) && 0 <= k <= e.g.box.nz && dtg > 0.0
  {
    var belowActive, aboveActive := e.g.Active(j, i, k), e.g.Active(j, i, k - 1);
    var visc, rho := e.ratios.viscZ(j, i, k), e.ratios.rhoZ(j, i, k);
    if belowActive && !aboveActive then
      if e.opt.coupled then TopFlux(TopCellOf(e, c, j, i, pond), e.g.az, dtg, pond).0
      else UncoupledTopFlux(e.g.az, visc, rho, e.bc.top(j, i).code, e.bc.top(j, i).value, LayerAt(e, c, j, i, k))
    else if k == e.g.box.nz && aboveActive then
      BottomFlux(e.soil.pow, e.g.az, visc, rho, e.bc.bottom(j, i).code, e.bc.bottom(j, i).value,
                 LayerAt(e, c, j, i, k - 1))
    else if aboveActive && belowActive then
      VerticalFlux(e.soil.pow, e.g.az, visc, rho, LayerAt(e, c, j, i, k - 1), LayerAt(e, c, j, i, k))
    else 0.0
  }

  /** Every vertical face of the block holds its flux under the cells c and the surface s. */
  ghost predicate VerticalsFilled(e: Setting, c: Cells, s: Ponds, f: Faces, dtg: real)
    requires e.Ok() && dtg > 0.0
  {
    forall j, i, k {:trigger f(j, i, k)} :: e.g.box.Has2(j, i) && 0 <= k <= e.g.box.nz ==>
      f(j, i, k).q == ZFlux(e, c, s(j, i), dtg, j, i, k)
  }

  /** Cells with the same heads and moistures, before and at the step. */
  ghost predicate SameHeads(c: Cells, c': Cells) {
    forall j, i, k {:trigger c'(j, i, k)} ::
      c'(j, i, k).h == c(j, i, k).h && c'(j, i, k).hn == c(j, i, k).hn && c'(j, i, k).wc == c(j, i, k).wc
  }

  lemma FluxReads(e: Setting, c: Cells, c': Cells, j: int, i: int, k: int)
    requires e.Ok() && SameHeads(c, c')
    ensures XFlux(e, c', j, i, k) == XFlux(e, c, j, i, k) && YFlux(e, c', j, i, k) == YFlux(e, c, j, i, k)
  {
    assert FlankAt(e, c', e.soil.ksx, j, i, k) == FlankAt(e, c, e.soil.ksx, j, i, k)
        && FlankAt(e, c', e.soil.ksx, j, i + 1, k) == FlankAt(e, c, e.soil.ksx, j, i + 1, k)
        && FlankAt(e, c', e.soil.ksy, j, i, k) == FlankAt(e, c, e.soil.ksy, j, i, k)
        && FlankAt(e, c', e.soil.ksy, j + 1, i, k) == FlankAt(e, c, e.soil.ksy, j + 1, i, k);
    hide LateralFlux, FlankAt;
  }

  lemma TopReads(e: Setting, c: Cells, c': Cells, j: int, i: int, pond: Pond)
    requires e.Ok() && SameHeads(c, c') && HasTop(e.g, j, i)
    ensures TopCellOf(e, c', j, i, pond) == TopCellOf(e, c, j, i, pond)
  {
  }

  lemma VerticalReads(e: Setting, c: Cells, c': Cells, pond: Pond, dtg: real, j: int, i: int, k: int)
    requires e.Ok() && e.g.box.Has2(j, i) && 0 <= k <= e.g.box.nz && dtg > 0.0 && SameHeads(c, c')
    ensures ZFlux(e, c', pond, dtg, j, i, k) == ZFlux(e, c, pond, dtg, j, i, k)
  {
    if HasTop(e.g, j, i) { TopReads(e, c, c', j, i, pond); }
    assert LayerAt(e, c', j, i, k) == LayerAt(e, c, j, i, k)
      && LayerAt(e, c', j, i, k - 1) == LayerAt(e, c, j, i, k - 1);
    hide TopCellOf, LayerAt, TopFlux, UncoupledTopFlux, BottomFlux, VerticalFlux;
  }

  /** The flux kernels write no head and no moisture, so the fluxes are those of the cells they leave. */
  lemma FilledReads(e: Setting, c: Cells, c': Cells, s: Ponds, f: Faces, dtg: real)
    requires e.Ok() && dtg > 0.0 && SameHeads(c, c') && LateralsFilled(e, c, c') && VerticalsFilled(e, c, s, f, dtg)
    ensures LateralsFilled(e, c', c') && VerticalsFilled(e, c', s, f, dtg)
  {
    hide XFlux, YFlux, ZFlux, SameHeads;
    forall j, i, k | IsFaceX(e.g, j, i, k) ensures c'(j, i, k).qx == XFlux(e, c', j, i, k) {
      FluxReads(e, c, c', j, i, k);
    }
    forall j, i, k | IsFaceY(e.g, j, i, k) ensures c'(j, i, k).qy == YFlux(e, c', j, i, k) {
      FluxReads(e, c, c', j, i, k);
    }
    forall j, i, k {:trigger f(j, i, k)} | e.g.box.Has2(j, i) && 0 <= k <= e.g.box.nz
      ensures f(j, i, k).q == ZFlux(e, c', s(j, i), dtg, j, i, k)
    {
      VerticalReads(e, c, c', s(j, i), dtg, j, i, k);
    }
  }

  // ----- the coupled top over the block

  /** A surface cell after its column's classification; columns without an active cell are dry. */
  function Moded(e: Setting, c: Cells, dtg: real, j: int, i: int, pond: Pond): Pond
    requires e.Ok() && e.g.box.Has2(j, i)
  {
    pond.(mode := if HasTop(e.g, j, i) then TopMode(TopCellOf(e, c, j, i, pond), dtg, pond) else 0)
  }

  /** A surface cell after its column's exchange flux. */
  function Debited(e: Setting, c: Cells, dtg: real, j: int, i: int, pond: Pond): Pond
    requires e.Ok() && e.g.box.Has2(j, i) && dtg > 0.0
  {
    if HasTop(e.g, j, i) then pond.(avail := TopFlux(TopCellOf(e, c, j, i, pond), e.g.az, dtg, pond).1) else pond
  }

  /** A flux q through a column's top left its budget non-negative and, where the surface is wet and
      the flux downward, was paid from it in full. */
  ghost predicate Pays(p: Pond, p': Pond, q: real, dtg: real, az: real)
    requires az > 0.0
  {
    && p' == p.(avail := p'.avail)
    && (p.avail >= 0.0 ==> 0.0 <= p'.avail <= p.avail)
    && (p.avail >= 0.0 && (p.mode == 1 || p.mode == 2) && q < 0.0 ==> Moves(q, dtg, az) == p'.avail - p.avail)
    && (p.mode != 1 && p.mode != 2 ==> p'.avail == p.avail)
  }

  lemma DebitedPays(e: Setting, c: Cells, dtg: real, j: int, i: int, pond: Pond)
    requires e.Ok() && e.g.box.Has2(j, i) && HasTop(e.g, j, i) && dtg > 0.0 && e.opt.coupled
    ensures Pays(pond, Debited(e, c, dtg, j, i, pond), ZFlux(e, c, pond, dtg, j, i, e.g.ktop(j, i)), dtg, e.g.az)
  {
    var x := TopCellOf(e, c, j, i, pond);
    if pond.avail >= 0.0 && (pond.mode == 1 || pond.mode == 2) { WetFlux(x, e.g.az, dtg, pond); }
    assert ZFlux(e, c, pond, dtg, j, i, e.g.ktop(j, i)) == TopFlux(x, e.g.az, dtg, pond).0;
    assert pond.mode != 1 && pond.mode != 2 ==> TopFlux(x, e.g.az, dtg, pond).1 == pond.avail;
    hide TopCellOf, TopFlux, ZFlux, Moves;
  }

  /** A surface cell after the bookkeeping of its column's top flux q. */
  function BookedTop(e: Setting, c: Cells, dtg: real, j: int, i: int, pond: Pond, q: real): Pond
    requires e.Ok() && e.g.box.Has2(j, i)
  {
    if HasTop(e.g, j, i) then Booking(TopCellOf(e, c, j, i, pond), e.g.az, dtg, e.opt.minDepth, pond, q) else pond
  }

  /** The column's shares of the exchanged, bounced and evaporated volumes. */
  function ExchangedAt(e: Setting, dtg: real, j: int, i: int, q: real): real {
    if HasTop(e.g, j, i) then q * dtg else 0.0
  }
  function BouncedAt(e: Setting, c: Cells, dtg: real, j: int, i: int, pond: Pond, q: real): real
    requires e.Ok()
  {
    if HasTop(e.g, j, i) && Bounces(TopCellOf(e, c, j, i, pond), e.g.az, dtg, e.opt.minDepth, pond, q)
    then Moves(-q, dtg, e.g.az) * e.g.az else 0.0
  }
  function EvaporatedAt(e: Setting, c: Cells, dtg: real, j: int, i: int, pond: Pond, q: real): real
    requires e.Ok()
  {
    if HasTop(e.g, j, i) && Evaporates(TopCellOf(e, c, j, i, pond), e.opt.minDepth, Lifted(e, c, dtg, j, i, pond, q))
    then e.bc.top(j, i).value * dtg * e.g.az else 0.0
  }

  /** The surface cell the evaporation guard sees: after a bounce. */
  function Lifted(e: Setting, c: Cells, dtg: real, j: int, i: int, pond: Pond, q: real): Pond
    requires e.Ok() && HasTop(e.g, j, i)
  {
    if Bounces(TopCellOf(e, c, j, i, pond), e.g.az, dtg, e.opt.minDepth, pond, q)
      then pond.Raised(Moves(-q, dtg, e.g.az)) else pond
  }

  /** One column's bookkeeping moves its standing water by exchange plus bounce minus evaporation. */
  lemma BookedStanding(e: Setting, c: Cells, dtg: real, j: int, i: int, pond: Pond, q: real)
    requires e.Ok() && e.g.box.Has2(j, i) && dtg > 0.0
    ensures var b := BookedTop(e, c, dtg, j, i, pond, q);
      && (b.eta + b.seepAccum) * e.g.az
         == (pond.eta + pond.seepAccum) * e.g.az + ExchangedAt(e, dtg, j, i, q) + BouncedAt(e, c, dtg, j, i, pond, q)
            - EvaporatedAt(e, c, dtg, j, i, pond, q)
      && b.gain * e.g.az == pond.gain * e.g.az + BouncedAt(e, c, dtg, j, i, pond, q)
      && BouncedAt(e, c, dtg, j, i, pond, q) >= 0.0
  {
    if HasTop(e.g, j, i) {
      var az, x := e.g.az, TopCellOf(e, c, j, i, pond);
      var b, d := BookedTop(e, c, dtg, j, i, pond, q), Moves(-q, dtg, az);
      MovesLinear(q, dtg, az);
      MovesVolume(q, dtg, az);
      var bounced := if Bounces(x, az, dtg, e.opt.minDepth, pond, q) then d else 0.0;
      var gone := if Evaporates(x, e.opt.minDepth, Lifted(e, c, dtg, j, i, pond, q)) then x.value * dtg else 0.0;
      assert Evaporates(x, e.opt.minDepth, Lifted(e, c, dtg, j, i, pond, q))
             == Evaporates(x, e.opt.minDepth,
                           Lifted(e, c, dtg, j, i, pond, q).(seepAccum := pond.seepAccum + Moves(q, dtg, az)));
      assert b.eta + b.seepAccum == pond.eta + pond.seepAccum + bounced + Moves(q, dtg, az) - gone;
      assert b.gain == pond.gain + bounced;
      hide BookedTop, Booking, Moves;
      FourTimes(pond.eta + pond.seepAccum, bounced, Moves(q, dtg, az), gone, az);
      FourTimes(pond.gain, bounced, 0.0, 0.0, az);
      if bounced > 0.0 { PositiveTimes(bounced, az); }
    }
  }

  lemma MovesVolume(q: real, dtg: real, az: real)
    requires az > 0.0
    ensures Moves(q, dtg, az) * az == q * dtg
  {
  }

  lemma FourTimes(a: real, b: real, c: real, d: real, z: real)
    ensures (a + b + c - d) * z == a * z + b * z + c * z - d * z
  {
  }

  lemma PositiveTimes(a: real, z: real)
    requires a > 0.0 && z > 0.0
    ensures a * z > 0.0
  {
  }

  // ----- the whole block's bookkeeping

  /** Surface cells before and after the bookkeeping, with the block's three sums. */
  lemma BookedStore(e: Setting, c: Cells, dtg: real, s: Ponds, s': Ponds, q: Field2, x: Field2, b: Field2, v: Field2)
    requires e.Ok() && dtg > 0.0
    requires forall j, i :: e.g.box.Has2(j, i) ==>
      && s'(j, i) == BookedTop(e, c, dtg, j, i, s(j, i), q(j, i))
      && x(j, i) == ExchangedAt(e, dtg, j, i, q(j, i)) && b(j, i) == BouncedAt(e, c, dtg, j, i, s(j, i), q(j, i))
      && v(j, i) == EvaporatedAt(e, c, dtg, j, i, s(j, i), q(j, i))
    ensures SurfaceStore(e.g, s') == SurfaceStore(e.g, s) + Sum2(e.g.box, x) + Sum2(e.g.box, b) - Sum2(e.g.box, v)
    ensures GainStore(e.g, s') == GainStore(e.g, s) + Sum2(e.g.box, b)
    ensures Sum2(e.g.box, b) >= 0.0
  {
    hide *;
    var a, a', n, n' := Standing(e.g, s), Standing(e.g, s'), Gains(e.g, s), Gains(e.g, s');
    forall j, i | e.g.box.Has2(j, i)
      ensures a'(j, i) == a(j, i) + x(j, i) + b(j, i) - v(j, i) && n'(j, i) == n(j, i) + b(j, i) && b(j, i) >= 0.0
    {
      BookedFields(e, c, dtg, s, s', q(j, i), j, i);
    }
    StoreIs(e.g, s);
    StoreIs(e.g, s');
    AddFields(e.g.box, a, x, b, v, a');
    Sum2Linear(e.g.box, n, 1.0, b, n');
    Sum2Nonneg(e.g.box, b);
  }

  lemma StoreIs(g: Geometry, s: Ponds)
    ensures SurfaceStore(g, s) == Sum2(g.box, Standing(g, s)) && GainStore(g, s) == Sum2(g.box, Gains(g, s))
  {
  }

  lemma BookedFields(e: Setting, c: Cells, dtg: real, s: Ponds, s': Ponds, q: real, j: int, i: int)
    requires e.Ok() && dtg > 0.0 && e.g.box.Has2(j, i)
    requires s'(j, i) == BookedTop(e, c, dtg, j, i, s(j, i), q)
    ensures Standing(e.g, s')(j, i)
            == Standing(e.g, s)(j, i) + ExchangedAt(e, dtg, j, i, q) + BouncedAt(e, c, dtg, j, i, s(j, i), q)
               - EvaporatedAt(e, c, dtg, j, i, s(j, i), q)
    ensures Gains(e.g, s')(j, i) == Gains(e.g, s)(j, i) + BouncedAt(e, c, dtg, j, i, s(j, i), q)
    ensures BouncedAt(e, c, dtg, j, i, s(j, i), q) >= 0.0
  {
    hide BookedTop, ExchangedAt, BouncedAt, EvaporatedAt;
    BookedStanding(e, c, dtg, j, i, s(j, i), q);
  }

  lemma AddFields(box: Box, a: Field2, x: Field2, b: Field2, v: Field2, r: Field2)
    requires forall j, i :: box.Has2(j, i) ==> r(j, i) == a(j, i) + x(j, i) + b(j, i) - v(j, i)
    ensures Sum2(box, r) == Sum2(box, a) + Sum2(box, x) + Sum2(box, b) - Sum2(box, v)
  {
    hide Sum2;
    var ax := (j, i) => a(j, i) + x(j, i);
    var axb := (j, i) => a(j, i) + x(j, i) + b(j, i);
    Sum2Linear(box, a, 1.0, x, ax);
    Sum2Linear(box, ax, 1.0, b, axb);
    Sum2Linear(box, axb, -1.0, v, r);
  }

  /** Classification, exchange and bookkeeping are one substep of the column's surface cell. */
  lemma BookedIsSubstep(e: Setting, c: Cells, c': Cells, dtg: real, j: int, i: int, pond: Pond)
    requires e.Ok() && e.g.box.Has2(j, i) && dtg > 0.0
    requires HasTop(e.g, j, i) ==> c(j, i, e.g.ktop(j, i)).hn == c'(j, i, e.g.ktop(j, i)).hn
    requires e.opt.coupled
    ensures var p1 := Moded(e, c, dtg, j, i, pond);
      var p3 := BookedTop(e, c', dtg, j, i, Debited(e, c', dtg, j, i, p1), ZFlux(e, c', p1, dtg, j, i, e.g.ktop(j, i)));
      p3 == if HasTop(e.g, j, i) then Substep(TopCellOf(e, c', j, i, pond), e.g.az, dtg, e.opt.minDepth, pond)
        else pond.(mode := 0)
  {
    if HasTop(e.g, j, i) {
      var x, p1 := TopCellOf(e, c', j, i, pond), pond.(mode := TopMode(TopCellOf(e, c', j, i, pond), dtg, pond));
      assert Moded(e, c, dtg, j, i, pond) == p1 by { SameMode(e, c, c', dtg, j, i, pond); }
      var r := TopFlux(x, e.g.az, dtg, p1);
      SameReading(e, c', j, i, pond, p1);
      SameReading(e, c', j, i, pond, p1.(avail := r.1));
      assert ZFlux(e, c', p1, dtg, j, i, e.g.ktop(j, i)) == r.0;
      hide TopCellOf, TopMode, TopFlux, Booking, ZFlux;
    }
  }

  /** The classification reads the frozen head and the surface alone. */
  lemma SameMode(e: Setting, c: Cells, c': Cells, dtg: real, j: int, i: int, pond: Pond)
    requires e.Ok() && HasTop(e.g, j, i) && c(j, i, e.g.ktop(j, i)).hn == c'(j, i, e.g.ktop(j, i)).hn
    ensures TopMode(TopCellOf(e, c, j, i, pond), dtg, pond) == TopMode(TopCellOf(e, c', j, i, pond), dtg, pond)
  {
    hide ConductivityFromHead;
  }

  /** A top cell's readings do not depend on the budget or the mode. */
  lemma SameReading(e: Setting, c: Cells, j: int, i: int, pond: Pond, p: Pond)
    requires e.Ok() && HasTop(e.g, j, i) && p == pond.(avail := p.avail, mode := p.mode)
    ensures TopCellOf(e, c, j, i, p) == TopCellOf(e, c, j, i, pond)
  {
    hide ConductivityFromHead;
  }

  /** Cells that give a column's top the same readings. */
  ghost predicate SameTop(g: Geometry, c: Cells, c': Cells, j: int, i: int) {
    HasTop(g, j, i) ==>
      var x, y := c(j, i, g.ktop(j, i)), c'(j, i, g.ktop(j, i)); y.h == x.h && y.hn == x.hn && y.wc == x.wc
  }

  /** A column's top over a whole step: classified on the cells c0 before the solve, exchanged on
      the cells c after it, booked on c' with the lateral fluxes filled in. */
  function ToppedUp(e: Setting, c0: Cells, c: Cells, c': Cells, dtg: real, j: int, i: int, pond: Pond): Pond
    requires e.Ok() && e.g.box.Has2(j, i) && dtg > 0.0
  {
    var p := Moded(e, c0, dtg, j, i, pond);
    if HasTop(e.g, j, i)
    then BookedTop(e, c', dtg, j, i, Debited(e, c, dtg, j, i, p), ZFlux(e, c, p, dtg, j, i, e.g.ktop(j, i)))
    else p
  }

  lemma BareColumn(e: Setting, c: Cells, c': Cells, dtg: real, j: int, i: int, pond: Pond, q: real)
    requires e.Ok() && e.g.box.Has2(j, i) && dtg > 0.0 && !HasTop(e.g, j, i)
    ensures BookedTop(e, c', dtg, j, i, Debited(e, c, dtg, j, i, pond), q) == pond
  {
  }

  lemma ToppedUpKeepsFunding(e: Setting, c0: Cells, c: Cells, c': Cells, dtg: real, j: int, i: int, pond: Pond)
    requires e.Ok() && e.g.box.Has2(j, i) && dtg > 0.0 && e.opt.coupled
    requires HasTop(e.g, j, i) ==> c0(j, i, e.g.ktop(j, i)).hn == c(j, i, e.g.ktop(j, i)).hn
    requires SameTop(e.g, c, c', j, i)
    ensures KeepsFunding(pond, ToppedUp(e, c0, c, c', dtg, j, i, pond), e.opt.minDepth,
                         NoForcedInfiltration(e.bc.top(j, i).code, e.bc.top(j, i).value))
  {
    BookedIsSubstep(e, c0, c, dtg, j, i, pond);
    var p := Moded(e, c0, dtg, j, i, pond);
    var d := Debited(e, c, dtg, j, i, p);
    if HasTop(e.g, j, i) {
      assert TopCellOf(e, c', j, i, d) == TopCellOf(e, c, j, i, d);
      SubstepKeepsFunding(TopCellOf(e, c, j, i, pond), e.g.az, dtg, e.opt.minDepth, pond);
      hide Moded, Debited, Substep, Booking, ZFlux, TopCellOf, KeepsFunding;
    }
  }

  /** What lies between a block's state before the solve (c0), at the fluxes (c) and after them (c'). */
  ghost predicate Staged(g: Geometry, c0: Cells, c: Cells, c': Cells) {
    forall j, i :: g.box.Has2(j, i) ==>
      (HasTop(g, j, i) ==> c0(j, i, g.ktop(j, i)).hn == c(j, i, g.ktop(j, i)).hn) && SameTop(g, c, c', j, i)
  }

  lemma TopsKeepFunding(e: Setting, c0: Cells, c: Cells, c': Cells, dtg: real, s: Ponds, s': Ponds)
    requires e.Ok() && dtg > 0.0 && e.opt.coupled && Staged(e.g, c0, c, c')
    requires forall j, i :: e.g.box.Has2(j, i) ==> s'(j, i) == ToppedUp(e, c0, c, c', dtg, j, i, s(j, i))
    ensures AllKeepFunding(e.g, s, s', e.opt.minDepth, SafeTops(e.bc))
  {
    hide KeepsFunding, ToppedUp, NoForcedInfiltration;
    forall j, i | e.g.box.Has2(j, i) ensures KeepsFunding(s(j, i), s'(j, i), e.opt.minDepth, SafeTops(e.bc)(j, i)) {
      ToppedUpKeepsFunding(e, c0, c, c', dtg, j, i, s(j, i));
    }
  }

  // ----- the final clamp

  function ClampedContent(wc: real, s: VgSoil): real {
    if wc > s.thetaS then s.thetaS else if wc < s.thetaR then s.thetaR else wc
  }

  /** The volume the clamp removes from (+) or creates in (-) a cell. */
  function ClampLoss(wc: real, s: VgSoil, vol: real): real {
    if wc > s.thetaS then (wc - s.thetaS) * vol else if wc < s.thetaR then -((s.thetaR - wc) * vol) else 0.0
  }

  lemma ClampBalance(wc: real, s: VgSoil, vol: real)
    ensures ClampedContent(wc, s) * vol == wc * vol - ClampLoss(wc, s, vol)
    ensures vol > 0.0 && wc <= s.thetaS ==> ClampLoss(wc, s, vol) <= 0.0
    ensures s.thetaR <= s.thetaS ==> s.thetaR <= ClampedContent(wc, s) <= s.thetaS
  {
    if vol > 0.0 && wc < s.thetaR { PositiveTimes(s.thetaR - wc, vol); }
  }

  ghost function LossField(g: Geometry, soil: Soil, c: Cells): Field3 {
    (j, i, k) => if g.Active(j, i, k) then ClampLoss(c(j, i, k).wc, soil.at(j, i, k), g.Vol(j, i, k)) else 0.0
  }

  lemma ClampVolume(g: Geometry, soil: Soil, c: Cells, c': Cells)
    requires g.Ok()
    requires forall j, i, k :: g.Active(j, i, k) ==> c'(j, i, k).wc == ClampedContent(c(j, i, k).wc, soil.at(j, i, k))
    ensures Volume(g, c') == Volume(g, c) - Sum3(g.box, LossField(g, soil, c))
    ensures (forall j, i :: g.box.Has2(j, i) ==> ColumnReady(g, soil, c, j, i)) ==>
      Sum3(g.box, LossField(g, soil, c)) <= 0.0
  {
    var loss := LossField(g, soil, c);
    forall j, i, k | g.box.Has(j, i, k)
      ensures WaterField(g, c')(j, i, k) == WaterField(g, c)(j, i, k) + -1.0 * loss(j, i, k)
    {
      CellClamp(g, soil, c, c', j, i, k);
    }
    hide WaterField, LossField, ColumnReady, ClampedContent, Sum3;
    Sum3Linear(g.box, WaterField(g, c), -1.0, loss, WaterField(g, c'));
    if forall j, i :: g.box.Has2(j, i) ==> ColumnReady(g, soil, c, j, i) { ReadyLoss(g, soil, c); }
  }

  /** Over ready columns the clamp only adds. */
  lemma ReadyLoss(g: Geometry, soil: Soil, c: Cells)
    requires g.Ok() && forall j, i :: g.box.Has2(j, i) ==> ColumnReady(g, soil, c, j, i)
    ensures Sum3(g.box, LossField(g, soil, c)) <= 0.0
  {
    var loss := LossField(g, soil, c);
    var gain := Scaled(-1.0, loss);
    forall j, i, k | g.box.Has(j, i, k) ensures gain(j, i, k) >= 0.0 {
      assert ColumnReady(g, soil, c, j, i);
      ReadyGains(g, soil, c, j, i, k);
    }
    hide LossField, ColumnReady, Sum3;
    Sum3Nonneg(g.box, gain);
    Sum3Scaled(g.box, -1.0, loss);
  }

  lemma CellClamp(g: Geometry, soil: Soil, c: Cells, c': Cells, j: int, i: int, k: int)
    requires g.Ok() && g.Active(j, i, k) ==> c'(j, i, k).wc == ClampedContent(c(j, i, k).wc, soil.at(j, i, k))
    ensures g.Ok() ==> WaterField(g, c')(j, i, k) == WaterField(g, c)(j, i, k) + -1.0 * LossField(g, soil, c)(j, i, k)
  {
    ClampBalance(c(j, i, k).wc, soil.at(j, i, k), g.Vol(j, i, k));
    hide ClampedContent, ClampLoss;
  }

  /** The clamp takes its loss out of each cell. */
  lemma LossIs(g: Geometry, soil: Soil, c: Cells, c': Cells)
    requires forall j, i, k :: g.Active(j, i, k) ==> c'(j, i, k).wc == ClampedContent(c(j, i, k).wc, soil.at(j, i, k))
    ensures forall j, i, k :: g.Active(j, i, k) ==>
              Content(g, c', j, i, k) == Content(g, c, j, i, k) - LossField(g, soil, c)(j, i, k)
  {
    forall j, i, k | g.Active(j, i, k)
      ensures Content(g, c', j, i, k) == Content(g, c, j, i, k) - LossField(g, soil, c)(j, i, k)
    {
      ClampBalance(c(j, i, k).wc, soil.at(j, i, k), g.Vol(j, i, k));
      hide ClampedContent, ClampLoss;
    }
  }

  lemma ReadyGains(g: Geometry, soil: Soil, c: Cells, j: int, i: int, k: int)
    requires g.Ok() && g.box.Has(j, i, k) && ColumnReady(g, soil, c, j, i)
    ensures LossField(g, soil, c)(j, i, k) <= 0.0
  {
    if g.Active(j, i, k) {
      assert Ready(c(j, i, k), soil.at(j, i, k).thetaS, g.Vol(j, i, k));
      ClampBalance(c(j, i, k).wc, soil.at(j, i, k), g.Vol(j, i, k));
    }
    hide ClampLoss;
  }

  /** The boundary inflow reads only the fluxes. */
  lemma SameBoundaryIn(g: Geometry, c: Cells, c': Cells, f: Faces, f': Faces, dtg: real)
    requires forall j, i, k :: 0 <= j <= g.box.ny + 1 && 0 <= i <= g.box.nx + 1 && 0 <= k < g.box.nz ==>
      c'(j, i, k).qx == c(j, i, k).qx && c'(j, i, k).qy == c(j, i, k).qy
    requires forall j, i, k :: g.box.Has2(j, i) && 0 <= k <= g.box.nz ==> f'(j, i, k).q == f(j, i, k).q
    ensures BoundaryIn(g, c', f', dtg) == BoundaryIn(g, c, f, dtg)
  {
    forall j, i, k | g.box.Has(j, i, k)
      ensures BoundaryTerms(g, c', f', dtg)(j, i, k) == BoundaryTerms(g, c, f, dtg)(j, i, k)
    {
      assert HullOf(g, c', f', j, i, k) == HullOf(g, c, f, j, i, k);
    }
    Sum3Ext(g.box, BoundaryTerms(g, c', f', dtg), BoundaryTerms(g, c, f, dtg));
  }

  lemma SameBoundary(g: Geometry, c: Cells, c': Cells, f: Faces, f': Faces, dtg: real)
    requires LateralsSame(g, c, c')
    requires forall j, i, k :: g.box.Has2(j, i) && 0 <= k <= g.box.nz ==> f'(j, i, k).q == f(j, i, k).q
    ensures BoundaryIn(g, c', f', dtg) == BoundaryIn(g, c, f, dtg)
  {
    SameBoundaryIn(g, c, c', f, f', dtg);
  }

  lemma SameCrossing(g: Geometry, c: Cells, c': Cells, dtg: real)
    requires LateralsSame(g, c, c')
    ensures CrossIn(g, c', dtg) == CrossIn(g, c, dtg)
  {
    SameCrossIn(g, c, c', dtg);
  }

  lemma SameVolume(g: Geometry, c: Cells, c': Cells)
    requires forall j, i, k :: g.Active(j, i, k) ==> c'(j, i, k).wc == c(j, i, k).wc
    ensures Volume(g, c') == Volume(g, c)
  {
    Sum3Ext(g.box, WaterField(g, c'), WaterField(g, c));
  }

  lemma SameStart(g: Geometry, c: Cells, c': Cells)
    requires forall j, i, k :: g.Active(j, i, k) ==> c'(j, i, k).wcn == c(j, i, k).wcn
    ensures VolumeStart(g, c') == VolumeStart(g, c)
  {
    Sum3Ext(g.box, WaterStartField(g, c'), WaterStartField(g, c));
  }

  lemma FrozenVolume(g: Geometry, c: Cells, c': Cells)
    requires forall j, i, k :: g.Active(j, i, k) ==> c'(j, i, k).wcn == c(j, i, k).wc
    ensures VolumeStart(g, c') == Volume(g, c)
  {
    Sum3Ext(g.box, WaterStartField(g, c'), WaterField(g, c));
  }
}
