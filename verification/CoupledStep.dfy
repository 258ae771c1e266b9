/** A whole coupled step (src/coupling/Coupler.cpp:52-99): the free-surface phase, the window on the levels
    it leaves, and the geometry the next step starts from. */
module CoupledStep {
  import opened Sums
  import opened GroundwaterTerms
  import opened SweepLedger
  import opened Corrector
  import opened Coupling
  import W = SurfaceSystem
  import F = FreeSurface
  import S = SurfaceStep

  // ----- the surface's levels and the ponded store

  /** The surface's cells w lie on the ponds p of block b: one grid, one area, one level. */
  ghost predicate LiesOn(g: W.Plan, b: Geometry, w: W.Waters, p: Ponds) {
    && g.ny == b.box.ny && g.nx == b.box.nx && g.CellArea() == b.az
    && forall j, i :: g.Has(j, i) ==> w(j, i).eta == p(j, i).eta
  }

  /** The levels of a surface, as the window takes them. */
  function LevelsOf(w: W.Waters): (r: Field2)
    ensures forall j, i :: r(j, i) == w(j, i).eta
  {
    (j, i) => w(j, i).eta
  }

  lemma SameBox(b: Box, c: Box, f: Field2)
    requires b.ny == c.ny && b.nx == c.nx
    ensures Sum2(b, f) == Sum2(c, f)
  {
    forall j ensures RowSum(b, f, j) == RowSum(c, f, j) {}
    hide RowSum;
    SumExt(1, b.ny + 1, j => RowSum(b, f, j), j => RowSum(c, f, j));
  }

  lemma AreaTwice(a: real, x: real, y: real, acc: real)
    ensures (x + acc) * a == (y + acc) * a + a * (x - y)
  {
  }

  lemma StandingMoves(g: W.Plan, b: Geometry, w: W.Waters, r: W.Waters, p: Ponds, bottom: Field2, minDepth: real,
                      j: int, i: int)
    requires LiesOn(g, b, w, p) && b.box.Has2(j, i)
    ensures Standing(b, AfterSolve(p, LevelsOf(r), bottom, minDepth))(j, i)
            == Standing(b, p)(j, i) + 1.0 * S.Moved(g, w, r)(j, i)
  {
    AreaTwice(b.az, r(j, i).eta, w(j, i).eta, p(j, i).seepAccum);
    assert g.Has(j, i);
    hide W.Plan.CellArea, Refreshed;
  }

  lemma SameExtents(g: W.Plan, b: Geometry, w: W.Waters, p: Ponds)
    requires LiesOn(g, b, w, p)
    ensures b.box.ny == g.Grid().ny && b.box.nx == g.Grid().nx
  {
  }

  /** What moves the levels moves the ponded store with them. */
  lemma PondedMoves(g: W.Plan, b: Geometry, w: W.Waters, r: W.Waters, p: Ponds, bottom: Field2, minDepth: real)
    requires LiesOn(g, b, w, p)
    ensures PondedStore(b, AfterSolve(p, LevelsOf(r), bottom, minDepth), bottom)
            == PondedStore(b, p, bottom) + S.Level(g, r) - S.Level(g, w)
  {
    hide *;
    var q := AfterSolve(p, LevelsOf(r), bottom, minDepth);
    SameExtents(g, b, w, p);
    S.LevelMoves(g, w, r);
    SameBox(b.box, g.Grid(), S.Moved(g, w, r));
    forall j, i | b.box.Has2(j, i)
      ensures Standing(b, q)(j, i) == Standing(b, p)(j, i) + 1.0 * S.Moved(g, w, r)(j, i)
    {
      StandingMoves(g, b, w, r, p, bottom, minDepth, j, i);
    }
    Sum2Linear(b.box, Standing(b, p), 1.0, S.Moved(g, w, r), Standing(b, q));
    StoreIs(b, p);
    StoreIs(b, q);
    PondedParts(b, p, bottom);
    PondedParts(b, q, bottom);
  }

  // ----- the step

  class CoupledSolver {
    const surface: S.SurfaceSolver
    const coupler: Coupler

    /** The two solvers share the grid, the beds and the levels; the block is the whole domain, and no
        accumulator is negative. */
    ghost predicate Valid()
      reads surface.free`g, surface.free.cells, coupler.gw.ponds
    {
      && surface.Valid() && coupler.Valid() && coupler.gw.g.Whole()
      && W.Shaped(surface.free.g, surface.Now())
      && LiesOn(surface.free.g, coupler.gw.g, surface.Now(), coupler.gw.PondsNow())
      && forall j, i :: surface.free.g.Has(j, i) ==>
           surface.Now()(j, i).bottom == coupler.bottom(j, i) && coupler.gw.PondsNow()(j, i).seepAccum >= 0.0
    }

    constructor (surface: S.SurfaceSolver, coupler: Coupler)
      ensures this.surface == surface && this.coupler == coupler
    {
      this.surface, this.coupler := surface, coupler;
    }

    /** The ghosts' levels and the window's on the surface, and the geometry under them. */
    method TakeLevels(ghosts: Field2)
      requires surface.Valid() && F.Staged(surface.free.g, surface.Now())
      modifies surface.free.cells
      ensures W.Shaped(surface.free.g, surface.Now())
      ensures forall j, i :: surface.free.g.Has(j, i) ==>
        var w, y := old(surface.Now())(j, i), surface.Now()(j, i);
        y.eta == coupler.gw.PondsNow()(j, i).eta && y.bottom == w.bottom
      ensures forall j, i :: surface.Now()(j, i).stage == old(surface.Now())(j, i).stage
    {
      ghost var g, w, p := surface.free.g, surface.Now(), coupler.gw.PondsNow();
      LevelCells(ghosts);
      ghost var m := surface.Now();
      hide *;
      Levelled(g, w, m, p, ghosts);
      StagedStill(g, w, m);
      surface.free.RefreshGeometry();
      RefreshedLevels(g, w, m, surface.Now(), p);
    }

    method LevelCells(ghosts: Field2)
      requires surface.Valid()
      modifies surface.free.cells
      ensures forall j, i ::
        surface.Now()(j, i) == if F.Outside(surface.free.g, j, i) then old(surface.Now())(j, i)
          else AtLevel(surface.free.g, coupler.gw.PondsNow(), ghosts, old(surface.Now())(j, i), j, i)
    {
      hide AtLevel;
      var g, p := surface.free.g, coupler.gw.PondsNow();
      forall j, i | 0 <= j <= g.ny + 1 && 0 <= i <= g.nx + 1 {
        surface.free.cells[j, i] := AtLevel(g, p, ghosts, surface.free.cells[j, i], j, i);
      }
    }

    /** The water on the beds and in transit, now and as the window opens on the levels eta. */
    ghost function Ponded(): real
      reads coupler.gw.ponds
    {
      PondedStore(coupler.gw.g, coupler.gw.PondsNow(), coupler.bottom)
    }
    ghost function Opening(eta: Field2): real
      reads coupler.gw.ponds
    {
      PondedStore(coupler.gw.g, AfterSolve(coupler.gw.PondsNow(), eta, coupler.bottom, coupler.gw.opt.minDepth),
                  coupler.bottom)
    }

    /** The free-surface phase; the subsurface is not touched. */
    method SolveSurface(dt: real, x: S.Surge, solver: F.Solver)
      returns (eta: Field2, ghost filled: real, ghost dried: real)
      requires Valid() && dt > 0.0 && x.Ok() && F.Exact(surface.free.g.(dt := dt), solver)
      requires F.Apart(surface.free.g, surface.Now(), x.c)
      modifies surface, surface.free.cells, surface.free.rows, surface.free.vector, surface.free`g,
               surface.free`bcInflow, surface.free`boundaryOutflow
      ensures surface.Valid() && surface.free.g == old(surface.free.g).(dt := dt)
      ensures F.Staged(surface.free.g, surface.Now())
      ensures forall j, i :: surface.free.g.Has(j, i) ==>
                surface.Now()(j, i).bottom == old(surface.Now())(j, i).bottom
      ensures forall j, i :: surface.Now()(j, i).stage == old(surface.Now())(j, i).stage
      ensures forall j, i :: surface.free.g.Has(j, i) ==> eta(j, i) >= surface.Now()(j, i).bottom
      ensures Opening(eta) == Ponded() + surface.AuditNow().Net() + filled - dried && dried >= 0.0
      ensures (forall j, i :: surface.free.g.Has(j, i) ==> !old(surface.Now())(j, i).stage) ==> filled == 0.0
    {
      hide *;
      ghost var g, w, p := surface.free.g, surface.Now(), coupler.gw.PondsNow();
      ValidParts();
      surface.BeginStep(dt, x);
      ghost var b := surface.Now();
      StepBegun(g, dt, x, w, b);
      SameCells(g, dt);
      filled, dried := surface.SolveFreeSurface(x, solver);
      ghost var r := surface.Now();
      eta := LevelsOf(surface.Now());
      SurfacePhase(g.(dt := dt), w, b, r);
      SameLevel(g, dt, r);
      PondedMoves(g, coupler.gw.g, w, r, p, coupler.bottom, coupler.gw.opt.minDepth);
      PondedIs(eta);
    }

    lemma PondedIs(eta: Field2)
      ensures Ponded() == PondedStore(coupler.gw.g, coupler.gw.PondsNow(), coupler.bottom)
      ensures Opening(eta) == PondedStore(coupler.gw.g,
                                          AfterSolve(coupler.gw.PondsNow(), eta, coupler.bottom,
                                                     coupler.gw.opt.minDepth), coupler.bottom)
    {
      hide PondedStore, AfterSolve;
    }

    /** Main result: one whole coupled step.  Water on the beds, in transit and below them changes by
        exactly what the audits of the surface phase and of the window say, by what prescribed stages
        bring, and by what the limiter dries, which is never negative.  The step leaves a state the next
        one can start from, with no level below its bed; without forced infiltration the window's clamp
        cuts nothing. */
    method Step(t: real, dt: real, x: S.Surge, solver: F.Solver, d: Driver, ghosts: Field2)
      returns (ok: bool, ghost filled: real, ghost dried: real)
      requires Valid() && dt > 0.0 && x.Ok() && (!coupler.sync ==> coupler.gw.ctl.Admits(coupler.dtg))
      requires F.Exact(surface.free.g.(dt := dt), solver) && F.Apart(surface.free.g, surface.Now(), x.c)
      modifies surface, surface.free.cells, surface.free.rows, surface.free.vector, surface.free`g,
               surface.free`bcInflow, surface.free`boundaryOutflow
      modifies coupler, coupler.gw`bc, coupler.gw`ratios, coupler.gw`audit, coupler.gw`dtg, coupler.gw`dtgNext,
               coupler.gw.cells, coupler.gw.faces, coupler.gw.ponds
      ensures surface.free.g == old(surface.free.g).(dt := dt) && dried >= 0.0
      ensures if ok then Valid() && coupler.gw.ctl.Admits(coupler.dtg) else !coupler.CanStep(d)
      ensures ok ==> forall j, i :: surface.Now()(j, i).stage == old(surface.Now())(j, i).stage
      ensures ok ==> forall j, i :: surface.free.g.Has(j, i) ==> surface.Now()(j, i).eta >= coupler.bottom(j, i)
      ensures ok && UnitRatios(d) ==>
        var a := coupler.audit;
        coupler.Store()
        == old(coupler.Store()) + surface.AuditNow().Net() + filled - dried
           + (a.gw.boundaryIn + a.gw.cplExchanged + a.gw.cplVent) + a.gw.cplBounce - a.gw.cplEvap
           + a.discarded - a.gw.ssStorage + a.gw.reallocAdjust - a.gw.vloss
      ensures (forall j, i :: surface.free.g.Has(j, i) ==> !old(surface.Now())(j, i).stage) ==> filled == 0.0
      ensures ok ==> coupler.audit.discarded >= 0.0 && (NoForcedTops(d) ==> coupler.audit.discarded == 0.0)
      ensures ok ==> if coupler.sync then coupler.tSub == t
                     else t - coupler.tSub < coupler.dtg - SLACK
                          && (old(coupler.tSub) <= t + SLACK ==> -SLACK <= t - coupler.tSub)
      ensures ok ==> coupler.audit.surfaceGain
                     == coupler.audit.applied + coupler.audit.gw.cplBounce + coupler.audit.gw.cplVent
    {
      hide *;
      ghost var g, w, p := surface.free.g, surface.Now(), coupler.gw.PondsNow();
      ValidParts();
      coupler.StoreIs();
      var eta;
      eta, filled, dried := SolveSurface(dt, x, solver);
      PondedIs(eta);
      ghost var r := surface.Now();
      SameCells(g, dt);
      OpensAbove(g, coupler.gw.g, w, r, p, eta, coupler.bottom);
      ghost var steps;
      ok, steps := coupler.Step(t, dt, eta, d);
      if ok {
        TakeLevels(ghosts);
        StillValid(g, dt, w, r);
      }
    }

    lemma ValidParts()
      requires Valid()
      ensures surface.Valid() && coupler.Valid() && coupler.gw.g.Ok() && coupler.gw.g.Whole()
      ensures W.Shaped(surface.free.g, surface.Now())
      ensures LiesOn(surface.free.g, coupler.gw.g, surface.Now(), coupler.gw.PondsNow())
      ensures surface.free.g.ny == coupler.gw.g.box.ny && surface.free.g.nx == coupler.gw.g.box.nx
      ensures forall j, i :: surface.free.g.Has(j, i) ==> surface.Now()(j, i).bottom == coupler.bottom(j, i)
      ensures forall j, i :: surface.free.g.Has(j, i) ==> coupler.gw.PondsNow()(j, i).seepAccum >= 0.0
    {
    }

    lemma StillValid(g: W.Plan, dt: real, w: W.Waters, r: W.Waters)
      requires surface.Valid() && coupler.Valid() && coupler.gw.g.Whole()
      requires surface.free.g == g.(dt := dt) && W.Shaped(surface.free.g, surface.Now())
      requires g.ny == coupler.gw.g.box.ny && g.nx == coupler.gw.g.box.nx && g.CellArea() == coupler.gw.g.az
      requires forall j, i :: g.Has(j, i) ==> r(j, i).bottom == w(j, i).bottom && w(j, i).bottom == coupler.bottom(j, i)
      requires forall j, i :: surface.free.g.Has(j, i) ==>
        surface.Now()(j, i).eta == coupler.gw.PondsNow()(j, i).eta && surface.Now()(j, i).bottom == r(j, i).bottom
      requires forall j, i :: coupler.gw.g.box.Has2(j, i) ==> coupler.gw.ponds[j, i].seepAccum >= 0.0
      requires forall j, i :: coupler.gw.g.box.Has2(j, i) ==> coupler.gw.ponds[j, i].eta >= coupler.bottom(j, i)
      ensures Valid()
      ensures forall j, i :: surface.free.g.Has(j, i) ==> surface.Now()(j, i).eta >= coupler.bottom(j, i)
    {
      assert g.(dt := dt).CellArea() == g.CellArea();
      hide W.Plan.CellArea, W.Shaped;
    }
  }

  /** A step begins on the levels and beds of the state before it, under its own conditions. */
  lemma StepBegun(g: W.Plan, dt: real, x: S.Surge, w: W.Waters, b: W.Waters)
    requires F.Apart(g, w, x.c) && forall j, i :: b(j, i).stage == w(j, i).stage
    requires forall j, i :: g.(dt := dt).Has(j, i) ==> b(j, i) == S.Begun(g.(dt := dt), x, w(j, i), j, i)
    ensures F.Apart(g.(dt := dt), b, x.c)
    ensures forall j, i :: g.Has(j, i) ==> b(j, i).eta == w(j, i).eta && b(j, i).bottom == w(j, i).bottom
    ensures S.Level(g.(dt := dt), b) == S.Level(g, w)
  {
    var h := g.(dt := dt);
    assert h.CellArea() == g.CellArea() && h.Grid() == g.Grid();
    assert forall j, i :: h.Has(j, i) == g.Has(j, i);
    forall j, i | F.Member(g, w, j, i) ensures F.Member(h, b, j, i) { assert b(j, i).stage == w(j, i).stage; }
    hide F.Member, Sum2, W.Plan.CellArea;
    Sum2Ext(g.Grid(), S.Standing(h, b), S.Standing(g, w));
  }

  lemma SameLevel(g: W.Plan, dt: real, r: W.Waters)
    ensures S.Level(g.(dt := dt), r) == S.Level(g, r)
  {
    var h := g.(dt := dt);
    assert h.CellArea() == g.CellArea() && h.Grid() == g.Grid();
    hide Sum2, W.Plan.CellArea;
    Sum2Ext(g.Grid(), S.Standing(h, r), S.Standing(g, r));
  }

  /** What the free-surface phase leaves besides the levels, and where it leaves them. */
  lemma SurfacePhase(g: W.Plan, w: W.Waters, b: W.Waters, r: W.Waters)
    requires W.Shaped(g, b) && S.AllSettled(g, r) && forall j, i :: F.OnlySolved(b(j, i), r(j, i))
    requires forall j, i :: b(j, i).stage == w(j, i).stage
    requires forall j, i :: g.Has(j, i) ==> b(j, i).bottom == w(j, i).bottom
    ensures F.Staged(g, r) && forall j, i :: r(j, i).stage == w(j, i).stage
    ensures forall j, i :: g.Has(j, i) ==> r(j, i).bottom == w(j, i).bottom && r(j, i).eta >= r(j, i).bottom
  {
    hide W.Plan.CellArea;
    forall j, i
      ensures r(j, i).dragX == b(j, i).dragX && r(j, i).dragY == b(j, i).dragY && r(j, i).stage == b(j, i).stage
              && r(j, i).bottom == b(j, i).bottom
    {
      assert F.OnlySolved(b(j, i), r(j, i));
    }
  }

  lemma SameCells(g: W.Plan, dt: real)
    ensures forall j, i :: g.(dt := dt).Has(j, i) == g.Has(j, i)
    ensures g.(dt := dt).ny == g.ny && g.(dt := dt).nx == g.nx
  {
  }

  /** The levels the phase leaves open the window above the beds. */
  lemma OpensAbove(g: W.Plan, b: Geometry, w: W.Waters, r: W.Waters, p: Ponds, eta: Field2, bottom: Field2)
    requires g.ny == b.box.ny && g.nx == b.box.nx
    requires forall j, i :: g.Has(j, i) ==> r(j, i).bottom == w(j, i).bottom && w(j, i).bottom == bottom(j, i)
    requires forall j, i :: g.Has(j, i) ==> eta(j, i) >= r(j, i).bottom && p(j, i).seepAccum >= 0.0
    ensures OpensDry(b, p, eta, bottom)
  {
  }

  /** A surface cell at the window's level, a ghost cell at its own. */
  function AtLevel(g: W.Plan, p: Ponds, ghosts: Field2, x: W.Water, j: int, i: int): W.Water {
    x.(eta := if g.Has(j, i) then p(j, i).eta else ghosts(j, i))
  }

  lemma Levelled(g: W.Plan, w: W.Waters, m: W.Waters, p: Ponds, ghosts: Field2)
    requires forall j, i ::
      m(j, i) == if F.Outside(g, j, i) then w(j, i) else AtLevel(g, p, ghosts, w(j, i), j, i)
    ensures forall j, i :: m(j, i) == w(j, i).(eta := m(j, i).eta)
    ensures forall j, i :: g.Has(j, i) ==> m(j, i).eta == p(j, i).eta
  {
  }

  lemma StagedStill(g: W.Plan, w: W.Waters, m: W.Waters)
    requires F.Staged(g, w) && forall j, i :: m(j, i) == w(j, i).(eta := m(j, i).eta)
    ensures F.Staged(g, m)
  {
    forall j, i ensures m(j, i).dragX == w(j, i).dragX && m(j, i).dragY == w(j, i).dragY
                        && m(j, i).stage == w(j, i).stage {
      assert m(j, i) == w(j, i).(eta := m(j, i).eta);
    }
  }

  lemma RefreshedLevels(g: W.Plan, w: W.Waters, m: W.Waters, y: W.Waters, p: Ponds)
    requires forall j, i :: m(j, i) == w(j, i).(eta := m(j, i).eta)
    requires forall j, i :: g.Has(j, i) ==> m(j, i).eta == p(j, i).eta
    requires forall j, i :: F.OnlyGeometry(m(j, i), y(j, i))
    ensures forall j, i :: g.Has(j, i) ==> y(j, i).eta == p(j, i).eta && y(j, i).bottom == w(j, i).bottom
    ensures forall j, i :: y(j, i).stage == w(j, i).stage
  {
    forall j, i ensures y(j, i).eta == m(j, i).eta && y(j, i).bottom == w(j, i).bottom
      && y(j, i).stage == w(j, i).stage {
      assert F.OnlyGeometry(m(j, i), y(j, i)) && m(j, i) == w(j, i).(eta := m(j, i).eta);
    }
  }
}
