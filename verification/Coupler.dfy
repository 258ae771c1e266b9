/** The coupled window (src/coupling/Coupler.cpp:53-105, src/coupling/Exchange.cpp:10-97): the
    surface solve, any number of subsurface steps debiting and crediting the surface, the
    application of the exchanged volume, and the window's budget. */
module Coupling {
  import opened Sums
  import opened Fields
  import opened GroundwaterTerms
  import opened TopExchange
  import opened SendWalk
  import opened SweepLedger
  import opened Corrector
  import opened Richards
  import C = CellLedger

  /** The window's share of the coupled volume budget. */
  datatype CouplingAudit = CouplingAudit(gw: Audit, applied: real, discarded: real, surfaceGain: real,
                                         accumVolume: real,
                                         substeps: nat)

  const NO_COUPLING_AUDIT := CouplingAudit(NO_AUDIT, 0.0, 0.0, 0.0, 0.0, 0)

  /** The slack of the subcycle loop's comparison. */
  const SLACK := 0.000000001

  /** What drives each subsurface step, as a function of the step's number and of the state it
      starts from: conditions, ratios, ghosts and the predictor's outcome. */
  type Driver = (nat, Cells, Faces, Ponds) -> Forcing

  /** The predicted heads make no cell's storage coefficient vanish.  Where one does, the program
      divides by zero. */
  predicate Solvable(g: Geometry, soil: Soil, x: Forcing, c: Cells) {
    forall j, i, k :: 1 <= j <= g.box.ny && 1 <= i <= g.box.nx && 0 <= k < g.box.nz ==>
      g.Active(j, i, k) ==> soil.at(j, i, k).thetaS != 0.0
                            && Coefficient(g, soil, x.ratios, Predicted(c, x.prediction), j, i, k) != 0.0
  }

  ghost predicate UnitRatios(d: Driver) { forall n, c, f, s :: d(n, c, f, s).ratios.Unit() }

  /** No step prescribes infiltration through a top. */
  ghost predicate NoForcedTops(d: Driver) { forall n, c, f, s, j, i :: SafeTops(d(n, c, f, s).bc)(j, i) }

  function Plus(a: Audit, b: Audit): Audit {
    Audit(a.boundaryIn + b.boundaryIn, a.ssStorage + b.ssStorage, a.reallocAdjust + b.reallocAdjust,
          a.reallocDropped + b.reallocDropped, a.vloss + b.vloss, a.cplExchanged + b.cplExchanged,
          a.cplBounce + b.cplBounce, a.cplVent + b.cplVent, a.cplEvap + b.cplEvap)
  }

  // ----- the subsurface steps of a window

  /** The steps a window took from a state. */
  datatype Substeps = Substeps(from: Cells, runs: seq<StepRun>)
  {
    /** Each step starts where the one before it ended, the last one ends at c, and each is a whole
        groundwater step on geometry g. */
    ghost predicate LeadTo(g: Geometry, c: Cells) {
      && c == At(|runs|)
      && forall n :: 0 <= n < |runs| ==> StepAt(g, n)
    }
    ghost predicate StepAt(g: Geometry, n: nat)
      requires n < |runs|
    {
      runs[n].e.g == g && runs[n].before == At(n) && runs[n].Stepped()
    }
    ghost function At(n: nat): Cells
      requires n <= |runs|
    {
      if n == 0 then from else runs[n - 1].after
    }

    /** What the first n steps brought in from other ranks, and what all of them did. */
    ghost function CrossedBy(n: nat): real
      requires n <= |runs|
    {
      if n == 0 then 0.0 else CrossedBy(n - 1) + runs[n - 1].Crossed()
    }
    ghost function Crossed(): real { CrossedBy(|runs|) }

    ghost function Then(r: StepRun): Substeps { Substeps(from, runs + [r]) }

    lemma {:induction false} ThenCrossed(r: StepRun, n: nat)
      requires n <= |runs|
      ensures Then(r).CrossedBy(n) == CrossedBy(n)
    {
      if n > 0 {
        ThenCrossed(r, n - 1);
      }
    }

    /** No step yet, and one more. */
    lemma NoneLead(g: Geometry)
      requires runs == []
      ensures LeadTo(g, from) && Crossed() == 0.0
    {
      hide StepRun.Stepped;
    }
    lemma ThenLeads(g: Geometry, c: Cells, r: StepRun)
      ensures Then(r).from == from && |Then(r).runs| == |runs| + 1
      ensures Then(r).Crossed() == Crossed() + r.Crossed()
      ensures LeadTo(g, c) && r.e.g == g && r.before == c && r.Stepped() ==> Then(r).LeadTo(g, r.after)
    {
      hide StepRun.Stepped, StepRun.Crossed;
      var w := Then(r);
      ThenCrossed(r, |runs|);
      if LeadTo(g, c) && r.e.g == g && r.before == c && r.Stepped() {
        forall n | 0 <= n <= |runs| ensures w.StepAt(g, n) {
          if n < |runs| { assert StepAt(g, n); }
        }
      }
    }
  }

  /** What a window's audit adds to the water on the beds, in transit and below them. */
  function AuditedGain(a: CouplingAudit): real {
    (a.gw.boundaryIn + a.gw.cplExchanged + a.gw.cplVent) + a.gw.cplBounce - a.gw.cplEvap
    + a.discarded - a.gw.ssStorage + a.gw.reallocAdjust - a.gw.vloss
  }

  /** A window as its contract states it: its steps and the state they lead to, the water before and
      after, and its audit. */
  datatype WindowRun = WindowRun(g: Geometry, steps: Substeps, end: Cells, before: real, after: real,
                                 audit: CouplingAudit)
  {
    ghost predicate Balanced() {
      && steps.LeadTo(g, end) && |steps.runs| == audit.substeps
      && after == before + AuditedGain(audit) + steps.Crossed()
    }
  }

  // ----- the surface cells of a window

  /** A surface cell after the solve and the depth refresh. */
  function Solved(p: Pond, eta: real, bottom: real, minDepth: real): Pond {
    Refreshed(p.(eta := eta), bottom, minDepth)
  }

  function Refreshed(p: Pond, bottom: real, minDepth: real): Pond {
    p.(dept := if p.eta - bottom <= minDepth then 0.0 else p.eta - bottom)
  }

  /** The applied depth change and the cut-off remainder of one cell. */
  function AppliedAt(p: Pond, dt: real, minDepth: real, bottom: real): real
    requires dt != 0.0
  {
    ApplySeepage(p, dt, minDepth, bottom).1
  }
  function DiscardedAt(p: Pond, dt: real, minDepth: real, bottom: real): real
    requires dt != 0.0
  {
    ApplySeepage(p, dt, minDepth, bottom).2
  }

  /** Applying the accumulator moves it to the surface, up to what the clamp cuts off. */
  lemma AppliedCell(p: Pond, dt: real, minDepth: real, bottom: real, az: real)
    requires dt != 0.0 && az > 0.0
    ensures var q := ApplySeepage(p, dt, minDepth, bottom).0;
      && (q.eta + q.seepAccum) * az == (p.eta + p.seepAccum) * az + az * DiscardedAt(p, dt, minDepth, bottom)
      && q.gain * az == p.gain * az + az * AppliedAt(p, dt, minDepth, bottom)
      && q.eta == p.eta + AppliedAt(p, dt, minDepth, bottom)
      && DiscardedAt(p, dt, minDepth, bottom) >= 0.0 && q.seepAccum >= 0.0
      && (p.eta >= bottom ==> q.eta >= bottom)
      && (Funded(p, bottom) ==> DiscardedAt(p, dt, minDepth, bottom) == 0.0)
  {
    var q, a, d := ApplySeepage(p, dt, minDepth, bottom).0, AppliedAt(p, dt, minDepth, bottom),
      DiscardedAt(p, dt, minDepth, bottom);
    assert q.eta + q.seepAccum == p.eta + p.seepAccum + d && q.gain == p.gain + a;
    assert (p.eta + p.seepAccum + d) * az == (p.eta + p.seepAccum) * az + az * d;
    assert (p.gain + a) * az == p.gain * az + az * a;
  }

  // ----- sums over the block

  ghost function Scaled2(c: real, f: Field2): Field2 { (j, i) => c * f(j, i) }

  lemma Sum2Scaled(b: Box, c: real, f: Field2)
    ensures Sum2(b, Scaled2(c, f)) == c * Sum2(b, f)
  {
    hide Sum2;
    var none := (j, i) => 0.0;
    Sum2Linear(b, none, c, f, Scaled2(c, f));
    Sum2Linear(b, none, -1.0, none, none);
  }

  /** Water on the surface, above the beds, and in transit. */
  ghost function PondedStore(g: Geometry, s: Ponds, bottom: Field2): real { SurfaceStore(g, s) - BedStore(g, bottom) }
  ghost function BedStore(g: Geometry, bottom: Field2): real { Sum2(g.box, Scaled2(g.az, bottom)) }

  ghost function Accumulated(s: Ponds): Field2 { (j, i) => s(j, i).seepAccum }
  ghost function Gained(s: Ponds): Field2 { (j, i) => s(j, i).gain }

  lemma GainIsScaled(g: Geometry, s: Ponds)
    ensures GainStore(g, s) == g.az * Sum2(g.box, Gained(s))
  {
    Sum2Scaled(g.box, g.az, Gained(s));
    hide Sum2;
    forall j, i | g.box.Has2(j, i) ensures Gains(g, s)(j, i) == Scaled2(g.az, Gained(s))(j, i) {}
    Sum2Ext(g.box, Gains(g, s), Scaled2(g.az, Gained(s)));
  }

  /** All surface cells after the application. */
  ghost predicate AllApplied(g: Geometry, s: Ponds, s': Ponds, dt: real, minDepth: real, bottom: Field2)
    requires dt != 0.0
  {
    forall j, i :: g.box.Has2(j, i) ==> s'(j, i) == ApplySeepage(s(j, i), dt, minDepth, bottom(j, i)).0
  }

  lemma AppliedStore(g: Geometry, s: Ponds, s': Ponds, dt: real, minDepth: real, bottom: Field2, x: Field2, d: Field2)
    requires g.Ok() && dt != 0.0 && AllApplied(g, s, s', dt, minDepth, bottom)
    requires forall j, i :: g.box.Has2(j, i) ==>
      x(j, i) == AppliedAt(s(j, i), dt, minDepth, bottom(j, i))
        && d(j, i) == DiscardedAt(s(j, i), dt, minDepth, bottom(j, i))
    ensures SurfaceStore(g, s') == SurfaceStore(g, s) + g.az * Sum2(g.box, d)
    ensures GainStore(g, s') == GainStore(g, s) + g.az * Sum2(g.box, x)
    ensures Sum2(g.box, d) >= 0.0
    ensures AllFunded(g, s, bottom) ==> Sum2(g.box, d) == 0.0
  {
    hide *;
    forall j, i | g.box.Has2(j, i)
      ensures Standing(g, s')(j, i) == Standing(g, s)(j, i) + g.az * d(j, i)
              && Gains(g, s')(j, i) == Gains(g, s)(j, i) + g.az * x(j, i)
      ensures d(j, i) >= 0.0
    {
      AppliedField(g, s, s', dt, minDepth, bottom, j, i);
    }
    StoreIs(g, s);
    StoreIs(g, s');
    Sum2Linear(g.box, Standing(g, s), g.az, d, Standing(g, s'));
    Sum2Linear(g.box, Gains(g, s), g.az, x, Gains(g, s'));
    Sum2Nonneg(g.box, d);
    if AllFunded(g, s, bottom) {
      forall j, i | g.box.Has2(j, i) ensures d(j, i) == 0.0 {
        FundedAt(g, s, bottom, j, i);
        AppliedField(g, s, s', dt, minDepth, bottom, j, i);
      }
      NothingCut(g.box, d);
    }
  }

  /** Every surface cell at or above its bed, and covered over it. */
  ghost predicate AllAbove(g: Geometry, s: Ponds, bottom: Field2) {
    forall j, i :: g.box.Has2(j, i) ==> s(j, i).eta >= bottom(j, i)
  }
  ghost predicate AllFunded(g: Geometry, s: Ponds, bottom: Field2) {
    forall j, i :: g.box.Has2(j, i) ==> Funded(s(j, i), bottom(j, i))
  }

  lemma FundedAt(g: Geometry, s: Ponds, bottom: Field2, j: int, i: int)
    requires AllFunded(g, s, bottom) && g.box.Has2(j, i)
    ensures Funded(s(j, i), bottom(j, i))
  {
  }

  lemma CutVolume(az: real, cut: real)
    requires az > 0.0
    ensures cut >= 0.0 ==> az * cut >= 0.0
    ensures cut == 0.0 ==> az * cut == 0.0
  {
  }

  lemma NothingCut(b: Box, d: Field2)
    requires forall j, i :: b.Has2(j, i) ==> d(j, i) == 0.0
    ensures Sum2(b, d) == 0.0
  {
    hide Sum2;
    Sum2Linear(b, d, -1.0, d, d);
  }

  lemma AppliedField(g: Geometry, s: Ponds, s': Ponds, dt: real, minDepth: real, bottom: Field2, j: int, i: int)
    requires g.Ok() && dt != 0.0 && g.box.Has2(j, i) && AllApplied(g, s, s', dt, minDepth, bottom)
    ensures Standing(g, s')(j, i) == Standing(g, s)(j, i) + g.az * DiscardedAt(s(j, i), dt, minDepth, bottom(j, i))
    ensures Gains(g, s')(j, i) == Gains(g, s)(j, i) + g.az * AppliedAt(s(j, i), dt, minDepth, bottom(j, i))
    ensures DiscardedAt(s(j, i), dt, minDepth, bottom(j, i)) >= 0.0 && s'(j, i).seepAccum >= 0.0
    ensures s(j, i).eta >= bottom(j, i) ==> s'(j, i).eta >= bottom(j, i)
    ensures Funded(s(j, i), bottom(j, i)) ==> DiscardedAt(s(j, i), dt, minDepth, bottom(j, i)) == 0.0
  {
    AppliedCell(s(j, i), dt, minDepth, bottom(j, i), g.az);
    hide ApplySeepage, AppliedAt, DiscardedAt;
  }

  /** All surface cells after the solve. */
  ghost function AfterSolve(s: Ponds, eta: Field2, bottom: Field2, minDepth: real): Ponds {
    (j, i) => Solved(s(j, i), eta(j, i), bottom(j, i), minDepth)
  }

  ghost predicate OpensDry(g: Geometry, p: Ponds, eta: Field2, bottom: Field2) {
    forall j, i :: g.box.Has2(j, i) ==> eta(j, i) >= bottom(j, i) && p(j, i).seepAccum >= 0.0
  }

  ghost predicate AllWetOrDry(g: Geometry, s: Ponds, minDepth: real) {
    forall j, i :: g.box.Has2(j, i) ==> WetOrDry(s(j, i), minDepth)
  }

  /** After a solve above the beds the surface stands over them, refreshed. */
  lemma SolvedStands(g: Geometry, p: Ponds, s: Ponds, eta: Field2, bottom: Field2, minDepth: real)
    requires forall j, i :: g.box.Has2(j, i) ==> s(j, i) == Solved(p(j, i), eta(j, i), bottom(j, i), minDepth)
    ensures SurfaceStore(g, s) == SurfaceStore(g, AfterSolve(p, eta, bottom, minDepth))
    ensures OpensDry(g, p, eta, bottom) ==> StandsOver(g, s, bottom)
    ensures forall j, i :: g.box.Has2(j, i) ==> s(j, i) == Refreshed(s(j, i), bottom(j, i), minDepth)
  {
    Sum2Ext(g.box, Standing(g, s), Standing(g, AfterSolve(p, eta, bottom, minDepth)));
  }

  /** The budgets and the ponded depths of all surface cells. */
  ghost function Budgets(s: Ponds): Field2 { (j, i) => s(j, i).avail }
  ghost function Depths(s: Ponds): Field2 { (j, i) => s(j, i).dept }

  /** Levels at or above the beds, accumulators not negative. */
  ghost predicate StandsOver(g: Geometry, s: Ponds, bottom: Field2) {
    forall j, i :: g.box.Has2(j, i) ==> s(j, i).eta >= bottom(j, i) && s(j, i).seepAccum >= 0.0
  }

  lemma WindowsBegun(g: Geometry, s: Ponds, s': Ponds, bottom: Field2, minDepth: real)
    requires g.Ok() && minDepth >= 0.0
    requires forall j, i :: g.box.Has2(j, i) ==> s(j, i) == Refreshed(s(j, i), bottom(j, i), minDepth)
                                                 && s'(j, i) == BeginWindow(s(j, i))
    ensures GainStore(g, s') == 0.0 && SurfaceStore(g, s') == SurfaceStore(g, s)
    ensures Sum2(g.box, Budgets(s')) == Sum2(g.box, Depths(s))
    ensures StandsOver(g, s, bottom) ==> AllFunded(g, s', bottom) && AllWetOrDry(g, s', minDepth)
  {
    NoGain(g, s');
    forall j, i | g.box.Has2(j, i)
      ensures Standing(g, s')(j, i) == Standing(g, s)(j, i) && Budgets(s')(j, i) == Depths(s)(j, i)
      ensures s(j, i).eta >= bottom(j, i) && s(j, i).seepAccum >= 0.0 ==>
                Funded(s'(j, i), bottom(j, i)) && WetOrDry(s'(j, i), minDepth)
    {
      assert s'(j, i) == BeginWindow(s(j, i)) && s(j, i) == Refreshed(s(j, i), bottom(j, i), minDepth);
    }
    hide Standing, Budgets, Depths, Sum2, Funded, WetOrDry;
    Sum2Ext(g.box, Standing(g, s'), Standing(g, s));
    Sum2Ext(g.box, Budgets(s'), Depths(s));
  }

  lemma NoGain(g: Geometry, s: Ponds)
    requires forall j, i :: g.box.Has2(j, i) ==> s(j, i).gain == 0.0
    ensures GainStore(g, s) == 0.0
  {
    forall j, i | g.box.Has2(j, i) ensures Gains(g, s)(j, i) == 0.0 {}
    hide Gains;
    NothingCut(g.box, Gains(g, s));
  }

  lemma WindowStaysFunded(g: Geometry, s: Ponds, s': Ponds, bottom: Field2, minDepth: real, d: Driver)
    requires AllKeepFunding(g, s, s', minDepth, SafeUnder(d)) && NoForcedTops(d)
    requires AllFunded(g, s, bottom) && AllWetOrDry(g, s, minDepth)
    ensures AllFunded(g, s', bottom)
  {
    hide NoForcedTops, Funded, WetOrDry;
    forall j, i | g.box.Has2(j, i) ensures Funded(s'(j, i), bottom(j, i)) {
      assert KeepsFunding(s(j, i), s'(j, i), minDepth, SafeUnder(d)(j, i));
    }
  }

  /** The window's steps only raise the surface. */
  lemma WindowStaysAbove(g: Geometry, s: Ponds, s': Ponds, bottom: Field2, minDepth: real, safe: (int, int) -> bool)
    requires AllKeepFunding(g, s, s', minDepth, safe) && AllFunded(g, s, bottom)
    ensures AllAbove(g, s', bottom)
  {
    forall j, i | g.box.Has2(j, i) ensures s'(j, i).eta >= bottom(j, i) {
      assert KeepsFunding(s(j, i), s'(j, i), minDepth, safe(j, i));
      FundedAt(g, s, bottom, j, i);
    }
  }

  lemma ApplicationEnds(g: Geometry, s: Ponds, s': Ponds, dt: real, minDepth: real, bottom: Field2)
    requires g.Ok() && dt != 0.0 && AllApplied(g, s, s', dt, minDepth, bottom)
    ensures forall j, i :: g.box.Has2(j, i) ==> s'(j, i).seepAccum >= 0.0
    ensures AllAbove(g, s, bottom) ==> forall j, i :: g.box.Has2(j, i) ==> s'(j, i).eta >= bottom(j, i)
  {
    hide ApplySeepage, Funded, DiscardedAt, Standing, Gains;
    forall j, i | g.box.Has2(j, i)
      ensures s'(j, i).seepAccum >= 0.0 && (AllAbove(g, s, bottom) ==> s'(j, i).eta >= bottom(j, i))
    {
      hide AllApplied;
      AppliedField(g, s, s', dt, minDepth, bottom, j, i);
    }
  }

  /** Columns that stay funded under driver d: all or none. */
  ghost function SafeUnder(d: Driver): (int, int) -> bool { (j, i) => NoForcedTops(d) }

  class Coupler {
    const gw: RichardsSolver
    const sync: bool
    const dtSurface: real
    const bottom: Field2
    var dtg: real
    var tSub: real
    var lastSurfaceDt: real
    var audit: CouplingAudit

    ghost predicate Valid() { gw.Valid() && gw.opt.coupled }

    constructor (gw: RichardsSolver, sync: bool, dtSurface: real, dtInit: real, tStart: real, bottom: Field2)
      requires gw.Valid() && gw.opt.coupled
      ensures Valid() && this.gw == gw && this.sync == sync && this.dtSurface == dtSurface && this.bottom == bottom
      ensures dtg == (if sync then dtSurface else dtInit) && tSub == tStart && lastSurfaceDt == dtSurface
    {
      this.gw, this.sync, this.dtSurface, this.bottom := gw, sync, dtSurface, bottom;
      dtg, tSub, lastSurfaceDt, audit := if sync then dtSurface else dtInit, tStart, dtSurface, NO_COUPLING_AUDIT;
    }

    /** The next surface step: the adapted common one in sync, the fixed one otherwise. */
    function NextDt(): real reads this`dtg { if sync then dtg else dtSurface }

    function Lag(t: real): real reads this`tSub { if sync then 0.0 else t - tSub }

    method Restore(t: real, dtg: real, lag: real)
      modifies this`dtg, this`tSub
      ensures this.dtg == dtg && tSub == t - lag && (!sync ==> Lag(t) == lag)
    {
      this.dtg, tSub := dtg, t - lag;
    }

    /** Water in the subsurface, on the beds, and in transit between the two. */
    ghost function Store(): real
      reads gw.cells, gw.ponds
    {
      Volume(gw.g, gw.CellsNow()) + PondedStore(gw.g, gw.PondsNow(), bottom)
    }

    // ----- window staging

    /** The surface solve's outcome and the depths under it. */
    method SolveSurface(eta: Field2)
      requires Valid()
      modifies gw.ponds
      ensures forall j, i :: 0 <= j < gw.ponds.Length0 && 0 <= i < gw.ponds.Length1 ==>
        gw.ponds[j, i] == if gw.g.box.Has2(j, i)
          then Solved(old(gw.ponds[j, i]), eta(j, i), bottom(j, i), gw.opt.minDepth)
                          else old(gw.ponds[j, i])
    {
      hide Solved;
      forall j, i | 1 <= j <= gw.g.box.ny && 1 <= i <= gw.g.box.nx {
        gw.ponds[j, i] := Solved(gw.ponds[j, i], eta(j, i), bottom(j, i), gw.opt.minDepth);
      }
    }

    /** Staging a window over refreshed depths: every column whose level stands above its bed is
        funded, all budgets together are the ponded depth, nothing has been deposited yet, and no
        water moves. */
    method BeginWindows()
      requires Valid() && forall j, i :: gw.g.box.Has2(j, i) ==>
                 gw.ponds[j, i] == Refreshed(gw.ponds[j, i], bottom(j, i), gw.opt.minDepth)
      modifies gw.ponds
      ensures forall j, i :: 0 <= j < gw.ponds.Length0 && 0 <= i < gw.ponds.Length1 ==>
        var x, y := old(gw.ponds[j, i]), gw.ponds[j, i];
        && y == x.(avail := y.avail, gain := y.gain)
        && (!gw.g.box.Has2(j, i) ==> y == x)
      ensures GainStore(gw.g, gw.PondsNow()) == 0.0
      ensures SurfaceStore(gw.g, gw.PondsNow()) == old(SurfaceStore(gw.g, gw.PondsNow()))
      ensures Sum2(gw.g.box, Budgets(gw.PondsNow())) == old(Sum2(gw.g.box, Depths(gw.PondsNow())))
      ensures StandsOver(gw.g, old(gw.PondsNow()), bottom) ==>
        AllFunded(gw.g, gw.PondsNow(), bottom) && AllWetOrDry(gw.g, gw.PondsNow(), gw.opt.minDepth)
    {
      ghost var s := gw.PondsNow();
      forall j, i | 1 <= j <= gw.g.box.ny && 1 <= i <= gw.g.box.nx {
        gw.ponds[j, i] := BeginWindow(gw.ponds[j, i]);
      }
      GeometryOk();
      WindowsBegun(gw.g, s, gw.PondsNow(), bottom, gw.opt.minDepth);
    }

    /** The depths after the surface moved; the rest of the surface is unchanged. */
    method RefreshDepth()
      requires Valid()
      modifies gw.ponds
      ensures forall j, i :: 0 <= j < gw.ponds.Length0 && 0 <= i < gw.ponds.Length1 ==>
        gw.ponds[j, i] == if gw.g.box.Has2(j, i) then Refreshed(old(gw.ponds[j, i]), bottom(j, i), gw.opt.minDepth)
                          else old(gw.ponds[j, i])
    {
      hide Refreshed;
      forall j, i | 1 <= j <= gw.g.box.ny && 1 <= i <= gw.g.box.nx {
        gw.ponds[j, i] := Refreshed(gw.ponds[j, i], bottom(j, i), gw.opt.minDepth);
      }
    }

    // ----- the window's substeps

    /** Whether the next step of this window divides by no vanished coefficient. */
    predicate CanStep(d: Driver)
      reads this`audit, gw.cells, gw.faces, gw.ponds
    {
      Solvable(gw.g, gw.soil, d(audit.substeps, gw.CellsNow(), gw.FacesNow(), gw.PondsNow()), gw.CellsNow())
    }

    lemma ReadyToStep(d: Driver, x: Forcing)
      requires Valid() && x == d(audit.substeps, gw.CellsNow(), gw.FacesNow(), gw.PondsNow()) && CanStep(d)
      ensures gw.Valid()
      ensures forall j, i, k :: gw.g.Active(j, i, k) ==>
        Coefficient(gw.g, gw.soil, x.ratios, Predicted(gw.CellsNow(), x.prediction), j, i, k) != 0.0
      ensures UnitRatios(d) ==> x.ratios.Unit()
      ensures forall j, i :: SafeUnder(d)(j, i) ==> SafeTops(x.bc)(j, i)
    {
      hide Coefficient, Predicted, SafeTops;
    }

    lemma GwIs()
      ensures gw.E().g == gw.g && gw.E().ratios == gw.ratios
    {
    }

    /** One subsurface step, its audit added to the window's and its record to the steps w; false, and
        nothing done, where the step would divide by zero. */
    method TakeGwStep(dt: real, d: Driver, ghost w: Substeps) returns (ok: bool, ghost w': Substeps)
      requires Valid() && dt > 0.0
      modifies this`dtg, this`audit, gw`bc, gw`ratios, gw`audit, gw`dtg, gw`dtgNext, gw.cells, gw.faces, gw.ponds
      ensures ok == old(CanStep(d)) && (!ok ==> !CanStep(d) && audit == old(audit) && w' == w)
      ensures ok ==> gw.dtg == dt && w'.Crossed() == w.Crossed() + CrossIn(gw.g, gw.CellsNow(), dt)
      ensures w'.from == w.from && |w'.runs| == |w.runs| + (if ok then 1 else 0)
      ensures UnitRatios(d) && w.LeadTo(gw.g, old(gw.CellsNow())) ==> w'.LeadTo(gw.g, gw.CellsNow())
      ensures gw.g.Whole() ==> w'.Crossed() == w.Crossed()
      ensures ok ==> gw.ctl.Admits(dtg) && audit == old(audit).(gw := audit.gw, substeps := old(audit).substeps + 1)
      ensures UnitRatios(d) ==>
        Volume(gw.g, gw.CellsNow()) - Below(audit.gw) - w'.Crossed()
        == old(Volume(gw.g, gw.CellsNow()) - Below(audit.gw)) - w.Crossed()
      ensures SurfaceStore(gw.g, gw.PondsNow()) - Above(audit.gw)
              == old(SurfaceStore(gw.g, gw.PondsNow()) - Above(audit.gw))
      ensures GainStore(gw.g, gw.PondsNow()) - Deposits(audit.gw)
              == old(GainStore(gw.g, gw.PondsNow()) - Deposits(audit.gw))
      ensures AllKeepFunding(gw.g, old(gw.PondsNow()), gw.PondsNow(), gw.opt.minDepth, SafeUnder(d))
    {
      hide *;
      w' := w;
      var x := d(audit.substeps, gw.CellsNow(), gw.FacesNow(), gw.PondsNow());
      ghost var c, s := gw.CellsNow(), gw.PondsNow();
      ok := CanStep(d);
      if !ok {
        FundingRefl(gw.g, s, gw.opt.minDepth, SafeUnder(d));
        return;
      }
      ReadyToStep(d, x);
      ghost var trail := gw.Step(dt, x);
      GwIs();
      ghost var r := StepRun(gw.E(), c, s, gw.CellsNow(), gw.FacesNow(), trail, gw.audit, dt);
      w' := w.Then(r);
      w.ThenLeads(gw.g, c, r);
      CrossedIs(r);
      if UnitRatios(d) { StepRecorded(r); }
      PlusAdds(audit.gw, gw.audit);
      AuditParts(gw.audit);
      if gw.g.Whole() { WholeCrossesNothing(gw.g, gw.CellsNow(), dt); }
      FundingWeaker(gw.g, s, gw.PondsNow(), gw.opt.minDepth, SafeTops(x.bc), SafeUnder(d));
      dtg := gw.dtgNext;
      audit := audit.(gw := Plus(audit.gw, gw.audit), substeps := audit.substeps + 1);
    }

    lemma StepBounds()
      requires Valid()
      ensures gw.ctl.dtMin > 0.0 && forall x: real :: gw.ctl.Admits(x) ==> gw.ctl.dtMin <= x
    {
    }

    /** The window's subsurface steps: one of the common dt, or as many whole ones as fit. */
    method TakeGwSteps(t: real, dt: real, d: Driver) returns (ok: bool, ghost w: Substeps)
      requires Valid() && dt > 0.0 && (!sync ==> gw.ctl.Admits(dtg))
      modifies this`dtg, this`tSub, this`audit, gw`bc, gw`ratios, gw`audit, gw`dtg, gw`dtgNext, gw.cells,
               gw.faces, gw.ponds
      ensures audit == old(audit).(gw := audit.gw, substeps := audit.substeps)
      ensures if ok then gw.ctl.Admits(dtg) else !CanStep(d)
      ensures gw.g.Whole() ==> w.Crossed() == 0.0
      ensures w.from == old(gw.CellsNow()) && |w.runs| == audit.substeps - old(audit.substeps)
      ensures UnitRatios(d) ==> w.LeadTo(gw.g, gw.CellsNow())
      ensures ok ==> if sync then tSub == t && audit.substeps == old(audit.substeps) + 1
                     else t - tSub < dtg - SLACK && (old(tSub) <= t + SLACK ==> -SLACK <= t - tSub)
      ensures UnitRatios(d) ==>
        Volume(gw.g, gw.CellsNow()) - Below(audit.gw)
        == old(Volume(gw.g, gw.CellsNow()) - Below(audit.gw)) + w.Crossed()
      ensures SurfaceStore(gw.g, gw.PondsNow()) - Above(audit.gw)
              == old(SurfaceStore(gw.g, gw.PondsNow()) - Above(audit.gw))
      ensures GainStore(gw.g, gw.PondsNow()) - Deposits(audit.gw)
              == old(GainStore(gw.g, gw.PondsNow()) - Deposits(audit.gw))
      ensures AllKeepFunding(gw.g, old(gw.PondsNow()), gw.PondsNow(), gw.opt.minDepth, SafeUnder(d))
    {
      hide *;
      StepBounds();
      w := Substeps(gw.CellsNow(), []);
      w.NoneLead(gw.g);
      if sync {
        tSub := t;
        ok, w := TakeGwStep(dt, d, w);
      } else {
        ghost var s0 := gw.PondsNow();
        FundingRefl(gw.g, s0, gw.opt.minDepth, SafeUnder(d));
        ok := true;
        while tSub + dtg <= t + SLACK
          invariant gw.ctl.Admits(dtg) && audit == old(audit).(gw := audit.gw, substeps := audit.substeps)
          invariant old(tSub) <= t + SLACK ==> tSub <= t + SLACK
          invariant gw.g.Whole() ==> w.Crossed() == 0.0
          invariant w.from == old(gw.CellsNow()) && |w.runs| == audit.substeps - old(audit.substeps)
          invariant UnitRatios(d) ==> w.LeadTo(gw.g, gw.CellsNow())
          invariant UnitRatios(d) ==>
            Volume(gw.g, gw.CellsNow()) - Below(audit.gw)
            == old(Volume(gw.g, gw.CellsNow()) - Below(audit.gw)) + w.Crossed()
          invariant SurfaceStore(gw.g, gw.PondsNow()) - Above(audit.gw)
                    == old(SurfaceStore(gw.g, gw.PondsNow()) - Above(audit.gw))
          invariant GainStore(gw.g, gw.PondsNow()) - Deposits(audit.gw)
                    == old(GainStore(gw.g, gw.PondsNow()) - Deposits(audit.gw))
          invariant AllKeepFunding(gw.g, s0, gw.PondsNow(), gw.opt.minDepth, SafeUnder(d))
          decreases (t + SLACK - tSub) / gw.ctl.dtMin
        {
          ghost var s, before := gw.PondsNow(), tSub;
          tSub := tSub + dtg;
          StepsShrink(t + SLACK, before, dtg, gw.ctl.dtMin);
          ok, w := TakeGwStep(dtg, d, w);
          FundingTrans(gw.g, s0, s, gw.PondsNow(), gw.opt.minDepth, SafeUnder(d));
          if !ok { return; }
        }
      }
    }

    // ----- the application and the budget

    lemma GeometryOk()
      requires Valid()
      ensures gw.g.Ok() && gw.g.az > 0.0
    {
    }

    /** Every surface cell's applied depth and cut-off remainder. */
    method ApplyShares(dt: real) returns (x: Field2, c: Field2)
      requires Valid() && dt != 0.0
      ensures forall j, i :: gw.g.box.Has2(j, i) ==>
        && x(j, i) == AppliedAt(gw.PondsNow()(j, i), dt, gw.opt.minDepth, bottom(j, i))
        && c(j, i) == DiscardedAt(gw.PondsNow()(j, i), dt, gw.opt.minDepth, bottom(j, i))
    {
      hide AppliedAt, DiscardedAt;
      var s, lift, m, b := gw.PondsNow(), dt, gw.opt.minDepth, bottom;
      x := (j, i) => if lift != 0.0 then AppliedAt(s(j, i), lift, m, b(j, i)) else 0.0;
      c := (j, i) => if lift != 0.0 then DiscardedAt(s(j, i), lift, m, b(j, i)) else 0.0;
    }

    method ApplyCells(dt: real)
      requires Valid() && dt != 0.0
      modifies gw.ponds
      ensures AllApplied(gw.g, old(gw.PondsNow()), gw.PondsNow(), dt, gw.opt.minDepth, bottom)
    {
      hide ApplySeepage;
      forall j, i | 1 <= j <= gw.g.box.ny && 1 <= i <= gw.g.box.nx {
        gw.ponds[j, i] := ApplySeepage(gw.ponds[j, i], dt, gw.opt.minDepth, bottom(j, i)).0;
      }
    }

    /** The application of the accumulators with its two reductions. */
    method ApplyAll(dt: real)
      requires Valid() && dt != 0.0
      modifies gw.ponds, this`audit
      ensures AllApplied(gw.g, old(gw.PondsNow()), gw.PondsNow(), dt, gw.opt.minDepth, bottom)
      ensures audit == old(audit).(applied := audit.applied, discarded := audit.discarded) && audit.discarded >= 0.0
      ensures SurfaceStore(gw.g, gw.PondsNow()) == old(SurfaceStore(gw.g, gw.PondsNow())) + audit.discarded
      ensures GainStore(gw.g, gw.PondsNow()) == old(GainStore(gw.g, gw.PondsNow())) + audit.applied
      ensures AllFunded(gw.g, old(gw.PondsNow()), bottom) ==> audit.discarded == 0.0
    {
      hide *;
      var x, c := ApplyShares(dt);
      var applied := Reduce2(gw.g.box, x);
      var cut := Reduce2(gw.g.box, c);
      ghost var s := gw.PondsNow();
      ApplyCells(dt);
      audit := audit.(applied := gw.g.az * applied, discarded := gw.g.az * cut);
      GeometryOk();
      AppliedStore(gw.g, s, gw.PondsNow(), dt, gw.opt.minDepth, bottom, x, c);
      CutVolume(gw.g.az, cut);
    }

    /** The window's deposits and what it leaves in transit. */
    method ReduceAudit()
      requires Valid()
      modifies this`audit
      ensures audit == old(audit).(surfaceGain := GainStore(gw.g, gw.PondsNow()), accumVolume := audit.accumVolume)
      ensures audit.accumVolume == gw.g.az * Sum2(gw.g.box, Accumulated(gw.PondsNow()))
    {
      hide GainStore;
      var s := gw.PondsNow();
      var gained := (j, i) => s(j, i).gain;
      var held := (j, i) => s(j, i).seepAccum;
      var gainSum := Reduce2(gw.g.box, gained);
      var heldSum := Reduce2(gw.g.box, held);
      audit := audit.(surfaceGain := gw.g.az * gainSum, accumVolume := gw.g.az * heldSum);
      GainIsScaled(gw.g, s);
      hide Sum2;
      Sum2Ext(gw.g.box, gained, Gained(s));
      Sum2Ext(gw.g.box, held, Accumulated(s));
    }

    // ----- the whole window

    /** From the surface solve to the first subsurface step. */
    method OpenWindow(eta: Field2)
      requires Valid()
      modifies this`audit, gw.ponds
      ensures audit.gw == NO_AUDIT && audit.substeps == 0 && GainStore(gw.g, gw.PondsNow()) == 0.0
      ensures SurfaceStore(gw.g, gw.PondsNow())
              == SurfaceStore(gw.g, AfterSolve(old(gw.PondsNow()), eta, bottom, gw.opt.minDepth))
      ensures OpensDry(gw.g, old(gw.PondsNow()), eta, bottom) ==>
        AllFunded(gw.g, gw.PondsNow(), bottom) && AllWetOrDry(gw.g, gw.PondsNow(), gw.opt.minDepth)
    {
      hide SurfaceStore, GainStore, AllFunded, AllWetOrDry, OpensDry, StandsOver, Solved, Refreshed, Sum2;
      ghost var p := gw.PondsNow();
      SolveSurface(eta);
      SolvedStands(gw.g, p, gw.PondsNow(), eta, bottom, gw.opt.minDepth);
      BeginWindows();
      audit := NO_COUPLING_AUDIT;
    }

    /** From the last subsurface step to the reduced audit. */
    method CloseWindow(dt: real)
      requires Valid() && dt != 0.0
      modifies this`audit, gw.ponds
      ensures audit.gw == old(audit.gw) && audit.substeps == old(audit.substeps) && audit.discarded >= 0.0
      ensures SurfaceStore(gw.g, gw.PondsNow()) == old(SurfaceStore(gw.g, gw.PondsNow())) + audit.discarded
      ensures audit.surfaceGain == old(GainStore(gw.g, gw.PondsNow())) + audit.applied
      ensures audit.accumVolume == gw.g.az * Sum2(gw.g.box, Accumulated(gw.PondsNow()))
      ensures forall j, i :: gw.g.box.Has2(j, i) ==> gw.ponds[j, i].seepAccum >= 0.0
      ensures AllFunded(gw.g, old(gw.PondsNow()), bottom) ==> audit.discarded == 0.0
      ensures AllAbove(gw.g, old(gw.PondsNow()), bottom) ==>
        forall j, i :: gw.g.box.Has2(j, i) ==> gw.ponds[j, i].eta >= bottom(j, i)
    {
      hide SurfaceStore, GainStore, AllFunded, AllAbove, AllApplied, Sum2, Admissible;
      ghost var s := gw.PondsNow();
      ApplyAll(dt);
      ghost var s' := gw.PondsNow();
      GeometryOk();
      ApplicationEnds(gw.g, s, s', dt, gw.opt.minDepth, bottom);
      RefreshDepth();
      SameStore(gw.g, s', gw.PondsNow());
      hide Refreshed;
      ReduceAudit();
    }

    /** Main result: one coupled step.  From the solved surface to the end, water on the beds, in
        transit and below them changes by exactly the audited terms, for any number of substeps;
        the remainder the clamp cuts off enters as a gain.  A block that is not the whole domain also
        gains what crosses from other ranks.  The steps taken are returned as one chain.  The surface
        never ends below the beds and the accumulators never negative; without forced infiltration the
        clamp cuts nothing; and the subsurface clock stays within one step behind the surface clock.  A
        window fails only at a state it reached from which the next step divides by zero. */
    method Step(t: real, dt: real, eta: Field2, d: Driver) returns (ok: bool, ghost w: Substeps)
      requires Valid() && dt > 0.0 && (!sync ==> gw.ctl.Admits(dtg))
      modifies this, gw`bc, gw`ratios, gw`audit, gw`dtg, gw`dtgNext, gw.cells, gw.faces, gw.ponds
      ensures lastSurfaceDt == dt && if ok then gw.ctl.Admits(dtg) else !CanStep(d)
      ensures ok && UnitRatios(d) ==>
        Store()
        == old(Volume(gw.g, gw.CellsNow()) + PondedStore(gw.g, AfterSolve(gw.PondsNow(), eta, bottom, gw.opt.minDepth),
                                                         bottom))
           + (audit.gw.boundaryIn + audit.gw.cplExchanged + audit.gw.cplVent) + audit.gw.cplBounce - audit.gw.cplEvap
           + audit.discarded - audit.gw.ssStorage + audit.gw.reallocAdjust - audit.gw.vloss + w.Crossed()
      ensures ok && UnitRatios(d) ==>
        WindowRun(gw.g, w, gw.CellsNow(),
                  old(Volume(gw.g, gw.CellsNow()) + PondedStore(gw.g, AfterSolve(gw.PondsNow(), eta, bottom,
                                                                                 gw.opt.minDepth), bottom)),
                  Store(), audit).Balanced()
      ensures gw.g.Whole() ==> w.Crossed() == 0.0
      ensures w.from == old(gw.CellsNow())
      ensures ok ==> audit.surfaceGain == audit.applied + audit.gw.cplBounce + audit.gw.cplVent
      ensures ok ==> audit.accumVolume == gw.g.az * Sum2(gw.g.box, Accumulated(gw.PondsNow())) && audit.discarded >= 0.0
      ensures ok ==> forall j, i :: gw.g.box.Has2(j, i) ==> gw.ponds[j, i].seepAccum >= 0.0
      ensures ok && OpensDry(gw.g, old(gw.PondsNow()), eta, bottom) ==>
        && (forall j, i :: gw.g.box.Has2(j, i) ==> gw.ponds[j, i].eta >= bottom(j, i))
        && (NoForcedTops(d) ==> audit.discarded == 0.0)
      ensures ok ==> if sync then tSub == t && audit.substeps == 1
                     else t - tSub < dtg - SLACK && (old(tSub) <= t + SLACK ==> -SLACK <= t - tSub)
    {
      hide *;
      ghost var c, p := gw.CellsNow(), gw.PondsNow();
      lastSurfaceDt := dt;
      OpenWindow(eta);
      NothingAudited();
      ghost var s := gw.PondsNow();
      ok, w := TakeGwSteps(t, dt, d);
      if !ok { return; }
      AuditParts(audit.gw);
      if OpensDry(gw.g, p, eta, bottom) {
        WindowStaysAbove(gw.g, s, gw.PondsNow(), bottom, gw.opt.minDepth, SafeUnder(d));
        if NoForcedTops(d) { WindowStaysFunded(gw.g, s, gw.PondsNow(), bottom, gw.opt.minDepth, d); }
      }
      CloseWindow(dt);
      StoreParts();
      PondedParts(gw.g, AfterSolve(p, eta, bottom, gw.opt.minDepth), bottom);
      if UnitRatios(d) {
        WindowRecorded(WindowRun(gw.g, w, gw.CellsNow(),
                                 Volume(gw.g, c) + PondedStore(gw.g, AfterSolve(p, eta, bottom, gw.opt.minDepth),
                                                               bottom),
                                 Store(), audit));
      }
    }

    lemma StoreIs()
      ensures Store() == Volume(gw.g, gw.CellsNow()) + PondedStore(gw.g, gw.PondsNow(), bottom)
    {
    }

    lemma StoreParts()
      ensures Store() == Volume(gw.g, gw.CellsNow()) + SurfaceStore(gw.g, gw.PondsNow()) - BedStore(gw.g, bottom)
    {
      hide Volume, SurfaceStore, BedStore;
    }
  }

  lemma PondedParts(g: Geometry, s: Ponds, bottom: Field2)
    ensures PondedStore(g, s, bottom) == SurfaceStore(g, s) - BedStore(g, bottom)
  {
    hide SurfaceStore, BedStore;
  }

  lemma PlusAdds(a: Audit, b: Audit)
    ensures Below(Plus(a, b)) == Below(a) + Below(b) && Above(Plus(a, b)) == Above(a) + Above(b)
    ensures Deposits(Plus(a, b)) == Deposits(a) + Deposits(b)
  {
  }

  lemma CrossedIs(r: StepRun)
    ensures r.Crossed() == CrossIn(r.e.g, r.after, r.dtg)
  {
    hide CrossIn;
  }

  lemma AuditParts(a: Audit)
    ensures Below(a) == a.boundaryIn - a.ssStorage + a.reallocAdjust - a.vloss
    ensures Above(a) == a.cplExchanged + a.cplBounce + a.cplVent - a.cplEvap
    ensures Deposits(a) == a.cplBounce + a.cplVent
  {
  }

  lemma WindowRecorded(r: WindowRun)
    requires r.steps.LeadTo(r.g, r.end) && |r.steps.runs| == r.audit.substeps
    requires var a := r.audit;
      r.after
      == r.before + (a.gw.boundaryIn + a.gw.cplExchanged + a.gw.cplVent) + a.gw.cplBounce - a.gw.cplEvap
         + a.discarded - a.gw.ssStorage + a.gw.reallocAdjust - a.gw.vloss + r.steps.Crossed()
    ensures r.Balanced()
  {
    hide Substeps.LeadTo, Substeps.Crossed;
  }

  lemma NothingAudited()
    ensures Below(NO_AUDIT) == 0.0 && Above(NO_AUDIT) == 0.0 && Deposits(NO_AUDIT) == 0.0
  {
  }

  /** A whole step fewer fits after each step. */
  lemma StepsShrink(end: real, t: real, dtg: real, dtMin: real)
    requires 0.0 < dtMin <= dtg && t + dtg <= end
    ensures (end - (t + dtg)) / dtMin <= (end - t) / dtMin - 1.0 && (end - (t + dtg)) / dtMin >= 0.0
  {
    assert (end - (t + dtg)) / dtMin == (end - t) / dtMin - dtg / dtMin;
    assert dtg / dtMin >= 1.0;
  }
}
