/** A coupled run (src/driver/Simulation.cpp:611-660, 853-945): every step as long as the coupler asks, the
    running totals of the audits, and the outputs and checkpoints of the time loop. */
module CoupledRun {
  import opened Sums
  import opened Coupling
  import opened CoupledStep
  import R = Richards
  import W = SurfaceSystem
  import F = FreeSurface
  import S = SurfaceStep
  import T = TimeMarch

  // ----- the running totals

  /** The totals the driver appends to its audits. */
  datatype Totals = Totals(surface: S.SurfaceAudit, gw: R.Audit, seepage: real) {
    /** What they say of all water on the beds, in transit and below them. */
    function Net(): real { surface.Net() + R.Below(gw) + R.Above(gw) }
  }

  const NO_TOTALS := Totals(S.NO_SURFACE_AUDIT, R.NO_AUDIT, 0.0)

  function PlusSurface(a: S.SurfaceAudit, b: S.SurfaceAudit): S.SurfaceAudit {
    S.SurfaceAudit(a.rainVolume + b.rainVolume, a.evapVolume + b.evapVolume, a.boundaryOutflow + b.boundaryOutflow,
                   a.bcInflow + b.bcInflow, a.clampVolume + b.clampVolume)
  }

  function Recorded(t: Totals, s: S.SurfaceAudit, c: CouplingAudit): Totals {
    Totals(PlusSurface(t.surface, s), Plus(t.gw, c.gw), t.seepage + c.surfaceGain)
  }

  lemma RecordedNet(t: Totals, s: S.SurfaceAudit, c: CouplingAudit)
    ensures Recorded(t, s, c).Net() == t.Net() + s.Net() + R.Below(c.gw) + R.Above(c.gw)
  {
  }

  // ----- what a run's steps leave behind

  /** One step of a run: the length of the step after it, and what no total counts: the volume brought by
      prescribed stages, dried by the limiter, cut off by the window's clamp. */
  datatype Taken = Taken(next: real, filled: real, dried: real, discarded: real)

  /** The lengths of a run's steps, the first of them given and each other left by the step before. */
  ghost function LengthsOf(first: real, trail: seq<Taken>): (r: T.Lengths)
    ensures forall n: nat :: r(n) == if 1 <= n <= |trail| then trail[n - 1].next else first
  {
    (n: nat) => if 1 <= n <= |trail| then trail[n - 1].next else first
  }

  /** What the totals leave out, added up. */
  ghost function Uncounted(trail: seq<Taken>): real {
    if trail == [] then 0.0
    else
      var x := trail[|trail| - 1];
      Uncounted(trail[..|trail| - 1]) + x.filled - x.dried + x.discarded
  }

  lemma UncountedMore(trail: seq<Taken>, x: Taken)
    ensures Uncounted(trail + [x]) == Uncounted(trail) + x.filled - x.dried + x.discarded
  {
    assert (trail + [x])[..|trail|] == trail;
  }

  /** What is left out is never negative where it is dried or cut off; without prescribed stages nothing
      is filled, without forced infiltration nothing cut off. */
  ghost predicate Bounded(trail: seq<Taken>, unstaged: bool, unforced: bool) {
    forall x <- trail :: x.dried >= 0.0 && x.discarded >= 0.0 && (unstaged ==> x.filled == 0.0)
                         && (unforced ==> x.discarded == 0.0)
  }

  // ----- the run

  /** What a run takes from outside, step by step: the surface's inputs, the subsurface's drivers and the
      ghost levels after the window. */
  datatype Inputs = Inputs(surges: nat -> S.Surge, drivers: nat -> Driver, ghosts: nat -> Field2)

  ghost predicate UnitRun(x: Inputs) { forall n :: UnitRatios(x.drivers(n)) }
  ghost predicate UnforcedRun(x: Inputs) { forall n :: NoForcedTops(x.drivers(n)) }

  /** Inputs that every step of a run over the surface w can take. */
  ghost predicate Fitting(g: W.Plan, w: W.Waters, x: Inputs) {
    forall n :: x.surges(n).Ok() && F.Apart(g, w, x.surges(n).c)
  }

  ghost predicate ExactAlways(g: W.Plan, solve: F.Solver) { forall dt | dt > 0.0 :: F.Exact(g.(dt := dt), solve) }

  ghost predicate SameStages(w: W.Waters, w': W.Waters) { forall j, i :: w'(j, i).stage == w(j, i).stage }

  ghost predicate Unstaged(g: W.Plan, w: W.Waters) { forall j, i :: g.Has(j, i) ==> !w(j, i).stage }

  lemma StillFits(g: W.Plan, g': W.Plan, w: W.Waters, w': W.Waters, x: Inputs, solve: F.Solver, n: nat, dt: real)
    requires Fitting(g, w, x) && ExactAlways(g, solve) && g' == g.(dt := g'.dt) && SameStages(w, w') && dt > 0.0
    ensures x.surges(n).Ok() && F.Apart(g', w', x.surges(n).c) && F.Exact(g'.(dt := dt), solve)
    ensures Unstaged(g, w) ==> forall j, i :: g'.Has(j, i) ==> !w'(j, i).stage
  {
    assert g'.(dt := dt) == g.(dt := dt);
    assert x.surges(n).Ok() && F.Apart(g, w, x.surges(n).c);
    forall j, i | F.Member(g, w, j, i) ensures F.Member(g', w', j, i) { assert w'(j, i).stage == w(j, i).stage; }
    hide F.Member, F.Exact, S.Surge.Ok;
  }

  lemma StagesKept(w: W.Waters, w': W.Waters)
    requires forall j, i :: w'(j, i).stage == w(j, i).stage
    ensures SameStages(w, w')
  {
  }

  lemma TakenBounded(g: W.Plan, w: W.Waters, x: Taken, unforced: bool)
    requires x.dried >= 0.0 && x.discarded >= 0.0 && (unforced ==> x.discarded == 0.0)
    requires (forall j, i :: g.Has(j, i) ==> !w(j, i).stage) ==> x.filled == 0.0
    ensures Bounded([x], Unstaged(g, w), unforced)
  {
  }

  // ----- the march of a run

  /** The march of the steps taken so far: every earlier state was still running. */
  ghost predicate OnTrack(s: T.Schedule, t0: real, first: real, trail: seq<Taken>, m: T.March) {
    && s.Ok() && T.Paced(s, LengthsOf(first, trail)) && m == T.After(s, t0, LengthsOf(first, trail), |trail|)
    && T.Kept(s, t0, m)
    && forall n: nat :: n < |trail| ==> T.Running(s, T.After(s, t0, LengthsOf(first, trail), n))
  }

  lemma RunStarts(s: T.Schedule, t0: real, first: real)
    requires s.Ok() && s.Admits(first)
    ensures OnTrack(s, t0, first, [], T.Start(s, t0, first))
    ensures T.Start(s, t0, first)
            == T.March(t0, 0, first, T.NextBoundary(t0, s.interval),
                       if s.checkpointInterval > 0 then T.NextBoundary(t0, s.checkpointInterval) else 0.0, -1.0, [], [])
  {
    assert T.Start(s, t0, first)
        == T.March(t0, 0, first, T.NextBoundary(t0, s.interval),
                   if s.checkpointInterval > 0 then T.NextBoundary(t0, s.checkpointInterval) else 0.0, -1.0, [], []);
    T.RunKept(s, t0, LengthsOf(first, []), 0);
    hide T.Kept, T.Start;
  }

  lemma RunGoesOn(s: T.Schedule, t0: real, first: real, trail: seq<Taken>, m: T.March, x: Taken)
    requires OnTrack(s, t0, first, trail, m) && s.Ok() && s.Admits(x.next) && m.t < s.tEnd - T.TOLERANCE
    ensures OnTrack(s, t0, first, trail + [x], T.Stepped(s, m, x.next))
  {
    hide T.Kept, T.After, T.Stepped, T.Running;
    StillRunning(s, m);
    var was, now := LengthsOf(first, trail), LengthsOf(first, trail + [x]);
    assert forall n: nat :: n <= |trail| ==> now(n) == was(n);
    forall n: nat | n <= |trail| ensures T.After(s, t0, now, n) == T.After(s, t0, was, n) {
      T.AfterSame(s, t0, was, now, n);
    }
    T.AfterNext(s, t0, now, |trail|);
    T.RunKept(s, t0, now, |trail| + 1);
  }

  lemma StillRunning(s: T.Schedule, m: T.March)
    requires m.t < s.tEnd - T.TOLERANCE
    ensures T.Running(s, m)
  {
  }

  lemma TrackPaced(s: T.Schedule, t0: real, first: real, trail: seq<Taken>, m: T.March)
    requires OnTrack(s, t0, first, trail, m)
    ensures s.Ok() && T.Paced(s, LengthsOf(first, trail)) && m.dtg == LengthsOf(first, trail)(|trail|)
  {
    T.AfterLength(s, t0, LengthsOf(first, trail), |trail|);
    hide T.Kept, T.After, T.Running;
  }

  lemma TrackEnds(s: T.Schedule, t0: real, first: real, trail: seq<Taken>, m: T.March)
    requires OnTrack(s, t0, first, trail, m) && s.Ok() && m.steps == |trail|
    ensures m == T.After(s, t0, LengthsOf(first, trail), |trail|) && |trail| as real * s.dtMin <= m.t - t0
    ensures forall n: nat :: n < |trail| ==> T.Running(s, T.After(s, t0, LengthsOf(first, trail), n))
  {
    hide T.After, T.Running, T.LogKept;
  }

  lemma SameAtFirst(g: W.Plan, w: W.Waters, unstaged: bool, unforced: bool)
    ensures SameStages(w, w) && g == g.(dt := g.dt) && Bounded([], unstaged, unforced) && Uncounted([]) == 0.0
  {
  }

  lemma SameOver(w: W.Waters, u: W.Waters, v: W.Waters)
    requires SameStages(w, u) && SameStages(u, v)
    ensures SameStages(w, v)
  {
  }

  lemma BoundedMore(g: W.Plan, g': W.Plan, w: W.Waters, u: W.Waters, trail: seq<Taken>, taken: Taken, x: Inputs, n: nat)
    requires Bounded(trail, Unstaged(g, w), UnforcedRun(x)) && SameStages(w, u) && g' == g.(dt := g'.dt)
    requires Bounded([taken], Unstaged(g', u), NoForcedTops(x.drivers(n)))
    ensures Bounded(trail + [taken], Unstaged(g, w), UnforcedRun(x))
    ensures UnitRun(x) ==> UnitRatios(x.drivers(n))
  {
    if Unstaged(g, w) {
      forall j, i | g'.Has(j, i) ensures !u(j, i).stage {
        assert g.Has(j, i);
      }
    }
    assert taken in [taken];
    hide NoForcedTops, UnitRatios;
  }

  class CoupledSimulation {
    const sim: T.Simulation
    const solver: CoupledSolver
    var totals: Totals

    constructor (sim: T.Simulation, solver: CoupledSolver)
      ensures this.sim == sim && this.solver == solver && totals == NO_TOTALS
    {
      this.sim, this.solver, totals := sim, solver, NO_TOTALS;
    }

    /** The state a step can start from, the coupler's next step within the schedule's bounds. */
    ghost predicate Valid()
      reads solver.surface.free`g, solver.surface.free.cells, solver.coupler.gw.ponds, solver.coupler`dtg
    {
      && solver.Valid() && sim.schedule.Ok() && sim.schedule.Admits(solver.coupler.NextDt())
      && sim.schedule.dtMin <= solver.coupler.gw.ctl.dtMin && solver.coupler.gw.ctl.dtMax <= sim.schedule.dtMax
      && (!solver.coupler.sync ==> solver.coupler.gw.ctl.Admits(solver.coupler.dtg))
    }

    /** The water the totals do not account for. */
    ghost function Unaccounted(): real
      reads this`totals, solver.coupler.gw.cells, solver.coupler.gw.ponds
    {
      solver.coupler.Store() - totals.Net()
    }

    /** No level below its bed. */
    ghost predicate AboveBeds()
      reads solver.surface.free`g, solver.surface.free.cells
    {
      forall j, i :: solver.surface.free.g.Has(j, i) ==> solver.surface.Now()(j, i).eta >= solver.coupler.bottom(j, i)
    }

    /** How the subsurface clock stands to the surface clock at t. */
    ghost predicate InStep(t: real)
      reads solver.coupler`tSub, solver.coupler`dtg
    {
      if solver.coupler.sync then solver.coupler.tSub == t
      else -SLACK <= t - solver.coupler.tSub < solver.coupler.dtg - SLACK
    }

    /** Step n of a run, which brings the clock to t, and its audits on the totals. */
    method TakeStep(n: nat, t: real, dt: real, x: Inputs, solve: F.Solver) returns (ok: bool, ghost taken: Taken)
      requires Valid() && dt == solver.coupler.NextDt() && x.surges(n).Ok()
      requires F.Exact(solver.surface.free.g.(dt := dt), solve)
      requires F.Apart(solver.surface.free.g, solver.surface.Now(), x.surges(n).c)
      modifies this`totals, solver.surface, solver.surface.free.cells, solver.surface.free.rows,
               solver.surface.free.vector, solver.surface.free`g, solver.surface.free`bcInflow,
               solver.surface.free`boundaryOutflow
      modifies solver.coupler, solver.coupler.gw`bc, solver.coupler.gw`ratios, solver.coupler.gw`audit,
               solver.coupler.gw`dtg, solver.coupler.gw`dtgNext, solver.coupler.gw.cells, solver.coupler.gw.faces,
               solver.coupler.gw.ponds
      ensures solver.surface.free.g == old(solver.surface.free.g).(dt := dt)
      ensures if ok then Valid() && AboveBeds() && taken.next == solver.coupler.NextDt()
              else !solver.coupler.CanStep(x.drivers(n))
      ensures ok ==> totals == Recorded(old(totals), solver.surface.AuditNow(), solver.coupler.audit)
      ensures ok ==> SameStages(old(solver.surface.Now()), solver.surface.Now())
      ensures ok && old(solver.coupler.tSub) <= t + SLACK ==> InStep(t)
      ensures ok ==>
        Bounded([taken], Unstaged(old(solver.surface.free.g), old(solver.surface.Now())), NoForcedTops(x.drivers(n)))
      ensures ok && UnitRatios(x.drivers(n)) ==>
        Unaccounted() == old(Unaccounted()) + taken.filled - taken.dried + taken.discarded
    {
      hide *;
      ghost var g, w := solver.surface.free.g, solver.surface.Now();
      ReadyParts();
      UnaccountedIs();
      ghost var filled, dried;
      ok, filled, dried := solver.Step(t, dt, x.surges(n), solve, x.drivers(n), x.ghosts(n));
      taken := Taken(solver.coupler.NextDt(), filled, dried, solver.coupler.audit.discarded);
      if ok {
        RecordedNet(totals, solver.surface.AuditNow(), solver.coupler.audit);
        AuditParts(solver.coupler.audit.gw);
        totals := Recorded(totals, solver.surface.AuditNow(), solver.coupler.audit);
        UnaccountedIs();
        ReadyAgain(t);
        StagesKept(w, solver.surface.Now());
        SameCells(g, dt);
        TakenBounded(g, w, taken, NoForcedTops(x.drivers(n)));
      }
    }

    lemma ReadyParts()
      requires Valid()
      ensures solver.Valid() && solver.coupler.NextDt() > 0.0 && Bracketed()
      ensures !solver.coupler.sync ==> solver.coupler.gw.ctl.Admits(solver.coupler.dtg)
    {
    }

    /** The controller's bounds, and the fixed step, within the schedule's. */
    ghost predicate Bracketed() {
      && sim.schedule.Ok() && sim.schedule.dtMin <= solver.coupler.gw.ctl.dtMin
      && solver.coupler.gw.ctl.dtMax <= sim.schedule.dtMax
      && (!solver.coupler.sync ==> sim.schedule.Admits(solver.coupler.dtSurface))
    }

    lemma ReadyAgain(t: real)
      requires Bracketed() && solver.Valid() && solver.coupler.gw.ctl.Admits(solver.coupler.dtg)
      requires forall j, i :: solver.surface.free.g.Has(j, i) ==>
                 solver.surface.Now()(j, i).eta >= solver.coupler.bottom(j, i)
      ensures Valid() && AboveBeds()
      ensures (if solver.coupler.sync then solver.coupler.tSub == t
               else -SLACK <= t - solver.coupler.tSub < solver.coupler.dtg - SLACK) ==> InStep(t)
    {
      hide solver.Valid;
    }

    lemma UnaccountedIs()
      ensures Unaccounted() == solver.coupler.Store() - totals.Net()
    {
    }

    /** The loop: steps until the end time is reached, m their march. */
    method MarchOn(t0: real, x: Inputs, solve: F.Solver)
      returns (ok: bool, t: real, step: nat, lastCheckpointTime: real, ghost trail: seq<Taken>, ghost m: T.March)
      requires Valid() && ExactAlways(solver.surface.free.g, solve)
      requires Fitting(solver.surface.free.g, solver.surface.Now(), x)
      modifies this`totals, sim`outputs, sim`checkpoints, solver.surface, solver.surface.free.cells,
               solver.surface.free.rows, solver.surface.free.vector, solver.surface.free`g,
               solver.surface.free`bcInflow, solver.surface.free`boundaryOutflow
      modifies solver.coupler, solver.coupler.gw`bc, solver.coupler.gw`ratios, solver.coupler.gw`audit,
               solver.coupler.gw`dtg, solver.coupler.gw`dtgNext, solver.coupler.gw.cells, solver.coupler.gw.faces,
               solver.coupler.gw.ponds
      ensures |trail| == step && if ok then Valid() else !solver.coupler.CanStep(x.drivers(step))
      ensures OnTrack(sim.schedule, t0, old(solver.coupler.NextDt()), trail, m)
      ensures ok ==> m.t == t && m.dtg == solver.coupler.NextDt() && m.lastCheckpointTime == lastCheckpointTime
                     && m.steps == step && !(t < sim.schedule.tEnd - T.TOLERANCE)
      ensures ok ==> sim.outputs == old(sim.outputs) + m.outputs
                     && sim.checkpoints == old(sim.checkpoints) + m.checkpoints
      ensures ok && UnitRun(x) ==> Unaccounted() == old(Unaccounted()) + Uncounted(trail)
      ensures Bounded(trail, Unstaged(old(solver.surface.free.g), old(solver.surface.Now())), UnforcedRun(x))
      ensures ok && step > 0 ==> AboveBeds()
      ensures ok && step > 0 && old(solver.coupler.tSub) <= t0 + SLACK ==> InStep(t)
    {
      hide *;
      ghost var g, w, first := solver.surface.free.g, solver.surface.Now(), solver.coupler.NextDt();
      ghost var behind := solver.coupler.tSub <= t0 + SLACK;
      var s := sim.schedule;
      ReadySchedule();
      var nextOutput, nextCheckpoint := T.NextBoundary(t0, s.interval), 0.0;
      lastCheckpointTime := -1.0;
      if s.checkpointInterval > 0 { nextCheckpoint := T.NextBoundary(t0, s.checkpointInterval); }
      t, step, trail, ok, m := t0, 0, [], true, T.Start(s, t0, first);
      RunStarts(s, t0, first);
      SameAtFirst(g, w, Unstaged(g, w), UnforcedRun(x));
      while t < s.tEnd - T.TOLERANCE
        invariant Valid() && |trail| == step && (step > 0 ==> AboveBeds())
        invariant SameStages(w, solver.surface.Now()) && solver.surface.free.g == g.(dt := solver.surface.free.g.dt)
        invariant OnTrack(s, t0, first, trail, m) && ok
        invariant m == T.March(t, step, solver.coupler.NextDt(), nextOutput, nextCheckpoint, lastCheckpointTime,
                               m.outputs, m.checkpoints)
        invariant sim.outputs == old(sim.outputs) + m.outputs && sim.checkpoints == old(sim.checkpoints) + m.checkpoints
        invariant UnitRun(x) ==> Unaccounted() == old(Unaccounted()) + Uncounted(trail)
        invariant Bounded(trail, Unstaged(g, w), UnforcedRun(x))
        invariant behind ==> solver.coupler.tSub <= t + SLACK && (step > 0 ==> InStep(t))
        decreases T.Left(s, t)
      {
        var dt := solver.coupler.NextDt();
        ReadySchedule();
        StillFits(g, solver.surface.free.g, w, solver.surface.Now(), x, solve, step, dt);
        T.LeftShrinks(s, t, dt);
        ghost var u, g' := solver.surface.Now(), solver.surface.free.g;
        if behind { ClockAhead(t, dt); }
        t := t + dt;
        ghost var taken;
        ok, taken := TakeStep(step, t, dt, x, solve);
        if !ok { return; }
        ReadySchedule();
        SameOver(w, u, solver.surface.Now());
        RunGoesOn(s, t0, first, trail, m, taken);
        UncountedMore(trail, taken);
        BoundedMore(g, g', w, u, trail, taken, x, step);
        trail := trail + [taken];
        step := step + 1;
        nextOutput, nextCheckpoint, lastCheckpointTime :=
          sim.WriteDue(m, taken.next, t, dt, nextOutput, nextCheckpoint, lastCheckpointTime);
        m := T.Stepped(s, m, taken.next);
        if behind { ClockNow(t); }
      }
    }

    /** Main result: the coupled loop.  It stops at the first step that reaches the end time, every step as
        long as the coupler's state before it asks, the outputs and checkpoints those of exactly these
        steps.  Over the whole run all water changes by exactly what the running totals say, by what
        prescribed stages bring and the window's clamps add, and by what the limiter dries; no level ends
        below its bed and the subsurface clock stays within one step of the surface clock.  A run fails
        only at a state from which its next subsurface step divides by zero. */
    method RunCoupledLoop(t0: real, x: Inputs, solve: F.Solver)
      returns (ok: bool, t: real, step: nat, ghost trail: seq<Taken>)
      requires Valid() && ExactAlways(solver.surface.free.g, solve)
      requires Fitting(solver.surface.free.g, solver.surface.Now(), x)
      modifies this`totals, sim`outputs, sim`checkpoints, solver.surface, solver.surface.free.cells,
               solver.surface.free.rows, solver.surface.free.vector, solver.surface.free`g,
               solver.surface.free`bcInflow, solver.surface.free`boundaryOutflow
      modifies solver.coupler, solver.coupler.gw`bc, solver.coupler.gw`ratios, solver.coupler.gw`audit,
               solver.coupler.gw`dtg, solver.coupler.gw`dtgNext, solver.coupler.gw.cells, solver.coupler.gw.faces,
               solver.coupler.gw.ponds
      ensures |trail| == step && if ok then Valid() else !solver.coupler.CanStep(x.drivers(step))
      ensures sim.schedule.Ok() && T.Paced(sim.schedule, LengthsOf(old(solver.coupler.NextDt()), trail))
      ensures ok ==> sim.Marched(t0, LengthsOf(old(solver.coupler.NextDt()), trail), t, step)
      ensures ok ==> LengthsOf(old(solver.coupler.NextDt()), trail)(step) == solver.coupler.NextDt()
      ensures ok && UnitRun(x) ==> Unaccounted() == old(Unaccounted()) + Uncounted(trail)
      ensures Bounded(trail, Unstaged(old(solver.surface.free.g), old(solver.surface.Now())), UnforcedRun(x))
      ensures ok && step > 0 ==> AboveBeds()
      ensures ok && step > 0 && old(solver.coupler.tSub) <= t0 + SLACK ==> InStep(t)
    {
      hide Valid, ExactAlways, Fitting, OnTrack, LengthsOf, UnitRun, Unaccounted, Uncounted, Bounded, Unstaged,
        UnforcedRun, AboveBeds, InStep, T.Paced, T.After, T.FinalStamp, T.Schedule.Ok, Coupler.CanStep, Coupler.NextDt;
      var s, lastCheckpointTime := sim.schedule, 0.0;
      ghost var first := solver.coupler.NextDt();
      ghost var m;
      ok, t, step, lastCheckpointTime, trail, m := MarchOn(t0, x, solve);
      TrackPaced(s, t0, first, trail, m);
      if !ok { return; }
      TrackEnds(s, t0, first, trail, m);
      if s.checkpointInterval > 0 && lastCheckpointTime != t {
        sim.checkpoints := sim.checkpoints + [T.Entry(T.FinalStamp(t), t, solver.coupler.NextDt())];
      }
    }

    lemma ReadySchedule()
      requires Valid()
      ensures sim.schedule.Ok() && sim.schedule.interval >= 1 && sim.schedule.Admits(solver.coupler.NextDt())
      ensures solver.coupler.NextDt() > 0.0
    {
    }

    lemma ClockAhead(t: real, dt: real)
      requires solver.coupler.tSub <= t + SLACK && dt > 0.0
      ensures solver.coupler.tSub <= (t + dt) + SLACK
    {
    }

    lemma ClockNow(t: real)
      requires InStep(t)
      ensures solver.coupler.tSub <= t + SLACK
    {
    }
  }
}
