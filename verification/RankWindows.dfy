/** A coupled window on all ranks of a layout (src/coupling/Coupler.cpp:81-94, src/gw/AdaptiveStep.cpp:
    95-120, src/gw/RichardsSolver.cpp:667-901): every rank takes the same steps at once, each from exchanged
    halos, so what crossed between the ranks cancels over the whole window. */
module RankWindows {
  import opened Decomposition
  import opened GroundwaterTerms
  import opened RankLedger
  import opened RankFluxes
  import opened Coupling
  import R = Richards

  /** All ranks' windows hold n or more steps. */
  ghost predicate Reach(l: Layout, w: PerRank<WindowRun>, n: nat) {
    l.Ok() && forall pj, pi :: IsRank(l, pj, pi) ==> n <= |w(pj, pi).steps.runs|
  }

  /** Step n of every rank's window. */
  ghost function NthRuns(l: Layout, w: PerRank<WindowRun>, n: nat): (r: PerRank<R.StepRun>)
    requires Reach(l, w, n + 1)
    ensures forall pj, pi :: IsRank(l, pj, pi) ==> r(pj, pi) == w(pj, pi).steps.runs[n]
  {
    assert IsRank(l, 0, 0);
    (pj, pi) => if IsRank(l, pj, pi) then w(pj, pi).steps.runs[n] else w(0, 0).steps.runs[n]
  }

  /** Step n had one length on all ranks, as AdaptiveStep.RanksAgree gives it, and its fluxes came from
      exchanged halos. */
  ghost predicate StepShared(l: Layout, nz: nat, w: PerRank<WindowRun>, n: nat)
    requires Reach(l, w, n + 1)
  {
    var r := NthRuns(l, w, n);
    && Joined(l, nz, Views(r))
    && forall pj, pi :: IsRank(l, pj, pi) ==> r(pj, pi).dtg == r(0, 0).dtg
  }

  /** All ranks took a window of m steps together. */
  ghost predicate TakenTogether(l: Layout, nz: nat, w: PerRank<WindowRun>, m: nat) {
    && Reach(l, w, m)
    && (forall pj, pi :: IsRank(l, pj, pi) ==> w(pj, pi).Balanced() && |w(pj, pi).steps.runs| == m)
    && forall n: nat | n < m :: StepShared(l, nz, w, n)
  }

  /** Per rank: what its first n steps brought in from others, the water before and after its window,
      and what its audit books. */
  ghost function CrossedBy(l: Layout, w: PerRank<WindowRun>, n: nat): (q: PerRank<real>)
    requires Reach(l, w, n)
    ensures forall pj, pi :: IsRank(l, pj, pi) ==> q(pj, pi) == w(pj, pi).steps.CrossedBy(n)
  {
    (pj, pi) => if IsRank(l, pj, pi) then w(pj, pi).steps.CrossedBy(n) else 0.0
  }
  ghost function Befores(w: PerRank<WindowRun>): PerRank<real> { (pj, pi) => w(pj, pi).before }
  ghost function Afters(w: PerRank<WindowRun>): PerRank<real> { (pj, pi) => w(pj, pi).after }
  ghost function Gains(w: PerRank<WindowRun>): PerRank<real> { (pj, pi) => AuditedGain(w(pj, pi).audit) }

  /** A step of a balanced window is a whole groundwater step. */
  lemma StepOf(r: WindowRun, n: nat)
    requires r.Balanced() && n < |r.steps.runs|
    ensures r.steps.runs[n].Stepped()
    ensures r.steps.CrossedBy(n + 1) == r.steps.CrossedBy(n) + r.steps.runs[n].Crossed()
  {
    hide R.StepRun.Stepped, R.StepRun.Crossed, AuditedGain;
    assert r.steps.StepAt(r.g, n);
  }

  lemma TakenAt(l: Layout, nz: nat, w: PerRank<WindowRun>, m: nat, n: nat)
    requires TakenTogether(l, nz, w, m) && n < m
    ensures Reach(l, w, n) && Reach(l, w, n + 1)
    ensures forall pj, pi :: IsRank(l, pj, pi) ==> w(pj, pi).Balanced() && n < |w(pj, pi).steps.runs|
    ensures var r := NthRuns(l, w, n);
      Joined(l, nz, Views(r)) && forall pj, pi :: IsRank(l, pj, pi) ==> r(pj, pi).dtg == r(0, 0).dtg
  {
    hide Joined, WindowRun.Balanced;
    assert StepShared(l, nz, w, n);
  }

  /** The ranks' n-th steps are steps of one length from exchanged halos. */
  lemma NthStepped(l: Layout, nz: nat, w: PerRank<WindowRun>, m: nat, n: nat)
    requires TakenTogether(l, nz, w, m) && n < m
    ensures Reach(l, w, n) && Reach(l, w, n + 1)
    ensures var r := NthRuns(l, w, n);
      && AllStepped(l, nz, r, r(0, 0).dtg)
      && forall pj, pi :: IsRank(l, pj, pi) ==>
           CrossedBy(l, w, n + 1)(pj, pi) == CrossedBy(l, w, n)(pj, pi) + Crossings(r, r(0, 0).dtg)(pj, pi)
  {
    hide Joined, WindowRun.Balanced, TakenTogether, R.StepRun.Stepped, R.StepRun.Crossed, CrossIn, Reach;
    TakenAt(l, nz, w, m, n);
    var r := NthRuns(l, w, n);
    forall pj, pi | IsRank(l, pj, pi)
      ensures r(pj, pi).Stepped() && r(pj, pi).dtg == r(0, 0).dtg
      ensures CrossedBy(l, w, n + 1)(pj, pi) == CrossedBy(l, w, n)(pj, pi) + Crossings(r, r(0, 0).dtg)(pj, pi)
    {
      StepOf(w(pj, pi), n);
      CrossedIs(r(pj, pi));
    }
  }

  /** What crosses between the ranks cancels over any number of steps. */
  lemma {:induction false} CrossingsCancel(l: Layout, nz: nat, w: PerRank<WindowRun>, m: nat, n: nat)
    requires TakenTogether(l, nz, w, m) && n <= m
    ensures Reach(l, w, n) && OverRanks(l, CrossedBy(l, w, n)) == 0.0
  {
    hide *;
    if n == 0 {
      NoneCrossed(l, nz, w, m);
    } else {
      CrossingsCancel(l, nz, w, m, n - 1);
      NthStepped(l, nz, w, m, n - 1);
      ReachOk(l, w, n);
      var r := NthRuns(l, w, n - 1);
      RanksConserve(l, nz, r, r(0, 0).dtg);
      OverRanksLinear(l, CrossedBy(l, w, n - 1), 1.0, Crossings(r, r(0, 0).dtg), CrossedBy(l, w, n));
    }
  }

  lemma ReachOk(l: Layout, w: PerRank<WindowRun>, n: nat)
    requires Reach(l, w, n)
    ensures l.Ok()
  {
  }

  lemma NoneCrossed(l: Layout, nz: nat, w: PerRank<WindowRun>, m: nat)
    requires TakenTogether(l, nz, w, m)
    ensures Reach(l, w, 0) && OverRanks(l, CrossedBy(l, w, 0)) == 0.0
  {
    RanksScaled(l, CrossedBy(l, w, 0), 0.0, CrossedBy(l, w, 0));
  }

  lemma BalancedAt(l: Layout, nz: nat, w: PerRank<WindowRun>, m: nat, pj: int, pi: int)
    requires TakenTogether(l, nz, w, m) && IsRank(l, pj, pi)
    ensures Reach(l, w, m)
    ensures Afters(w)(pj, pi) - Befores(w)(pj, pi) == Gains(w)(pj, pi) + CrossedBy(l, w, m)(pj, pi)
  {
    hide Joined, AuditedGain, StepShared, Substeps.LeadTo;
  }

  /** Main result: over a coupled window of any number of steps, taken by all ranks together, the water on
      the beds, in transit and below them on the whole domain changes by exactly the sum of the ranks'
      audits; what crossed between the ranks, which no audit counts, cancels. */
  lemma WindowsConserve(l: Layout, nz: nat, w: PerRank<WindowRun>, m: nat)
    requires TakenTogether(l, nz, w, m)
    ensures Reach(l, w, m) && OverRanks(l, CrossedBy(l, w, m)) == 0.0
    ensures OverRanks(l, Afters(w)) == OverRanks(l, Befores(w)) + OverRanks(l, Gains(w))
  {
    hide *;
    CrossingsCancel(l, nz, w, m, m);
    forall pj, pi | IsRank(l, pj, pi)
      ensures Afters(w)(pj, pi) - Befores(w)(pj, pi) == Gains(w)(pj, pi) + CrossedBy(l, w, m)(pj, pi)
    {
      BalancedAt(l, nz, w, m, pj, pi);
    }
    var both: PerRank<real> := (pj, pi) => Gains(w)(pj, pi) + CrossedBy(l, w, m)(pj, pi);
    OverRanksLinear(l, Gains(w), 1.0, CrossedBy(l, w, m), both);
    OverRanksLinear(l, Befores(w), 1.0, both, Afters(w));
  }
}
