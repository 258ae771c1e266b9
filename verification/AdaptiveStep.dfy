/** The adaptive subsurface step (src/gw/AdaptiveStep.cpp): two reductions over the cells below
    the column tops, and the grow, shrink, Courant and clamp rules on their results. */
module AdaptiveStep {
  import opened Sums
  import opened Retention
  import opened GroundwaterTerms

  const SHRINK := 0.75
  const GROW := 1.25
  const COURANT_START := 100000000.0

  datatype Controller = Controller(dtMin: real, dtMax: real, dqGrow: real, dqShrink: real) {
    /** What the configuration schema demands. */
    ghost predicate Ok() { 0.0 < dtMin <= dtMax }

    ghost predicate Admits(dtg: real) { dtMin <= dtg <= dtMax }
  }

  /** The step before the clamp: by the flux change, then by the Courant limit. */
  function Wanted(c: Controller, dtg: real, dqMax: real, courant: real): real {
    var next := if dqMax > c.dqShrink then dtg * SHRINK else if dqMax < c.dqGrow then dtg * GROW else dtg;
    if next > courant then courant else next
  }

  function NextStep(c: Controller, dtg: real, dqMax: real, courant: real): real {
    var capped := if Wanted(c, dtg, dqMax, courant) > c.dtMax then c.dtMax else Wanted(c, dtg, dqMax, courant);
    if capped < c.dtMin then c.dtMin else capped
  }

  /** Any reductions give an admissible step; above the minimum it honours the Courant limit and
      grows by at most the growth factor; and a larger flux change never gives a longer step. */
  lemma NextStepBounds(c: Controller, dtg: real, dqMax: real, courant: real)
    requires c.Ok() && dtg > 0.0
    ensures c.Admits(NextStep(c, dtg, dqMax, courant))
    ensures NextStep(c, dtg, dqMax, courant) > c.dtMin ==>
      NextStep(c, dtg, dqMax, courant) <= courant && NextStep(c, dtg, dqMax, courant) <= GROW * dtg
    ensures forall dq :: dqMax <= dq ==>
      NextStep(c, dtg, dq, courant) <= NextStep(c, dtg, dqMax, courant)
  {
  }

  /** A rank's two reductions. */
  datatype Measures = Measures(dqMax: real, courant: real)

  /** The step all ranks agree on: the smallest any of them wants. */
  function AgreedStep(c: Controller, dtg: real, own: Measures, peers: seq<Measures>): real {
    if peers == [] then NextStep(c, dtg, own.dqMax, own.courant)
    else
      var rest := AgreedStep(c, dtg, own, peers[1..]);
      var next := NextStep(c, dtg, peers[0].dqMax, peers[0].courant);
      if next < rest then next else rest
  }

  /** It is wanted by some rank and by none shorter, and so is admissible. */
  lemma {:induction false} AgreedIsLeast(c: Controller, dtg: real, own: Measures, peers: seq<Measures>)
    requires c.Ok() && dtg > 0.0
    ensures forall m :: m in [own] + peers ==> AgreedStep(c, dtg, own, peers) <= NextStep(c, dtg, m.dqMax, m.courant)
    ensures exists m :: m in [own] + peers && AgreedStep(c, dtg, own, peers) == NextStep(c, dtg, m.dqMax, m.courant)
    ensures c.Admits(AgreedStep(c, dtg, own, peers))
  {
    hide NextStep;
    NextStepBounds(c, dtg, own.dqMax, own.courant);
    if peers == [] {
      assert own in [own] + peers;
    } else {
      AgreedIsLeast(c, dtg, own, peers[1..]);
      NextStepBounds(c, dtg, peers[0].dqMax, peers[0].courant);
      assert peers == [peers[0]] + peers[1..];
      var m :| m in [own] + peers[1..] && AgreedStep(c, dtg, own, peers[1..]) == NextStep(c, dtg, m.dqMax, m.courant);
      assert m in [own] + peers && peers[0] in [own] + peers;
    }
  }

  /** Ranks that know the same measures agree on one step, each counting its own once. */
  lemma RanksAgree(c: Controller, dtg: real, own: Measures, peers: seq<Measures>, own': Measures, peers': seq<Measures>)
    requires c.Ok() && dtg > 0.0 && multiset([own] + peers) == multiset([own'] + peers')
    ensures AgreedStep(c, dtg, own, peers) == AgreedStep(c, dtg, own', peers')
  {
    hide NextStep, AgreedStep;
    AgreedIsLeast(c, dtg, own, peers);
    AgreedIsLeast(c, dtg, own', peers');
    assert forall m :: m in [own] + peers <==> m in multiset([own] + peers);
    assert forall m :: m in [own'] + peers' <==> m in multiset([own'] + peers');
  }

  /** The largest change and the smallest limit of all ranks. */
  function Overall(own: Measures, peers: seq<Measures>): Measures {
    if peers == [] then own
    else
      var rest := Overall(own, peers[1..]);
      Measures(if peers[0].dqMax > rest.dqMax then peers[0].dqMax else rest.dqMax,
               if peers[0].courant < rest.courant then peers[0].courant else rest.courant)
  }

  /** The agreed step is the one an undivided domain would take: that of its largest change and its
      smallest limit. */
  lemma {:induction false} AgreedIsUndivided(c: Controller, dtg: real, own: Measures, peers: seq<Measures>)
    requires c.Ok() && dtg > 0.0
    ensures AgreedStep(c, dtg, own, peers)
            == NextStep(c, dtg, Overall(own, peers).dqMax, Overall(own, peers).courant)
  {
    if peers != [] {
      AgreedIsUndivided(c, dtg, own, peers[1..]);
      LesserStep(c, dtg, Overall(own, peers[1..]), peers[0]);
    }
  }

  /** The shorter of two wanted steps is that of the larger change and the smaller limit. */
  lemma LesserStep(c: Controller, dtg: real, a: Measures, b: Measures)
    requires c.Ok() && dtg > 0.0
    ensures var x, y := NextStep(c, dtg, a.dqMax, a.courant), NextStep(c, dtg, b.dqMax, b.courant);
      NextStep(c, dtg, if b.dqMax > a.dqMax then b.dqMax else a.dqMax,
               if b.courant < a.courant then b.courant else a.courant) == if y < x then y else x
  {
  }

  /** Cells both reductions look at: active, and not their column's top. */
  predicate Inner(g: Geometry, j: int, i: int, k: int) { g.Active(j, i, k) && k != 0 && g.Active(j, i, k - 1) }

  /** The flux change of a cell over a step, per its own face areas. */
  function FluxChange(g: Geometry, c: Cells, f: Faces, dtg: real, j: int, i: int, k: int): real
    requires g.ax(j, i, k) > 0.0 && g.ay(j, i, k) > 0.0 && g.az > 0.0 && g.dz(j, i, k) > 0.0
  {
    var qin := c(j, i, k).qx / g.ax(j, i, k) + c(j, i, k).qy / g.ay(j, i, k) + f(j, i, k + 1).q / g.az;
    var qou := c(j, i - 1, k).qx / g.ax(j, i, k) + c(j - 1, i, k).qy / g.ay(j, i, k) + f(j, i, k).q / g.az;
    Abs(qin - qou) * dtg / g.dz(j, i, k)
  }

  /** x is the largest of zero and the inner cells' flux changes. */
  ghost predicate LargestChange(g: Geometry, c: Cells, f: Faces, dtg: real, x: real)
    requires g.Ok()
  {
    && (forall j, i, k :: Inner(g, j, i, k) ==> FluxChange(g, c, f, dtg, j, i, k) <= x)
    && (x == 0.0 || exists j, i, k :: Inner(g, j, i, k) && x == FluxChange(g, c, f, dtg, j, i, k))
    && x >= 0.0
  }

  /** x is the smallest of the search start and the unsaturated inner cells' limits. */
  ghost predicate SmallestLimit(g: Geometry, s: Soil, c: Cells, limit: Field3, x: real) {
    && (forall j, i, k :: Inner(g, j, i, k) && c(j, i, k).wc < s.at(j, i, k).thetaS ==> x <= limit(j, i, k))
    && (x == COURANT_START || exists j, i, k :: Inner(g, j, i, k) && c(j, i, k).wc < s.at(j, i, k).thetaS
                                                && x == limit(j, i, k))
    && x <= COURANT_START
  }

  /** The two reductions, their cells in any order. */
  method MeasureChange(g: Geometry, c: Cells, f: Faces, dtg: real) returns (x: real)
    requires g.Ok()
    ensures LargestChange(g, c, f, dtg, x)
  {
    x := 0.0;
    var todo := set j, i, k | 1 <= j <= g.box.ny && 1 <= i <= g.box.nx && 0 <= k < g.box.nz && Inner(g, j, i, k) ::
      (j, i, k);
    while todo != {}
      invariant forall j, i, k :: (j, i, k) in todo ==> Inner(g, j, i, k)
      invariant forall j, i, k :: Inner(g, j, i, k) && (j, i, k) !in todo ==> FluxChange(g, c, f, dtg, j, i, k) <= x
      invariant x == 0.0 || exists j, i, k :: Inner(g, j, i, k) && x == FluxChange(g, c, f, dtg, j, i, k)
      invariant x >= 0.0
      decreases |todo|
    {
      var p :| p in todo;
      var (j, i, k) := p;
      var dq := FluxChange(g, c, f, dtg, j, i, k);
      if dq > x { x := dq; }
      todo := todo - {p};
    }
  }

  method MeasureCourant(g: Geometry, s: Soil, c: Cells, limit: Field3) returns (x: real)
    requires g.Ok()
    ensures SmallestLimit(g, s, c, limit, x)
  {
    x := COURANT_START;
    var todo := set j, i, k | 1 <= j <= g.box.ny && 1 <= i <= g.box.nx && 0 <= k < g.box.nz && Inner(g, j, i, k)
                              && c(j, i, k).wc < s.at(j, i, k).thetaS :: (j, i, k);
    while todo != {}
      invariant forall j, i, k :: (j, i, k) in todo ==> Inner(g, j, i, k) && c(j, i, k).wc < s.at(j, i, k).thetaS
      invariant forall j, i, k :: Inner(g, j, i, k) && c(j, i, k).wc < s.at(j, i, k).thetaS && (j, i, k) !in todo ==>
                  x <= limit(j, i, k)
      invariant x == COURANT_START
                || exists j, i, k :: Inner(g, j, i, k) && c(j, i, k).wc < s.at(j, i, k).thetaS && x == limit(j, i, k)
      invariant x <= COURANT_START
      decreases |todo|
    {
      var p :| p in todo;
      var (j, i, k) := p;
      if limit(j, i, k) < x { x := limit(j, i, k); }
      todo := todo - {p};
    }
  }
}
