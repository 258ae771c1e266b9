/** A groundwater step cell by cell (src/gw/RichardsSolver.cpp:667-723): what the update stores, what
    the classification makes of a cell, what its sweep drops and what the clamp takes, and the change
    they and the fluxes add up to. */
module CellLedger {
  import opened Sums
  import opened Retention
  import opened Surplus
  import opened TopExchange
  import opened SendWalk
  import opened FaceFlux
  import opened GroundwaterTerms
  import opened SweepLedger
  import opened Corrector

  // ----- the classification, its cells in any order

  type Outcomes = (int, int, int) -> Outcome

  const NO_OUTCOME := Outcome(0.0, 0.0, 0.0, 0.0, 0.0, 0.0, 0.0)

  /** The kernel's outcome for a cell as it was, among neighbours in some state. */
  ghost predicate ArisesFrom(e: Setting, x: Cell, j: int, i: int, k: int, adjSat: bool, n: Gradients, o: Outcome) {
    && SoilOk(e.soil.at(j, i, k))
    && o == CellOutcome(e.soil.pow, e.soil.at(j, i, k), e.g.Vol(j, i, k), x.wc, x.h, adjSat, GradientSplit(n),
                        e.opt.redistribute)
  }

  ghost predicate Arises(e: Setting, x: Cell, j: int, i: int, k: int, o: Outcome) {
    exists adjSat, n :: ArisesFrom(e, x, j, i, k, adjSat, n, o)
  }

  lemma Witnessed(e: Setting, x: Cell, j: int, i: int, k: int, adjSat: bool, n: Gradients, o: Outcome)
    requires ArisesFrom(e, x, j, i, k, adjSat, n, o)
    ensures Arises(e, x, j, i, k, o)
  {
    hide ArisesFrom;
  }

  function Classified(x: Cell, o: Outcome): Cell {
    x.(wc := o.wc, h := o.h, room := o.room, up := o.up, down := o.down)
  }

  /** A waiting cell is as it was; a visited active one holds its outcome. */
  ghost predicate VisitedAt(e: Setting, x: Cell, x': Cell, o: Outcome, waits: bool, j: int, i: int, k: int) {
    && (waits ==> x' == x)
    && (!e.g.Active(j, i, k) || waits ==> o == NO_OUTCOME)
    && (e.g.Active(j, i, k) && !waits ==> Arises(e, x, j, i, k, o) && x' == Classified(x, o))
  }

  ghost predicate Visited(e: Setting, c: Cells, c': Cells, o: Outcomes, todo: set<(int, int, int)>) {
    forall j, i, k {:trigger o(j, i, k)} :: e.g.box.Has(j, i, k) ==>
      VisitedAt(e, c(j, i, k), c'(j, i, k), o(j, i, k), (j, i, k) in todo, j, i, k)
  }

  ghost function Adjustments(o: Outcomes): (r: Field3)
    ensures forall j, i, k :: r(j, i, k) == o(j, i, k).adjusted
  {
    (j, i, k) => o(j, i, k).adjusted
  }
  ghost function Discards(o: Outcomes): (r: Field3)
    ensures forall j, i, k :: r(j, i, k) == o(j, i, k).discarded
  {
    (j, i, k) => o(j, i, k).discarded
  }

  /** A field of outcomes with one replaced. */
  ghost function Booked(o: Outcomes, j: int, i: int, k: int, v: Outcome): (r: Outcomes)
    ensures r(j, i, k) == v
    ensures forall j', i', k' :: (j', i', k') != (j, i, k) ==> r(j', i', k') == o(j', i', k')
  {
    (j', i', k') => if (j', i', k') == (j, i, k) then v else o(j', i', k')
  }

  ghost function Unvisited(): (r: Outcomes)
    ensures forall j, i, k :: r(j, i, k) == NO_OUTCOME
  {
    (j, i, k) => NO_OUTCOME
  }

  lemma ZeroSum(b: Box, f: Field3)
    requires forall j, i, k :: b.Has(j, i, k) ==> f(j, i, k) == 0.0
    ensures Sum3(b, f) == 0.0
  {
    Sum3Linear(b, f, -1.0, f, f);
  }

  lemma VisitedNone(e: Setting, c: Cells, todo: set<(int, int, int)>)
    requires forall j, i, k :: e.g.box.Has(j, i, k) ==> (j, i, k) in todo
    ensures Visited(e, c, c, Unvisited(), todo)
    ensures Sum3(e.g.box, Adjustments(Unvisited())) == Sum3(e.g.box, Discards(Unvisited())) == 0.0
  {
    hide Sum3;
    ZeroSum(e.g.box, Adjustments(Unvisited()));
    ZeroSum(e.g.box, Discards(Unvisited()));
  }

  lemma VisitedStep(e: Setting, c: Cells, m: Cells, c': Cells, o: Outcomes, todo: set<(int, int, int)>,
                    j: int, i: int, k: int, v: Outcome)
    requires e.g.box.Has(j, i, k) && (j, i, k) in todo && Visited(e, c, m, o, todo)
    requires forall j', i', k' :: e.g.box.Has(j', i', k') && (j', i', k') != (j, i, k) ==>
               c'(j', i', k') == m(j', i', k')
    requires if e.g.Active(j, i, k) then Arises(e, m(j, i, k), j, i, k, v) && c'(j, i, k) == Classified(m(j, i, k), v)
             else v == NO_OUTCOME
    ensures Visited(e, c, c', Booked(o, j, i, k, v), todo - {(j, i, k)})
    ensures Sum3(e.g.box, Adjustments(Booked(o, j, i, k, v))) == Sum3(e.g.box, Adjustments(o)) + v.adjusted
    ensures Sum3(e.g.box, Discards(Booked(o, j, i, k, v))) == Sum3(e.g.box, Discards(o)) + v.discarded
  {
    var p := Booked(o, j, i, k, v);
    hide Arises, Classified;
    assert VisitedAt(e, c(j, i, k), m(j, i, k), o(j, i, k), true, j, i, k);
    forall j', i', k' | e.g.box.Has(j', i', k') && (j', i', k') != (j, i, k)
      ensures VisitedAt(e, c(j', i', k'), c'(j', i', k'), p(j', i', k'), (j', i', k') in todo, j', i', k')
    {
      assert VisitedAt(e, c(j', i', k'), m(j', i', k'), o(j', i', k'), (j', i', k') in todo, j', i', k');
    }
    hide Sum3, VisitedAt;
    Sum3Point(e.g.box, Adjustments(o), Adjustments(p), j, i, k);
    Sum3Point(e.g.box, Discards(o), Discards(p), j, i, k);
  }

  /** A visited active cell: its water and the volumes it sends balance against its adjustment, which
      is what it gained or, where it gained nothing, what it discarded. */
  lemma VisitedCell(e: Setting, c: Cells, c': Cells, o: Outcomes, j: int, i: int, k: int)
    requires e.Ok() && Visited(e, c, c', o, {}) && e.g.Active(j, i, k)
    ensures Balanced(e.soil.at(j, i, k), e.g.Vol(j, i, k), c(j, i, k).wc, o(j, i, k))
    ensures c'(j, i, k) == Classified(c(j, i, k), o(j, i, k)) && o(j, i, k).discarded >= 0.0
    ensures Content(e.g, c', j, i, k) + c'(j, i, k).up + c'(j, i, k).down
            == Content(e.g, c, j, i, k) + o(j, i, k).adjusted
  {
    assert VisitedAt(e, c(j, i, k), c'(j, i, k), o(j, i, k), false, j, i, k);
    hide Visited, Arises, Balanced, Classified, Content, Setting.Ok;
    ArisenBalances(e, c(j, i, k), j, i, k, o(j, i, k));
    ClassifiedContent(e.g, c, c', o(j, i, k), e.soil.at(j, i, k), j, i, k);
  }

  lemma ClassifiedContent(g: Geometry, c: Cells, c': Cells, o: Outcome, s: VgSoil, j: int, i: int, k: int)
    requires c'(j, i, k) == Classified(c(j, i, k), o) && Balanced(s, g.Vol(j, i, k), c(j, i, k).wc, o)
    ensures Content(g, c', j, i, k) + c'(j, i, k).up + c'(j, i, k).down == Content(g, c, j, i, k) + o.adjusted
    ensures o.discarded >= 0.0
  {
    hide Geometry.Vol;
  }

  lemma ArisenBalances(e: Setting, x: Cell, j: int, i: int, k: int, o: Outcome)
    requires e.Ok() && e.g.Active(j, i, k) && Arises(e, x, j, i, k, o)
    ensures Balanced(e.soil.at(j, i, k), e.g.Vol(j, i, k), x.wc, o)
  {
    var adjSat, n :| ArisesFrom(e, x, j, i, k, adjSat, n, o);
    assert e.g.Vol(j, i, k) > 0.0 by { VolumePositive(e.g, j, i, k); }
    hide Balanced, CellOutcome, GradientSplit, e.g.Vol;
    OutcomeBalance(e.soil.pow, e.soil.at(j, i, k), e.g.Vol(j, i, k), x.wc, x.h, adjSat, n, e.opt.redistribute);
  }

  lemma VolumePositive(g: Geometry, j: int, i: int, k: int)
    requires g.Ok() && g.Active(j, i, k)
    ensures g.Vol(j, i, k) > 0.0
  {
    assert g.box.Has(j, i, k);
  }

  /** When every cell was visited, the block's water and the volumes to send balance. */
  lemma VisitedEnds(e: Setting, c: Cells, c': Cells, o: Outcomes)
    requires e.Ok() && Visited(e, c, c', o, {})
    ensures Volume(e.g, c') + Sum3(e.g.box, Outgoing(e.g, c')) == Volume(e.g, c) + Sum3(e.g.box, Adjustments(o))
    ensures forall j, i, k :: e.g.box.Has(j, i, k) ==> o(j, i, k).discarded >= 0.0
  {
    hide WaterField, Outgoing, Visited, Setting.Ok, Sum3;
    forall j, i, k | e.g.box.Has(j, i, k)
      ensures o(j, i, k).discarded >= 0.0
      ensures WaterField(e.g, c')(j, i, k)
              == WaterField(e.g, c)(j, i, k) + 1.0 * Adjustments(o)(j, i, k) - Outgoing(e.g, c')(j, i, k)
    {
      VisitedWater(e, c, c', o, j, i, k);
    }
    Sum3Combine(e.g.box, WaterField(e.g, c), 1.0, Adjustments(o), Outgoing(e.g, c'), WaterField(e.g, c'));
  }

  lemma VisitedWater(e: Setting, c: Cells, c': Cells, o: Outcomes, j: int, i: int, k: int)
    requires e.Ok() && Visited(e, c, c', o, {}) && e.g.box.Has(j, i, k)
    ensures o(j, i, k).discarded >= 0.0
    ensures WaterField(e.g, c')(j, i, k) == WaterField(e.g, c)(j, i, k) + o(j, i, k).adjusted
            - Outgoing(e.g, c')(j, i, k)
  {
    hide *;
    WaterIs(e.g, c, j, i, k);
    WaterIs(e.g, c', j, i, k);
    NothingBooked();
    if e.g.Active(j, i, k) { VisitedCell(e, c, c', o, j, i, k); } else { NotVisited(e, c, c', o, j, i, k); }
  }

  lemma WaterIs(g: Geometry, c: Cells, j: int, i: int, k: int)
    ensures WaterField(g, c)(j, i, k) == if g.Active(j, i, k) then Content(g, c, j, i, k) else 0.0
    ensures Outgoing(g, c)(j, i, k) == if g.Active(j, i, k) then c(j, i, k).up + c(j, i, k).down else 0.0
  {
  }

  lemma NothingBooked()
    ensures NO_OUTCOME.adjusted == NO_OUTCOME.discarded == 0.0
  {
  }

  /** The classification reads the block's cells alone. */
  lemma VisitedSame(e: Setting, c0: Cells, c: Cells, c': Cells, o: Outcomes)
    requires Visited(e, c, c', o, {}) && forall j, i, k :: e.g.box.Has(j, i, k) ==> c(j, i, k) == c0(j, i, k)
    ensures Visited(e, c0, c', o, {})
  {
    hide Arises, Classified;
    forall j, i, k {:trigger o(j, i, k)} | e.g.box.Has(j, i, k)
      ensures VisitedAt(e, c0(j, i, k), c'(j, i, k), o(j, i, k), false, j, i, k)
    {
      assert VisitedAt(e, c(j, i, k), c'(j, i, k), o(j, i, k), false, j, i, k);
    }
  }

  lemma NotVisited(e: Setting, c: Cells, c': Cells, o: Outcomes, j: int, i: int, k: int)
    requires Visited(e, c, c', o, {}) && e.g.box.Has(j, i, k) && !e.g.Active(j, i, k)
    ensures o(j, i, k) == NO_OUTCOME
  {
    assert VisitedAt(e, c(j, i, k), c'(j, i, k), o(j, i, k), false, j, i, k);
  }

  // ----- the sweeps

  /** A swept cell: its drop is between nothing and what it was to send; with recording on, its water
      changed by its corrected inflow over the plain one, and by what it sent and did not drop. */
  ghost predicate SentAt(g: Geometry, c: Cells, c': Cells, f: Faces, f': Faces, dtg: real, record: bool, drop: real,
                         j: int, i: int, k: int) {
    && (!g.Active(j, i, k) ==> drop == 0.0)
    && (g.Active(j, i, k) ==> 0.0 <= drop <= c(j, i, k).up + c(j, i, k).down)
    && (record && g.Active(j, i, k) ==>
          Content(g, c', j, i, k)
          == Content(g, c, j, i, k) + (CorrectedIn(f', dtg, j, i, k) - PlainIn(f, dtg, j, i, k))
             + (c(j, i, k).up + c(j, i, k).down - drop))
  }

  ghost predicate Sent(g: Geometry, c: Cells, c': Cells, f: Faces, f': Faces, dtg: real, record: bool, drops: Field3) {
    forall j, i, k {:trigger drops(j, i, k)} :: g.box.Has(j, i, k) ==>
      SentAt(g, c, c', f, f', dtg, record, drops(j, i, k), j, i, k)
  }

  /** The sweeps of all columns, their corrections fresh where they are recorded. */
  lemma SweepsSend(g: Geometry, c: Cells, c': Cells, f: Faces, n: Faces, f': Faces, dtg: real, record: bool,
                   drops: Field3)
    requires SweptSoFar(g, c, c', n, f', dtg, record, drops, {})
    requires forall j, i, k :: g.box.Has2(j, i) && 0 <= k <= g.box.nz ==>
      n(j, i, k).q == f(j, i, k).q && (record ==> n(j, i, k).corr == 0.0)
    ensures Sent(g, c, c', f, f', dtg, record, drops)
  {
    hide Content;
    forall j, i, k {:trigger drops(j, i, k)} | g.box.Has(j, i, k)
      ensures SentAt(g, c, c', f, f', dtg, record, drops(j, i, k), j, i, k)
    {
      assert g.box.Has2(j, i);
      assert ColumnPaths(g, c, c', n, f', dtg, record, LineOf(drops, j, i), j, i);
      assert LineOf(drops, j, i)(k) == drops(j, i, k);
      assert PathHolds(g, c, c', n, f', dtg, record, drops(j, i, k), j, i, k);
      assert record ==> CorrectedIn(n, dtg, j, i, k) == PlainIn(f, dtg, j, i, k);
      hide CorrectedIn, PlainIn, SweptSoFar, ColumnPaths;
    }
  }

  // ----- the clamp

  ghost predicate Clamped(g: Geometry, soil: Soil, c: Cells, c': Cells) {
    forall j, i, k :: g.Active(j, i, k) ==> c'(j, i, k).wc == ClampedContent(c(j, i, k).wc, soil.at(j, i, k))
  }

  // ----- the moisture update

  /** The moisture update: an active cell gained what the fluxes bring, less what it stores. */
  ghost predicate SuppliedAt(g: Geometry, c: Cells, c': Cells, f: Faces, dtg: real, stored: real,
                             j: int, i: int, k: int)
  {
    Content(g, c', j, i, k)
    == Content(g, c, j, i, k) + (LateralIn(c', dtg, j, i, k) + PlainIn(f, dtg, j, i, k)) - stored
  }

  ghost predicate Supplied(g: Geometry, c: Cells, c': Cells, f: Faces, dtg: real, stored: Field3) {
    forall j, i, k {:trigger stored(j, i, k)} :: g.box.Has(j, i, k) ==>
      if g.Active(j, i, k) then SuppliedAt(g, c, c', f, dtg, stored(j, i, k), j, i, k) else stored(j, i, k) == 0.0
  }

  lemma CellSupplied(g: Geometry, s: Soil, r: Ratios, c0: Cells, c: Cells, c': Cells, f: Faces, dtg: real,
                     j: int, i: int, k: int)
    requires r.Unit() && g.Active(j, i, k) && s.at(j, i, k).thetaS != 0.0 && Coefficient(g, s, r, c, j, i, k) != 0.0
    requires c'(j, i, k).wc == UpdatedContent(g, s, r, c, f, dtg, j, i, k)
    requires c(j, i, k).wcn == c0(j, i, k).wc && LateralIn(c', dtg, j, i, k) == LateralIn(c, dtg, j, i, k)
    ensures SuppliedAt(g, c0, c', f, dtg, CompressedField(g, s, r, c, c')(j, i, k), j, i, k)
  {
    CellBalance(g, s, r, c, f, dtg, j, i, k);
    FluxInParts(r, c, f, dtg, j, i, k);
    hide UpdatedContent, FluxIn, Compressed, LateralIn, PlainIn, Coefficient, Geometry.Vol, Geometry.Active,
      Ratios.Unit;
  }

  lemma FluxInParts(r: Ratios, c: Cells, f: Faces, dtg: real, j: int, i: int, k: int)
    requires r.Unit()
    ensures FluxIn(r, c, f, dtg, j, i, k) == LateralIn(c, dtg, j, i, k) + PlainIn(f, dtg, j, i, k)
  {
    Distribute(dtg, c(j, i, k).qx - c(j, i - 1, k).qx, c(j, i, k).qy - c(j - 1, i, k).qy, 0.0);
  }

  /** What compressible storage takes is zero off the mask. */
  lemma NothingStored(g: Geometry, s: Soil, r: Ratios, c: Cells, c': Cells, j: int, i: int, k: int)
    requires !g.Active(j, i, k)
    ensures CompressedField(g, s, r, c, c')(j, i, k) == 0.0
  {
  }

  lemma CorrectorSupplies(g: Geometry, s: Soil, r: Ratios, c0: Cells, c: Cells, c': Cells, f: Faces, dtg: real)
    requires r.Unit() && GroundwaterTerms.Corrected(g, s, r, c, c', f, dtg) && LateralsSame(g, c, c')
    requires forall j, i, k :: g.Active(j, i, k) ==> c(j, i, k).wcn == c0(j, i, k).wc
    ensures Supplied(g, c0, c', f, dtg, CompressedField(g, s, r, c, c'))
  {
    var stored := CompressedField(g, s, r, c, c');
    SameLaterals(g, c, c', dtg);
    hide LateralIn, CompressedField, UpdatedContent, Coefficient, Ratios.Unit, LateralsSame, SuppliedAt;
    forall j, i, k {:trigger stored(j, i, k)} | g.box.Has(j, i, k)
      ensures if g.Active(j, i, k) then SuppliedAt(g, c0, c', f, dtg, stored(j, i, k), j, i, k)
              else stored(j, i, k) == 0.0
    {
      if g.Active(j, i, k) { CellSupplied(g, s, r, c0, c, c', f, dtg, j, i, k); }
      else { NothingStored(g, s, r, c, c', j, i, k); }
    }
  }

  // ----- the whole step

  /** The states between the parts of a step: cells, surface and faces at the fluxes, cells after the
      update, after the classification and after the sweeps; the outcomes and the drops. */
  datatype Trail = Trail(fluxed: Cells, surface: Ponds, plain: Faces, updated: Cells, visited: Cells, swept: Cells,
                         outcomes: Outcomes, drops: Field3)

  /** A step's volumes cell by cell: into compressible storage, booked and discarded by the
      classification, dropped by the sweep, taken by the clamp. */
  ghost function Compressions(e: Setting, t: Trail): Field3 {
    CompressedField(e.g, e.soil, e.ratios, t.fluxed, t.updated)
  }
  ghost function Lost(e: Setting, t: Trail): Field3 { LossField(e.g, e.soil, t.swept) }

  /** What a cell gains besides its fluxes. */
  ghost function Rest(e: Setting, t: Trail): (r: Field3)
    ensures forall j, i, k ::
      r(j, i, k) == t.outcomes(j, i, k).adjusted - t.drops(j, i, k) - Lost(e, t)(j, i, k) - Compressions(e, t)(j, i, k)
  {
    (j, i, k) => t.outcomes(j, i, k).adjusted - t.drops(j, i, k) - Lost(e, t)(j, i, k) - Compressions(e, t)(j, i, k)
  }

  /** The step starts from the cells c: their heads and moistures are frozen. */
  ghost predicate Started(g: Geometry, c: Cells, fluxed: Cells) {
    forall j, i, k :: g.box.Has(j, i, k) ==>
      fluxed(j, i, k).wcn == fluxed(j, i, k).wc == c(j, i, k).wc && fluxed(j, i, k).hn == c(j, i, k).h
  }

  /** The cells before the prediction. */
  ghost function Unpredicted(c: Cells): (r: Cells)
    ensures forall j, i, k :: r(j, i, k) == c(j, i, k).(h := c(j, i, k).hn)
  {
    (j, i, k) => c(j, i, k).(h := c(j, i, k).hn)
  }

  /** The surface the fluxes see: over a coupled block, with each column classified before the
      prediction. */
  ghost predicate Faced(e: Setting, fluxed: Cells, s0: Ponds, dtg: real, s: Ponds)
    requires e.Ok()
  {
    forall j, i :: e.g.box.Has2(j, i) ==>
      s(j, i) == if e.opt.coupled then Moded(e, Unpredicted(fluxed), dtg, j, i, s0(j, i)) else s0(j, i)
  }

  lemma FacedBy(e: Setting, c: Cells, fluxed: Cells, s0: Ponds, dtg: real, s: Ponds)
    requires e.Ok()
    requires forall j, i, k :: e.g.box.Has(j, i, k) ==>
      c(j, i, k).h == c(j, i, k).hn == fluxed(j, i, k).hn && c(j, i, k).wc == fluxed(j, i, k).wc
    requires forall j, i :: e.g.box.Has2(j, i) ==>
      s(j, i) == if e.opt.coupled then Moded(e, c, dtg, j, i, s0(j, i)) else s0(j, i)
    ensures Faced(e, fluxed, s0, dtg, s)
  {
    forall j, i | e.g.box.Has2(j, i)
      ensures Moded(e, Unpredicted(fluxed), dtg, j, i, s0(j, i)) == Moded(e, c, dtg, j, i, s0(j, i))
    {
      ModedReads(e, c, Unpredicted(fluxed), dtg, j, i, s0(j, i));
      hide Moded;
    }
    hide Moded;
  }

  lemma ModedReads(e: Setting, c: Cells, c': Cells, dtg: real, j: int, i: int, pond: Pond)
    requires e.Ok() && e.g.box.Has2(j, i)
    requires forall k :: 0 <= k < e.g.box.nz ==>
      c'(j, i, k).h == c(j, i, k).h && c'(j, i, k).hn == c(j, i, k).hn && c'(j, i, k).wc == c(j, i, k).wc
    ensures Moded(e, c', dtg, j, i, pond) == Moded(e, c, dtg, j, i, pond)
  {
    assert HasTop(e.g, j, i) ==> TopCellOf(e, c', j, i, pond) == TopCellOf(e, c, j, i, pond);
    hide TopCellOf, TopMode;
  }

  /** The trail leads from one state to the other: each part did to every cell and face what its
      kernel does. */
  ghost predicate Leads(e: Setting, c: Cells, s: Ponds, c': Cells, f': Faces, dtg: real, t: Trail) {
    && e.Ok() && dtg > 0.0
    && Started(e.g, c, t.fluxed) && Faced(e, t.fluxed, s, dtg, t.surface)
    && LateralsFilled(e, t.fluxed, t.fluxed) && VerticalsFilled(e, t.fluxed, t.surface, t.plain, dtg)
    && GroundwaterTerms.Corrected(e.g, e.soil, e.ratios, t.fluxed, t.updated, t.plain, dtg)
    && Visited(e, t.updated, t.visited, t.outcomes, {})
    && Sent(e.g, t.visited, t.swept, t.plain, f', dtg, e.opt.record, t.drops)
    && (forall j, i :: e.g.box.Has2(j, i) ==> ColumnReady(e.g, e.soil, t.swept, j, i))
    && Clamped(e.g, e.soil, t.swept, c')
    && LateralsSame(e.g, t.fluxed, t.updated) && LateralsSame(e.g, t.updated, c')
  }

  lemma LeadsBy(e: Setting, c: Cells, s: Ponds, c': Cells, f': Faces, dtg: real, t: Trail)
    requires e.Ok() && dtg > 0.0 && Started(e.g, c, t.fluxed) && Faced(e, t.fluxed, s, dtg, t.surface)
    requires LateralsFilled(e, t.fluxed, t.fluxed) && VerticalsFilled(e, t.fluxed, t.surface, t.plain, dtg)
    requires GroundwaterTerms.Corrected(e.g, e.soil, e.ratios, t.fluxed, t.updated, t.plain, dtg)
    requires Visited(e, t.updated, t.visited, t.outcomes, {})
    requires Sent(e.g, t.visited, t.swept, t.plain, f', dtg, e.opt.record, t.drops)
    requires forall j, i :: e.g.box.Has2(j, i) ==> ColumnReady(e.g, e.soil, t.swept, j, i)
    requires Clamped(e.g, e.soil, t.swept, c')
    requires LateralsSame(e.g, t.fluxed, t.updated) && LateralsSame(e.g, t.updated, c')
    ensures Leads(e, c, s, c', f', dtg, t)
  {
    hide GroundwaterTerms.Corrected, Visited, Sent, ColumnReady, Clamped, LateralsSame;
  }

  /** Over the whole step an active cell gained exactly what the corrected fluxes bring, and rest. */
  ghost predicate SettledAt(g: Geometry, c: Cells, c': Cells, f: Faces, dtg: real, rest: real, j: int, i: int, k: int) {
    Content(g, c', j, i, k)
    == Content(g, c, j, i, k) + (LateralIn(c', dtg, j, i, k) + CorrectedIn(f, dtg, j, i, k)) + rest
  }

  ghost predicate Settled(g: Geometry, c: Cells, c': Cells, f: Faces, dtg: real, rest: Field3) {
    forall j, i, k {:trigger rest(j, i, k)} :: g.box.Has(j, i, k) ==>
      if g.Active(j, i, k) then SettledAt(g, c, c', f, dtg, rest(j, i, k), j, i, k) else rest(j, i, k) == 0.0
  }

  /** Main result: along a recorded trail with unit ratios every cell changes by the divergence of the
      fluxes the step leaves, path corrections included, by its adjustment, and by what it drops, loses
      and stores; nothing else, and nothing at all off the mask. */
  lemma TrailSettles(e: Setting, c: Cells, s: Ponds, c': Cells, f': Faces, dtg: real, t: Trail)
    requires e.Ok() && e.ratios.Unit() && e.opt.record && Leads(e, c, s, c', f', dtg, t)
    ensures Settled(e.g, c, c', f', dtg, Rest(e, t))
  {
    CorrectorSupplies(e.g, e.soil, e.ratios, c, t.fluxed, t.updated, t.plain, dtg);
    SameLaterals(e.g, t.updated, c', dtg);
    LossIs(e.g, e.soil, t.swept, c');
    var rest := Rest(e, t);
    hide LateralIn, GroundwaterTerms.Corrected, Lost, Compressions, LateralsSame, SettledAt;
    forall j, i, k {:trigger rest(j, i, k)} | e.g.box.Has(j, i, k)
      ensures if e.g.Active(j, i, k) then SettledAt(e.g, c, c', f', dtg, rest(j, i, k), j, i, k)
              else rest(j, i, k) == 0.0
    {
      if e.g.Active(j, i, k) {
        TrailCell(e, c, s, c', f', dtg, t, j, i, k);
      } else {
        TrailOff(e, c, s, c', f', dtg, t, j, i, k);
      }
    }
  }

  lemma TrailCell(e: Setting, c: Cells, s: Ponds, c': Cells, f': Faces, dtg: real, t: Trail, j: int, i: int, k: int)
    requires e.Ok() && e.opt.record && Leads(e, c, s, c', f', dtg, t) && e.g.Active(j, i, k)
    requires Supplied(e.g, c, t.updated, t.plain, dtg, Compressions(e, t))
    requires LateralIn(c', dtg, j, i, k) == LateralIn(t.updated, dtg, j, i, k)
    requires Content(e.g, c', j, i, k) == Content(e.g, t.swept, j, i, k) - Lost(e, t)(j, i, k)
    ensures SettledAt(e.g, c, c', f', dtg, Rest(e, t)(j, i, k), j, i, k)
  {
    var stored := Compressions(e, t);
    assert e.g.box.Has(j, i, k);
    assert SuppliedAt(e.g, c, t.updated, t.plain, dtg, stored(j, i, k), j, i, k);
    VisitedCell(e, t.updated, t.visited, t.outcomes, j, i, k);
    assert SentAt(e.g, t.visited, t.swept, t.plain, f', dtg, e.opt.record, t.drops(j, i, k), j, i, k);
    hide LateralIn, CorrectedIn, PlainIn, Content, Compressions, Lost, Leads, Supplied, Balanced, Classified, e.Ok;
  }

  lemma TrailOff(e: Setting, c: Cells, s: Ponds, c': Cells, f': Faces, dtg: real, t: Trail, j: int, i: int, k: int)
    requires Leads(e, c, s, c', f', dtg, t) && e.g.box.Has(j, i, k) && !e.g.Active(j, i, k)
    ensures t.drops(j, i, k) == t.outcomes(j, i, k).adjusted == t.outcomes(j, i, k).discarded == 0.0
    ensures Lost(e, t)(j, i, k) == Compressions(e, t)(j, i, k) == Rest(e, t)(j, i, k) == 0.0
  {
    NotVisited(e, t.updated, t.visited, t.outcomes, j, i, k);
    assert SentAt(e.g, t.visited, t.swept, t.plain, f', dtg, e.opt.record, t.drops(j, i, k), j, i, k);
    NothingStored(e.g, e.soil, e.ratios, t.fluxed, t.updated, j, i, k);
    hide CompressedField, Visited, Sent;
  }

  /** The parts of an active cell's remainder: the sweep drops no more than was to be sent, the clamp
      only adds, and the adjustment is what the classification added or, where it added nothing, what it
      discarded. */
  lemma TrailSigns(e: Setting, c: Cells, s: Ponds, c': Cells, f': Faces, dtg: real, t: Trail, j: int, i: int, k: int)
    requires e.Ok() && Leads(e, c, s, c', f', dtg, t) && e.g.Active(j, i, k)
    ensures 0.0 <= t.drops(j, i, k) <= t.visited(j, i, k).up + t.visited(j, i, k).down
    ensures Lost(e, t)(j, i, k) <= 0.0 <= t.outcomes(j, i, k).discarded
    ensures t.outcomes(j, i, k).adjusted
            == if t.visited(j, i, k).wc > t.updated(j, i, k).wc
               then (t.visited(j, i, k).wc - t.updated(j, i, k).wc) * e.g.Vol(j, i, k)
                 else -t.outcomes(j, i, k).discarded
  {
    hide *;
    TrailLinks(e, c, s, c', f', dtg, t, j, i, k);
    VisitedCell(e, t.updated, t.visited, t.outcomes, j, i, k);
    OutcomeSigns(e.soil.at(j, i, k), e.g.Vol(j, i, k), t.updated(j, i, k), t.visited(j, i, k), t.outcomes(j, i, k));
  }

  lemma TrailLinks(e: Setting, c: Cells, s: Ponds, c': Cells, f': Faces, dtg: real, t: Trail, j: int, i: int, k: int)
    requires e.Ok() && Leads(e, c, s, c', f', dtg, t) && e.g.Active(j, i, k)
    ensures Visited(e, t.updated, t.visited, t.outcomes, {})
    ensures 0.0 <= t.drops(j, i, k) <= t.visited(j, i, k).up + t.visited(j, i, k).down && Lost(e, t)(j, i, k) <= 0.0
  {
    assert e.g.box.Has(j, i, k) && e.g.box.Has2(j, i);
    assert SentAt(e.g, t.visited, t.swept, t.plain, f', dtg, e.opt.record, t.drops(j, i, k), j, i, k);
    ReadyGains(e.g, e.soil, t.swept, j, i, k);
    hide Content, CorrectedIn, PlainIn, Visited, Sent, Clamped, ColumnReady, LateralsSame, GroundwaterTerms.Corrected,
      LossField;
  }

  lemma OutcomeSigns(s: VgSoil, vol: real, x: Cell, x': Cell, o: Outcome)
    requires Balanced(s, vol, x.wc, o) && x' == Classified(x, o)
    ensures o.discarded >= 0.0 && o.adjusted == if x'.wc > x.wc then (x'.wc - x.wc) * vol else -o.discarded
  {
  }

  /** The sums of what is lost and stored, by their fields. */
  lemma TrailSums(e: Setting, t: Trail)
    ensures Sum3(e.g.box, Lost(e, t)) == Sum3(e.g.box, LossField(e.g, e.soil, t.swept))
    ensures Sum3(e.g.box, Compressions(e, t)) == SsStorage(e.g, e.soil, e.ratios, t.fluxed, t.updated)
  {
  }

  /** The remainders add up to the four totals. */
  lemma RestAdds(e: Setting, t: Trail)
    ensures Sum3(e.g.box, Rest(e, t))
            == Sum3(e.g.box, Adjustments(t.outcomes)) - Sum3(e.g.box, t.drops) - Sum3(e.g.box, Lost(e, t))
              - Sum3(e.g.box, Compressions(e, t))
  {
    hide Sum3, Lost, Compressions;
    var a: Field3 := (j, i, k) => t.outcomes(j, i, k).adjusted - t.drops(j, i, k);
    var b: Field3 := (j, i, k) => a(j, i, k) - Lost(e, t)(j, i, k);
    Sum3Linear(e.g.box, Adjustments(t.outcomes), -1.0, t.drops, a);
    Sum3Linear(e.g.box, a, -1.0, Lost(e, t), b);
    Sum3Linear(e.g.box, b, -1.0, Compressions(e, t), Rest(e, t));
  }

  /** What a finished step knows of its trail. */
  lemma TrailBooks(e: Setting, c: Cells, s: Ponds, c': Cells, f': Faces, dtg: real, t: Trail)
    requires e.Ok() && dtg > 0.0 && Started(e.g, c, t.fluxed) && Faced(e, t.fluxed, s, dtg, t.surface)
    requires LateralsFilled(e, t.fluxed, t.fluxed) && VerticalsFilled(e, t.fluxed, t.surface, t.plain, dtg)
    requires GroundwaterTerms.Corrected(e.g, e.soil, e.ratios, t.fluxed, t.updated, t.plain, dtg)
    requires Visited(e, t.updated, t.visited, t.outcomes, {})
    requires Sent(e.g, t.visited, t.swept, t.plain, f', dtg, e.opt.record, t.drops)
    requires forall j, i :: e.g.box.Has2(j, i) ==> ColumnReady(e.g, e.soil, t.swept, j, i)
    requires Clamped(e.g, e.soil, t.swept, c')
    requires LateralsSame(e.g, t.fluxed, t.updated) && LateralsSame(e.g, t.updated, c')
    ensures Leads(e, c, s, c', f', dtg, t)
    ensures e.ratios.Unit() && e.opt.record ==> Settled(e.g, c, c', f', dtg, Rest(e, t))
    ensures Sum3(e.g.box, Lost(e, t)) == Sum3(e.g.box, LossField(e.g, e.soil, t.swept))
    ensures Sum3(e.g.box, Compressions(e, t)) == SsStorage(e.g, e.soil, e.ratios, t.fluxed, t.updated)
    ensures Sum3(e.g.box, Rest(e, t))
            == Sum3(e.g.box, Adjustments(t.outcomes)) - Sum3(e.g.box, t.drops) - Sum3(e.g.box, Lost(e, t))
              - Sum3(e.g.box, Compressions(e, t))
  {
    hide *;
    LeadsBy(e, c, s, c', f', dtg, t);
    if e.ratios.Unit() && e.opt.record { TrailSettles(e, c, s, c', f', dtg, t); }
    TrailSums(e, t);
    RestAdds(e, t);
  }

  /** Lateral inflows read the lateral fluxes alone. */
  lemma SameLaterals(g: Geometry, c: Cells, c': Cells, dtg: real)
    requires LateralsSame(g, c, c')
    ensures forall j, i, k :: g.Active(j, i, k) ==> LateralIn(c', dtg, j, i, k) == LateralIn(c, dtg, j, i, k)
  {
  }
}
