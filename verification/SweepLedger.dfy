/** One column's sweep seen from the whole block: what it adds to the stored water and to the
    boundary inflow. */
module SweepLedger {
  import opened Sums
  import opened SendWalk
  import opened TopExchange
  import G = GroundwaterTerms

  /** Column (j, i) of the block, as the sweep sees it. */
  ghost predicate Shows(g: G.Geometry, c: G.Cells, f: G.Faces, p: Site, col: Column, j: int, i: int) {
    && g.box.Has2(j, i) && p.Valid() && p.nz == g.box.nz && p.ktop == g.ktop(j, i) && p.area == g.az
    && col.Fits(p)
    && (forall k :: 0 <= k < p.nz ==> p.dz[k] == g.dz(j, i, k))
    && (forall k :: 0 <= k < p.nz ==> col.theta[k] == c(j, i, k).wc && col.room[k] == c(j, i, k).room)
    && (forall k :: 0 <= k <= p.nz ==> col.q[k] == f(j, i, k).q && col.corr[k] == f(j, i, k).corr)
  }

  /** Blocks that differ in column (j, i) alone, and there not in the lateral fluxes. */
  ghost predicate DifferInColumn(g: G.Geometry, c: G.Cells, c': G.Cells, f: G.Faces, f': G.Faces, j: int, i: int) {
    && (forall j', i', k :: 0 <= j' < g.box.ny + 2 && 0 <= i' < g.box.nx + 2 && 0 <= k < g.box.nz ==>
          c'(j', i', k).qx == c(j', i', k).qx && c'(j', i', k).qy == c(j', i', k).qy
          && ((j', i') != (j, i) ==> c'(j', i', k).wc == c(j', i', k).wc))
    && (forall j', i', k :: 0 <= j' < g.box.ny + 2 && 0 <= i' < g.box.nx + 2 && 0 <= k <= g.box.nz
                            && (j', i') != (j, i) ==>
          f'(j', i', k).q == f(j', i', k).q)
  }

  ghost function Outgoing(g: G.Geometry, c: G.Cells): Field3 {
    (j, i, k) => if g.Active(j, i, k) then c(j, i, k).up + c(j, i, k).down else 0.0
  }

  lemma VolumeChange(g: G.Geometry, c: G.Cells, c': G.Cells, f: G.Faces, f': G.Faces, p: Site, col: Column,
                     col': Column, j: int, i: int, sent: real)
    requires Shows(g, c, f, p, col, j, i) && Shows(g, c', f', p, col', j, i)
    requires DifferInColumn(g, c, c', f, f', j, i) && Kept(p, col, col', sent)
    ensures G.Volume(g, c') == G.Volume(g, c) + sent
  {
    var w, w' := G.WaterField(g, c), G.WaterField(g, c');
    forall j', i', k | g.box.Has(j', i', k) && (j', i') != (j, i) ensures w(j', i', k) == w'(j', i', k) {
      assert c'(j', i', k).wc == c(j', i', k).wc;
    }
    hide Shows, Kept, DifferInColumn, G.WaterField, Sum3, ColumnSum;
    Sum3Column(g.box, w, w', j, i);
    ColumnChange(g, c, c', f, f', p, col, col', j, i, sent);
  }

  lemma ColumnChange(g: G.Geometry, c: G.Cells, c': G.Cells, f: G.Faces, f': G.Faces, p: Site, col: Column,
                     col': Column, j: int, i: int, sent: real)
    requires Shows(g, c, f, p, col, j, i) && Shows(g, c', f', p, col', j, i)
    requires Kept(p, col, col', sent)
    ensures ColumnSum(g.box, G.WaterField(g, c'), j, i) == ColumnSum(g.box, G.WaterField(g, c), j, i) + sent
  {
    forall k | 0 <= k < p.nz
      ensures G.WaterField(g, c')(j, i, k) - G.WaterField(g, c)(j, i, k) == WaterLine(p, col')(k) - WaterLine(p, col)(k)
    {
      CellChange(g, c, c', f, f', p, col, col', j, i, sent, k);
    }
    SumDifference(0, p.nz, k => G.WaterField(g, c)(j, i, k), k => G.WaterField(g, c')(j, i, k), WaterLine(p, col),
                  WaterLine(p, col'));
  }

  /** The grid's water in a cell of the column is the column's, below its top; above it there is
      none. */
  lemma WaterAt(g: G.Geometry, c: G.Cells, f: G.Faces, p: Site, col: Column, j: int, i: int, k: nat)
    requires Shows(g, c, f, p, col, j, i) && k < p.nz
    ensures G.WaterField(g, c)(j, i, k) == if k < p.ktop then 0.0 else Water(p, col, k)
  {
    assert p.Vol(k) == g.Vol(j, i, k) && col.theta[k] == c(j, i, k).wc;
  }

  lemma CellChange(g: G.Geometry, c: G.Cells, c': G.Cells, f: G.Faces, f': G.Faces, p: Site, col: Column, col': Column,
                   j: int, i: int, sent: real, k: nat)
    requires Shows(g, c, f, p, col, j, i) && Shows(g, c', f', p, col', j, i)
    requires Kept(p, col, col', sent) && k < p.nz
    ensures G.WaterField(g, c')(j, i, k) - G.WaterField(g, c)(j, i, k) == Water(p, col', k) - Water(p, col, k)
  {
    hide G.WaterField, Site.Vol;
    WaterAt(g, c, f, p, col, j, i, k);
    WaterAt(g, c', f', p, col', j, i, k);
    if k < p.ktop { assert col'.theta[k] == col.theta[k]; } else { hide Water; }
  }

  /** Only the top face of the column lies on the boundary and moved. */
  lemma BoundaryChange(g: G.Geometry, c: G.Cells, c': G.Cells, f: G.Faces, f': G.Faces, p: Site, col: Column,
                       col': Column, j: int, i: int, out: real)
    requires g.Ok()
    requires Shows(g, c, f, p, col, j, i) && Shows(g, c', f', p, col', j, i)
    requires DifferInColumn(g, c, c', f, f', j, i) && EndFaces(p, col, col', out)
    ensures p.ktop < p.nz ==> G.BoundaryIn(g, c', f', p.dtg) == G.BoundaryIn(g, c, f, p.dtg) - out
    ensures p.ktop == p.nz ==> G.BoundaryIn(g, c', f', p.dtg) == G.BoundaryIn(g, c, f, p.dtg)
  {
    var t, t' := G.BoundaryTerms(g, c, f, p.dtg), G.BoundaryTerms(g, c', f', p.dtg);
    if p.ktop == p.nz {
      forall j', i', k | g.box.Has(j', i', k) ensures t(j', i', k) == t'(j', i', k) {
        assert (j', i') == (j, i) ==> !g.Active(j', i', k);
      }
      Sum3Ext(g.box, t, t');
    } else {
      forall j', i', k | g.box.Has(j', i', k) && (j', i', k) != (j, i, p.ktop) ensures t(j', i', k) == t'(j', i', k) {
        SameHull(g, c, c', f, f', p, col, col', j, i, out, j', i', k);
      }
      Sum3Point(g.box, t, t', j, i, p.ktop);
      TopTerm(g, c, c', f, f', p, col, col', j, i, out);
    }
  }

  lemma SameHull(g: G.Geometry, c: G.Cells, c': G.Cells, f: G.Faces, f': G.Faces, p: Site, col: Column, col': Column,
                 j: int, i: int, out: real, j': int, i': int, k: int)
    requires Shows(g, c, f, p, col, j, i) && Shows(g, c', f', p, col', j, i)
    requires DifferInColumn(g, c, c', f, f', j, i) && EndFaces(p, col, col', out)
    requires p.ktop < p.nz && g.box.Has(j', i', k) && (j', i', k) != (j, i, p.ktop)
    ensures g.Active(j', i', k) ==> G.HullOf(g, c, f, j', i', k) == G.HullOf(g, c', f', j', i', k)
  {
  }

  lemma TopTerm(g: G.Geometry, c: G.Cells, c': G.Cells, f: G.Faces, f': G.Faces, p: Site, col: Column, col': Column,
                j: int, i: int, out: real)
    requires g.Ok() && p.ktop < p.nz
    requires Shows(g, c, f, p, col, j, i) && Shows(g, c', f', p, col', j, i)
    requires DifferInColumn(g, c, c', f, f', j, i) && EndFaces(p, col, col', out)
    ensures G.BoundaryTerm(g, c', f', p.dtg, j, i, p.ktop) == G.BoundaryTerm(g, c, f, p.dtg, j, i, p.ktop) - out
  {
    var h, h' := G.HullOf(g, c, f, j, i, p.ktop), G.HullOf(g, c', f', j, i, p.ktop);
    assert h'.zm == h.zm + out / p.dtg;
    assert h' == h.(zm := h'.zm);
    TopFace(h.zm, out, p.dtg);
  }

  lemma TopFace(q: real, out: real, dtg: real)
    requires dtg > 0.0
    ensures (q + out / dtg) * dtg == q * dtg + out
    ensures -(q + out / dtg) * dtg == -q * dtg - out
  {
    assert out / dtg * dtg == out;
  }

  /** What cells [ktop, nz) deliver is their column's share of the outgoing volumes, less the drops. */
  lemma DeliveredIsOutgoing(g: G.Geometry, c: G.Cells, p: Site, up: seq<real>, down: seq<real>, drops: seq<real>,
                            j: int, i: int)
    requires g.Ok() && g.box.Has2(j, i) && p.Valid() && p.nz == g.box.nz && p.ktop == g.ktop(j, i)
    requires |up| == |down| == |drops| == p.nz
    requires forall k :: 0 <= k < p.nz ==> up[k] == c(j, i, k).up && down[k] == c(j, i, k).down
    ensures Delivered(p, up, down, drops, p.nz) == ColumnSum(g.box, Outgoing(g, c), j, i) - Dropped(p, drops, p.nz)
  {
    var o := k => Outgoing(g, c)(j, i, k);
    var d := l => if 0 <= l < p.nz then drops[l] else 0.0;
    var net := l => if 0 <= l < p.nz then up[l] + down[l] - drops[l] else 0.0;
    SumSplit(0, p.ktop, p.nz, o);
    forall l | 0 <= l < p.ktop ensures o(l) == 0.0 { assert Outgoing(g, c)(j, i, l) == 0.0; }
    SumZero(0, p.ktop, o);
    forall l | p.ktop <= l < p.nz
      ensures net(l) == o(l) + -1.0 * d(l)
    {
      assert Outgoing(g, c)(j, i, l) == up[l] + down[l];
    }
    SumLinear(p.ktop, p.nz, o, -1.0, d, net);
  }

  /** One column's sweep: stored water minus boundary inflow changes by what the column sent less
      what it dropped. */
  lemma SweptColumn(g: G.Geometry, c: G.Cells, c': G.Cells, f: G.Faces, f': G.Faces, p: Site, s: Sweep, s': Sweep,
                    up: seq<real>, down: seq<real>, drops: seq<real>, out: real, j: int, i: int)
    requires g.Ok() && Shows(g, c, f, p, s.col, j, i) && Shows(g, c', f', p, s'.col, j, i)
    requires DifferInColumn(g, c, c', f, f', j, i)
    requires Sends(p, up, down) && forall k :: 0 <= k < p.nz ==> up[k] == c(j, i, k).up && down[k] == c(j, i, k).down
    requires Swept(p, s, s', up, down, drops, out, p.nz) && (p.ktop == p.nz ==> out == 0.0)
    ensures G.Volume(g, c') - G.BoundaryIn(g, c', f', p.dtg)
            == G.Volume(g, c) - G.BoundaryIn(g, c, f, p.dtg) + ColumnSum(g.box, Outgoing(g, c), j, i)
              + (s'.lost - s.lost)
  {
    hide Shows, DifferInColumn, Kept, EndFaces, SweptPaths;
    VolumeChange(g, c, c', f, f', p, s.col, s'.col, j, i, Delivered(p, up, down, drops, p.nz) - out);
    BoundaryChange(g, c, c', f, f', p, s.col, s'.col, j, i, out);
    assert p.nz == g.box.nz && p.ktop == g.ktop(j, i) by { ShowsFacts(g, c, f, p, s.col, j, i); }
    ShowsFacts(g, c, f, p, s.col, j, i);
    DeliveredIsOutgoing(g, c, p, up, down, drops, j, i);
  }

  lemma ShowsFacts(g: G.Geometry, c: G.Cells, f: G.Faces, p: Site, col: Column, j: int, i: int)
    requires Shows(g, c, f, p, col, j, i)
    ensures g.box.Has2(j, i) && p.Valid() && p.nz == g.box.nz && p.ktop == g.ktop(j, i) && p.area == g.az && col.Fits(p)
  {
  }

  ghost predicate ShowsSends(g: G.Geometry, c: G.Cells, up: seq<real>, down: seq<real>, j: int, i: int) {
    |up| == |down| == g.box.nz && forall k :: 0 <= k < g.box.nz ==> up[k] == c(j, i, k).up && down[k] == c(j, i, k).down
  }

  /** Stored water less boundary inflow. */
  ghost function BalanceOf(g: G.Geometry, c: G.Cells, f: G.Faces, dtg: real): real {
    G.Volume(g, c) - G.BoundaryIn(g, c, f, dtg)
  }

  /** A cell after the first phase: at or below saturation, its room measured fresh, its sends
      non-negative. */
  ghost predicate Ready(x: G.Cell, thetaS: real, vol: real) {
    x.wc <= thetaS && x.room == (thetaS - x.wc) * vol && x.room >= 0.0 && x.up >= 0.0 && x.down >= 0.0
  }

  ghost predicate ColumnReady(g: G.Geometry, soil: G.Soil, c: G.Cells, j: int, i: int) {
    forall k :: 0 <= k < g.box.nz && g.Active(j, i, k) ==> Ready(c(j, i, k), soil.at(j, i, k).thetaS, g.Vol(j, i, k))
  }

  lemma ColumnStarts(g: G.Geometry, soil: G.Soil, c: G.Cells, f: G.Faces, p: Site, col: Column, up: seq<real>,
                     down: seq<real>, j: int, i: int)
    requires Shows(g, c, f, p, col, j, i) && ShowsSends(g, c, up, down, j, i) && ColumnReady(g, soil, c, j, i)
    ensures |up| == |down| == p.nz && RoomOk(p, col) && Sends(p, up, down)
            && RoomToSaturation(p, col, seq(p.nz, k => soil.at(j, i, k).thetaS))
  {
    forall k | p.ktop <= k < p.nz
      ensures col.room[k] >= 0.0 && up[k] >= 0.0 && down[k] >= 0.0
              && col.room[k] == (soil.at(j, i, k).thetaS - col.theta[k]) * p.Vol(k)
    {
      assert g.Active(j, i, k);
      assert p.Vol(k) == g.Vol(j, i, k);
    }
  }

  lemma ColumnEnds(g: G.Geometry, soil: G.Soil, c: G.Cells, f: G.Faces, p: Site, col: Column, up: seq<real>,
                   down: seq<real>, j: int, i: int)
    requires Shows(g, c, f, p, col, j, i) && ShowsSends(g, c, up, down, j, i)
    requires RoomOk(p, col) && Sends(p, up, down) && RoomToSaturation(p, col, seq(p.nz, k => soil.at(j, i, k).thetaS))
    requires forall k :: p.ktop <= k < p.nz ==> col.theta[k] <= soil.at(j, i, k).thetaS
    ensures ColumnReady(g, soil, c, j, i)
  {
    forall k | 0 <= k < g.box.nz && g.Active(j, i, k)
      ensures Ready(c(j, i, k), soil.at(j, i, k).thetaS, g.Vol(j, i, k))
    {
      assert p.Vol(k) == g.Vol(j, i, k);
      assert col.room[k] == (soil.at(j, i, k).thetaS - col.theta[k]) * p.Vol(k);
    }
  }

  // ----- one column's cells, traced

  /** What each cell of a swept column dropped, zero above its top. */
  ghost function DropLine(p: Site, drops: seq<real>): (r: int -> real)
    requires |drops| == p.nz
    ensures forall k :: r(k) == if p.ktop <= k < p.nz then drops[k] else 0.0
  {
    k => if p.ktop <= k < p.nz then drops[k] else 0.0
  }

  lemma DropsAdd(p: Site, drops: seq<real>)
    requires p.Valid() && |drops| == p.nz
    ensures Sum(0, p.nz, DropLine(p, drops)) == Dropped(p, drops, p.nz)
  {
    SumSplit(0, p.ktop, p.nz, DropLine(p, drops));
    SumZero(0, p.ktop, DropLine(p, drops));
    SumExt(p.ktop, p.nz, DropLine(p, drops), l => if 0 <= l < p.nz then drops[l] else 0.0);
  }

  /** A cell's water. */
  ghost function Content(g: G.Geometry, c: G.Cells, j: int, i: int, k: int): real { c(j, i, k).wc * g.Vol(j, i, k) }

  /** Between two states every active cell of a column gained what the corrected fluxes gained, and
      what it sent off and did not drop left it again. */
  ghost predicate ColumnPaths(g: G.Geometry, c: G.Cells, c': G.Cells, f: G.Faces, f': G.Faces, dtg: real, record: bool,
                              drop: int -> real, j: int, i: int) {
    forall k {:trigger drop(k)} :: 0 <= k < g.box.nz ==> PathHolds(g, c, c', f, f', dtg, record, drop(k), j, i, k)
  }

  ghost predicate PathHolds(g: G.Geometry, c: G.Cells, c': G.Cells, f: G.Faces, f': G.Faces, dtg: real, record: bool,
                            drop: real, j: int, i: int, k: int) {
    && (!g.Active(j, i, k) ==> drop == 0.0)
    && (g.Active(j, i, k) ==> 0.0 <= drop <= c(j, i, k).up + c(j, i, k).down)
    && (record && g.Active(j, i, k) ==>
          Content(g, c', j, i, k)
          == Content(g, c, j, i, k) + (G.CorrectedIn(f', dtg, j, i, k) - G.CorrectedIn(f, dtg, j, i, k))
            + (c(j, i, k).up + c(j, i, k).down - drop))
  }

  lemma SweptColumnPaths(g: G.Geometry, c: G.Cells, c': G.Cells, f: G.Faces, f': G.Faces, p: Site, s: Sweep, s': Sweep,
                         up: seq<real>, down: seq<real>, drops: seq<real>, out: real, j: int, i: int)
    requires Shows(g, c, f, p, s.col, j, i) && Shows(g, c', f', p, s'.col, j, i) && ShowsSends(g, c, up, down, j, i)
    requires Sends(p, up, down) && Swept(p, s, s', up, down, drops, out, p.nz)
    ensures |drops| == p.nz && ColumnPaths(g, c, c', f, f', p.dtg, p.record, DropLine(p, drops), j, i)
    ensures Dropped(p, drops, p.nz) == s.lost - s'.lost
  {
    SweptTrace(p, s, s', up, down, drops, out);
    ShowsFacts(g, c, f, p, s.col, j, i);
    var drop := DropLine(p, drops);
    hide Swept, SweptPaths, Shows, Inflow, Water, PathHolds, Sends, Dropped;
    forall k {:trigger drop(k)} | 0 <= k < g.box.nz
      ensures PathHolds(g, c, c', f, f', p.dtg, p.record, drop(k), j, i, k)
    {
      if p.ktop <= k {
        CellTraced(g, c, c', f, f', p, s.col, s'.col, j, i, k, drops[k]);
      } else {
        NothingDropped(g, c, c', f, f', p.dtg, p.record, j, i, k);
      }
    }
  }

  lemma NothingDropped(g: G.Geometry, c: G.Cells, c': G.Cells, f: G.Faces, f': G.Faces, dtg: real, record: bool,
                       j: int, i: int, k: int)
    requires !g.Active(j, i, k)
    ensures PathHolds(g, c, c', f, f', dtg, record, 0.0, j, i, k)
  {
  }

  lemma CellTraced(g: G.Geometry, c: G.Cells, c': G.Cells, f: G.Faces, f': G.Faces, p: Site, col: Column, col': Column,
                   j: int, i: int, k: nat, drop: real)
    requires Shows(g, c, f, p, col, j, i) && Shows(g, c', f', p, col', j, i) && p.ktop <= k < p.nz
    requires 0.0 <= drop <= c(j, i, k).up + c(j, i, k).down
    requires p.record ==> Inflow(p, col', k) - Inflow(p, col, k) == Water(p, col', k) - Water(p, col, k)
                          - (c(j, i, k).up + c(j, i, k).down - drop)
    ensures PathHolds(g, c, c', f, f', p.dtg, p.record, drop, j, i, k)
  {
    ShownCell(g, c, f, p, col, j, i, k);
    ShownCell(g, c', f', p, col', j, i, k);
    hide Water, Inflow, G.CorrectedIn, Content, G.Geometry.Active, Shows, Site.Valid;
  }

  lemma ShownCell(g: G.Geometry, c: G.Cells, f: G.Faces, p: Site, col: Column, j: int, i: int, k: nat)
    requires Shows(g, c, f, p, col, j, i) && p.ktop <= k < p.nz
    ensures g.Active(j, i, k) && Water(p, col, k) == Content(g, c, j, i, k)
    ensures Inflow(p, col, k) == G.CorrectedIn(f, p.dtg, j, i, k)
  {
    assert p.Vol(k) == g.Vol(j, i, k);
  }

  /** What a finished sweep says of each cell. */
  lemma SweptTrace(p: Site, s: Sweep, s': Sweep, up: seq<real>, down: seq<real>, drops: seq<real>, out: real)
    requires p.Valid() && Sends(p, up, down) && Swept(p, s, s', up, down, drops, out, p.nz)
    ensures |drops| == p.nz && s.col.Fits(p) && s'.col.Fits(p) && Dropped(p, drops, p.nz) == s.lost - s'.lost
    ensures forall k :: p.ktop <= k < p.nz ==> 0.0 <= drops[k] <= up[k] + down[k]
    ensures p.record ==> forall k :: p.ktop <= k < p.nz ==>
      Inflow(p, s'.col, k) - Inflow(p, s.col, k) == Water(p, s'.col, k) - Water(p, s.col, k)
        - (up[k] + down[k] - drops[k])
  {
    hide Kept, EndFaces, Water, Inflow;
  }

  /** Everything the block's sweep needs to know of one column's sweep. */
  lemma ColumnBooked(g: G.Geometry, soil: G.Soil, c: G.Cells, c': G.Cells, f: G.Faces, f': G.Faces, p: Site, s: Sweep,
                     s': Sweep, up: seq<real>, down: seq<real>, j: int, i: int) returns (drop: int -> real)
    requires g.Ok() && Shows(g, c, f, p, s.col, j, i) && Shows(g, c', f', p, s'.col, j, i)
    requires ShowsSends(g, c, up, down, j, i) && ShowsSends(g, c', up, down, j, i)
    requires DifferInColumn(g, c, c', f, f', j, i) && ColumnReady(g, soil, c, j, i)
    requires s' == SweepTo(p, s, up, down, p.nz)
    ensures ColumnReady(g, soil, c', j, i)
    ensures s'.lost <= s.lost && s'.vent >= s.vent
    ensures BalanceOf(g, c', f', p.dtg) == BalanceOf(g, c, f, p.dtg) + ColumnSum(g.box, Outgoing(g, c), j, i)
            + (s'.lost - s.lost)
    ensures if p.coupled then s'.pond == s.pond.Vented(s'.vent - s.vent, p.area, p.record) else
              s'.vent == s.vent && s'.pond == s.pond
    ensures KeepsFunding(s.pond, s'.pond, p.minDepth, true)
    ensures ColumnPaths(g, c, c', f, f', p.dtg, p.record, drop, j, i) && Sum(0, p.nz, drop) == s.lost - s'.lost
  {
    hide *;
    ShowsFacts(g, c, f, p, s.col, j, i);
    ColumnStarts(g, soil, c, f, p, s.col, up, down, j, i);
    var drops, out := SweepMoves(p, s, up, down, p.nz);
    SweepKeepsFunding(p, s, up, down, p.nz, true);
    SweptBooks(p, s, s', up, down, drops, out);
    SweptReady(g, soil, c, c', f, f', p, s, s', up, down, j, i);
    SweptColumnBalance(g, c, c', f, f', p, s, s', up, down, drops, out, j, i);
    SweptColumnPaths(g, c, c', f, f', p, s, s', up, down, drops, out, j, i);
    drop := DropLine(p, drops);
    DropsAdd(p, drops);
  }

  lemma SweptReady(g: G.Geometry, soil: G.Soil, c: G.Cells, c': G.Cells, f: G.Faces, f': G.Faces, p: Site, s: Sweep,
                   s': Sweep, up: seq<real>, down: seq<real>, j: int, i: int)
    requires Shows(g, c, f, p, s.col, j, i) && Shows(g, c', f', p, s'.col, j, i)
    requires ShowsSends(g, c, up, down, j, i) && ShowsSends(g, c', up, down, j, i) && ColumnReady(g, soil, c, j, i)
    requires s' == SweepTo(p, s, up, down, p.nz)
    ensures ColumnReady(g, soil, c', j, i)
  {
    ColumnStarts(g, soil, c, f, p, s.col, up, down, j, i);
    var drops, out := SweepMoves(p, s, up, down, p.nz);
    SweptFacts(p, s, s', up, down, drops, out, p.nz);
    SweepStaysBelowSaturation(p, s, up, down, seq(p.nz, k => soil.at(j, i, k).thetaS));
    hide SweepTo, Swept, ColumnReady;
    ColumnEnds(g, soil, c', f', p, s'.col, up, down, j, i);
  }

  lemma SweptColumnBalance(g: G.Geometry, c: G.Cells, c': G.Cells, f: G.Faces, f': G.Faces, p: Site, s: Sweep,
                           s': Sweep, up: seq<real>, down: seq<real>, drops: seq<real>, out: real, j: int, i: int)
    requires g.Ok() && Shows(g, c, f, p, s.col, j, i) && Shows(g, c', f', p, s'.col, j, i)
    requires DifferInColumn(g, c, c', f, f', j, i) && ShowsSends(g, c, up, down, j, i) && Sends(p, up, down)
    requires Swept(p, s, s', up, down, drops, out, p.nz) && (p.ktop == p.nz ==> out == 0.0)
    ensures BalanceOf(g, c', f', p.dtg) == BalanceOf(g, c, f, p.dtg) + ColumnSum(g.box, Outgoing(g, c), j, i)
            + (s'.lost - s.lost)
  {
    hide Swept, DifferInColumn;
    SweptColumn(g, c, c', f, f', p, s, s', up, down, drops, out, j, i);
  }

  // ----- all columns, in any order

  /** What the columns still to be swept send. */
  ghost function Pending(g: G.Geometry, c: G.Cells, todo: set<(int, int)>): Field3 {
    (j, i, k) => if (j, i) in todo then Outgoing(g, c)(j, i, k) else 0.0
  }

  lemma PendingStep(g: G.Geometry, c: G.Cells, todo: set<(int, int)>, j: int, i: int)
    requires g.box.Has2(j, i) && (j, i) in todo
    ensures Sum3(g.box, Pending(g, c, todo - {(j, i)})) == Sum3(g.box, Pending(g, c, todo))
            - ColumnSum(g.box, Outgoing(g, c), j, i)
  {
    var a, b := Pending(g, c, todo), Pending(g, c, todo - {(j, i)});
    Sum3Column(g.box, a, b, j, i);
    SumExt(0, g.box.nz, k => a(j, i, k), k => Outgoing(g, c)(j, i, k));
    SumZero(0, g.box.nz, k => b(j, i, k));
  }

  lemma PendingEnds(g: G.Geometry, c: G.Cells, todo: set<(int, int)>)
    ensures (forall j, i :: g.box.Has2(j, i) ==> (j, i) in todo) ==>
      Sum3(g.box, Pending(g, c, todo)) == Sum3(g.box, Outgoing(g, c))
    ensures todo == {} ==> Sum3(g.box, Pending(g, c, todo)) == 0.0
  {
    if forall j, i :: g.box.Has2(j, i) ==> (j, i) in todo { Sum3Ext(g.box, Pending(g, c, todo), Outgoing(g, c)); }
    if todo == {} {
      var zero := Scaled(0.0, Outgoing(g, c));
      forall j, i, k | g.box.Has(j, i, k) ensures Pending(g, c, todo)(j, i, k) == zero(j, i, k) {}
      Sum3Ext(g.box, Pending(g, c, todo), zero);
      Sum3Scaled(g.box, 0.0, Outgoing(g, c));
    }
  }

  /** A field with one column replaced. */
  ghost function Placed(drops: Field3, j: int, i: int, drop: int -> real): (r: Field3)
    ensures forall k :: r(j, i, k) == drop(k)
    ensures forall j', i', k :: (j', i') != (j, i) ==> r(j', i', k) == drops(j', i', k)
  {
    (j', i', k) => if (j', i') == (j, i) then drop(k) else drops(j', i', k)
  }

  /** One column of a field. */
  ghost function LineOf(drops: Field3, j: int, i: int): (r: int -> real)
    ensures forall k :: r(k) == drops(j, i, k)
  {
    k => drops(j, i, k)
  }

  /** A column is as it was. */
  ghost predicate ColumnSame(g: G.Geometry, c: G.Cells, c': G.Cells, f: G.Faces, f': G.Faces, j: int, i: int) {
    && (forall k :: 0 <= k < g.box.nz ==> c'(j, i, k) == c(j, i, k))
    && (forall k :: 0 <= k <= g.box.nz ==> f'(j, i, k) == f(j, i, k))
  }

  /** The columns still to be swept are untouched; the swept ones are traced. */
  ghost predicate SweptSoFar(g: G.Geometry, c: G.Cells, c': G.Cells, f: G.Faces, f': G.Faces, dtg: real, record: bool,
                             drops: Field3, todo: set<(int, int)>) {
    forall j, i :: g.box.Has2(j, i) ==>
      if (j, i) in todo then ColumnSame(g, c, c', f, f', j, i) && forall k :: drops(j, i, k) == 0.0
      else ColumnPaths(g, c, c', f, f', dtg, record, LineOf(drops, j, i), j, i)
  }

  lemma SweptNone(g: G.Geometry, c: G.Cells, f: G.Faces, dtg: real, record: bool, todo: set<(int, int)>)
    requires forall j, i :: g.box.Has2(j, i) ==> (j, i) in todo
    ensures SweptSoFar(g, c, c, f, f, dtg, record, (j, i, k) => 0.0, todo) && Sum3(g.box, (j, i, k) => 0.0) == 0.0
  {
    var none: Field3 := (j, i, k) => 0.0;
    Sum3Linear(g.box, none, -1.0, none, none);
  }

  lemma CorrectedSame(g: G.Geometry, c: G.Cells, c': G.Cells, f: G.Faces, f': G.Faces, dtg: real, j: int, i: int,
                      k: int)
    requires ColumnSame(g, c, c', f, f', j, i) && 0 <= k < g.box.nz
    ensures c'(j, i, k) == c(j, i, k) && G.CorrectedIn(f', dtg, j, i, k) == G.CorrectedIn(f, dtg, j, i, k)
    ensures Content(g, c', j, i, k) == Content(g, c, j, i, k)
  {
  }

  /** A traced change after none. */
  lemma PathsAfter(g: G.Geometry, c: G.Cells, m: G.Cells, c': G.Cells, f: G.Faces, n: G.Faces, f': G.Faces, dtg: real,
                   record: bool, drop: int -> real, line: int -> real, j: int, i: int)
    requires ColumnSame(g, c, m, f, n, j, i) && ColumnPaths(g, m, c', n, f', dtg, record, drop, j, i) && forall k ::
      line(k) == drop(k)
    ensures ColumnPaths(g, c, c', f, f', dtg, record, line, j, i)
  {
    forall k {:trigger line(k)} | 0 <= k < g.box.nz
      ensures PathHolds(g, c, c', f, f', dtg, record, line(k), j, i, k)
    {
      assert line(k) == drop(k);
      CorrectedSame(g, c, m, f, n, dtg, j, i, k);
      hide G.CorrectedIn, Content, G.Geometry.Active, ColumnSame;
    }
  }

  /** No change after a traced one. */
  lemma PathsBefore(g: G.Geometry, c: G.Cells, m: G.Cells, c': G.Cells, f: G.Faces, n: G.Faces, f': G.Faces, dtg: real,
                    record: bool, drop: int -> real, line: int -> real, j: int, i: int)
    requires ColumnPaths(g, c, m, f, n, dtg, record, drop, j, i) && ColumnSame(g, m, c', n, f', j, i) && forall k ::
      line(k) == drop(k)
    ensures ColumnPaths(g, c, c', f, f', dtg, record, line, j, i)
  {
    forall k {:trigger line(k)} | 0 <= k < g.box.nz
      ensures PathHolds(g, c, c', f, f', dtg, record, line(k), j, i, k)
    {
      assert line(k) == drop(k);
      CorrectedSame(g, m, c', n, f', dtg, j, i, k);
      hide G.CorrectedIn, Content, G.Geometry.Active, ColumnSame;
    }
  }

  /** Between two states only moisture and room, vertical flux and correction moved. */
  ghost predicate SweptFrame(g: G.Geometry, c: G.Cells, c': G.Cells, f: G.Faces, f': G.Faces) {
    && (forall j, i, k :: 0 <= j <= g.box.ny + 1 && 0 <= i <= g.box.nx + 1 && 0 <= k < g.box.nz ==>
          c'(j, i, k) == c(j, i, k).(wc := c'(j, i, k).wc, room := c'(j, i, k).room))
    && (forall j, i, k :: 0 <= j <= g.box.ny + 1 && 0 <= i <= g.box.nx + 1 && 0 <= k <= g.box.nz ==>
          f'(j, i, k) == f(j, i, k).(q := f'(j, i, k).q, corr := f'(j, i, k).corr))
  }

  lemma SweptFrameTrans(g: G.Geometry, a: G.Cells, b: G.Cells, c: G.Cells, f: G.Faces, m: G.Faces, n: G.Faces)
    requires SweptFrame(g, a, b, f, m) && SweptFrame(g, b, c, m, n)
    ensures SweptFrame(g, a, c, f, n)
  {
    forall j, i, k | 0 <= j <= g.box.ny + 1 && 0 <= i <= g.box.nx + 1 && 0 <= k < g.box.nz
      ensures c(j, i, k) == a(j, i, k).(wc := c(j, i, k).wc, room := c(j, i, k).room) {
      assert b(j, i, k) == a(j, i, k).(wc := b(j, i, k).wc, room := b(j, i, k).room);
    }
    forall j, i, k | 0 <= j <= g.box.ny + 1 && 0 <= i <= g.box.nx + 1 && 0 <= k <= g.box.nz
      ensures n(j, i, k) == f(j, i, k).(q := n(j, i, k).q, corr := n(j, i, k).corr) {
      assert m(j, i, k) == f(j, i, k).(q := m(j, i, k).q, corr := m(j, i, k).corr);
    }
  }

  lemma SweptFrameRefl(g: G.Geometry, c: G.Cells, f: G.Faces)
    ensures SweptFrame(g, c, c, f, f)
  {
  }

  /** The sweep leaves what the columns are to send, and the lateral fluxes, alone. */
  lemma SweptFrameKeeps(g: G.Geometry, c: G.Cells, c': G.Cells, f: G.Faces, f': G.Faces)
    requires SweptFrame(g, c, c', f, f')
    ensures LateralsSame(g, c, c')
    ensures forall j, i :: g.box.Has2(j, i) ==> ColumnSum(g.box, Outgoing(g, c'), j, i)
                                                == ColumnSum(g.box, Outgoing(g, c), j, i)
  {
    hide ColumnSum;
    forall j, i | g.box.Has2(j, i)
      ensures ColumnSum(g.box, Outgoing(g, c'), j, i) == ColumnSum(g.box, Outgoing(g, c), j, i)
    {
      OutgoingSame(g, c', c, j, i);
    }
  }

  /** Lateral fluxes are the same, ghost cells included. */
  ghost predicate LateralsSame(g: G.Geometry, c: G.Cells, c': G.Cells) {
    forall j, i, k :: 0 <= j <= g.box.ny + 1 && 0 <= i <= g.box.nx + 1 && 0 <= k < g.box.nz ==>
      c'(j, i, k).qx == c(j, i, k).qx && c'(j, i, k).qy == c(j, i, k).qy
  }

  lemma LateralsTrans(g: G.Geometry, a: G.Cells, b: G.Cells, c: G.Cells)
    requires LateralsSame(g, a, b) && LateralsSame(g, b, c)
    ensures LateralsSame(g, a, c)
  {
    forall j, i, k | 0 <= j <= g.box.ny + 1 && 0 <= i <= g.box.nx + 1 && 0 <= k < g.box.nz
      ensures c(j, i, k).qx == a(j, i, k).qx && c(j, i, k).qy == a(j, i, k).qy {
      assert b(j, i, k).qx == a(j, i, k).qx && b(j, i, k).qy == a(j, i, k).qy;
    }
  }

  /** Between two states only what the classification writes moved, outside the active cells nothing
      of the moisture. */
  ghost predicate ClassifiedFrame(g: G.Geometry, c: G.Cells, c': G.Cells) {
    forall j, i, k :: 0 <= j <= g.box.ny + 1 && 0 <= i <= g.box.nx + 1 && 0 <= k < g.box.nz ==>
      var x := c'(j, i, k);
      && x == c(j, i, k).(wc := x.wc, h := x.h, room := x.room, up := x.up, down := x.down)
      && (!g.Active(j, i, k) ==> x.wc == c(j, i, k).wc)
  }

  lemma ClassifiedFrameStep(g: G.Geometry, c: G.Cells, m: G.Cells, c': G.Cells)
    requires ClassifiedFrame(g, c, m) && ClassifiedFrame(g, m, c')
    ensures ClassifiedFrame(g, c, c')
  {
    forall j, i, k | 0 <= j <= g.box.ny + 1 && 0 <= i <= g.box.nx + 1 && 0 <= k < g.box.nz
      ensures var x := c'(j, i, k);
        && x == c(j, i, k).(wc := x.wc, h := x.h, room := x.room, up := x.up, down := x.down)
        && (!g.Active(j, i, k) ==> x.wc == c(j, i, k).wc)
    {
      var x, y := m(j, i, k), c'(j, i, k);
      assert x == c(j, i, k).(wc := x.wc, h := x.h, room := x.room, up := x.up, down := x.down);
      assert y == x.(wc := y.wc, h := y.h, room := y.room, up := y.up, down := y.down);
      hide G.Geometry.Active;
    }
  }

  lemma ClassifiedFrameKeeps(g: G.Geometry, c: G.Cells, c': G.Cells)
    requires ClassifiedFrame(g, c, c')
    ensures LateralsSame(g, c, c')
  {
  }

  lemma FramesRefl(g: G.Geometry, c: G.Cells)
    ensures ClassifiedFrame(g, c, c) && LateralsSame(g, c, c)
  {
  }

  /** One more column swept. */
  lemma SweptStepped(g: G.Geometry, c: G.Cells, m: G.Cells, c': G.Cells, f: G.Faces, n: G.Faces, f': G.Faces,
                     dtg: real, record: bool, drops: Field3, todo: set<(int, int)>, drop: int -> real, j: int, i: int)
    requires g.box.Has2(j, i) && (j, i) in todo && SweptSoFar(g, c, m, f, n, dtg, record, drops, todo)
    requires ColumnPaths(g, m, c', n, f', dtg, record, drop, j, i)
    requires forall j', i' :: g.box.Has2(j', i') && (j', i') != (j, i) ==> ColumnSame(g, m, c', n, f', j', i')
    ensures SweptSoFar(g, c, c', f, f', dtg, record, Placed(drops, j, i, drop), todo - {(j, i)})
    ensures Sum3(g.box, Placed(drops, j, i, drop)) == Sum3(g.box, drops) + Sum(0, g.box.nz, drop)
  {
    var placed := Placed(drops, j, i, drop);
    forall j', i' | g.box.Has2(j', i')
      ensures if (j', i') in todo - {(j, i)} then ColumnSame(g, c, c', f, f', j', i') && forall k ::
        placed(j', i', k) == 0.0
              else ColumnPaths(g, c, c', f, f', dtg, record, LineOf(placed, j', i'), j', i')
    {
      if (j', i') == (j, i) {
        hide ColumnPaths, ColumnSame;
        PathsAfter(g, c, m, c', f, n, f', dtg, record, drop, LineOf(placed, j, i), j, i);
      } else if (j', i') in todo {
        hide ColumnPaths;
      } else {
        hide ColumnPaths, ColumnSame;
        PathsBefore(g, c, m, c', f, n, f', dtg, record, LineOf(drops, j', i'), LineOf(placed, j', i'), j', i');
      }
    }
    hide SweptSoFar, ColumnPaths, ColumnSame;
    Sum3Column(g.box, drops, placed, j, i);
    SumExt(0, g.box.nz, k => placed(j, i, k), drop);
    SumZero(0, g.box.nz, k => drops(j, i, k));
  }

  lemma OutgoingSame(g: G.Geometry, c: G.Cells, c': G.Cells, j: int, i: int)
    requires forall k :: 0 <= k < g.box.nz ==> c(j, i, k).up == c'(j, i, k).up && c(j, i, k).down == c'(j, i, k).down
    ensures ColumnSum(g.box, Outgoing(g, c), j, i) == ColumnSum(g.box, Outgoing(g, c'), j, i)
  {
    forall k | 0 <= k < g.box.nz ensures Outgoing(g, c)(j, i, k) == Outgoing(g, c')(j, i, k) {}
    SumExt(0, g.box.nz, k => Outgoing(g, c)(j, i, k), k => Outgoing(g, c')(j, i, k));
  }

  lemma ReadySame(g: G.Geometry, soil: G.Soil, c: G.Cells, c': G.Cells, j: int, i: int)
    requires ColumnReady(g, soil, c, j, i) && forall k :: 0 <= k < g.box.nz ==> c'(j, i, k) == c(j, i, k)
    ensures ColumnReady(g, soil, c', j, i)
  {
  }

  // ----- the water standing on the columns

  type Ponds = (int, int) -> Pond

  ghost function Standing(g: G.Geometry, s: Ponds): Field2 { (j, i) => (s(j, i).eta + s(j, i).seepAccum) * g.az }
  ghost function Gains(g: G.Geometry, s: Ponds): Field2 { (j, i) => s(j, i).gain * g.az }

  /** Surface water and in-transit volume over the block, up to the volume below the beds. */
  ghost function SurfaceStore(g: G.Geometry, s: Ponds): real { Sum2(g.box, Standing(g, s)) }

  /** All deposits tallied in the current window. */
  ghost function GainStore(g: G.Geometry, s: Ponds): real { Sum2(g.box, Gains(g, s)) }

  lemma VentedStore(g: G.Geometry, s: Ponds, s': Ponds, j: int, i: int, vol: real, record: bool)
    requires g.Ok() && g.box.Has2(j, i)
    requires forall j', i' :: g.box.Has2(j', i') && (j', i') != (j, i) ==> s'(j', i') == s(j', i')
    requires s'(j, i) == s(j, i).Vented(vol, g.az, record)
    ensures SurfaceStore(g, s') == SurfaceStore(g, s) + vol
    ensures GainStore(g, s') == GainStore(g, s) + vol
  {
    VentedCell(s(j, i), vol, g.az, record);
    var a, a', b, b' := Standing(g, s), Standing(g, s'), Gains(g, s), Gains(g, s');
    assert a'(j, i) == a(j, i) + vol && b'(j, i) == b(j, i) + vol;
    forall j', i' | g.box.Has2(j', i') && (j', i') != (j, i)
      ensures a(j', i') == a'(j', i') && b(j', i') == b'(j', i')
    {
      assert s'(j', i') == s(j', i');
    }
    hide Standing, Gains, Pond.Vented;
    Sum2Point(g.box, a, a', j, i);
    Sum2Point(g.box, b, b', j, i);
  }

  lemma VentedCell(p: Pond, vol: real, az: real, record: bool)
    requires az > 0.0
    ensures var q := p.Vented(vol, az, record);
      (q.eta + q.seepAccum) * az == (p.eta + p.seepAccum) * az + vol && q.gain * az == p.gain * az + vol
  {
    RaisedVolume(p.eta + p.seepAccum, vol, az);
    RaisedVolume(p.gain, vol, az);
    assert p.eta + vol / az + p.seepAccum == p.eta + p.seepAccum + vol / az;
  }

  lemma RaisedVolume(x: real, vol: real, az: real)
    requires az > 0.0
    ensures (x + vol / az) * az == x * az + vol
  {
    assert vol / az * az == vol;
  }

  lemma SameStore(g: G.Geometry, s: Ponds, s': Ponds)
    requires forall j, i :: g.box.Has2(j, i) ==>
      s'(j, i).eta == s(j, i).eta && s'(j, i).seepAccum == s(j, i).seepAccum && s'(j, i).gain == s(j, i).gain
    ensures SurfaceStore(g, s') == SurfaceStore(g, s) && GainStore(g, s') == GainStore(g, s)
  {
    Sum2Ext(g.box, Standing(g, s), Standing(g, s'));
    Sum2Ext(g.box, Gains(g, s), Gains(g, s'));
  }

  // ----- the first phase, its cells in any order

  /** Every visited active cell is ready. */
  ghost predicate ReadySoFar(g: G.Geometry, soil: G.Soil, c: G.Cells, todo: set<(int, int, int)>) {
    forall j, i, k :: g.Active(j, i, k) && (j, i, k) !in todo ==>
        Ready(c(j, i, k), soil.at(j, i, k).thetaS, g.Vol(j, i, k))
  }

  lemma ReadyStep(g: G.Geometry, soil: G.Soil, c: G.Cells, c': G.Cells, todo: set<(int, int, int)>, j: int, i: int,
                  k: int)
    requires ReadySoFar(g, soil, c, todo)
    requires forall j', i', k' :: g.box.Has(j', i', k') && (j', i', k') != (j, i, k) ==> c'(j', i', k') == c(j', i', k')
    requires g.Active(j, i, k) ==> Ready(c'(j, i, k), soil.at(j, i, k).thetaS, g.Vol(j, i, k))
    ensures ReadySoFar(g, soil, c', todo - {(j, i, k)})
  {
    hide Ready, G.Geometry.Vol;
  }
}
