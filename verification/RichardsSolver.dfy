/** The groundwater module's step on its fields, in place (src/gw/RichardsSolver.cpp:667-723,
    src/gw/Corrector.cpp, src/gw/Reallocate.cpp).  Parallel kernels whose iterations touch only
    their own cell are simultaneous assignments; kernels whose order matters run in an
    arbitrary order. */
module Richards {
  import opened Sums
  import opened Fields
  import opened TopExchange
  import opened Surplus
  import opened GroundwaterTerms
  import opened SendWalk
  import opened SweepLedger
  import opened Corrector
  import opened CellLedger
  import opened AdaptiveStep

  /** The per-step subsurface volume budget. */
  datatype Audit = Audit(boundaryIn: real, ssStorage: real, reallocAdjust: real, reallocDropped: real, vloss: real,
                         cplExchanged: real, cplBounce: real, cplVent: real, cplEvap: real)

  /** What the terms add to the subsurface and to the surface store, and their deposits. */
  function Below(a: Audit): real { a.boundaryIn - a.ssStorage + a.reallocAdjust - a.vloss }
  function Above(a: Audit): real { a.cplExchanged + a.cplBounce + a.cplVent - a.cplEvap }
  function Deposits(a: Audit): real { a.cplBounce + a.cplVent }

  /** One step as its contract states it: the trail it took, its audited ledger, and the boundary inflow
      the audit holds. */
  datatype StepRun = StepRun(e: Setting, before: Cells, surface: Ponds, after: Cells, faces: Faces, t: Trail,
                             audit: Audit, dtg: real)
  {
    ghost predicate Stepped() {
      && Leads(e, before, surface, after, faces, dtg, t)
      && audit.boundaryIn == BoundaryIn(e.g, after, faces, dtg)
      && Volume(e.g, after) == Volume(e.g, before) + Below(audit) + Crossed()
    }
    /** What the step brought in from other ranks; no audit counts it. */
    ghost function Crossed(): real { CrossIn(e.g, after, dtg) }
  }

  /** What RichardsSolver.Step ensures of a step with unit ratios, as its record. */
  lemma StepRecorded(r: StepRun)
    requires Leads(r.e, r.before, r.surface, r.after, r.faces, r.dtg, r.t)
    requires r.audit.boundaryIn == BoundaryIn(r.e.g, r.after, r.faces, r.dtg)
    requires Volume(r.e.g, r.after)
             == Volume(r.e.g, r.before) + r.audit.boundaryIn + CrossIn(r.e.g, r.after, r.dtg) - r.audit.ssStorage
                + r.audit.reallocAdjust - r.audit.vloss
    ensures r.Stepped()
  {
    hide Leads, BoundaryIn, Volume, CrossIn;
  }

  /** What the predictor leaves behind: heads, ghosts included, and the face conductivities. */
  datatype Prediction = Prediction(h: Field3, kx: Field3, ky: Field3, kz: Field3)

  /** Heads and moistures of the ghost cells around the block. */
  datatype Edge = Edge(h: Field3, wc: Field3)

  /** What one step takes from outside the block's own state: the staged conditions and ratios,
      the ghost values at its three refreshes, the predictor's outcome, the Courant limits and what
      the other ranks measured. */
  datatype Forcing = Forcing(bc: Boundary, ratios: Ratios, start: Edge, prediction: Prediction, mid: Edge, end: Edge,
                             courant: Field3, peers: seq<Measures>)

  /** The cells as the moisture update finds their heads. */
  function Predicted(c: Cells, p: Prediction): Cells { (j, i, k) => c(j, i, k).(hn := c(j, i, k).h, h := p.h(j, i, k)) }

  const NO_AUDIT := Audit(0.0, 0.0, 0.0, 0.0, 0.0, 0.0, 0.0, 0.0, 0.0)
  const NO_CELL := Cell(0.0, 0.0, 0.0, 0.0, 0.0, 0.0, 0.0, 0.0, 0.0, 0.0, 0.0, 0.0)
  const NO_FACE := Face(0.0, 0.0, 0.0)
  const NO_POND := Pond(0.0, 0.0, 0.0, 0.0, 0.0, 0.0, 0.0, 0)

  class RichardsSolver {
    const g: Geometry
    const soil: Soil
    const opt: Options
    const cells: array3<Cell>
    const faces: array3<Face>
    const ponds: array2<Pond>
    var bc: Boundary
    var ratios: Ratios
    var audit: Audit
    const ctl: Controller
    var dtg: real
    var dtgNext: real

    /** Extents with a one-cell halo in j and i, one more face than layers, admissible soils. */
    ghost predicate Valid() {
      && Admissible(g, soil, opt) && ctl.Ok()
      && cells.Length0 == g.box.ny + 2 && cells.Length1 == g.box.nx + 2 && cells.Length2 == g.box.nz
      && faces.Length0 == g.box.ny + 2 && faces.Length1 == g.box.nx + 2 && faces.Length2 == g.box.nz + 1
      && ponds.Length0 == g.box.ny + 2 && ponds.Length1 == g.box.nx + 2
    }

    constructor (g: Geometry, soil: Soil, opt: Options, ctl: Controller, cells: array3<Cell>, faces: array3<Face>,
                 ponds: array2<Pond>, bc: Boundary, ratios: Ratios, dtInit: real)
      ensures this.g == g && this.soil == soil && this.opt == opt && this.ctl == ctl
      ensures this.cells == cells && this.faces == faces && this.ponds == ponds
      ensures this.bc == bc && this.ratios == ratios && audit == NO_AUDIT && dtgNext == dtInit
    {
      this.g, this.soil, this.opt, this.ctl := g, soil, opt, ctl;
      this.cells, this.faces, this.ponds := cells, faces, ponds;
      this.bc, this.ratios, audit, dtg, dtgNext := bc, ratios, NO_AUDIT, 0.0, dtInit;
    }

    /** What the kernels read and do not change. */
    function E(): Setting reads this`bc, this`ratios { Setting(g, soil, opt, bc, ratios) }

    function CellsNow(): Cells reads cells { Snap3(cells, NO_CELL) }
    function FacesNow(): Faces reads faces { Snap3(faces, NO_FACE) }
    function PondsNow(): (int, int) -> Pond reads ponds { Snap2(ponds, NO_POND) }

    // ----- one column as a value

    function SiteOf(j: int, i: int): Site
      reads this`bc, this`dtg
      requires Valid() && g.box.Has2(j, i)
    {
      Site(g.box.nz, g.ktop(j, i), g.az, dtg, seq(g.box.nz, k => g.dz(j, i, k)),
           opt.record, opt.coupled, opt.minDepth, bc.top(j, i).code == Head)
    }

    function ColumnOf(j: int, i: int): (c: Column)
      reads cells, faces
      requires Valid() && g.box.Has2(j, i)
      ensures |c.theta| == |c.room| == g.box.nz && |c.q| == |c.corr| == g.box.nz + 1
    {
      Column(seq(g.box.nz, k requires 0 <= k < g.box.nz reads cells => cells[j, i, k].wc),
             seq(g.box.nz, k requires 0 <= k < g.box.nz reads cells => cells[j, i, k].room),
             seq(g.box.nz + 1, k requires 0 <= k <= g.box.nz reads faces => faces[j, i, k].q),
             seq(g.box.nz + 1, k requires 0 <= k <= g.box.nz reads faces => faces[j, i, k].corr))
    }

    function UpsOf(j: int, i: int): seq<real>
      reads cells
      requires Valid() && g.box.Has2(j, i)
    {
      seq(g.box.nz, k requires 0 <= k < g.box.nz reads cells => cells[j, i, k].up)
    }

    function DownsOf(j: int, i: int): seq<real>
      reads cells
      requires Valid() && g.box.Has2(j, i)
    {
      seq(g.box.nz, k requires 0 <= k < g.box.nz reads cells => cells[j, i, k].down)
    }

    lemma SiteValid(j: int, i: int)
      requires Valid() && g.box.Has2(j, i) && dtg > 0.0
      ensures var p := SiteOf(j, i);
        && p.Valid() && p.nz == g.box.nz && p.ktop == g.ktop(j, i) && p.area == g.az && p.dtg == dtg
        && p.record == opt.record && p.coupled == opt.coupled && p.minDepth == opt.minDepth
        && p.headTop == (bc.top(j, i).code == Head)
      ensures forall k :: 0 <= k < g.box.nz ==> SiteOf(j, i).Vol(k) == g.Vol(j, i, k)
    {
    }

    lemma RoomIs(j: int, i: int, k: int)
      requires Valid() && g.box.Has2(j, i) && 0 <= k < g.box.nz
      ensures |ColumnOf(j, i).room| == g.box.nz && ColumnOf(j, i).room[k] == cells[j, i, k].room
    {
    }

    /** Outside column (j, i) cells are as before; inside it only moisture and room moved. */
    twostate predicate CellsKept(j: int, i: int)
      reads cells
      requires Valid() && g.box.Has2(j, i)
    {
      && (forall j', i', k {:trigger cells[j', i', k]} :: 0 <= j' < cells.Length0 && 0 <= i' < cells.Length1
                                                          && 0 <= k < cells.Length2 && (j', i') != (j, i) ==>
            cells[j', i', k] == old(cells[j', i', k]))
      && (forall k {:trigger cells[j, i, k]} :: 0 <= k < cells.Length2 ==>
            cells[j, i, k] == old(cells[j, i, k]).(wc := cells[j, i, k].wc, room := cells[j, i, k].room))
    }

    /** Outside column (j, i) faces are as before; inside it only flux and correction moved. */
    twostate predicate FacesKept(j: int, i: int)
      reads faces
      requires Valid() && g.box.Has2(j, i)
    {
      && (forall j', i', k {:trigger faces[j', i', k]} :: 0 <= j' < faces.Length0 && 0 <= i' < faces.Length1
                                                          && 0 <= k < faces.Length2 && (j', i') != (j, i) ==>
            faces[j', i', k] == old(faces[j', i', k]))
      && (forall k {:trigger faces[j, i, k]} :: 0 <= k < faces.Length2 ==>
            faces[j, i, k] == old(faces[j, i, k]).(q := faces[j, i, k].q, corr := faces[j, i, k].corr))
    }

    lemma ColumnIs(j: int, i: int, c: Column)
      requires Valid() && g.box.Has2(j, i)
      requires |c.theta| == |c.room| == g.box.nz && |c.q| == |c.corr| == g.box.nz + 1
      requires forall k :: 0 <= k < g.box.nz ==> c.theta[k] == cells[j, i, k].wc && c.room[k] == cells[j, i, k].room
      requires forall k :: 0 <= k <= g.box.nz ==> c.q[k] == faces[j, i, k].q && c.corr[k] == faces[j, i, k].corr
      ensures ColumnOf(j, i) == c
    {
      assert ColumnOf(j, i).theta == c.theta;
      assert ColumnOf(j, i).room == c.room;
      assert ColumnOf(j, i).q == c.q;
      assert ColumnOf(j, i).corr == c.corr;
    }

    // ----- the send walks in place (src/gw/Reallocate.cpp:303-426)

    /** Adds rate to the corrections of the faces in [lo, hi). */
    method AddToPath(j: int, i: int, lo: nat, hi: nat, rate: real)
      requires Valid() && g.box.Has2(j, i) && lo <= hi <= g.box.nz + 1
      modifies faces
      ensures FacesKept(j, i)
      ensures forall k :: 0 <= k <= g.box.nz ==> faces[j, i, k].q == old(faces[j, i, k].q)
      ensures forall k :: 0 <= k <= g.box.nz ==> faces[j, i, k].corr == old(faces[j, i, k].corr) + if lo <= k < hi
                                                 then rate else 0.0
    {
      for f := lo to hi
        invariant FacesKept(j, i)
        invariant forall k :: 0 <= k <= g.box.nz ==> faces[j, i, k].q == old(faces[j, i, k].q)
        invariant forall k :: 0 <= k <= g.box.nz ==> faces[j, i, k].corr == old(faces[j, i, k].corr) + if lo <= k < f
                                                     then rate else 0.0
      {
        faces[j, i, f] := faces[j, i, f].(corr := faces[j, i, f].corr + rate);
      }
    }

    /** Replaces the legacy mirror of a move at one face by the flux on every face crossed. */
    method RecordPath(j: int, i: int, from: int, to: int, vol: real, legacyFace: nat, up: bool)
      requires Valid() && g.box.Has2(j, i) && dtg > 0.0
      requires -1 <= to < g.box.nz && 0 <= from < g.box.nz && legacyFace <= g.box.nz
      modifies faces
      ensures FacesKept(j, i)
      ensures ColumnOf(j, i)
              == old(ColumnOf(j, i)).(
                   corr := Recorded(SiteOf(j, i), old(ColumnOf(j, i)).corr, from, to, vol, legacyFace, up))
    {
      hide Admissible, Recorded;
      ghost var c, p := ColumnOf(j, i), SiteOf(j, i);
      RecordedSize(p, c.corr, from, to, vol, legacyFace, up);
      if opt.record {
        var rate := vol / dtg;
        assert rate == vol / p.dtg;
        faces[j, i, legacyFace] := faces[j, i, legacyFace].(corr := faces[j, i, legacyFace].corr - Signed(up, rate));
        if to < from { AddToPath(j, i, to + 1, from + 1, rate); } else { AddToPath(j, i, from + 1, to + 1, -rate); }
      }
      ghost var corr := Recorded(p, c.corr, from, to, vol, legacyFace, up);
      forall f | 0 <= f <= g.box.nz
        ensures corr[f] == faces[j, i, f].corr
      {
        RecordedAt(p, c.corr, from, to, vol, legacyFace, up, f);
      }
      ColumnIs(j, i, c.(corr := corr));
    }

    /** A volume through one face, mirrored there and recorded on its path. */
    method MirrorMove(j: int, i: int, from: int, to: int, vol: real, face: nat, up: bool)
      requires Valid() && g.box.Has2(j, i) && dtg > 0.0
      requires -1 <= to < g.box.nz && 0 <= from < g.box.nz && face <= g.box.nz
      modifies faces
      ensures FacesKept(j, i)
      ensures SiteOf(j, i).Valid() && ColumnOf(j, i)
              == Mirrored(SiteOf(j, i), old(ColumnOf(j, i)), from, to, vol, face, up)
    {
      SiteValid(j, i);
      ghost var c, p := ColumnOf(j, i), SiteOf(j, i);
      var rate := vol / dtg;
      assert rate == vol / p.dtg;
      faces[j, i, face] := faces[j, i, face].(q := faces[j, i, face].q + Signed(up, rate));
      ghost var m := c.(q := c.q[face := c.q[face] + Signed(up, rate)]);
      ColumnIs(j, i, m);
      RecordPath(j, i, from, to, vol, face, up);
      assert m.(corr := Recorded(p, m.corr, from, to, vol, face, up)) == Mirrored(p, c, from, to, vol, face, up);
    }

    /** A volume stored in cell `to`. */
    method TakeIn(j: int, i: int, to: nat, vol: real)
      requires Valid() && g.box.Has2(j, i) && dtg > 0.0 && to < g.box.nz
      modifies cells
      ensures CellsKept(j, i) && SiteOf(j, i).Valid()
              && ColumnOf(j, i) == Filled(SiteOf(j, i), old(ColumnOf(j, i)), to, vol)
    {
      SiteValid(j, i);
      hide Admissible;
      ghost var c, p := ColumnOf(j, i), SiteOf(j, i);
      var x := cells[j, i, to];
      var gain := vol / (g.az * g.dz(j, i, to));
      assert gain == vol / p.Vol(to);
      cells[j, i, to] := x.(wc := x.wc + gain, room := x.room - vol);
      ColumnIs(j, i, c.(theta := c.theta[to := c.theta[to] + gain], room := c.room[to := c.room[to] - vol]));
    }

    /** Cell `to` takes vol from cell `from`. */
    method DepositInto(j: int, i: int, from: nat, to: nat, vol: real, up: bool)
      requires Valid() && g.box.Has2(j, i) && dtg > 0.0
      requires to < g.box.nz && from < g.box.nz
      modifies cells, faces
      ensures CellsKept(j, i) && FacesKept(j, i)
      ensures SiteOf(j, i).Valid() && ColumnOf(j, i) == Deposit(SiteOf(j, i), old(ColumnOf(j, i)), from, to, vol, up)
    {
      hide Admissible, SiteOf, ColumnOf, Mirrored, Site.Valid;
      TakeIn(j, i, to, vol);
      MirrorMove(j, i, from, to, vol, if up then to + 1 else to, up);
    }

    /** The upward walk from cell k with volume dV; returns the cell reached and what is left. */
    method WalkUpward(j: int, i: int, k: nat, volume: real) returns (ll: nat, dV: real)
      requires Valid() && g.box.Has2(j, i) && dtg > 0.0 && g.ktop(j, i) <= k < g.box.nz
      modifies cells, faces
      ensures CellsKept(j, i) && FacesKept(j, i)
      ensures SiteOf(j, i).Valid() && (ColumnOf(j, i), ll, dV)
              == WalkUp(SiteOf(j, i), old(ColumnOf(j, i)), k, k, volume)
    {
      hide Deposit, SiteOf, ColumnOf, Admissible, Site.Valid;
      SiteValid(j, i);
      ghost var p, c0 := SiteOf(j, i), ColumnOf(j, i);
      ll, dV := k, volume;
      while ll > 0 && g.Active(j, i, ll - 1) && dV > 0.0
        invariant g.ktop(j, i) <= ll <= k
        invariant CellsKept(j, i) && FacesKept(j, i)
        invariant WalkUp(p, ColumnOf(j, i), k, ll, dV) == WalkUp(p, c0, k, k, volume)
      {
        RoomIs(j, i, ll - 1);
        ll := ll - 1;
        if cells[j, i, ll].room > 0.0 {
          var take := if cells[j, i, ll].room > dV then dV else cells[j, i, ll].room;
          DepositInto(j, i, k, ll, take, true);
          dV := dV - take;
        }
      }
    }

    /** The downward walk below cell `start` on behalf of cell k. */
    method WalkDownward(j: int, i: int, k: nat, start: nat, volume: real) returns (dV: real)
      requires Valid() && g.box.Has2(j, i) && dtg > 0.0 && k < g.box.nz && start < g.box.nz
      modifies cells, faces
      ensures CellsKept(j, i) && FacesKept(j, i)
      ensures SiteOf(j, i).Valid() && (ColumnOf(j, i), dV)
              == WalkDown(SiteOf(j, i), old(ColumnOf(j, i)), k, start, volume)
    {
      hide Deposit, SiteOf, ColumnOf, Admissible, Site.Valid;
      SiteValid(j, i);
      ghost var p, c0 := SiteOf(j, i), ColumnOf(j, i);
      var ll := start;
      dV := volume;
      while ll + 1 < g.box.nz && dV > 0.0
        invariant start <= ll < g.box.nz
        invariant CellsKept(j, i) && FacesKept(j, i)
        invariant WalkDown(p, ColumnOf(j, i), k, ll, dV) == WalkDown(p, c0, k, start, volume)
      {
        RoomIs(j, i, ll + 1);
        ll := ll + 1;
        if cells[j, i, ll].room > 0.0 {
          var take := if cells[j, i, ll].room > dV then dV else cells[j, i, ll].room;
          DepositInto(j, i, k, ll, take, false);
          dV := dV - take;
        }
      }
    }

    twostate predicate PondsKept(j: int, i: int)
      reads ponds
      requires Valid() && g.box.Has2(j, i)
    {
      forall j', i' :: 0 <= j' < ponds.Length0 && 0 <= i' < ponds.Length1 && (j', i') != (j, i) ==>
        ponds[j', i'] == old(ponds[j', i'])
    }

    /** A remainder that reached the column top: onto the surface, out of a prescribed head, or
        back down. */
    method ReleaseAtTop(j: int, i: int, k: nat, ll: nat, volume: real, lost0: real, vent0: real)
      returns (lost: real, vent: real)
      requires Valid() && g.box.Has2(j, i) && dtg > 0.0 && k < g.box.nz && ll < g.box.nz
      modifies cells, faces, ponds
      ensures CellsKept(j, i) && FacesKept(j, i) && PondsKept(j, i)
      ensures SiteOf(j, i).Valid()
      ensures Sweep(ColumnOf(j, i), ponds[j, i], lost, vent)
              == AtTop(SiteOf(j, i), Sweep(old(ColumnOf(j, i)), old(ponds[j, i]), lost0, vent0), k, ll, volume)
    {
      hide WalkDown, Mirrored, SiteOf, ColumnOf;
      SiteValid(j, i);
      hide Admissible, Site.Valid;
      lost, vent := lost0, vent0;
      var above := ll as int - 1;
      if opt.coupled {
        var d := volume / g.az;
        var pond := ponds[j, i];
        if pond.dept > 0.0 || d > opt.minDepth {
          ponds[j, i] := pond.Vented(volume, g.az, opt.record);
          MirrorMove(j, i, k, above, volume, ll, true);
          vent := vent + volume;
        } else {
          lost := lost - volume;
        }
      } else if bc.top(j, i).code == Head {
        MirrorMove(j, i, k, above, volume, ll, true);
      } else {
        var rest := WalkDownward(j, i, k, ll, volume);
        lost := lost - rest;
      }
    }

    /** Cell k's upward send: the walk, then what is left at the top. */
    method SendUpFrom(j: int, i: int, k: nat, volume: real, lost0: real, vent0: real) returns (lost: real, vent: real)
      requires Valid() && g.box.Has2(j, i) && dtg > 0.0 && g.ktop(j, i) <= k < g.box.nz
      modifies cells, faces, ponds
      ensures CellsKept(j, i) && FacesKept(j, i) && PondsKept(j, i)
      ensures SiteOf(j, i).Valid()
      ensures Sweep(ColumnOf(j, i), ponds[j, i], lost, vent)
              == SendUp(SiteOf(j, i), Sweep(old(ColumnOf(j, i)), old(ponds[j, i]), lost0, vent0), k, volume)
    {
      hide WalkUp, AtTop, Admissible, ColumnOf, SiteOf;
      lost, vent := lost0, vent0;
      if volume > 0.0 {
        var ll, dV := WalkUpward(j, i, k, volume);
        if dV > 0.0 {
          lost, vent := ReleaseAtTop(j, i, k, ll, dV, lost, vent);
        }
      } else {
        SiteValid(j, i);
      }
    }

    method SendDownFrom(j: int, i: int, k: nat, volume: real, lost0: real) returns (lost: real)
      requires Valid() && g.box.Has2(j, i) && dtg > 0.0 && g.ktop(j, i) <= k < g.box.nz
      modifies cells, faces
      ensures CellsKept(j, i) && FacesKept(j, i)
      ensures SiteOf(j, i).Valid()
      ensures forall vent :: Sweep(ColumnOf(j, i), ponds[j, i], lost, vent)
                == SendDown(SiteOf(j, i), Sweep(old(ColumnOf(j, i)), ponds[j, i], lost0, vent), k, volume)
    {
      hide WalkDown;
      SiteValid(j, i);
      lost := lost0;
      if volume > 0.0 {
        var dV := WalkDownward(j, i, k, k, volume);
        lost := lost - dV;
      }
    }

    /** The sweep of one column, its cells sending in ascending order. */
    method SendColumn(j: int, i: int) returns (lost: real, vent: real)
      requires Valid() && g.box.Has2(j, i) && dtg > 0.0
      modifies cells, faces, ponds
      ensures CellsKept(j, i) && FacesKept(j, i) && PondsKept(j, i)
      ensures SiteOf(j, i).Valid()
      ensures Sweep(ColumnOf(j, i), ponds[j, i], lost, vent)
              == SweepTo(SiteOf(j, i), Sweep(old(ColumnOf(j, i)), old(ponds[j, i]), 0.0, 0.0), old(UpsOf(j, i)),
                         old(DownsOf(j, i)), g.box.nz)
    {
      hide SendUp, SendDown, Admissible, SiteOf, ColumnOf, Site.Valid;
      SiteValid(j, i);
      ghost var p, s0, ups, downs := SiteOf(j, i), Sweep(ColumnOf(j, i), ponds[j, i], 0.0, 0.0), UpsOf(j, i),
        DownsOf(j, i);
      lost, vent := 0.0, 0.0;
      for k := 0 to g.box.nz
        invariant CellsKept(j, i) && FacesKept(j, i) && PondsKept(j, i)
        invariant Sweep(ColumnOf(j, i), ponds[j, i], lost, vent) == SweepTo(p, s0, ups, downs, k)
      {
        if g.Active(j, i, k) {
          assert ups[k] == cells[j, i, k].up && downs[k] == cells[j, i, k].down;
          ghost var m := SweepTo(p, s0, ups, downs, k);
          lost, vent := SendUpFrom(j, i, k, cells[j, i, k].up, lost, vent);
          lost := SendDownFrom(j, i, k, cells[j, i, k].down, lost);
          assert Sweep(ColumnOf(j, i), ponds[j, i], lost, vent) == SendCell(p, m, k, ups[k], downs[k]);
        }
      }
    }

    // ----- the second phase over the whole block

    lemma ColumnShows(j: int, i: int)
      requires Valid() && g.box.Has2(j, i) && dtg > 0.0
      ensures Shows(g, CellsNow(), FacesNow(), SiteOf(j, i), ColumnOf(j, i), j, i)
      ensures ShowsSends(g, CellsNow(), UpsOf(j, i), DownsOf(j, i), j, i)
    {
      SiteValid(j, i);
    }

    /** Stored water less boundary inflow. */
    ghost function Balance(): real
      reads this`dtg, cells, faces
      requires Valid()
    {
      BalanceOf(g, CellsNow(), FacesNow(), dtg)
    }

    /** A column's sweep with its bookkeeping. */
    method SendColumnBooked(j: int, i: int) returns (lost: real, vent: real, ghost drop: int -> real)
      requires Valid() && g.box.Has2(j, i) && dtg > 0.0 && ColumnReady(g, soil, CellsNow(), j, i)
      modifies cells, faces, ponds
      ensures CellsKept(j, i) && FacesKept(j, i) && PondsKept(j, i) && ColumnReady(g, soil, CellsNow(), j, i)
      ensures lost <= 0.0 && vent >= 0.0
      ensures Balance() == old(Balance()) + ColumnSum(g.box, Outgoing(g, old(CellsNow())), j, i) + lost
      ensures ponds[j, i] == if opt.coupled then old(ponds[j, i]).Vented(vent, g.az, opt.record) else old(ponds[j, i])
      ensures !opt.coupled ==> vent == 0.0
      ensures KeepsFunding(old(ponds[j, i]), ponds[j, i], opt.minDepth, true)
      ensures ColumnPaths(g, old(CellsNow()), CellsNow(), old(FacesNow()), FacesNow(), dtg, opt.record, drop, j, i)
      ensures Sum(0, g.box.nz, drop) == -lost
    {
      hide SweepTo, Shows, ShowsSends, ColumnReady, KeepsFunding, BoundaryIn, Volume, Outgoing, ColumnPaths, Sum;
      ColumnShows(j, i);
      ghost var p, s, ups, downs := SiteOf(j, i), Sweep(ColumnOf(j, i), ponds[j, i], 0.0, 0.0), UpsOf(j, i),
        DownsOf(j, i);
      ghost var c, f := CellsNow(), FacesNow();
      lost, vent := SendColumn(j, i);
      ColumnShows(j, i);
      assert DifferInColumn(g, c, CellsNow(), f, FacesNow(), j, i);
      hide DifferInColumn;
      assert UpsOf(j, i) == ups && DownsOf(j, i) == downs;
      drop := ColumnBooked(g, soil, c, CellsNow(), f, FacesNow(), p, s, Sweep(ColumnOf(j, i), ponds[j, i], lost, vent),
                           ups, downs, j, i);
    }

    function Columns(): (r: set<(int, int)>)
      ensures forall j, i :: (j, i) in r <==> g.box.Has2(j, i)
    {
      set j, i | 1 <= j <= g.box.ny && 1 <= i <= g.box.nx :: (j, i)
    }

    ghost predicate AllReady()
      reads cells
      requires Valid()
    {
      forall j, i :: g.box.Has2(j, i) ==> ColumnReady(g, soil, CellsNow(), j, i)
    }

    /** One column's sweep, booked for the block. */
    method SendOne(j: int, i: int) returns (lost: real, vent: real, ghost drop: int -> real)
      requires Valid() && g.box.Has2(j, i) && dtg > 0.0 && AllReady()
      modifies cells, faces, ponds
      ensures CellsKept(j, i) && FacesKept(j, i) && PondsKept(j, i) && AllReady()
      ensures lost <= 0.0 && vent >= 0.0 && (!opt.coupled ==> vent == 0.0)
      ensures Balance() == old(Balance()) + ColumnSum(g.box, Outgoing(g, old(CellsNow())), j, i) + lost
      ensures SurfaceStore(g, PondsNow()) == old(SurfaceStore(g, PondsNow())) + vent
      ensures GainStore(g, PondsNow()) == old(GainStore(g, PondsNow())) + vent
      ensures AllKeepFunding(g, old(PondsNow()), PondsNow(), opt.minDepth, AlwaysSafe())
      ensures ColumnPaths(g, old(CellsNow()), CellsNow(), old(FacesNow()), FacesNow(), dtg, opt.record, drop, j, i)
      ensures Sum(0, g.box.nz, drop) == -lost
    {
      hide ColumnReady, KeepsFunding, Outgoing, Balance, SurfaceStore, GainStore, ColumnPaths, Sum;
      ghost var now, s := CellsNow(), PondsNow();
      lost, vent, drop := SendColumnBooked(j, i);
      forall j', i' | g.box.Has2(j', i') ensures ColumnReady(g, soil, CellsNow(), j', i') {
        if (j', i') != (j, i) { ReadySame(g, soil, now, CellsNow(), j', i'); }
      }
      if opt.coupled { VentedStore(g, s, PondsNow(), j, i, vent, opt.record); } else { SameStore(g, s, PondsNow()); }
      OneKeepsFunding(g, s, PondsNow(), opt.minDepth, AlwaysSafe(), j, i);
    }

    lemma ColumnsSame(c: Cells, f: Faces, j: int, i: int)
      requires Valid() && g.box.Has2(j, i)
      requires forall k :: 0 <= k < g.box.nz ==> cells[j, i, k] == c(j, i, k)
      requires forall k :: 0 <= k <= g.box.nz ==> faces[j, i, k] == f(j, i, k)
      ensures ColumnSame(g, c, CellsNow(), f, FacesNow(), j, i)
    {
    }

    lemma ColumnFrame(c: Cells, f: Faces, j: int, i: int)
      requires Valid() && g.box.Has2(j, i)
      requires forall j', i', k {:trigger cells[j', i', k]} ::
        0 <= j' < cells.Length0 && 0 <= i' < cells.Length1 && 0 <= k < cells.Length2 ==>
        cells[j', i', k] == if (j', i') == (j, i)
          then c(j', i', k).(wc := cells[j', i', k].wc, room := cells[j', i', k].room) else c(j', i', k)
      requires forall j', i', k {:trigger faces[j', i', k]} ::
        0 <= j' < faces.Length0 && 0 <= i' < faces.Length1 && 0 <= k < faces.Length2 ==>
        faces[j', i', k] == if (j', i') == (j, i)
          then f(j', i', k).(q := faces[j', i', k].q, corr := faces[j', i', k].corr) else f(j', i', k)
      ensures SweptFrame(g, c, CellsNow(), f, FacesNow())
    {
    }

    /** One more column of the sweep, with the drops so far. */
    method SendNext(j: int, i: int, ghost c0: Cells, ghost f0: Faces, ghost drops: Field3, ghost todo: set<(int, int)>)
      returns (lost: real, vent: real, ghost more: Field3)
      requires Valid() && g.box.Has2(j, i) && dtg > 0.0 && AllReady() && (j, i) in todo
      requires SweptSoFar(g, c0, CellsNow(), f0, FacesNow(), dtg, opt.record, drops, todo)
               && SweptFrame(g, c0, CellsNow(), f0, FacesNow())
      modifies cells, faces, ponds
      ensures SweptFrame(g, c0, CellsNow(), f0, FacesNow()) && AllReady()
      ensures lost <= 0.0 && vent >= 0.0 && (!opt.coupled ==> vent == 0.0)
      ensures Balance() == old(Balance()) + ColumnSum(g.box, Outgoing(g, c0), j, i) + lost
      ensures SurfaceStore(g, PondsNow()) == old(SurfaceStore(g, PondsNow())) + vent
      ensures GainStore(g, PondsNow()) == old(GainStore(g, PondsNow())) + vent
      ensures AllKeepFunding(g, old(PondsNow()), PondsNow(), opt.minDepth, AlwaysSafe())
      ensures SweptSoFar(g, c0, CellsNow(), f0, FacesNow(), dtg, opt.record, more, todo - {(j, i)})
      ensures Sum3(g.box, more) == Sum3(g.box, drops) - lost
    {
      hide AllReady, AllKeepFunding, Outgoing, Balance, SurfaceStore, GainStore, SweptSoFar, ColumnPaths, ColumnSame,
        Sum, Sum3, ColumnSum,
           SweptFrame;
      ghost var m, n := CellsNow(), FacesNow();
      ghost var drop;
      lost, vent, drop := SendOne(j, i);
      forall j', i' | g.box.Has2(j', i') && (j', i') != (j, i)
        ensures ColumnSame(g, m, CellsNow(), n, FacesNow(), j', i')
      {
        ColumnsSame(m, n, j', i');
      }
      SweptStepped(g, c0, m, CellsNow(), f0, n, FacesNow(), dtg, opt.record, drops, todo, drop, j, i);
      SweptFrameKeeps(g, c0, m, f0, n);
      ColumnFrame(m, n, j, i);
      SweptFrameTrans(g, c0, m, CellsNow(), f0, n, FacesNow());
      more := Placed(drops, j, i, drop);
    }

    /** The second phase: every column's sweep, the columns in any order.  In every cell the corrected
        fluxes diverge by what it received less what it delivered. */
    method SendAll() returns (dropped: real, vented: real, ghost drops: Field3)
      requires Valid() && dtg > 0.0 && AllReady()
      modifies cells, faces, ponds
      ensures SweptFrame(g, old(CellsNow()), CellsNow(), old(FacesNow()), FacesNow())
      ensures AllReady() && dropped <= 0.0 && vented >= 0.0
      ensures Balance() == old(Balance()) + Sum3(g.box, Outgoing(g, old(CellsNow()))) + dropped
      ensures SurfaceStore(g, PondsNow()) == old(SurfaceStore(g, PondsNow())) + vented
      ensures GainStore(g, PondsNow()) == old(GainStore(g, PondsNow())) + vented
      ensures !opt.coupled ==> vented == 0.0
      ensures AllKeepFunding(g, old(PondsNow()), PondsNow(), opt.minDepth, AlwaysSafe())
      ensures SweptSoFar(g, old(CellsNow()), CellsNow(), old(FacesNow()), FacesNow(), dtg, opt.record, drops, {})
      ensures Sum3(g.box, drops) == -dropped
    {
      hide AllReady, AllKeepFunding, Outgoing, Pending, Balance, SurfaceStore, GainStore, SweptSoFar, Sum3, SweptFrame;
      ghost var c0, f0, s0 := CellsNow(), FacesNow(), PondsNow();
      dropped, vented, drops := 0.0, 0.0, (j, i, k) => 0.0;
      var todo := Columns();
      PendingEnds(g, c0, todo);
      FundingRefl(g, s0, opt.minDepth, AlwaysSafe());
      SweptNone(g, c0, f0, dtg, opt.record, todo);
      SweptFrameRefl(g, c0, f0);
      while todo != {}
        invariant forall j, i :: (j, i) in todo ==> g.box.Has2(j, i)
        invariant SweptFrame(g, c0, CellsNow(), f0, FacesNow()) && AllReady() && dropped <= 0.0 && vented >= 0.0
        invariant Balance() + Sum3(g.box, Pending(g, c0, todo)) == old(Balance()) + Sum3(g.box, Outgoing(g, c0))
                  + dropped
        invariant SurfaceStore(g, PondsNow()) == old(SurfaceStore(g, PondsNow())) + vented
        invariant GainStore(g, PondsNow()) == old(GainStore(g, PondsNow())) + vented
        invariant !opt.coupled ==> vented == 0.0
        invariant AllKeepFunding(g, s0, PondsNow(), opt.minDepth, AlwaysSafe())
        invariant SweptSoFar(g, c0, CellsNow(), f0, FacesNow(), dtg, opt.record, drops, todo)
                  && Sum3(g.box, drops) == -dropped
        decreases |todo|
      {
        var c :| c in todo;
        var (j, i) := c;
        ghost var s := PondsNow();
        ghost var more;
        var lost, vent;
        lost, vent, more := SendNext(j, i, c0, f0, drops, todo);
        PendingStep(g, c0, todo, j, i);
        FundingTrans(g, s0, s, PondsNow(), opt.minDepth, AlwaysSafe());
        dropped, vented, todo, drops := dropped + lost, vented + vent, todo - {c}, more;
      }
      PendingEnds(g, c0, todo);
    }

    // ----- the first phase: classification (src/gw/Reallocate.cpp:115-301)

    predicate Sat(j: int, i: int, k: int)
      reads cells
      requires Valid() && 0 <= j <= g.box.ny + 1 && 0 <= i <= g.box.nx + 1 && 0 <= k < g.box.nz
    {
      cells[j, i, k].wc >= soil.at(j, i, k).thetaS
    }

    /** A saturated neighbour through a conducting face, or a wet or prescribed-head top. */
    predicate AdjSat(j: int, i: int, k: int)
      reads cells, ponds, this`bc
      requires Valid() && g.Active(j, i, k)
    {
      || (k + 1 < g.box.nz && g.Active(j, i, k + 1) && Sat(j, i, k + 1))
      || (cells[j, i, k].kx != 0.0 && Sat(j, i + 1, k))
      || (cells[j, i - 1, k].kx != 0.0 && Sat(j, i - 1, k))
      || (cells[j, i, k].ky != 0.0 && Sat(j + 1, i, k))
      || (cells[j - 1, i, k].ky != 0.0 && Sat(j - 1, i, k))
      || (if k == 0 || !g.Active(j, i, k - 1) then
            (if opt.coupled then ponds[j, i].dept > 0.0 else bc.top(j, i).code == Head && bc.top(j, i).value >= 0.0)
          else Sat(j, i, k - 1))
    }

    /** The gradients of check_head_gradient; a face that does not conduct, or leads to no
        active cell, has none. */
    function GradientsAt(j: int, i: int, k: int): Gradients
      reads cells, faces, this`ratios
      requires Valid() && g.Active(j, i, k)
    {
      var h := cells[j, i, k].h;
      var zp :=
        if g.Active(j, i, k + 1) && faces[j, i, k + 1].k > 0.0 then
          (cells[j, i, k + 1].h - h) / (0.5 * (g.dz(j, i, k) + g.dz(j, i, k + 1)))
          - (if opt.densityGradient then ratios.rhoZ(j, i, k + 1) else 1.0)
        else 0.0;
      var zm :=
        if g.Active(j, i, k - 1) && faces[j, i, k].k > 0.0 then
          (h - cells[j, i, k - 1].h) / (0.5 * (g.dz(j, i, k) + g.dz(j, i, k - 1)))
          - (if opt.densityGradient then ratios.rhoZ(j, i, k) else 1.0)
        else 0.0;
      if opt.full3d then
        Gradients(
          if g.Live(j, i + 1, k) && cells[j, i, k].kx > 0.0 then (cells[j, i + 1, k].h - h) / g.dx else 0.0,
          if g.Live(j, i - 1, k) && cells[j, i - 1, k].kx > 0.0 then (h - cells[j, i - 1, k].h) / g.dx else 0.0,
          if g.Live(j + 1, i, k) && cells[j, i, k].ky > 0.0 then (cells[j + 1, i, k].h - h) / g.dy else 0.0,
          if g.Live(j - 1, i, k) && cells[j - 1, i, k].ky > 0.0 then (h - cells[j - 1, i, k].h) / g.dy else 0.0,
          zp, zm)
      else Gradients(0.0, 0.0, 0.0, 0.0, zp, zm)
    }

    /** What one visit makes of an active cell, given the state it finds. */
    function OutcomeAt(j: int, i: int, k: int): Outcome
      reads cells, faces, ponds, this`bc, this`ratios
      requires Valid() && g.Active(j, i, k)
    {
      CellOutcome(soil.pow, soil.at(j, i, k), g.Vol(j, i, k), cells[j, i, k].wc, cells[j, i, k].h, AdjSat(j, i, k),
                  GradientSplit(GradientsAt(j, i, k)), opt.redistribute)
    }

    twostate predicate OtherCellsKept(j: int, i: int, k: int)
      reads cells
      requires Valid() && g.box.Has(j, i, k)
    {
      forall j', i', k' {:trigger cells[j', i', k']} ::
        0 <= j' < cells.Length0 && 0 <= i' < cells.Length1 && 0 <= k' < cells.Length2 && (j', i', k') != (j, i, k) ==>
        cells[j', i', k'] == old(cells[j', i', k'])
    }

    /** One iteration of the classification kernel. */
    method ClassifyCell(j: int, i: int, k: int) returns (adjusted: real, discarded: real)
      requires Valid() && g.box.Has(j, i, k)
      modifies cells
      ensures OtherCellsKept(j, i, k)
      ensures g.Active(j, i, k) ==>
        var o := old(OutcomeAt(j, i, k));
        cells[j, i, k] == old(cells[j, i, k]).(wc := o.wc, h := o.h, room := o.room, up := o.up, down := o.down)
        && adjusted == o.adjusted && discarded == o.discarded
      ensures !g.Active(j, i, k) ==>
        cells[j, i, k] == old(cells[j, i, k]).(room := 0.0, up := 0.0, down := 0.0) && adjusted == 0.0
          && discarded == 0.0
    {
      hide OutcomeAt;
      var x := cells[j, i, k];
      if g.Active(j, i, k) {
        var o := OutcomeAt(j, i, k);
        cells[j, i, k] := x.(wc := o.wc, h := o.h, room := o.room, up := o.up, down := o.down);
        adjusted, discarded := o.adjusted, o.discarded;
      } else {
        cells[j, i, k] := x.(room := 0.0, up := 0.0, down := 0.0);
        adjusted, discarded := 0.0, 0.0;
      }
    }

    function Interior(): (r: set<(int, int, int)>)
      ensures forall j, i, k :: (j, i, k) in r <==> g.box.Has(j, i, k)
    {
      set j, i, k | 1 <= j <= g.box.ny && 1 <= i <= g.box.nx && 0 <= k < g.box.nz :: (j, i, k)
    }

    /** One visit, booked: the cell holds its outcome and is ready. */
    method VisitCell(j: int, i: int, k: int, ghost c0: Cells, ghost x: Outcomes, ghost todo: set<(int, int, int)>)
      returns (adjusted: real, discarded: real, ghost more: Outcomes)
      requires Valid() && g.box.Has(j, i, k) && (j, i, k) in todo
      requires Visited(E(), c0, CellsNow(), x, todo) && ReadySoFar(g, soil, CellsNow(), todo)
               && ClassifiedFrame(g, c0, CellsNow())
      modifies cells
      ensures ClassifiedFrame(g, c0, CellsNow())
      ensures ReadySoFar(g, soil, CellsNow(), todo - {(j, i, k)})
      ensures Visited(E(), c0, CellsNow(), more, todo - {(j, i, k)})
      ensures Sum3(g.box, Adjustments(more)) == Sum3(g.box, Adjustments(x)) + adjusted
      ensures Sum3(g.box, Discards(more)) == Sum3(g.box, Discards(x)) + discarded
    {
      hide OutcomeAt, Visited, Arises, ArisesFrom, GradientsAt, AdjSat, CellOutcome, Admissible, Sum3, ReadySoFar;
      ghost var now := CellsNow();
      ghost var o := NO_OUTCOME;
      if g.Active(j, i, k) {
        o := OutcomeAt(j, i, k);
        OutcomeArises(j, i, k);
        Witnessed(E(), now(j, i, k), j, i, k, AdjSat(j, i, k), GradientsAt(j, i, k), o);
        SettingOk();
        ArisenBalances(E(), now(j, i, k), j, i, k, o);
      }
      adjusted, discarded := ClassifyCell(j, i, k);
      VisitedStep(E(), c0, now, CellsNow(), x, todo, j, i, k, o);
      ReadyStep(g, soil, now, CellsNow(), todo, j, i, k);
      assert ClassifiedFrame(g, now, CellsNow());
      ClassifiedFrameStep(g, c0, now, CellsNow());
      more := CellLedger.Booked(x, j, i, k, o);
    }

    lemma OutcomeArises(j: int, i: int, k: int)
      requires Valid() && g.Active(j, i, k)
      ensures ArisesFrom(E(), CellsNow()(j, i, k), j, i, k, AdjSat(j, i, k), GradientsAt(j, i, k), OutcomeAt(j, i, k))
    {
      hide CellOutcome, GradientSplit, GradientsAt, AdjSat;
    }

    lemma NoneVisited(todo: set<(int, int, int)>)
      requires Valid() && forall j, i, k :: g.box.Has(j, i, k) ==> (j, i, k) in todo
      ensures ReadySoFar(g, soil, CellsNow(), todo)
    {
      hide Ready;
    }

    lemma AllReadyNow()
      requires Valid() && ReadySoFar(g, soil, CellsNow(), {})
      ensures AllReady()
    {
      hide Ready;
    }

    /** The first phase, its iterations in any order: whatever neighbour states they find, each active
        cell ends with the kernel's outcome for what it held, and the totals are those of the outcomes. */
    method ClassifyAll() returns (adjusted: real, discarded: real, ghost x: Outcomes)
      requires Valid()
      modifies cells
      ensures ClassifiedFrame(g, old(CellsNow()), CellsNow()) && AllReady() && discarded >= 0.0
      ensures Volume(g, CellsNow()) + Sum3(g.box, Outgoing(g, CellsNow())) == old(Volume(g, CellsNow())) + adjusted
      ensures Visited(E(), old(CellsNow()), CellsNow(), x, {})
      ensures Sum3(g.box, Adjustments(x)) == adjusted && Sum3(g.box, Discards(x)) == discarded
    {
      hide Volume, Outgoing, Visited, Admissible, Ready, Sum3, ReadySoFar, AllReady, ClassifiedFrame;
      ghost var c0 := CellsNow();
      adjusted, discarded, x := 0.0, 0.0, Unvisited();
      var todo := Interior();
      VisitedNone(E(), c0, todo);
      FramesRefl(g, c0);
      assert ReadySoFar(g, soil, c0, todo) by { NoneVisited(todo); }
      while todo != {}
        invariant forall j, i, k :: (j, i, k) in todo ==> g.box.Has(j, i, k)
        invariant ClassifiedFrame(g, c0, CellsNow())
        invariant ReadySoFar(g, soil, CellsNow(), todo)
        invariant Visited(E(), c0, CellsNow(), x, todo)
        invariant Sum3(g.box, Adjustments(x)) == adjusted && Sum3(g.box, Discards(x)) == discarded
        decreases |todo|
      {
        var c :| c in todo;
        var (j, i, k) := c;
        var a, d;
        ghost var more;
        a, d, more := VisitCell(j, i, k, c0, x, todo);
        adjusted, discarded, todo, x := adjusted + a, discarded + d, todo - {c}, more;
      }
      AllReadyNow();
      SettingOk();
      VisitedEnds(E(), c0, CellsNow(), x);
      Sum3Nonneg(g.box, Discards(x));
    }

    lemma SettingOk()
      requires Valid()
      ensures E().Ok() && E().g == g && E().soil == soil && E().opt == opt && E().ratios == ratios
    {
      hide Admissible;
    }

    // ----- the corrector (src/gw/Corrector.cpp)

    /** Cells and faces keep everything the corrector's later kernels do not write. */
    twostate predicate SurfaceKept()
      reads ponds
      requires Valid()
    {
      forall j, i :: 0 <= j < ponds.Length0 && 0 <= i < ponds.Length1 ==> ponds[j, i] == old(ponds[j, i])
    }

    /** The step-start refresh: ghost values come from outside the block, and h^n and theta^n are
        frozen. */
    method FreezeStart(edge: Edge)
      requires Valid()
      modifies cells
      ensures forall j, i, k :: 0 <= j < cells.Length0 && 0 <= i < cells.Length1 && 0 <= k < cells.Length2 ==>
        var x, y := old(cells[j, i, k]), cells[j, i, k];
        && y.hn == y.h && y.wcn == y.wc
        && (if g.box.Has(j, i, k) then y == x.(hn := x.h, wcn := x.wc)
            else y.h == edge.h(j, i, k) && y.wc == edge.wc(j, i, k))
      ensures VolumeStart(g, CellsNow()) == old(Volume(g, CellsNow()))
    {
      ghost var c := CellsNow();
      forall j, i, k | 0 <= j < cells.Length0 && 0 <= i < cells.Length1 && 0 <= k < cells.Length2 {
        cells[j, i, k] :=
          var x := if 1 <= j <= g.box.ny && 1 <= i <= g.box.nx then cells[j, i, k]
                   else cells[j, i, k].(h := edge.h(j, i, k), wc := edge.wc(j, i, k));
          x.(hn := x.h, wcn := x.wc);
      }
      FrozenVolume(g, c, CellsNow());
    }

    /** Ghost moistures after a change of the interior. */
    method RefreshMoisture(edge: Edge)
      requires Valid()
      modifies cells
      ensures forall j, i, k :: 0 <= j < cells.Length0 && 0 <= i < cells.Length1 && 0 <= k < cells.Length2 ==>
        var x, y := old(cells[j, i, k]), cells[j, i, k];
        y == x.(wc := y.wc) && (g.box.Has(j, i, k) ==> y == x)
    {
      forall j, i, k | 0 <= j < cells.Length0 && 0 <= i < cells.Length1 && 0 <= k < cells.Length2 {
        cells[j, i, k] := if 1 <= j <= g.box.ny && 1 <= i <= g.box.nx then cells[j, i, k]
                          else cells[j, i, k].(wc := edge.wc(j, i, k));
      }
    }

    /** The classification of the coupled tops. */
    method ClassifyTops()
      requires Valid()
      modifies ponds
      ensures forall j, i :: 0 <= j < ponds.Length0 && 0 <= i < ponds.Length1 ==>
        ponds[j, i] == if g.box.Has2(j, i) then Moded(E(), CellsNow(), dtg, j, i, old(ponds[j, i]))
          else old(ponds[j, i])
    {
      hide Moded;
      var c := CellsNow();
      forall j, i | 1 <= j <= g.box.ny && 1 <= i <= g.box.nx {
        ponds[j, i] := Moded(E(), c, dtg, j, i, ponds[j, i]);
      }
    }

    /** The predictor's outcome: heads with their ghosts, and the face conductivities from them. */
    method TakePrediction(p: Prediction)
      requires Valid()
      modifies cells, faces
      ensures forall j, i, k :: 0 <= j < cells.Length0 && 0 <= i < cells.Length1 && 0 <= k < cells.Length2 ==>
        cells[j, i, k] == old(cells[j, i, k]).(h := p.h(j, i, k), kx := p.kx(j, i, k), ky := p.ky(j, i, k))
      ensures forall j, i, k :: 0 <= j < faces.Length0 && 0 <= i < faces.Length1 && 0 <= k < faces.Length2 ==>
        faces[j, i, k] == old(faces[j, i, k]).(k := p.kz(j, i, k))
    {
      forall j, i, k | 0 <= j < cells.Length0 && 0 <= i < cells.Length1 && 0 <= k < cells.Length2 {
        cells[j, i, k] := cells[j, i, k].(h := p.h(j, i, k), kx := p.kx(j, i, k), ky := p.ky(j, i, k));
      }
      forall j, i, k | 0 <= j < faces.Length0 && 0 <= i < faces.Length1 && 0 <= k < faces.Length2 {
        faces[j, i, k] := faces[j, i, k].(k := p.kz(j, i, k));
      }
    }

    /** Every face holds its flux under the cells and surface of the old state, and every coupled
        column's budget is debited. */
    twostate predicate FluxesFilled()
      reads this`bc, this`ratios, this`dtg, cells, faces, ponds
      requires Valid() && dtg > 0.0
    {
      && (forall j, i, k {:trigger cells[j, i, k]} :: 0 <= j < cells.Length0 && 0 <= i < cells.Length1
                                                      && 0 <= k < cells.Length2 ==>
        var x, y, c := old(cells[j, i, k]), cells[j, i, k], old(CellsNow());
        y == x.(qx := if 1 <= j <= g.box.ny && i <= g.box.nx then XFlux(E(), c, j, i, k) else x.qx,
                qy := if j <= g.box.ny && 1 <= i <= g.box.nx then YFlux(E(), c, j, i, k) else x.qy))
      && (forall j, i, k {:trigger faces[j, i, k]} :: 0 <= j < faces.Length0 && 0 <= i < faces.Length1
                                                      && 0 <= k < faces.Length2 ==>
        faces[j, i, k] == if g.box.Has2(j, i)
                          then old(faces[j, i, k]).(q := ZFlux(E(), old(CellsNow()), old(ponds[j, i]), dtg, j, i, k))
                          else old(faces[j, i, k]))
      && (forall j, i {:trigger ponds[j, i]} :: 0 <= j < ponds.Length0 && 0 <= i < ponds.Length1 ==>
        ponds[j, i] == if opt.coupled && g.box.Has2(j, i)
          then Debited(E(), old(CellsNow()), dtg, j, i, old(ponds[j, i]))
                       else old(ponds[j, i]))
    }

    /** The face fluxes of the predicted heads, each infiltrating top debiting its budget: none crosses
        the active mask, none overdraws a budget, and together they bring the block what passes the
        domain's boundary and what other ranks send. */
    method ComputeFluxes()
      requires Valid() && dtg > 0.0
      modifies cells, faces, ponds
      ensures FluxesFilled() && E().Ok() && Sealed(g, CellsNow()) && LateralsFilled(E(), CellsNow(), CellsNow())
      ensures VerticalsFilled(E(), CellsNow(), old(PondsNow()), FacesNow(), dtg)
      ensures opt.coupled ==> forall j, i :: g.box.Has2(j, i) && HasTop(g, j, i) ==>
        Pays(old(ponds[j, i]), ponds[j, i], TopQ(FacesNow(), j, i), dtg, g.az)
      ensures ratios.Unit() ==> Sum3(g.box, FluxField(g, ratios, CellsNow(), FacesNow(), dtg))
                                == BoundaryIn(g, CellsNow(), FacesNow(), dtg) + CrossIn(g, CellsNow(), dtg)
    {
      hide *;
      FillFluxes();
      FilledNow();
      BlockInflow();
      if opt.coupled { TopsPay(); }
    }

    lemma BlockInflow()
      requires Valid() && Sealed(g, CellsNow())
      ensures ratios.Unit() ==> Sum3(g.box, FluxField(g, ratios, CellsNow(), FacesNow(), dtg))
                                == BoundaryIn(g, CellsNow(), FacesNow(), dtg) + CrossIn(g, CellsNow(), dtg)
    {
      GridOk();
      hide Sealed, BoundaryIn, CrossIn, FluxField, Sum3, Ratios.Unit, Admissible;
      if ratios.Unit() { FluxIsBoundaryIn(g, ratios, CellsNow(), FacesNow(), dtg); }
    }

    lemma GridOk()
      requires Valid()
      ensures g.Ok() && g.az > 0.0
    {
    }

    twostate lemma TopsPay()
      requires Valid() && dtg > 0.0 && FluxesFilled() && opt.coupled
      ensures forall j, i :: g.box.Has2(j, i) && HasTop(g, j, i) ==>
        Pays(old(ponds[j, i]), ponds[j, i], TopQ(FacesNow(), j, i), dtg, g.az)
    {
      hide XFlux, YFlux, ZFlux, Debited, Pays, Admissible;
      SettingOk();
      GridOk();
      forall j, i | g.box.Has2(j, i) && HasTop(g, j, i)
        ensures Pays(old(ponds[j, i]), ponds[j, i], TopQ(FacesNow(), j, i), dtg, g.az)
      {
        DebitedPays(E(), old(CellsNow()), dtg, j, i, old(ponds[j, i]));
      }
    }

    /** What the kernels filled, as values of the cells they leave. */
    twostate lemma FilledNow()
      requires Valid() && dtg > 0.0 && FluxesFilled()
      ensures E().Ok() && Sealed(g, CellsNow()) && LateralsFilled(E(), CellsNow(), CellsNow())
      ensures VerticalsFilled(E(), CellsNow(), old(PondsNow()), FacesNow(), dtg)
    {
      hide XFlux, YFlux, ZFlux, Debited, Admissible, Sealed;
      SettingOk();
      assert SameHeads(old(CellsNow()), CellsNow());
      assert LateralsFilled(E(), old(CellsNow()), CellsNow());
      FluxesSealed(E(), old(CellsNow()), CellsNow());
      FilledReads(E(), old(CellsNow()), CellsNow(), old(PondsNow()), FacesNow(), dtg);
    }

    /** The lateral flux kernels. */
    method FillLateral()
      requires Valid() && dtg > 0.0
      modifies cells
      ensures forall j, i, k {:trigger cells[j, i, k]} ::
        0 <= j < cells.Length0 && 0 <= i < cells.Length1 && 0 <= k < cells.Length2 ==>
        var x, y, c := old(cells[j, i, k]), cells[j, i, k], old(CellsNow());
        y == x.(qx := if 1 <= j <= g.box.ny && i <= g.box.nx then XFlux(E(), c, j, i, k) else x.qx,
                qy := if j <= g.box.ny && 1 <= i <= g.box.nx then YFlux(E(), c, j, i, k) else x.qy)
    {
      hide XFlux, YFlux;
      var c := CellsNow();
      forall j, i, k | 0 <= j < cells.Length0 && 0 <= i < cells.Length1 && 0 <= k < cells.Length2 {
        cells[j, i, k] := cells[j, i, k].(
          qx := if 1 <= j <= g.box.ny && i <= g.box.nx then XFlux(E(), c, j, i, k) else cells[j, i, k].qx,
          qy := if j <= g.box.ny && 1 <= i <= g.box.nx then YFlux(E(), c, j, i, k) else cells[j, i, k].qy);
      }
    }

    /** The vertical flux kernel, over the cells c. */
    method FillVertical(c: Cells)
      requires Valid() && dtg > 0.0
      modifies faces
      ensures forall j, i, k {:trigger faces[j, i, k]} ::
        0 <= j < faces.Length0 && 0 <= i < faces.Length1 && 0 <= k < faces.Length2 ==>
        faces[j, i, k] == if g.box.Has2(j, i) then old(faces[j, i, k]).(q := ZFlux(E(), c, ponds[j, i], dtg, j, i, k))
          else old(faces[j, i, k])
    {
      hide ZFlux;
      var s := PondsNow();
      forall j, i, k | 1 <= j <= g.box.ny && 1 <= i <= g.box.nx && 0 <= k <= g.box.nz {
        faces[j, i, k] := faces[j, i, k].(q := ZFlux(E(), c, s(j, i), dtg, j, i, k));
      }
    }

    /** The budgets' debits, over the cells c. */
    method DebitBudgets(c: Cells)
      requires Valid() && dtg > 0.0
      modifies ponds
      ensures forall j, i {:trigger ponds[j, i]} :: 0 <= j < ponds.Length0 && 0 <= i < ponds.Length1 ==>
        ponds[j, i] == if opt.coupled && g.box.Has2(j, i) then Debited(E(), c, dtg, j, i, old(ponds[j, i]))
          else old(ponds[j, i])
    {
      hide Debited;
      if opt.coupled {
        forall j, i | 1 <= j <= g.box.ny && 1 <= i <= g.box.nx {
          ponds[j, i] := Debited(E(), c, dtg, j, i, ponds[j, i]);
        }
      }
    }

    /** The flux kernels. */
    method FillFluxes()
      requires Valid() && dtg > 0.0
      modifies cells, faces, ponds
      ensures FluxesFilled()
    {
      hide XFlux, YFlux, ZFlux, Debited, Admissible;
      var c := CellsNow();
      FillLateral();
      FillVertical(c);
      DebitBudgets(c);
    }

    /** The flux through the top face of column (j, i). */
    function TopQ(f: Faces, j: int, i: int): real { f(j, i, g.ktop(j, i)).q }

    /** Each column's shares of the exchanged, bounced and evaporated volumes. */
    method TopShares() returns (x: Field2, b: Field2, v: Field2)
      requires Valid() && dtg > 0.0
      ensures forall j, i :: g.box.Has2(j, i) ==>
        && x(j, i) == ExchangedAt(E(), dtg, j, i, TopQ(FacesNow(), j, i))
        && b(j, i) == BouncedAt(E(), CellsNow(), dtg, j, i, ponds[j, i], TopQ(FacesNow(), j, i))
        && v(j, i) == EvaporatedAt(E(), CellsNow(), dtg, j, i, ponds[j, i], TopQ(FacesNow(), j, i))
    {
      hide ExchangedAt, BouncedAt, EvaporatedAt, Admissible, TopQ;
      var c, f := CellsNow(), FacesNow();
      var shares := new (real, real, real)[g.box.ny + 2, g.box.nx + 2];
      forall j, i | 1 <= j <= g.box.ny && 1 <= i <= g.box.nx {
        shares[j, i] := (ExchangedAt(E(), dtg, j, i, TopQ(f, j, i)),
                         BouncedAt(E(), c, dtg, j, i, ponds[j, i], TopQ(f, j, i)),
                         EvaporatedAt(E(), c, dtg, j, i, ponds[j, i], TopQ(f, j, i)));
      }
      var s := Snap2(shares, (0.0, 0.0, 0.0));
      x, b, v := (j, i) => s(j, i).0, (j, i) => s(j, i).1, (j, i) => s(j, i).2;
    }

    /** The coupled top-face bookkeeping with its three reductions. */
    method BookTops() returns (exchanged: real, bounced: real, evaporated: real)
      requires Valid() && dtg > 0.0
      modifies ponds
      ensures forall j, i :: 0 <= j < ponds.Length0 && 0 <= i < ponds.Length1 ==>
        ponds[j, i] == if g.box.Has2(j, i)
          then BookedTop(E(), CellsNow(), dtg, j, i, old(ponds[j, i]), TopQ(FacesNow(), j, i))
                       else old(ponds[j, i])
      ensures SurfaceStore(g, PondsNow()) == old(SurfaceStore(g, PondsNow())) + exchanged + bounced - evaporated
      ensures GainStore(g, PondsNow()) == old(GainStore(g, PondsNow())) + bounced
      ensures bounced >= 0.0
    {
      hide BookedTop, ExchangedAt, BouncedAt, EvaporatedAt, SurfaceStore, GainStore;
      var c, f := CellsNow(), FacesNow();
      ghost var s := PondsNow();
      var x, b, v := TopShares();
      exchanged := Reduce2(g.box, x);
      bounced := Reduce2(g.box, b);
      evaporated := Reduce2(g.box, v);
      forall j, i | 1 <= j <= g.box.ny && 1 <= i <= g.box.nx {
        ponds[j, i] := BookedTop(E(), c, dtg, j, i, ponds[j, i], TopQ(f, j, i));
      }
      ghost var q := (j, i) => TopQ(f, j, i);
      BookedStore(E(), c, dtg, s, PondsNow(), q, x, b, v);
    }

    /** The moisture update; returns the volume moved into compressible storage. */
    method UpdateWaterContent() returns (stored: real)
      requires Valid() && forall j, i, k :: g.Active(j, i, k) ==>
                 Coefficient(g, soil, ratios, CellsNow(), j, i, k) != 0.0
      modifies cells
      ensures forall j, i, k :: 0 <= j < cells.Length0 && 0 <= i < cells.Length1 && 0 <= k < cells.Length2 ==>
        var x, y := old(cells[j, i, k]), cells[j, i, k];
        y == x.(wc := y.wc) && (!g.Active(j, i, k) ==> y == x)
      ensures Corrected(g, soil, ratios, old(CellsNow()), CellsNow(), FacesNow(), dtg)
      ensures stored == SsStorage(g, soil, ratios, old(CellsNow()), CellsNow())
    {
      hide UpdatedContent;
      var c, f := CellsNow(), FacesNow();
      forall j, i, k | 1 <= j <= g.box.ny && 1 <= i <= g.box.nx && 0 <= k < g.box.nz && g.Active(j, i, k) {
        cells[j, i, k] := cells[j, i, k].(wc := UpdatedContent(g, soil, ratios, c, f, dtg, j, i, k));
      }
      var c', s, r, gg := CellsNow(), soil, ratios, g;
      var comp := (j, i, k) =>
        if gg.Active(j, i, k) && s.at(j, i, k).thetaS != 0.0 then Compressed(gg, s, r, c, c'(j, i, k).wc, j, i, k)
          else 0.0;
      stored := Reduce3(g.box, comp);
      Sum3Ext(g.box, comp, CompressedField(g, soil, ratios, c, CellsNow()));
    }

    /** Classification, prediction and fluxes; c0 and c are the cells before and at the fluxes. */
    method PredictFluxes(p: Prediction) returns (ghost c0: Cells, ghost c: Cells, ghost s: Ponds)
      requires Valid() && dtg > 0.0
      modifies cells, faces, ponds
      ensures Sealed(g, CellsNow()) && Staged(g, c0, c, CellsNow())
      ensures forall j, i, k :: 0 <= j < cells.Length0 && 0 <= i < cells.Length1 && 0 <= k < cells.Length2 ==>
        var x, y := old(cells[j, i, k]), cells[j, i, k];
        y == x.(h := p.h(j, i, k), kx := y.kx, ky := y.ky, qx := y.qx, qy := y.qy)
      ensures opt.coupled ==> forall j, i :: g.box.Has2(j, i) ==>
        var m := Moded(E(), c0, dtg, j, i, old(ponds[j, i]));
        && ponds[j, i] == Debited(E(), c, dtg, j, i, m)
        && (HasTop(g, j, i) ==> TopQ(FacesNow(), j, i) == ZFlux(E(), c, m, dtg, j, i, g.ktop(j, i)))
      ensures !opt.coupled ==> SurfaceKept()
      ensures E().Ok() && LateralsFilled(E(), CellsNow(), CellsNow())
      ensures VerticalsFilled(E(), CellsNow(), s, FacesNow(), dtg)
      ensures c0 == old(CellsNow())
      ensures forall j, i :: g.box.Has2(j, i) ==>
        s(j, i) == if opt.coupled then Moded(E(), c0, dtg, j, i, old(ponds[j, i])) else old(ponds[j, i])
    {
      hide XFlux, YFlux, ZFlux, Moded, Debited, Sealed, Pays, BoundaryIn, CrossIn, FluxField, Sum3, LateralsFilled,
        VerticalsFilled;
      c0 := CellsNow();
      if opt.coupled { ClassifyTops(); }
      TakePrediction(p);
      c := CellsNow();
      s := PondsNow();
      ComputeFluxes();
    }

    /** Prediction and fluxes and, over a surface, the exchange's bookkeeping. */
    method Exchange(p: Prediction) returns (exchanged: real, bounced: real, evaporated: real, ghost s: Ponds)
      requires Valid() && dtg > 0.0
      modifies cells, faces, ponds
      ensures Sealed(g, CellsNow())
      ensures forall j, i, k :: 0 <= j < cells.Length0 && 0 <= i < cells.Length1 && 0 <= k < cells.Length2 ==>
        var x, y := old(cells[j, i, k]), cells[j, i, k];
        y == x.(h := p.h(j, i, k), kx := y.kx, ky := y.ky, qx := y.qx, qy := y.qy)
      ensures SurfaceStore(g, PondsNow()) == old(SurfaceStore(g, PondsNow())) + exchanged + bounced - evaporated
      ensures GainStore(g, PondsNow()) == old(GainStore(g, PondsNow())) + bounced && bounced >= 0.0
      ensures !opt.coupled ==> exchanged == bounced == evaporated == 0.0
      ensures AllKeepFunding(g, old(PondsNow()), PondsNow(), opt.minDepth, SafeTops(bc))
      ensures E().Ok() && LateralsFilled(E(), CellsNow(), CellsNow())
      ensures VerticalsFilled(E(), CellsNow(), s, FacesNow(), dtg)
      ensures forall j, i :: g.box.Has2(j, i) ==>
        s(j, i) == if opt.coupled then Moded(E(), old(CellsNow()), dtg, j, i, old(ponds[j, i])) else old(ponds[j, i])
    {
      hide AllKeepFunding, SurfaceStore, GainStore, BookedTop, ZFlux, Sealed, Staged, LateralsFilled, VerticalsFilled;
      ghost var s0 := PondsNow();
      ghost var c0, c;
      c0, c, s := PredictFluxes(p);
      SameStore(g, s0, PondsNow());
      hide Moded, Debited;
      exchanged, bounced, evaporated := 0.0, 0.0, 0.0;
      if opt.coupled {
        exchanged, bounced, evaporated := BookTops();
        forall j, i | g.box.Has2(j, i)
          ensures ponds[j, i] == ToppedUp(E(), c0, c, CellsNow(), dtg, j, i, s0(j, i))
        {
          if !HasTop(g, j, i) {
            BareColumn(E(), c, CellsNow(), dtg, j, i, Moded(E(), c0, dtg, j, i, s0(j, i)), TopQ(FacesNow(), j, i));
          }
        }
        TopsKeepFunding(E(), c0, c, CellsNow(), dtg, s0, PondsNow());
      } else {
        FundingRefl(g, s0, opt.minDepth, SafeTops(bc));
        FundingSame(g, s0, PondsNow(), opt.minDepth, SafeTops(bc));
      }
    }

    // ----- reallocation, clamp and audit

    /** With recording on, the path corrections start from zero. */
    method ResetCorrections()
      requires Valid()
      modifies faces
      ensures forall j, i, k {:trigger faces[j, i, k]} ::
        0 <= j < faces.Length0 && 0 <= i < faces.Length1 && 0 <= k < faces.Length2 ==>
        faces[j, i, k] == if opt.record then old(faces[j, i, k]).(corr := 0.0) else old(faces[j, i, k])
    {
      if opt.record {
        forall j, i, k | 0 <= j < faces.Length0 && 0 <= i < faces.Length1 && 0 <= k < faces.Length2 {
          faces[j, i, k] := faces[j, i, k].(corr := 0.0);
        }
      }
    }

    lemma BalanceIs()
      requires Valid()
      ensures Balance() == Volume(g, CellsNow()) - BoundaryIn(g, CellsNow(), FacesNow(), dtg)
    {
      hide Volume, BoundaryIn;
    }

    /** The post-allocation: both phases, with the audit terms they feed.  Every active cell takes its
        outcome, then what its sweep leaves it; n are the cells between the phases. */
    method Reallocate()
      returns (adjust: real, dropped: real, vented: real, ghost n: Cells, ghost x: Outcomes, ghost drops: Field3)
      requires Valid() && dtg > 0.0
      modifies cells, faces, ponds
      ensures Balance() == old(Balance()) + adjust
      ensures AllReady() && dropped >= 0.0 && vented >= 0.0 && (!opt.coupled ==> vented == 0.0)
      ensures SurfaceStore(g, PondsNow()) == old(SurfaceStore(g, PondsNow())) + vented
      ensures GainStore(g, PondsNow()) == old(GainStore(g, PondsNow())) + vented
      ensures AllKeepFunding(g, old(PondsNow()), PondsNow(), opt.minDepth, AlwaysSafe())
      ensures LateralsSame(g, old(CellsNow()), CellsNow())
      ensures Visited(E(), old(CellsNow()), n, x, {})
      ensures Sent(g, n, CellsNow(), old(FacesNow()), FacesNow(), dtg, opt.record, drops)
      ensures adjust == Sum3(g.box, Adjustments(x)) - Sum3(g.box, drops)
      ensures dropped == Sum3(g.box, Discards(x)) + Sum3(g.box, drops)
    {
      hide Volume, Outgoing, AllReady, SurfaceStore, GainStore, AllKeepFunding, Sum3, SweptSoFar, Visited, Sent,
        BoundaryIn, Balance,
           SweptFrame, ClassifiedFrame, LateralsSame;
      ghost var c, f := CellsNow(), FacesNow();
      BalanceIs();
      ResetCorrections();
      ghost var reset := FacesNow();
      var adjusted, discarded;
      adjusted, discarded, x := ClassifyAll();
      n := CellsNow();
      ClassifiedFrameKeeps(g, c, n);
      SameBoundary(g, c, n, f, reset, dtg);
      BalanceIs();
      var sent, vent;
      sent, vent, drops := SendAll();
      SweptFrameKeeps(g, n, CellsNow(), reset, FacesNow());
      LateralsTrans(g, c, n, CellsNow());
      adjust, dropped, vented := adjusted + sent, discarded - sent, vent;
      SweepsSend(g, n, CellsNow(), f, reset, FacesNow(), dtg, opt.record, drops);
    }

    /** The final clamp. */
    method Finalize() returns (lost: real)
      requires Valid() && AllReady()
      modifies cells
      ensures Volume(g, CellsNow()) == old(Volume(g, CellsNow())) - lost && lost <= 0.0
      ensures lost == Sum3(g.box, LossField(g, soil, old(CellsNow())))
      ensures forall j, i, k :: 0 <= j < cells.Length0 && 0 <= i < cells.Length1 && 0 <= k < cells.Length2 ==>
        var x, y := old(cells[j, i, k]), cells[j, i, k];
        if g.Active(j, i, k)
        then y == x.(wc := ClampedContent(x.wc, soil.at(j, i, k)), vloss :=
                     x.vloss + ClampLoss(x.wc, soil.at(j, i, k), g.Vol(j, i, k)))
        else y == x
    {
      hide ClampedContent, ClampLoss;
      var c, gg, s := CellsNow(), g, soil;
      var loss := (j, i, k) => if gg.Active(j, i, k) then ClampLoss(c(j, i, k).wc, s.at(j, i, k), gg.Vol(j, i, k))
        else 0.0;
      forall j, i, k | 1 <= j <= g.box.ny && 1 <= i <= g.box.nx && 0 <= k < g.box.nz && g.Active(j, i, k) {
        cells[j, i, k] := cells[j, i, k].(
          wc := ClampedContent(cells[j, i, k].wc, soil.at(j, i, k)),
          vloss := cells[j, i, k].vloss + ClampLoss(cells[j, i, k].wc, soil.at(j, i, k), g.Vol(j, i, k)));
      }
      lost := Reduce3(g.box, loss);
      Sum3Ext(g.box, loss, LossField(g, soil, c));
      ClampVolume(g, soil, c, CellsNow());
    }

    /** The inflow through the domain's boundary faces. */
    method AccumulateBoundaryFlux() returns (inflow: real)
      requires Valid()
      ensures inflow == BoundaryIn(g, CellsNow(), FacesNow(), dtg)
    {
      var c, f, gg, dt := CellsNow(), FacesNow(), g, dtg;
      var terms := (j, i, k) => BoundaryTerm(gg, c, f, dt, j, i, k);
      inflow := Reduce3(g.box, terms);
      Sum3Ext(g.box, terms, BoundaryTerms(g, c, f, dtg));
    }

    /** The final clamp and the ghosts after it. */
    method ClampContents(end: Edge) returns (lost: real)
      requires Valid() && AllReady()
      modifies cells
      ensures Balance() == old(Balance()) - lost && lost <= 0.0 && LateralsSame(g, old(CellsNow()), CellsNow())
      ensures forall j, i, k :: g.Active(j, i, k) ==>
                soil.at(j, i, k).thetaR <= cells[j, i, k].wc <= soil.at(j, i, k).thetaS
      ensures lost == Sum3(g.box, LossField(g, soil, old(CellsNow())))
      ensures forall j, i, k :: g.Active(j, i, k) ==>
                cells[j, i, k].wc == ClampedContent(old(cells[j, i, k]).wc, soil.at(j, i, k))
    {
      hide Volume, BoundaryIn, AllReady, ClampLoss, Sum3, LossField;
      ghost var c := CellsNow();
      lost := Finalize();
      SameBoundaryIn(g, c, CellsNow(), FacesNow(), FacesNow(), dtg);
      forall j, i, k | g.Active(j, i, k)
        ensures soil.at(j, i, k).thetaR <= cells[j, i, k].wc <= soil.at(j, i, k).thetaS
      {
        ClampBalance(c(j, i, k).wc, soil.at(j, i, k), g.Vol(j, i, k));
      }
      hide ClampedContent;
      c := CellsNow();
      RefreshMoisture(end);
      SameVolume(g, c, CellsNow());
      SameBoundaryIn(g, c, CellsNow(), FacesNow(), FacesNow(), dtg);
    }

    /** Everything after the moisture update: its reallocation, the clamp and the boundary audit; n and
        w are the cells after the classification and after the sweeps. */
    method Place(mid: Edge, end: Edge)
      returns (adjust: real, dropped: real, vented: real, lost: real, inflow: real,
               ghost n: Cells, ghost w: Cells, ghost x: Outcomes, ghost drops: Field3)
      requires Valid() && dtg > 0.0
      modifies cells, faces, ponds
      ensures Balance() == old(Balance()) + adjust - lost && inflow == BoundaryIn(g, CellsNow(), FacesNow(), dtg)
      ensures dropped >= 0.0 && vented >= 0.0 && lost <= 0.0 && (!opt.coupled ==> vented == 0.0)
      ensures forall j, i, k :: g.Active(j, i, k) ==>
                soil.at(j, i, k).thetaR <= cells[j, i, k].wc <= soil.at(j, i, k).thetaS
      ensures SurfaceStore(g, PondsNow()) == old(SurfaceStore(g, PondsNow())) + vented
      ensures GainStore(g, PondsNow()) == old(GainStore(g, PondsNow())) + vented
      ensures AllKeepFunding(g, old(PondsNow()), PondsNow(), opt.minDepth, AlwaysSafe())
      ensures LateralsSame(g, old(CellsNow()), CellsNow())
      ensures Visited(E(), old(CellsNow()), n, x, {})
      ensures Sent(g, n, w, old(FacesNow()), FacesNow(), dtg, opt.record, drops) && Clamped(g, soil, w, CellsNow())
      ensures forall j, i :: g.box.Has2(j, i) ==> ColumnReady(g, soil, w, j, i)
      ensures adjust == Sum3(g.box, Adjustments(x)) - Sum3(g.box, drops)
      ensures dropped == Sum3(g.box, Discards(x)) + Sum3(g.box, drops)
      ensures lost == Sum3(g.box, LossField(g, soil, w))
    {
      hide Volume, BoundaryIn, SurfaceStore, GainStore, AllKeepFunding, Sum3, LossField, Visited, Sent, ClampedContent,
        ColumnReady;
      ghost var c0, f0 := CellsNow(), FacesNow();
      RefreshMoisture(mid);
      ghost var c1 := CellsNow();
      SameVolume(g, c0, c1);
      SameBoundaryIn(g, c0, c1, f0, FacesNow(), dtg);
      adjust, dropped, vented, n, x, drops := Reallocate();
      VisitedSame(E(), c0, c1, n, x);
      w := CellsNow();
      lost := ClampContents(end);
      LateralsTrans(g, c0, c1, w);
      LateralsTrans(g, c0, w, CellsNow());
      inflow := AccumulateBoundaryFlux();
    }

    /** The next step by the flux changes and the Courant limits of this one. */
    method AdaptTimeStep(courant: Field3, peers: seq<Measures>)
      requires Valid()
      modifies this`dtgNext
      ensures exists dq, co ::
        && LargestChange(g, CellsNow(), FacesNow(), dtg, dq) && SmallestLimit(g, soil, CellsNow(), courant, co)
        && dtgNext == AgreedStep(ctl, dtg, Measures(dq, co), peers)
    {
      hide LargestChange, SmallestLimit, AgreedStep;
      var dq := MeasureChange(g, CellsNow(), FacesNow(), dtg);
      var co := MeasureCourant(g, soil, CellsNow(), courant);
      dtgNext := AgreedStep(ctl, dtg, Measures(dq, co), peers);
      assert LargestChange(g, CellsNow(), FacesNow(), dtg, dq) && SmallestLimit(g, soil, CellsNow(), courant, co);
    }

    /** The frozen start, the prediction and the fluxes; c are the cells they leave and s the surface
        they saw. */
    method Advance(x: Forcing)
      returns (exchanged: real, bounced: real, evaporated: real, ghost c: Cells, ghost s: Ponds)
      requires Valid() && dtg > 0.0
      modifies cells, faces, ponds
      ensures c == CellsNow() && Sealed(g, c) && VolumeStart(g, c) == old(Volume(g, CellsNow()))
      ensures SurfaceStore(g, PondsNow()) == old(SurfaceStore(g, PondsNow())) + exchanged + bounced - evaporated
      ensures GainStore(g, PondsNow()) == old(GainStore(g, PondsNow())) + bounced && bounced >= 0.0
      ensures !opt.coupled ==> exchanged == bounced == evaporated == 0.0
      ensures AllKeepFunding(g, old(PondsNow()), PondsNow(), opt.minDepth, SafeTops(bc))
      ensures Started(g, old(CellsNow()), c)
      ensures forall j, i, k :: 0 <= j <= g.box.ny + 1 && 0 <= i <= g.box.nx + 1 && 0 <= k < g.box.nz ==>
        c(j, i, k).h == x.prediction.h(j, i, k) && (!g.box.Has(j, i, k) ==> c(j, i, k).wc == x.start.wc(j, i, k))
      ensures E().Ok() && LateralsFilled(E(), c, c) && VerticalsFilled(E(), c, s, FacesNow(), dtg)
      ensures Faced(E(), c, old(PondsNow()), dtg, s)
    {
      hide Sealed, SurfaceStore, GainStore, AllKeepFunding, VolumeStart, Volume, Sum3, LateralsFilled, VerticalsFilled,
        Faced, Moded;
      ghost var s0 := PondsNow();
      FreezeStart(x.start);
      ghost var c1 := CellsNow();
      exchanged, bounced, evaporated, s := Exchange(x.prediction);
      c := CellsNow();
      FacedBy(E(), c1, c, s0, dtg, s);
      SameStart(g, c1, c);
    }

    /** The predicted coefficients are those of the cells at the fluxes. */
    lemma PredictedCoefficients(c0: Cells, c: Cells, p: Prediction)
      requires Valid() && Started(g, c0, c)
      requires forall j, i, k :: g.box.Has(j, i, k) ==> c(j, i, k).h == p.h(j, i, k)
      requires forall j, i, k :: g.Active(j, i, k) ==> Coefficient(g, soil, ratios, Predicted(c0, p), j, i, k) != 0.0
      ensures forall j, i, k :: g.Active(j, i, k) ==> Coefficient(g, soil, ratios, c, j, i, k) != 0.0
    {
      forall j, i, k | g.Active(j, i, k)
        ensures c(j, i, k).h == Predicted(c0, p)(j, i, k).h && c(j, i, k).hn == Predicted(c0, p)(j, i, k).hn
      {
        assert g.box.Has(j, i, k);
      }
      hide Predicted;
      SameCoefficients(g, soil, ratios, Predicted(c0, p), c);
      hide Coefficient;
    }

    /** The step's first half: everything up to the moisture update. */
    method Correct(x: Forcing)
      returns (exchanged: real, bounced: real, evaporated: real, stored: real, ghost c: Cells, ghost s: Ponds)
      requires Valid() && dtg > 0.0 && ratios == x.ratios
      requires forall j, i, k :: g.Active(j, i, k) ==>
        Coefficient(g, soil, x.ratios, Predicted(CellsNow(), x.prediction), j, i, k) != 0.0
      modifies cells, faces, ponds
      ensures ratios.Unit() ==> Balance() == old(Volume(g, CellsNow())) + CrossIn(g, CellsNow(), dtg) - stored
      ensures SurfaceStore(g, PondsNow()) == old(SurfaceStore(g, PondsNow())) + exchanged + bounced - evaporated
      ensures GainStore(g, PondsNow()) == old(GainStore(g, PondsNow())) + bounced && bounced >= 0.0
      ensures !opt.coupled ==> exchanged == bounced == evaporated == 0.0
      ensures AllKeepFunding(g, old(PondsNow()), PondsNow(), opt.minDepth, SafeTops(bc))
      ensures Started(g, old(CellsNow()), c)
      ensures forall j, i, k :: 0 <= j <= g.box.ny + 1 && 0 <= i <= g.box.nx + 1 && 0 <= k < g.box.nz ==>
        c(j, i, k).h == x.prediction.h(j, i, k) && (!g.box.Has(j, i, k) ==> c(j, i, k).wc == x.start.wc(j, i, k))
      ensures E().Ok() && LateralsFilled(E(), c, c) && VerticalsFilled(E(), c, s, FacesNow(), dtg)
      ensures Faced(E(), c, old(PondsNow()), dtg, s)
      ensures GroundwaterTerms.Corrected(g, soil, ratios, c, CellsNow(), FacesNow(), dtg)
              && LateralsSame(g, c, CellsNow())
      ensures stored == SsStorage(g, soil, ratios, c, CellsNow())
    {
      hide Sealed, SurfaceStore, GainStore, AllKeepFunding, VolumeStart, Volume, BoundaryIn, CrossIn, Corrected, Sum3,
        SsStorage, LateralsFilled, VerticalsFilled, Faced, Started, Predicted, Coefficient, Moded;
      ghost var c0 := CellsNow();
      exchanged, bounced, evaporated, c, s := Advance(x);
      PredictedCoefficients(c0, c, x.prediction);
      stored := UpdateWaterContent();
      if ratios.Unit() {
        CorrectorCloses(g, soil, ratios, c, CellsNow(), FacesNow(), dtg);
        SameBoundaryIn(g, c, CellsNow(), FacesNow(), FacesNow(), dtg);
        SameCrossIn(g, c, CellsNow(), dtg);
      }
    }

    /** Main result: one groundwater step.  With unit density ratios the stored volume changes by
        exactly the audited boundary inflow, compressible storage, reallocation adjustment and
        clamp loss; the surface by exactly what the coupled terms say; theta ends inside its
        bounds, the clamp never removes water, and no surface budget is overdrawn.  The trail says
        what each part did to each cell, and every audit term is the sum of its cells' shares.  With
        the transport window on, every single cell closes: what it gained is the divergence of the
        fluxes as the step leaves them, path corrections included, and its shares. */
    method Step(dt: real, x: Forcing) returns (ghost t: Trail)
      requires Valid() && dt > 0.0
      requires forall j, i, k :: g.Active(j, i, k) ==>
        Coefficient(g, soil, x.ratios, Predicted(CellsNow(), x.prediction), j, i, k) != 0.0
      modifies this`bc, this`ratios, this`audit, this`dtg, this`dtgNext, cells, faces, ponds
      ensures dtg == dt && bc == x.bc && ratios == x.ratios && ctl.Admits(dtgNext)
      ensures audit.boundaryIn == BoundaryIn(g, CellsNow(), FacesNow(), dtg)
      ensures ratios.Unit() ==>
        Volume(g, CellsNow())
        == old(Volume(g, CellsNow())) + audit.boundaryIn + CrossIn(g, CellsNow(), dtg)
           - audit.ssStorage + audit.reallocAdjust - audit.vloss
      ensures audit.reallocDropped >= 0.0 && audit.vloss <= 0.0 && audit.cplVent >= 0.0 && audit.cplBounce >= 0.0
      ensures forall j, i, k :: g.Active(j, i, k) ==>
                soil.at(j, i, k).thetaR <= cells[j, i, k].wc <= soil.at(j, i, k).thetaS
      ensures SurfaceStore(g, PondsNow())
              == old(SurfaceStore(g, PondsNow())) + audit.cplExchanged + audit.cplBounce + audit.cplVent - audit.cplEvap
      ensures GainStore(g, PondsNow()) == old(GainStore(g, PondsNow())) + audit.cplBounce + audit.cplVent
      ensures !opt.coupled ==> audit.cplExchanged == audit.cplBounce == audit.cplVent == audit.cplEvap == 0.0
      ensures AllKeepFunding(g, old(PondsNow()), PondsNow(), opt.minDepth, SafeTops(bc))
      ensures Leads(E(), old(CellsNow()), old(PondsNow()), CellsNow(), FacesNow(), dtg, t)
      ensures forall j, i, k :: 0 <= j <= g.box.ny + 1 && 0 <= i <= g.box.nx + 1 && 0 <= k < g.box.nz ==>
        && t.fluxed(j, i, k).h == x.prediction.h(j, i, k)
        && (!g.box.Has(j, i, k) ==> t.fluxed(j, i, k).wc == x.start.wc(j, i, k))
      ensures audit.reallocAdjust == Sum3(g.box, Adjustments(t.outcomes)) - Sum3(g.box, t.drops)
      ensures audit.reallocDropped == Sum3(g.box, Discards(t.outcomes)) + Sum3(g.box, t.drops)
      ensures audit.vloss == Sum3(g.box, Lost(E(), t)) && audit.ssStorage == Sum3(g.box, Compressions(E(), t))
      ensures ratios.Unit() && opt.record ==> Settled(g, old(CellsNow()), CellsNow(), FacesNow(), dtg, Rest(E(), t))
      ensures Sum3(g.box, Rest(E(), t)) == audit.reallocAdjust - audit.vloss - audit.ssStorage
    {
      hide Volume, BoundaryIn, SurfaceStore, GainStore, AllKeepFunding, Coefficient, LargestChange, SmallestLimit,
        AgreedStep, Sum3,
           Corrected, Visited, Sent, Clamped, ColumnReady, Settled, LateralsSame, LossField, CompressedField, Leads,
             Lost,
           Compressions, SsStorage, Admissible, CrossIn, LateralsFilled, VerticalsFilled, Started, Faced;
      bc, ratios, dtg, audit := x.bc, x.ratios, dt, NO_AUDIT;
      ghost var c0 := CellsNow();
      var exchanged, bounced, evaporated, stored;
      ghost var c, faced, s0;
      s0 := PondsNow();
      exchanged, bounced, evaporated, stored, c, faced := Correct(x);
      ghost var s, m, f := PondsNow(), CellsNow(), FacesNow();
      var adjust, dropped, vented, lost, inflow;
      ghost var n, w, o, drops;
      adjust, dropped, vented, lost, inflow, n, w, o, drops := Place(x.mid, x.end);
      SameCrossing(g, m, CellsNow(), dtg);
      t := Trail(c, faced, f, m, n, w, o, drops);
      SettingOk();
      TrailBooks(E(), c0, s0, CellsNow(), FacesNow(), dtg, t);
      FundingWeaker(g, s, PondsNow(), opt.minDepth, AlwaysSafe(), SafeTops(bc));
      FundingTrans(g, old(PondsNow()), s, PondsNow(), opt.minDepth, SafeTops(bc));
      audit := Audit(inflow, stored, adjust, dropped, lost, exchanged, bounced, vented, evaporated);
      AdaptTimeStep(x.courant, x.peers);
      ghost var dq, co :| dtgNext == AgreedStep(ctl, dtg, Measures(dq, co), x.peers);
      AgreedIsLeast(ctl, dtg, Measures(dq, co), x.peers);
    }
  }
}
