/** One domain split over the ranks of a layout (src/core/Grid.cpp:23-70, src/gw/Corrector.cpp:117-385): with
    the parts of one state in its block and its halo, every rank computes the fluxes the undivided domain
    would, and the ranks are joined as the ledgers over all ranks need them. */
module DomainSplit {
  import opened Sums
  import opened Decomposition
  import opened FaceFlux
  import opened TopExchange
  import opened GroundwaterTerms
  import opened SendWalk
  import opened SweepLedger
  import opened Corrector
  import opened RankLedger
  import opened RankFluxes

  /** The setting of a rank: its part of the domain's, with the domain's activity beyond its block. */
  ghost function SplitSetting(l: Layout, nz: nat, e: Setting, pj: int, pi: int): Setting {
    var r0, c0, g, s, b, t := Row0(l, pj), Col0(l, pi), e.g, e.soil, e.bc, e.ratios;
    Setting(
      Geometry(Block(l, nz, pj, pi), g.dx, g.dy, g.az, (j, i) => g.ktop(r0 + j, c0 + i), Local3(l, g.dz, pj, pi),
               Local3(l, g.bottom, pj, pi), Local3(l, g.ax, pj, pi), Local3(l, g.ay, pj, pi),
               Local3(l, g.sinx, pj, pi), Local3(l, g.cosx, pj, pi), Local3(l, g.siny, pj, pi),
               Local3(l, g.cosy, pj, pi),
               Rim(pi == 0, pi == l.px - 1, pj == 0, pj == l.py - 1, Local3(l, ActiveMask(g), pj, pi))),
      Soil(s.pow, Local3(l, s.at, pj, pi), Local3(l, s.ksx, pj, pi), Local3(l, s.ksy, pj, pi),
           Local3(l, s.ksz, pj, pi), s.ss),
      e.opt,
      Boundary((j, i) => b.top(r0 + j, c0 + i), (j, i) => b.bottom(r0 + j, c0 + i), j => b.west(r0 + j),
               j => b.east(r0 + j), i => b.south(c0 + i), i => b.north(c0 + i)),
      Ratios(Local3(l, t.rho, pj, pi), Local3(l, t.rhoX, pj, pi), Local3(l, t.rhoY, pj, pi),
             Local3(l, t.rhoZ, pj, pi), Local3(l, t.viscX, pj, pi), Local3(l, t.viscY, pj, pi),
             Local3(l, t.viscZ, pj, pi)))
  }

  ghost function SplitView(l: Layout, nz: nat, e: Setting, c: Cells, pj: int, pi: int): View {
    View(SplitSetting(l, nz, e, pj, pi), Local3(l, c, pj, pi))
  }
  ghost function Split(l: Layout, nz: nat, e: Setting, c: Cells): (v: PerRank<View>)
    ensures forall pj, pi :: v(pj, pi) == SplitView(l, nz, e, c, pj, pi)
  {
    (pj, pi) => SplitView(l, nz, e, c, pj, pi)
  }

  /** The whole domain on one rank. */
  ghost predicate Undivided(l: Layout, nz: nat, e: Setting) {
    l.Ok() && e.Ok() && e.g.box == Domain(l, nz) && e.g.Whole()
  }

  /** Places of a rank in the domain. */
  lemma PlaceOf(l: Layout, pj: int, pi: int, j: int, i: int)
    requires l.Ok() && IsRank(l, pj, pi)
    ensures 1 <= j <= Rows(l, pj) ==> 1 <= Row0(l, pj) + j <= l.ny
    ensures 1 <= i <= Cols(l, pi) ==> 1 <= Col0(l, pi) + i <= l.nx
    ensures pj == 0 ==> Row0(l, pj) == 0
    ensures pi == 0 ==> Col0(l, pi) == 0
    ensures pj > 0 ==> Row0(l, pj) >= 1
    ensures pi > 0 ==> Col0(l, pi) >= 1
    ensures if pj == l.py - 1 then Row0(l, pj) + Rows(l, pj) == l.ny else Row0(l, pj) + Rows(l, pj) < l.ny
    ensures if pi == l.px - 1 then Col0(l, pi) + Cols(l, pi) == l.nx else Col0(l, pi) + Cols(l, pi) < l.nx
  {
    NoneEmpty(l, pj, pi);
    hide Rows, Cols, Row0, Col0;
    RowEnds(l, pj, 1);
    RowEnds(l, pj, Rows(l, pj));
    RankLedger.ColumnEnds(l, pi, 1);
    RankLedger.ColumnEnds(l, pi, Cols(l, pi));
    if 1 <= j <= Rows(l, pj) { RowEnds(l, pj, j); }
    if 1 <= i <= Cols(l, pi) { RankLedger.ColumnEnds(l, pi, i); }
  }

  lemma SplitOk(l: Layout, nz: nat, e: Setting, pj: int, pi: int)
    requires Undivided(l, nz, e) && IsRank(l, pj, pi)
    ensures SplitSetting(l, nz, e, pj, pi).Ok()
  {
    var g := SplitSetting(l, nz, e, pj, pi).g;
    hide Rows, Cols, Row0, Col0;
    forall j, i | g.box.Has2(j, i) ensures e.g.box.Has2(Row0(l, pj) + j, Col0(l, pi) + i) { PlaceOf(l, pj, pi, j, i); }
  }

  /** A rank's activity, wherever it looks, is the domain's. */
  lemma SplitLive(l: Layout, nz: nat, e: Setting, pj: int, pi: int, j: int, i: int, k: int)
    requires Undivided(l, nz, e) && IsRank(l, pj, pi)
    ensures SplitSetting(l, nz, e, pj, pi).g.Live(j, i, k) == e.g.Live(Row0(l, pj) + j, Col0(l, pi) + i, k)
    ensures SplitSetting(l, nz, e, pj, pi).g.InDomain(j, i) == e.g.InDomain(Row0(l, pj) + j, Col0(l, pi) + i)
            || j < 0 || j > Rows(l, pj) + 1 || i < 0 || i > Cols(l, pi) + 1
  {
    PlaceOf(l, pj, pi, j, i);
    hide Rows, Cols, Row0, Col0;
  }

  lemma SplitShared(l: Layout, nz: nat, e: Setting, c: Cells, pj: int, pi: int, j: int, i: int, k: int)
    requires Undivided(l, nz, e) && IsRank(l, pj, pi)
    ensures SharedAt(SplitView(l, nz, e, c, pj, pi), j, i, k)
            == SharedAt(View(e, c), Row0(l, pj) + j, Col0(l, pi) + i, k)
    ensures SlotX(SplitView(l, nz, e, c, pj, pi))(j, i, k)
            == SlotX(View(e, c))(Row0(l, pj) + j, Col0(l, pi) + i, k)
    ensures SlotY(SplitView(l, nz, e, c, pj, pi))(j, i, k)
            == SlotY(View(e, c))(Row0(l, pj) + j, Col0(l, pi) + i, k)
  {
    SplitLive(l, nz, e, pj, pi, j, i, k);
    hide Geometry.Live, Rows, Cols, Row0, Col0;
  }

  /** What all ranks hold as parts of one field. */
  ghost predicate PartsOf<T(!new)>(l: Layout, q: PerRank<(int, int, int) -> T>, h: (int, int, int) -> T) {
    forall pj, pi, j, i, k {:trigger q(pj, pi)(j, i, k)} :: IsRank(l, pj, pi) ==>
      q(pj, pi)(j, i, k) == h(Row0(l, pj) + j, Col0(l, pi) + i, k)
  }

  lemma PartAt<T(!new)>(l: Layout, q: PerRank<(int, int, int) -> T>, h: (int, int, int) -> T, pj: int, pi: int,
                        j: int, i: int, k: int)
    requires PartsOf(l, q, h) && IsRank(l, pj, pi)
    ensures q(pj, pi)(j, i, k) == h(Row0(l, pj) + j, Col0(l, pi) + i, k)
  {
    hide IsRank, Row0, Col0;
  }

  lemma MeetAcrossX<T(!new)>(l: Layout, q: PerRank<(int, int, int) -> T>, h: (int, int, int) -> T,
                             pj: int, pi: int, j: int, k: int)
    requires l.Ok() && PartsOf(l, q, h) && IsRank(l, pj, pi) && pi > 0
    ensures q(pj, pi)(j, 0, k) == q(pj, pi - 1)(j, Cols(l, pi - 1), k)
    ensures q(pj, pi - 1)(j, Cols(l, pi - 1) + 1, k) == q(pj, pi)(j, 1, k)
  {
    hide *;
    RankBefore(l, pj, pi);
    RankRange(l, pj, pi);
    NextCol(l, pi - 1);
    PartAt(l, q, h, pj, pi, j, 0, k);
    PartAt(l, q, h, pj, pi, j, 1, k);
    PartAt(l, q, h, pj, pi - 1, j, Cols(l, pi - 1), k);
    PartAt(l, q, h, pj, pi - 1, j, Cols(l, pi - 1) + 1, k);
  }

  lemma MeetAcrossY<T(!new)>(l: Layout, q: PerRank<(int, int, int) -> T>, h: (int, int, int) -> T,
                             pj: int, pi: int, i: int, k: int)
    requires l.Ok() && PartsOf(l, q, h) && IsRank(l, pj, pi) && pj > 0
    ensures q(pj, pi)(0, i, k) == q(pj - 1, pi)(Rows(l, pj - 1), i, k)
    ensures q(pj - 1, pi)(Rows(l, pj - 1) + 1, i, k) == q(pj, pi)(1, i, k)
  {
    hide *;
    RankBefore(l, pj, pi);
    RankRange(l, pj, pi);
    NextRow(l, pj - 1);
    PartAt(l, q, h, pj, pi, 0, i, k);
    PartAt(l, q, h, pj, pi, 1, i, k);
    PartAt(l, q, h, pj - 1, pi, Rows(l, pj - 1), i, k);
    PartAt(l, q, h, pj - 1, pi, Rows(l, pj - 1) + 1, i, k);
  }

  /** Parts of one field meet in the ranks' halos. */
  lemma PartsMeet<T(!new)>(l: Layout, nz: nat, q: PerRank<(int, int, int) -> T>, h: (int, int, int) -> T)
    requires l.Ok() && PartsOf(l, q, h)
    ensures HalosMeet(l, nz, q)
  {
    hide PartsOf, Rows, Cols, Layout.Ok;
    forall pj, pi, j, k ensures WestMeets(l, nz, q, pj, pi, j, k) {
      if IsRank(l, pj, pi) && pi > 0 { MeetAcrossX(l, q, h, pj, pi, j, k); }
    }
    forall pj, pi, j, k ensures EastMeets(l, nz, q, pj, pi, j, k) {
      if IsRank(l, pj, pi) && pi + 1 < l.px { MeetAcrossX(l, q, h, pj, pi + 1, j, k); }
    }
    forall pj, pi, i, k ensures SouthMeets(l, nz, q, pj, pi, i, k) {
      if IsRank(l, pj, pi) && pj > 0 { MeetAcrossY(l, q, h, pj, pi, i, k); }
    }
    forall pj, pi, i, k ensures NorthMeets(l, nz, q, pj, pi, i, k) {
      if IsRank(l, pj, pi) && pj + 1 < l.py { MeetAcrossY(l, q, h, pj + 1, pi, i, k); }
    }
  }

  lemma SplitFits(l: Layout, nz: nat, e: Setting, c: Cells, pj: int, pi: int)
    requires Undivided(l, nz, e) && IsRank(l, pj, pi)
    ensures FitsRank(l, nz, SplitView(l, nz, e, c, pj, pi), pj, pi)
    ensures Alike(SplitView(l, nz, e, c, pj, pi).e, e)
  {
    SplitOk(l, nz, e, pj, pi);
    hide Setting.Ok, Rows, Cols, Row0, Col0;
  }

  lemma SplitParts(l: Layout, nz: nat, e: Setting, c: Cells)
    requires Undivided(l, nz, e)
    ensures PartsOf(l, Shareds(Split(l, nz, e, c)), SharedOf(View(e, c)))
    ensures PartsOf(l, SlotsX(Split(l, nz, e, c)), SlotX(View(e, c)))
    ensures PartsOf(l, SlotsY(Split(l, nz, e, c)), SlotY(View(e, c)))
  {
    var v, g := Split(l, nz, e, c), View(e, c);
    hide SharedAt, SlotX, SlotY, SplitSetting, SplitView, Rows, Cols, Row0, Col0, Undivided;
    forall pj, pi, j, i, k | IsRank(l, pj, pi)
      ensures Shareds(v)(pj, pi)(j, i, k) == SharedOf(g)(Row0(l, pj) + j, Col0(l, pi) + i, k)
      ensures SlotsX(v)(pj, pi)(j, i, k) == SlotX(g)(Row0(l, pj) + j, Col0(l, pi) + i, k)
      ensures SlotsY(v)(pj, pi)(j, i, k) == SlotY(g)(Row0(l, pj) + j, Col0(l, pi) + i, k)
    {
      SplitShared(l, nz, e, c, pj, pi, j, i, k);
    }
  }

  /** Main result: the parts of any state of any domain are joined, whatever its activity. */
  lemma SplitJoined(l: Layout, nz: nat, e: Setting, c: Cells)
    requires Undivided(l, nz, e)
    ensures Joined(l, nz, Split(l, nz, e, c))
  {
    var v, g := Split(l, nz, e, c), View(e, c);
    SplitParts(l, nz, e, c);
    PartsMeet(l, nz, Shareds(v), SharedOf(g));
    PartsMeet(l, nz, SlotsX(v), SlotX(g));
    PartsMeet(l, nz, SlotsY(v), SlotY(g));
    hide PartsOf, Shareds, SlotsX, SlotsY, ColumnsMeet, RowsMeet, FarColumnsMeet, FarRowsMeet, FitsRank, SplitView,
      Setting.Ok;
    assert IsRank(l, 0, 0);
    forall pj, pi | IsRank(l, pj, pi) ensures FitsRank(l, nz, v(pj, pi), pj, pi) && Alike(v(pj, pi).e, v(0, 0).e) {
      SplitFits(l, nz, e, c, pj, pi);
      SplitFits(l, nz, e, c, 0, 0);
    }
  }

  // ----- every rank computes the domain's fluxes

  lemma SplitViewIs(l: Layout, nz: nat, e: Setting, c: Cells, pj: int, pi: int)
    ensures SplitView(l, nz, e, c, pj, pi).e == SplitSetting(l, nz, e, pj, pi)
  {
    hide SplitSetting;
  }

  lemma SplitFaceX(l: Layout, nz: nat, e: Setting, pj: int, pi: int, j: int, i: int, k: int)
    requires Undivided(l, nz, e) && IsRank(l, pj, pi) && 1 <= j <= Rows(l, pj) && 0 <= i <= Cols(l, pi)
    ensures SameFace(FaceX(e, Row0(l, pj) + j, Col0(l, pi) + i, k), FaceX(SplitSetting(l, nz, e, pj, pi), j, i, k))
  {
    PlaceOf(l, pj, pi, j, i);
    NoneEmpty(l, pj, pi);
    hide Rows, Cols, Row0, Col0, Setting.Ok;
  }

  lemma SplitXFlux(l: Layout, nz: nat, e: Setting, c: Cells, pj: int, pi: int, j: int, i: int, k: int)
    requires Undivided(l, nz, e) && e.Ok() && IsRank(l, pj, pi) && 1 <= j <= Rows(l, pj) && 0 <= i <= Cols(l, pi)
    ensures var v := SplitView(l, nz, e, c, pj, pi);
      v.e.Ok() && XFlux(v.e, v.c, j, i, k) == XFlux(e, c, Row0(l, pj) + j, Col0(l, pi) + i, k)
  {
    hide *;
    var v := SplitView(l, nz, e, c, pj, pi);
    SplitViewIs(l, nz, e, c, pj, pi);
    SplitOk(l, nz, e, pj, pi);
    SplitFits(l, nz, e, c, pj, pi);
    SplitShared(l, nz, e, c, pj, pi, j, i, k);
    SplitShared(l, nz, e, c, pj, pi, j, i + 1, k);
    SplitLive(l, nz, e, pj, pi, j, i, k);
    SplitLive(l, nz, e, pj, pi, j, i + 1, k);
    SplitFaceX(l, nz, e, pj, pi, j, i, k);
    SameXFlux(v, View(e, c), j, i, k, Row0(l, pj) + j, Col0(l, pi) + i);
  }

  lemma SplitFaceY(l: Layout, nz: nat, e: Setting, pj: int, pi: int, j: int, i: int, k: int)
    requires Undivided(l, nz, e) && IsRank(l, pj, pi) && 0 <= j <= Rows(l, pj) && 1 <= i <= Cols(l, pi)
    ensures SameFace(FaceY(e, Row0(l, pj) + j, Col0(l, pi) + i, k), FaceY(SplitSetting(l, nz, e, pj, pi), j, i, k))
  {
    PlaceOf(l, pj, pi, j, i);
    NoneEmpty(l, pj, pi);
    hide Rows, Cols, Row0, Col0, Setting.Ok;
  }

  lemma SplitYFlux(l: Layout, nz: nat, e: Setting, c: Cells, pj: int, pi: int, j: int, i: int, k: int)
    requires Undivided(l, nz, e) && e.Ok() && IsRank(l, pj, pi) && 0 <= j <= Rows(l, pj) && 1 <= i <= Cols(l, pi)
    ensures var v := SplitView(l, nz, e, c, pj, pi);
      v.e.Ok() && YFlux(v.e, v.c, j, i, k) == YFlux(e, c, Row0(l, pj) + j, Col0(l, pi) + i, k)
  {
    hide *;
    var v := SplitView(l, nz, e, c, pj, pi);
    SplitViewIs(l, nz, e, c, pj, pi);
    SplitOk(l, nz, e, pj, pi);
    SplitFits(l, nz, e, c, pj, pi);
    SplitShared(l, nz, e, c, pj, pi, j, i, k);
    SplitShared(l, nz, e, c, pj, pi, j + 1, i, k);
    SplitLive(l, nz, e, pj, pi, j, i, k);
    SplitLive(l, nz, e, pj, pi, j + 1, i, k);
    SplitFaceY(l, nz, e, pj, pi, j, i, k);
    SameYFlux(v, View(e, c), j, i, k, Row0(l, pj) + j, Col0(l, pi) + i);
  }

  lemma SplitTop(l: Layout, nz: nat, e: Setting, c: Cells, pj: int, pi: int, j: int, i: int, pond: Pond)
    requires Undivided(l, nz, e) && e.Ok() && IsRank(l, pj, pi) && 1 <= j <= Rows(l, pj) && 1 <= i <= Cols(l, pi)
    requires SplitSetting(l, nz, e, pj, pi).Ok()
    ensures var v, gj, gi := SplitView(l, nz, e, c, pj, pi), Row0(l, pj) + j, Col0(l, pi) + i;
      && v.e.g.ktop(j, i) == e.g.ktop(gj, gi) && (HasTop(v.e.g, j, i) <==> HasTop(e.g, gj, gi))
      && (HasTop(e.g, gj, gi) ==> TopCellOf(v.e, v.c, j, i, pond) == TopCellOf(e, c, gj, gi, pond))
  {
    PlaceOf(l, pj, pi, j, i);
    hide Rows, Cols, Row0, Col0, Setting.Ok;
  }

  lemma SplitColumn(l: Layout, nz: nat, e: Setting, c: Cells, pj: int, pi: int, j: int, i: int, k: int)
    requires Undivided(l, nz, e) && IsRank(l, pj, pi) && 1 <= j <= Rows(l, pj) && 1 <= i <= Cols(l, pi)
    ensures var v, gj, gi := SplitView(l, nz, e, c, pj, pi), Row0(l, pj) + j, Col0(l, pi) + i;
      && LayerAt(v.e, v.c, j, i, k) == LayerAt(e, c, gj, gi, k) && v.e.g.Active(j, i, k) == e.g.Active(gj, gi, k)
      && v.e.g.box.Has2(j, i) && e.g.box.Has2(gj, gi) && v.e.g.box.nz == e.g.box.nz == nz
  {
    PlaceOf(l, pj, pi, j, i);
    hide Rows, Cols, Row0, Col0, Setting.Ok;
  }

  /** What a vertical face reads besides its layers. */
  lemma SplitFaceZ(l: Layout, nz: nat, e: Setting, pj: int, pi: int, j: int, i: int, k: int)
    ensures var v, gj, gi := SplitSetting(l, nz, e, pj, pi), Row0(l, pj) + j, Col0(l, pi) + i;
      && v.ratios.viscZ(j, i, k) == e.ratios.viscZ(gj, gi, k) && v.ratios.rhoZ(j, i, k) == e.ratios.rhoZ(gj, gi, k)
      && v.bc.top(j, i) == e.bc.top(gj, gi) && v.bc.bottom(j, i) == e.bc.bottom(gj, gi)
      && v.g.az == e.g.az && v.soil.pow == e.soil.pow && v.opt == e.opt
  {
    hide Row0, Col0;
  }

  /** Vertical faces with the same readings. */
  ghost predicate SameReadings(v: View, w: View, pond: Pond, j: int, i: int, k: int, j': int, i': int)
    requires v.e.Ok() && w.e.Ok()
  {
    && v.e.ratios.viscZ(j, i, k) == w.e.ratios.viscZ(j', i', k)
      && v.e.ratios.rhoZ(j, i, k) == w.e.ratios.rhoZ(j', i', k)
    && v.e.bc.top(j, i) == w.e.bc.top(j', i') && v.e.bc.bottom(j, i) == w.e.bc.bottom(j', i')
    && v.e.g.az == w.e.g.az && v.e.soil.pow == w.e.soil.pow && v.e.opt == w.e.opt && v.e.g.box.nz == w.e.g.box.nz
    && LayerAt(v.e, v.c, j, i, k) == LayerAt(w.e, w.c, j', i', k)
    && LayerAt(v.e, v.c, j, i, k - 1) == LayerAt(w.e, w.c, j', i', k - 1)
    && v.e.g.Active(j, i, k) == w.e.g.Active(j', i', k) && v.e.g.Active(j, i, k - 1) == w.e.g.Active(j', i', k - 1)
    && (HasTop(v.e.g, j, i) <==> HasTop(w.e.g, j', i'))
    && (HasTop(v.e.g, j, i) ==> TopCellOf(v.e, v.c, j, i, pond) == TopCellOf(w.e, w.c, j', i', pond))
  }

  lemma SameZFlux(v: View, w: View, pond: Pond, dtg: real, j: int, i: int, k: int, j': int, i': int)
    requires v.e.Ok() && w.e.Ok() && dtg > 0.0 && SameReadings(v, w, pond, j, i, k, j', i')
    requires v.e.g.box.Has2(j, i) && w.e.g.box.Has2(j', i') && 0 <= k <= v.e.g.box.nz
    ensures ZFlux(v.e, v.c, pond, dtg, j, i, k) == ZFlux(w.e, w.c, pond, dtg, j', i', k)
  {
    hide TopCellOf, LayerAt, TopFlux, UncoupledTopFlux, BottomFlux, VerticalFlux;
  }

  lemma SplitReadings(l: Layout, nz: nat, e: Setting, c: Cells, pj: int, pi: int, j: int, i: int, k: int, pond: Pond)
    requires Undivided(l, nz, e) && IsRank(l, pj, pi) && 1 <= j <= Rows(l, pj) && 1 <= i <= Cols(l, pi) && e.Ok()
    requires SplitView(l, nz, e, c, pj, pi).e.Ok()
    ensures SameReadings(SplitView(l, nz, e, c, pj, pi), View(e, c), pond, j, i, k, Row0(l, pj) + j, Col0(l, pi) + i)
  {
    hide Rows, Cols, Row0, Col0, Setting.Ok, TopCellOf, LayerAt, Geometry.Active, HasTop, Undivided, SplitSetting;
    SplitTop(l, nz, e, c, pj, pi, j, i, pond);
    SplitColumn(l, nz, e, c, pj, pi, j, i, k);
    SplitColumn(l, nz, e, c, pj, pi, j, i, k - 1);
    SplitFaceZ(l, nz, e, pj, pi, j, i, k);
  }

  lemma SplitZFlux(l: Layout, nz: nat, e: Setting, c: Cells, pj: int, pi: int, j: int, i: int, k: int, pond: Pond,
                   dtg: real)
    requires Undivided(l, nz, e) && IsRank(l, pj, pi) && 0 <= k <= nz && dtg > 0.0
    requires 1 <= j <= Rows(l, pj) && 1 <= i <= Cols(l, pi)
    requires var v := SplitView(l, nz, e, c, pj, pi).e; e.Ok() && v.Ok() && v.g.box.Has2(j, i) && v.g.box.nz == nz
    requires e.g.box.Has2(Row0(l, pj) + j, Col0(l, pi) + i) && e.g.box.nz == nz
    ensures var v := SplitView(l, nz, e, c, pj, pi);
      ZFlux(v.e, v.c, pond, dtg, j, i, k) == ZFlux(e, c, pond, dtg, Row0(l, pj) + j, Col0(l, pi) + i, k)
  {
    hide *;
    SplitReadings(l, nz, e, c, pj, pi, j, i, k, pond);
    SameZFlux(SplitView(l, nz, e, c, pj, pi), View(e, c), pond, dtg, j, i, k, Row0(l, pj) + j, Col0(l, pi) + i);
  }

  /** Faces of a rank's block and of the domain. */
  lemma SplitFaceAt(l: Layout, nz: nat, e: Setting, pj: int, pi: int, j: int, i: int, k: int)
    requires Undivided(l, nz, e) && IsRank(l, pj, pi)
    ensures var g, gj, gi := SplitSetting(l, nz, e, pj, pi).g, Row0(l, pj) + j, Col0(l, pi) + i;
      && (IsFaceX(g, j, i, k) ==> 1 <= j <= Rows(l, pj) && 0 <= i <= Cols(l, pi) && IsFaceX(e.g, gj, gi, k))
      && (IsFaceY(g, j, i, k) ==> 0 <= j <= Rows(l, pj) && 1 <= i <= Cols(l, pi) && IsFaceY(e.g, gj, gi, k))
      && (g.box.Has2(j, i) ==> 1 <= j <= Rows(l, pj) && 1 <= i <= Cols(l, pi) && e.g.box.Has2(gj, gi))
      && g.box.nz == e.g.box.nz == nz
  {
    PlaceOf(l, pj, pi, j, i);
    hide Rows, Cols, Row0, Col0, Setting.Ok;
  }

  /** Main result: a rank's flux kernels, run on its part of a state, leave on every face of its block what
      they leave there when one rank holds the whole domain. */
  lemma RankFollowsDomain(l: Layout, nz: nat, e: Setting, c: Cells, s: Ponds, w: Cells, f: Faces, w': Cells,
                          f': Faces, dtg: real, pj: int, pi: int)
    requires Undivided(l, nz, e) && e.Ok() && IsRank(l, pj, pi) && dtg > 0.0
    requires LateralsFilled(e, c, w) && VerticalsFilled(e, c, s, f, dtg)
    requires var v := SplitView(l, nz, e, c, pj, pi);
      v.e.Ok() && LateralsFilled(v.e, v.c, w') && VerticalsFilled(v.e, v.c, Local2(l, s, pj, pi), f', dtg)
    ensures var g, r0, c0 := SplitSetting(l, nz, e, pj, pi).g, Row0(l, pj), Col0(l, pi);
      && (forall j, i, k :: IsFaceX(g, j, i, k) ==> w'(j, i, k).qx == w(r0 + j, c0 + i, k).qx)
      && (forall j, i, k :: IsFaceY(g, j, i, k) ==> w'(j, i, k).qy == w(r0 + j, c0 + i, k).qy)
      && (forall j, i, k :: g.box.Has2(j, i) && 0 <= k <= nz ==> f'(j, i, k).q == f(r0 + j, c0 + i, k).q)
  {
    hide *;
    SplitViewIs(l, nz, e, c, pj, pi);
    var v := SplitView(l, nz, e, c, pj, pi);
    forall j, i, k | IsFaceX(v.e.g, j, i, k) ensures w'(j, i, k).qx == w(Row0(l, pj) + j, Col0(l, pi) + i, k).qx {
      SplitFaceAt(l, nz, e, pj, pi, j, i, k);
      SplitXFlux(l, nz, e, c, pj, pi, j, i, k);
      FilledX(v.e, v.c, w', j, i, k);
      FilledX(e, c, w, Row0(l, pj) + j, Col0(l, pi) + i, k);
    }
    forall j, i, k | IsFaceY(v.e.g, j, i, k) ensures w'(j, i, k).qy == w(Row0(l, pj) + j, Col0(l, pi) + i, k).qy {
      SplitFaceAt(l, nz, e, pj, pi, j, i, k);
      SplitYFlux(l, nz, e, c, pj, pi, j, i, k);
      FilledY(v.e, v.c, w', j, i, k);
      FilledY(e, c, w, Row0(l, pj) + j, Col0(l, pi) + i, k);
    }
    forall j, i, k | v.e.g.box.Has2(j, i) && 0 <= k <= nz
      ensures f'(j, i, k).q == f(Row0(l, pj) + j, Col0(l, pi) + i, k).q
    {
      SplitFaceAt(l, nz, e, pj, pi, j, i, k);
      SplitZFlux(l, nz, e, c, pj, pi, j, i, k, s(Row0(l, pj) + j, Col0(l, pi) + i), dtg);
      FilledZ(v.e, v.c, Local2(l, s, pj, pi), f', dtg, j, i, k);
      FilledZ(e, c, s, f, dtg, Row0(l, pj) + j, Col0(l, pi) + i, k);
    }
  }

  lemma FilledZ(e: Setting, c: Cells, s: Ponds, f: Faces, dtg: real, j: int, i: int, k: int)
    requires e.Ok() && dtg > 0.0 && VerticalsFilled(e, c, s, f, dtg) && e.g.box.Has2(j, i) && 0 <= k <= e.g.box.nz
    ensures f(j, i, k).q == ZFlux(e, c, s(j, i), dtg, j, i, k)
  {
    hide ZFlux;
  }
}
