/** The flux kernels on all ranks of a layout (src/gw/Corrector.cpp:117-283, src/gw/RichardsSolver.cpp:
    253-267, 681-697, 866-901): ranks whose halos hold their neighbours' values compute one flux on a face
    they share, so what crosses between them cancels and their audits add up to the domain's. */
module RankFluxes {
  import opened Sums
  import opened Telescoping
  import opened Decomposition
  import opened Retention
  import opened FaceFlux
  import opened GroundwaterTerms
  import opened SendWalk
  import opened SweepLedger
  import opened Corrector
  import opened CellLedger
  import opened RankLedger
  import R = Richards

  // ----- what the ranks hold of each other

  /** A rank when its flux kernels run. */
  datatype View = View(e: Setting, c: Cells)

  /** What a halo holds of a neighbour's cell: head and moisture, exchanged before the fluxes; soil,
      conductivities, layer bottom and activity, exchanged once. */
  datatype Shared = Shared(h: real, wc: real, soil: VgSoil, ksx: real, ksy: real, bottom: real, live: bool)

  /** What a lateral face has of its own. */
  datatype Slot = Slot(area: real, sine: real, cosine: real, visc: real)

  ghost function SharedOf(v: View): (r: (int, int, int) -> Shared)
    ensures forall j, i, k :: r(j, i, k) == SharedAt(v, j, i, k)
  {
    (j, i, k) => SharedAt(v, j, i, k)
  }
  ghost function SharedAt(v: View, j: int, i: int, k: int): Shared {
    Shared(v.c(j, i, k).h, v.c(j, i, k).wc, v.e.soil.at(j, i, k), v.e.soil.ksx(j, i, k), v.e.soil.ksy(j, i, k),
           v.e.g.bottom(j, i, k), v.e.g.Live(j, i, k))
  }
  ghost function SlotX(v: View): (r: (int, int, int) -> Slot)
    ensures forall j, i, k ::
      r(j, i, k)
      == Slot(v.e.g.ax(j, i, k), v.e.g.sinx(j, i, k), v.e.g.cosx(j, i, k), v.e.ratios.viscX(j, i, k))
  {
    (j, i, k) => Slot(v.e.g.ax(j, i, k), v.e.g.sinx(j, i, k), v.e.g.cosx(j, i, k), v.e.ratios.viscX(j, i, k))
  }
  ghost function SlotY(v: View): (r: (int, int, int) -> Slot)
    ensures forall j, i, k ::
      r(j, i, k)
      == Slot(v.e.g.ay(j, i, k), v.e.g.siny(j, i, k), v.e.g.cosy(j, i, k), v.e.ratios.viscY(j, i, k))
  {
    (j, i, k) => Slot(v.e.g.ay(j, i, k), v.e.g.siny(j, i, k), v.e.g.cosy(j, i, k), v.e.ratios.viscY(j, i, k))
  }

  ghost function Shareds(v: PerRank<View>): PerRank<(int, int, int) -> Shared> { (pj, pi) => SharedOf(v(pj, pi)) }
  ghost function SlotsX(v: PerRank<View>): PerRank<(int, int, int) -> Slot> { (pj, pi) => SlotX(v(pj, pi)) }
  ghost function SlotsY(v: PerRank<View>): PerRank<(int, int, int) -> Slot> { (pj, pi) => SlotY(v(pj, pi)) }

  /** A rank's view has its block of the layout, and its rim the layout's edges. */
  ghost predicate FitsRank(l: Layout, nz: nat, v: View, pj: int, pi: int) {
    && v.e.Ok() && v.e.g.box == Block(l, nz, pj, pi)
    && v.e.g.rim.west == (pi == 0) && v.e.g.rim.east == (pi == l.px - 1)
    && v.e.g.rim.south == (pj == 0) && v.e.g.rim.north == (pj == l.py - 1)
  }

  /** Settings of one run: spacings, retention powers and the fullness of the lateral fluxes. */
  ghost predicate Alike(a: Setting, b: Setting) {
    a.g.dx == b.g.dx && a.g.dy == b.g.dy && a.soil.pow == b.soil.pow && a.opt.full3d == b.opt.full3d
  }

  ghost predicate HalosMeet<T(!new)>(l: Layout, nz: nat, q: PerRank<(int, int, int) -> T>) {
    ColumnsMeet(l, nz, q) && RowsMeet(l, nz, q) && FarColumnsMeet(l, nz, q) && FarRowsMeet(l, nz, q)
  }

  /** The ranks of one run with their halos exchanged. */
  ghost predicate Joined(l: Layout, nz: nat, v: PerRank<View>) {
    && l.Ok()
    && (forall pj, pi :: IsRank(l, pj, pi) ==> FitsRank(l, nz, v(pj, pi), pj, pi) && Alike(v(pj, pi).e, v(0, 0).e))
    && HalosMeet(l, nz, Shareds(v)) && ColumnsMeet(l, nz, SlotsX(v)) && RowsMeet(l, nz, SlotsY(v))
  }

  // ----- one flux on a shared face

  /** Faces alike but for the edge condition of those on no edge. */
  ghost predicate SameFace(f: Lateral, f': Lateral) {
    f' == f.(code := f'.code, value := f'.value) && (f.lowEdge || f.highEdge ==> f' == f)
  }

  /** A lateral face off the domain's edges reads no edge condition. */
  lemma SameFaceFlux(pow: Power, full3d: bool, f: Lateral, f': Lateral, minus: Flank, plus: Flank)
    requires SoilOk(minus.soil) && SoilOk(plus.soil) && f.spacing > 0.0 && SameFace(f, f')
    ensures LateralFlux(pow, full3d, f', minus, plus) == LateralFlux(pow, full3d, f, minus, plus)
  {
    assert LateralConductivity(pow, f', minus, plus) == LateralConductivity(pow, f, minus, plus);
    hide LateralConductivity;
  }

  /** Cells that two ranks share are one flank to both. */
  lemma SameFlank(v: View, w: View, j: int, i: int, k: int, j': int, i': int)
    requires SharedAt(v, j, i, k) == SharedAt(w, j', i', k) && v.e.g.InDomain(j, i) == w.e.g.InDomain(j', i')
    ensures FlankAt(v.e, v.c, v.e.soil.ksx, j, i, k) == FlankAt(w.e, w.c, w.e.soil.ksx, j', i', k)
    ensures FlankAt(v.e, v.c, v.e.soil.ksy, j, i, k) == FlankAt(w.e, w.c, w.e.soil.ksy, j', i', k)
  {
    hide Geometry.Live, Geometry.InDomain;
  }

  lemma SameXFlux(v: View, w: View, j: int, i: int, k: int, j': int, i': int)
    requires v.e.Ok() && w.e.Ok() && Alike(v.e, w.e) && SameFace(FaceX(w.e, j', i', k), FaceX(v.e, j, i, k))
    requires SharedAt(v, j, i, k) == SharedAt(w, j', i', k) && v.e.g.InDomain(j, i) == w.e.g.InDomain(j', i')
    requires SharedAt(v, j, i + 1, k) == SharedAt(w, j', i' + 1, k)
             && v.e.g.InDomain(j, i + 1) == w.e.g.InDomain(j', i' + 1)
    ensures XFlux(v.e, v.c, j, i, k) == XFlux(w.e, w.c, j', i', k)
  {
    SameFlank(v, w, j, i, k, j', i');
    SameFlank(v, w, j, i + 1, k, j', i' + 1);
    hide FlankAt, LateralFlux, Geometry.InDomain, Geometry.Live, SharedAt, SameFace;
    SameFaceFlux(w.e.soil.pow, w.e.opt.full3d, FaceX(w.e, j', i', k), FaceX(v.e, j, i, k),
                 FlankAt(w.e, w.c, w.e.soil.ksx, j', i', k), FlankAt(w.e, w.c, w.e.soil.ksx, j', i' + 1, k));
  }

  lemma SameYFlux(v: View, w: View, j: int, i: int, k: int, j': int, i': int)
    requires v.e.Ok() && w.e.Ok() && Alike(v.e, w.e) && SameFace(FaceY(w.e, j', i', k), FaceY(v.e, j, i, k))
    requires SharedAt(v, j, i, k) == SharedAt(w, j', i', k) && v.e.g.InDomain(j, i) == w.e.g.InDomain(j', i')
    requires SharedAt(v, j + 1, i, k) == SharedAt(w, j' + 1, i', k)
             && v.e.g.InDomain(j + 1, i) == w.e.g.InDomain(j' + 1, i')
    ensures YFlux(v.e, v.c, j, i, k) == YFlux(w.e, w.c, j', i', k)
  {
    SameFlank(v, w, j, i, k, j', i');
    SameFlank(v, w, j + 1, i, k, j' + 1, i');
    hide FlankAt, LateralFlux, Geometry.InDomain, Geometry.Live, SharedAt, SameFace;
    SameFaceFlux(w.e.soil.pow, w.e.opt.full3d, FaceY(w.e, j', i', k), FaceY(v.e, j, i, k),
                 FlankAt(w.e, w.c, w.e.soil.ksy, j', i', k), FlankAt(w.e, w.c, w.e.soil.ksy, j' + 1, i', k));
  }

  lemma FitsAt(l: Layout, nz: nat, v: PerRank<View>, pj: int, pi: int)
    requires Joined(l, nz, v) && IsRank(l, pj, pi)
    ensures FitsRank(l, nz, v(pj, pi), pj, pi) && Rows(l, pj) >= 1 && Cols(l, pi) >= 1
    ensures Alike(v(pj, pi).e, v(0, 0).e)
  {
    NoneEmpty(l, pj, pi);
  }

  /** The two sides of a face between ranks in a row, and of one between ranks in a column. */
  ghost predicate SidesX(v: View, w: View, j: int, n: int, k: int) {
    && SlotX(v)(j, 0, k) == SlotX(w)(j, n, k)
    && SharedAt(v, j, 0, k) == SharedAt(w, j, n, k) && SharedAt(v, j, 1, k) == SharedAt(w, j, n + 1, k)
    && v.e.g.InDomain(j, 0) && w.e.g.InDomain(j, n) && v.e.g.InDomain(j, 1) && w.e.g.InDomain(j, n + 1)
    && !v.e.g.rim.west && v.e.g.box.nx > 0 && n > 0 && !w.e.g.rim.east
  }
  ghost predicate SidesY(v: View, w: View, i: int, n: int, k: int) {
    && SlotY(v)(0, i, k) == SlotY(w)(n, i, k)
    && SharedAt(v, 0, i, k) == SharedAt(w, n, i, k) && SharedAt(v, 1, i, k) == SharedAt(w, n + 1, i, k)
    && v.e.g.InDomain(0, i) && w.e.g.InDomain(n, i) && v.e.g.InDomain(1, i) && w.e.g.InDomain(n + 1, i)
    && !v.e.g.rim.south && v.e.g.box.ny > 0 && n > 0 && !w.e.g.rim.north
  }

  lemma HaloX(l: Layout, nz: nat, v: PerRank<View>, pj: int, pi: int, j: int, k: int)
    requires Joined(l, nz, v) && IsRank(l, pj, pi) && pi > 0 && 1 <= j <= Rows(l, pj) && 0 <= k < nz
    ensures var a, b, n := v(pj, pi), v(pj, pi - 1), Cols(l, pi - 1);
      && SlotX(a)(j, 0, k) == SlotX(b)(j, n, k)
      && SharedAt(a, j, 0, k) == SharedAt(b, j, n, k) && SharedAt(a, j, 1, k) == SharedAt(b, j, n + 1, k)
  {
    hide SharedAt, Rows, Cols, FitsRank, Alike, SlotX, SharedOf, Layout.Ok;
    assert WestMeets(l, nz, Shareds(v), pj, pi, j, k) && EastMeets(l, nz, Shareds(v), pj, pi - 1, j, k);
    assert WestMeets(l, nz, SlotsX(v), pj, pi, j, k);
  }

  lemma HaloY(l: Layout, nz: nat, v: PerRank<View>, pj: int, pi: int, i: int, k: int)
    requires Joined(l, nz, v) && IsRank(l, pj, pi) && pj > 0 && 1 <= i <= Cols(l, pi) && 0 <= k < nz
    ensures var a, b, n := v(pj, pi), v(pj - 1, pi), Rows(l, pj - 1);
      && SlotY(a)(0, i, k) == SlotY(b)(n, i, k)
      && SharedAt(a, 0, i, k) == SharedAt(b, n, i, k) && SharedAt(a, 1, i, k) == SharedAt(b, n + 1, i, k)
  {
    hide SharedAt, Rows, Cols, FitsRank, Alike, SlotY, SharedOf, Layout.Ok;
    assert SouthMeets(l, nz, Shareds(v), pj, pi, i, k) && NorthMeets(l, nz, Shareds(v), pj - 1, pi, i, k);
    assert SouthMeets(l, nz, SlotsY(v), pj, pi, i, k);
  }

  lemma MeetX(l: Layout, nz: nat, v: PerRank<View>, pj: int, pi: int, j: int, k: int)
    requires Joined(l, nz, v) && IsRank(l, pj, pi) && pi > 0 && 1 <= j <= Rows(l, pj) && 0 <= k < nz
    ensures SidesX(v(pj, pi), v(pj, pi - 1), j, Cols(l, pi - 1), k)
    ensures Alike(v(pj, pi).e, v(pj, pi - 1).e) && v(pj, pi).e.Ok() && v(pj, pi - 1).e.Ok()
  {
    FitsAt(l, nz, v, pj, pi);
    FitsAt(l, nz, v, pj, pi - 1);
    HaloX(l, nz, v, pj, pi, j, k);
    hide SharedAt, SlotX, Rows, Cols, Setting.Ok, Joined;
  }

  lemma MeetY(l: Layout, nz: nat, v: PerRank<View>, pj: int, pi: int, i: int, k: int)
    requires Joined(l, nz, v) && IsRank(l, pj, pi) && pj > 0 && 1 <= i <= Cols(l, pi) && 0 <= k < nz
    ensures SidesY(v(pj, pi), v(pj - 1, pi), i, Rows(l, pj - 1), k)
    ensures Alike(v(pj, pi).e, v(pj - 1, pi).e) && v(pj, pi).e.Ok() && v(pj - 1, pi).e.Ok()
  {
    FitsAt(l, nz, v, pj, pi);
    FitsAt(l, nz, v, pj - 1, pi);
    HaloY(l, nz, v, pj, pi, i, k);
    hide SharedAt, SlotY, Rows, Cols, Setting.Ok, Joined;
  }

  lemma SidesFaceX(v: View, w: View, j: int, n: int, k: int)
    requires SidesX(v, w, j, n, k) && Alike(v.e, w.e)
    ensures SameFace(FaceX(w.e, j, n, k), FaceX(v.e, j, 0, k))
  {
    hide SharedAt, Geometry.InDomain;
  }

  /** Main result: two neighbours compute one flux on each face between them, each from its own cells and
      from what its halo holds of the other's. */
  lemma OneFluxX(l: Layout, nz: nat, v: PerRank<View>, pj: int, pi: int, j: int, k: int)
    requires Joined(l, nz, v) && IsRank(l, pj, pi) && pi > 0 && 1 <= j <= Rows(l, pj) && 0 <= k < nz
    ensures var a, b := v(pj, pi), v(pj, pi - 1);
      && a.e.Ok() && b.e.Ok() && XFlux(a.e, a.c, j, 0, k) == XFlux(b.e, b.c, j, Cols(l, pi - 1), k)
  {
    MeetX(l, nz, v, pj, pi, j, k);
    hide XFlux, SharedAt, Cols, Rows, Joined, Alike, Setting.Ok;
    SidesFaceX(v(pj, pi), v(pj, pi - 1), j, Cols(l, pi - 1), k);
    hide FaceX, SameFace;
    SameXFlux(v(pj, pi), v(pj, pi - 1), j, 0, k, j, Cols(l, pi - 1));
  }

  lemma SidesFaceY(v: View, w: View, i: int, n: int, k: int)
    requires SidesY(v, w, i, n, k) && Alike(v.e, w.e)
    ensures SameFace(FaceY(w.e, n, i, k), FaceY(v.e, 0, i, k))
  {
    hide SharedAt, Geometry.InDomain;
  }

  lemma OneFluxY(l: Layout, nz: nat, v: PerRank<View>, pj: int, pi: int, i: int, k: int)
    requires Joined(l, nz, v) && IsRank(l, pj, pi) && pj > 0 && 1 <= i <= Cols(l, pi) && 0 <= k < nz
    ensures var a, b := v(pj, pi), v(pj - 1, pi);
      && a.e.Ok() && b.e.Ok() && YFlux(a.e, a.c, 0, i, k) == YFlux(b.e, b.c, Rows(l, pj - 1), i, k)
  {
    MeetY(l, nz, v, pj, pi, i, k);
    hide YFlux, SharedAt, Cols, Rows, Joined, Alike, Setting.Ok;
    SidesFaceY(v(pj, pi), v(pj - 1, pi), i, Rows(l, pj - 1), k);
    hide FaceY, SameFace;
    SameYFlux(v(pj, pi), v(pj - 1, pi), 0, i, k, Rows(l, pj - 1), i);
  }

  // ----- the faces' own slots (src/gw/TerrainMetric.cpp:306-402, src/gw/Baroclinic.cpp:93-124)

  /** What a face's slots are built from on each side: thickness and bottom of the layer, the viscosity
      ratio and the activity of the cell. */
  datatype Side = Side(dz: real, bottom: real, visc: real, live: bool)

  /** How a mesh builds them: following the terrain or not, with a square root. */
  datatype Mesh = Mesh(follow: bool, root: real -> real)

  /** The slots of a face inside the domain, `along` the axis it lies on and `across` it. */
  function BuiltSlot(m: Mesh, along: real, across: real, a: Side, b: Side): Slot {
    var rise := (b.bottom + 0.5 * b.dz) - (a.bottom + 0.5 * a.dz);
    var dist := m.root(rise * rise + along * along);
    var tilted := m.follow && dist != 0.0;
    var cosine := if tilted then along / dist else 1.0;
    Slot(if m.follow then 0.5 * (a.dz + b.dz) * cosine * across else across * a.dz,
         if tilted then (if rise < 0.0 then -rise else rise) / dist else 0.0, cosine,
         if a.live && b.live then 0.5 * (a.visc + b.visc) else 1.0)
  }

  ghost function SideOf(v: View, visc: Field3): (r: (int, int, int) -> Side)
    ensures forall j, i, k ::
      r(j, i, k) == Side(v.e.g.dz(j, i, k), v.e.g.bottom(j, i, k), visc(j, i, k), v.e.g.Live(j, i, k))
  {
    (j, i, k) => Side(v.e.g.dz(j, i, k), v.e.g.bottom(j, i, k), visc(j, i, k), v.e.g.Live(j, i, k))
  }
  ghost function Sides(v: PerRank<View>, visc: PerRank<Field3>): PerRank<(int, int, int) -> Side> {
    (pj, pi) => SideOf(v(pj, pi), visc(pj, pi))
  }

  /** The slots of a rank's faces inside the domain are built from what it holds beside them. */
  ghost predicate Built(m: Mesh, v: View, visc: Field3) {
    var g, s := v.e.g, SideOf(v, visc);
    && (forall j, i, k :: InnerFaceX(g, j, i, k) ==>
          SlotX(v)(j, i, k) == BuiltSlot(m, g.dx, g.dy, s(j, i, k), s(j, i + 1, k)))
    && (forall j, i, k :: InnerFaceY(g, j, i, k) ==>
          SlotY(v)(j, i, k) == BuiltSlot(m, g.dy, g.dx, s(j, i, k), s(j + 1, i, k)))
  }

  lemma BuiltMeetX(l: Layout, nz: nat, v: PerRank<View>, visc: PerRank<Field3>, m: Mesh, pj: int, pi: int, j: int,
                   k: int)
    requires l.Ok() && IsRank(l, pj, pi) && pi > 0 && 1 <= j <= Rows(l, pj) && 0 <= k < nz
    requires HalosMeet(l, nz, Sides(v, visc)) && Alike(v(pj, pi).e, v(pj, pi - 1).e)
    requires FitsRank(l, nz, v(pj, pi), pj, pi) && Built(m, v(pj, pi), visc(pj, pi))
    requires FitsRank(l, nz, v(pj, pi - 1), pj, pi - 1) && Built(m, v(pj, pi - 1), visc(pj, pi - 1))
    ensures SlotX(v(pj, pi))(j, 0, k) == SlotX(v(pj, pi - 1))(j, Cols(l, pi - 1), k)
  {
    var a, b, n := v(pj, pi).e.g, v(pj, pi - 1).e.g, Cols(l, pi - 1);
    assert WestMeets(l, nz, Sides(v, visc), pj, pi, j, k) && EastMeets(l, nz, Sides(v, visc), pj, pi - 1, j, k);
    NoneEmpty(l, pj, pi);
    NoneEmpty(l, pj, pi - 1);
    hide Rows, Cols, Setting.Ok, BuiltSlot, HalosMeet, SlotX, SlotY, SideOf, Geometry.Live;
    assert InnerFaceX(a, j, 0, k) && InnerFaceX(b, j, n, k);
  }

  lemma BuiltMeetY(l: Layout, nz: nat, v: PerRank<View>, visc: PerRank<Field3>, m: Mesh, pj: int, pi: int, i: int,
                   k: int)
    requires l.Ok() && IsRank(l, pj, pi) && pj > 0 && 1 <= i <= Cols(l, pi) && 0 <= k < nz
    requires HalosMeet(l, nz, Sides(v, visc)) && Alike(v(pj, pi).e, v(pj - 1, pi).e)
    requires FitsRank(l, nz, v(pj, pi), pj, pi) && Built(m, v(pj, pi), visc(pj, pi))
    requires FitsRank(l, nz, v(pj - 1, pi), pj - 1, pi) && Built(m, v(pj - 1, pi), visc(pj - 1, pi))
    ensures SlotY(v(pj, pi))(0, i, k) == SlotY(v(pj - 1, pi))(Rows(l, pj - 1), i, k)
  {
    var a, b, n := v(pj, pi).e.g, v(pj - 1, pi).e.g, Rows(l, pj - 1);
    assert SouthMeets(l, nz, Sides(v, visc), pj, pi, i, k) && NorthMeets(l, nz, Sides(v, visc), pj - 1, pi, i, k);
    NoneEmpty(l, pj, pi);
    NoneEmpty(l, pj - 1, pi);
    hide Rows, Cols, Setting.Ok, BuiltSlot, HalosMeet, SlotX, SlotY, SideOf, Geometry.Live;
    assert InnerFaceY(a, 0, i, k) && InnerFaceY(b, n, i, k);
  }

  /** Ranks of one run are joined once their halos hold their neighbours' cells: the slots of the faces
      they share are built from these and agree. */
  lemma JoinedByExchange(l: Layout, nz: nat, v: PerRank<View>, visc: PerRank<Field3>, m: Mesh)
    requires l.Ok() && HalosMeet(l, nz, Shareds(v)) && HalosMeet(l, nz, Sides(v, visc))
    requires forall pj, pi :: IsRank(l, pj, pi) ==>
      FitsRank(l, nz, v(pj, pi), pj, pi) && Alike(v(pj, pi).e, v(0, 0).e) && Built(m, v(pj, pi), visc(pj, pi))
    ensures Joined(l, nz, v)
  {
    hide FitsRank, Built, Rows, Cols, Layout.Ok, HalosMeet, SlotX, SlotY;
    forall pj, pi, j, k ensures WestMeets(l, nz, SlotsX(v), pj, pi, j, k) {
      if IsRank(l, pj, pi) && pi > 0 && 1 <= j <= Rows(l, pj) && 0 <= k < nz {
        BuiltMeetX(l, nz, v, visc, m, pj, pi, j, k);
      }
    }
    forall pj, pi, i, k ensures SouthMeets(l, nz, SlotsY(v), pj, pi, i, k) {
      if IsRank(l, pj, pi) && pj > 0 && 1 <= i <= Cols(l, pi) && 0 <= k < nz {
        BuiltMeetY(l, nz, v, visc, m, pj, pi, i, k);
      }
    }
  }

  // ----- what the ranks' steps leave

  /** The ranks when their fluxes were computed, and their steps. */
  ghost function Views(r: PerRank<R.StepRun>): (v: PerRank<View>)
    ensures forall pj, pi :: v(pj, pi) == View(r(pj, pi).e, r(pj, pi).t.fluxed)
  {
    (pj, pi) => View(r(pj, pi).e, r(pj, pi).t.fluxed)
  }
  ghost function StepsOf(r: PerRank<R.StepRun>): (s: PerRank<RankStep>)
    ensures forall pj, pi ::
      s(pj, pi) == RankStep(r(pj, pi).e.g, r(pj, pi).before, r(pj, pi).after, r(pj, pi).faces,
                            Rest(r(pj, pi).e, r(pj, pi).t))
  {
    (pj, pi) => RankStep(r(pj, pi).e.g, r(pj, pi).before, r(pj, pi).after, r(pj, pi).faces,
                         Rest(r(pj, pi).e, r(pj, pi).t))
  }

  /** All ranks took a step of one length, from exchanged halos. */
  ghost predicate AllStepped(l: Layout, nz: nat, r: PerRank<R.StepRun>, dtg: real) {
    && Joined(l, nz, Views(r))
    && forall pj, pi :: IsRank(l, pj, pi) ==> r(pj, pi).dtg == dtg && r(pj, pi).Stepped()
  }

  /** A step leaves the lateral fluxes of the cells at its fluxes, and so respects the mask. */
  lemma LeftFluxes(e: Setting, c: Cells, s: Ponds, c': Cells, f': Faces, dtg: real, t: Trail)
    requires Leads(e, c, s, c', f', dtg, t)
    ensures e.Ok() && LateralsFilled(e, t.fluxed, c') && Sealed(e.g, c')
  {
    LateralsTrans(e.g, t.fluxed, t.updated, c');
    hide XFlux, YFlux, GroundwaterTerms.Corrected, Visited, Sent, ColumnReady, Clamped, Faced, Started, VerticalsFilled;
    assert LateralsFilled(e, t.fluxed, c');
    FluxesSealed(e, t.fluxed, c');
  }

  lemma FilledX(e: Setting, c: Cells, c': Cells, j: int, i: int, k: int)
    requires e.Ok() && LateralsFilled(e, c, c') && IsFaceX(e.g, j, i, k)
    ensures c'(j, i, k).qx == XFlux(e, c, j, i, k)
  {
    hide XFlux, YFlux;
  }

  lemma FilledY(e: Setting, c: Cells, c': Cells, j: int, i: int, k: int)
    requires e.Ok() && LateralsFilled(e, c, c') && IsFaceY(e.g, j, i, k)
    ensures c'(j, i, k).qy == YFlux(e, c, j, i, k)
  {
    hide XFlux, YFlux;
  }

  lemma JoinedOf(l: Layout, nz: nat, r: PerRank<R.StepRun>, dtg: real)
    requires AllStepped(l, nz, r, dtg)
    ensures Joined(l, nz, Views(r)) && l.Ok()
  {
    hide HalosMeet, ColumnsMeet, RowsMeet, R.StepRun.Stepped, FitsRank, Alike, Layout.Ok;
  }

  lemma SteppedAt(l: Layout, nz: nat, r: PerRank<R.StepRun>, dtg: real, pj: int, pi: int)
    requires AllStepped(l, nz, r, dtg) && IsRank(l, pj, pi)
    ensures var x := r(pj, pi);
      && Leads(x.e, x.before, x.surface, x.after, x.faces, dtg, x.t)
      && x.audit.boundaryIn == BoundaryIn(x.e.g, x.after, x.faces, dtg)
      && Volume(x.e.g, x.after) == Volume(x.e.g, x.before) + R.Below(x.audit) + CrossIn(x.e.g, x.after, dtg)
  {
    hide Joined, Leads, BoundaryIn, Volume, CrossIn;
  }

  lemma FitsParts(l: Layout, nz: nat, v: View, pj: int, pi: int)
    requires FitsRank(l, nz, v, pj, pi)
    ensures v.e.Ok() && v.e.g.Ok() && v.e.g.box == Block(l, nz, pj, pi)
  {
    hide Geometry.Ok;
  }

  lemma RankBefore(l: Layout, pj: int, pi: int)
    requires IsRank(l, pj, pi)
    ensures pi > 0 ==> IsRank(l, pj, pi - 1)
    ensures pj > 0 ==> IsRank(l, pj - 1, pi)
  {
  }

  lemma RankLeft(l: Layout, nz: nat, r: PerRank<R.StepRun>, dtg: real, pj: int, pi: int)
    requires AllStepped(l, nz, r, dtg) && IsRank(l, pj, pi)
    ensures var x := r(pj, pi);
      && x.e.Ok() && x.e.g.box == Block(l, nz, pj, pi) && x.e.g.Ok() && Rows(l, pj) >= 1 && Cols(l, pi) >= 1
      && LateralsFilled(x.e, x.t.fluxed, x.after) && Sealed(x.e.g, x.after)
  {
    var x := r(pj, pi);
    hide *;
    JoinedOf(l, nz, r, dtg);
    SteppedAt(l, nz, r, dtg, pj, pi);
    FitsAt(l, nz, Views(r), pj, pi);
    FitsParts(l, nz, View(x.e, x.t.fluxed), pj, pi);
    LeftFluxes(x.e, x.before, x.surface, x.after, x.faces, dtg, x.t);
  }

  lemma OnFace(l: Layout, nz: nat, g: Geometry, pj: int, pi: int, j: int, i: int, k: int)
    requires g.box == Block(l, nz, pj, pi) && 0 <= k < nz
    ensures 1 <= j <= Rows(l, pj) && 0 <= i <= Cols(l, pi) ==> IsFaceX(g, j, i, k)
    ensures 0 <= j <= Rows(l, pj) && 1 <= i <= Cols(l, pi) ==> IsFaceY(g, j, i, k)
  {
    hide Rows, Cols;
  }

  lemma LeftX(l: Layout, nz: nat, r: PerRank<R.StepRun>, dtg: real, pj: int, pi: int, j: int, i: int, k: int)
    requires AllStepped(l, nz, r, dtg) && IsRank(l, pj, pi) && 1 <= j <= Rows(l, pj) && 0 <= i <= Cols(l, pi)
             && 0 <= k < nz
    ensures r(pj, pi).e.Ok() && r(pj, pi).after(j, i, k).qx == XFlux(r(pj, pi).e, r(pj, pi).t.fluxed, j, i, k)
  {
    var a := r(pj, pi);
    hide *;
    RankLeft(l, nz, r, dtg, pj, pi);
    OnFace(l, nz, a.e.g, pj, pi, j, i, k);
    FilledX(a.e, a.t.fluxed, a.after, j, i, k);
  }

  lemma SharedX(l: Layout, nz: nat, r: PerRank<R.StepRun>, dtg: real, pj: int, pi: int, j: int, k: int)
    requires AllStepped(l, nz, r, dtg) && IsRank(l, pj, pi) && pi > 0 && 1 <= j <= Rows(l, pj) && 0 <= k < nz
    ensures r(pj, pi).e.Ok() && r(pj, pi - 1).e.Ok()
    ensures XFlux(r(pj, pi).e, r(pj, pi).t.fluxed, j, 0, k)
            == XFlux(r(pj, pi - 1).e, r(pj, pi - 1).t.fluxed, j, Cols(l, pi - 1), k)
  {
    hide *;
    JoinedOf(l, nz, r, dtg);
    OneFluxX(l, nz, Views(r), pj, pi, j, k);
  }

  lemma LeftY(l: Layout, nz: nat, r: PerRank<R.StepRun>, dtg: real, pj: int, pi: int, j: int, i: int, k: int)
    requires AllStepped(l, nz, r, dtg) && IsRank(l, pj, pi) && 0 <= j <= Rows(l, pj) && 1 <= i <= Cols(l, pi)
             && 0 <= k < nz
    ensures r(pj, pi).e.Ok() && r(pj, pi).after(j, i, k).qy == YFlux(r(pj, pi).e, r(pj, pi).t.fluxed, j, i, k)
  {
    var a := r(pj, pi);
    hide *;
    RankLeft(l, nz, r, dtg, pj, pi);
    OnFace(l, nz, a.e.g, pj, pi, j, i, k);
    FilledY(a.e, a.t.fluxed, a.after, j, i, k);
  }

  lemma SharedY(l: Layout, nz: nat, r: PerRank<R.StepRun>, dtg: real, pj: int, pi: int, i: int, k: int)
    requires AllStepped(l, nz, r, dtg) && IsRank(l, pj, pi) && pj > 0 && 1 <= i <= Cols(l, pi) && 0 <= k < nz
    ensures r(pj, pi).e.Ok() && r(pj - 1, pi).e.Ok()
    ensures YFlux(r(pj, pi).e, r(pj, pi).t.fluxed, 0, i, k)
            == YFlux(r(pj - 1, pi).e, r(pj - 1, pi).t.fluxed, Rows(l, pj - 1), i, k)
  {
    hide *;
    JoinedOf(l, nz, r, dtg);
    OneFluxY(l, nz, Views(r), pj, pi, i, k);
  }

  lemma WestFace(l: Layout, nz: nat, r: PerRank<R.StepRun>, dtg: real, pj: int, pi: int, j: int, k: int)
    requires AllStepped(l, nz, r, dtg) && IsRank(l, pj, pi) && pi > 0 && 1 <= j <= Rows(l, pj) && 0 <= k < nz
    ensures r(pj, pi).after(j, 0, k).qx == r(pj, pi - 1).after(j, Cols(l, pi - 1), k).qx
  {
    hide *;
    RankBefore(l, pj, pi);
    LeftX(l, nz, r, dtg, pj, pi, j, 0, k);
    LeftX(l, nz, r, dtg, pj, pi - 1, j, Cols(l, pi - 1), k);
    SharedX(l, nz, r, dtg, pj, pi, j, k);
  }

  lemma SouthFace(l: Layout, nz: nat, r: PerRank<R.StepRun>, dtg: real, pj: int, pi: int, i: int, k: int)
    requires AllStepped(l, nz, r, dtg) && IsRank(l, pj, pi) && pj > 0 && 1 <= i <= Cols(l, pi) && 0 <= k < nz
    ensures r(pj, pi).after(0, i, k).qy == r(pj - 1, pi).after(Rows(l, pj - 1), i, k).qy
  {
    hide *;
    RankBefore(l, pj, pi);
    LeftY(l, nz, r, dtg, pj, pi, 0, i, k);
    LeftY(l, nz, r, dtg, pj - 1, pi, Rows(l, pj - 1), i, k);
    SharedY(l, nz, r, dtg, pj, pi, i, k);
  }

  /** The steps of ranks with exchanged halos leave one flux on every face that two of them share. */
  lemma SharedFacesAgree(l: Layout, nz: nat, r: PerRank<R.StepRun>, dtg: real)
    requires AllStepped(l, nz, r, dtg)
    ensures ColumnsMeet(l, nz, FluxesX(StepsOf(r))) && RowsMeet(l, nz, FluxesY(StepsOf(r)))
  {
    hide AllStepped, Rows, Cols;
    forall pj, pi, j, k ensures WestMeets(l, nz, FluxesX(StepsOf(r)), pj, pi, j, k) {
      if IsRank(l, pj, pi) && pi > 0 && 1 <= j <= Rows(l, pj) && 0 <= k < nz { WestFace(l, nz, r, dtg, pj, pi, j, k); }
    }
    forall pj, pi, i, k ensures SouthMeets(l, nz, FluxesY(StepsOf(r)), pj, pi, i, k) {
      if IsRank(l, pj, pi) && pj > 0 && 1 <= i <= Cols(l, pi) && 0 <= k < nz { SouthFace(l, nz, r, dtg, pj, pi, i, k); }
    }
  }

  // ----- what crosses between the ranks

  lemma SharedLive(v: View, w: View, j: int, i: int, j': int, i': int, k: int)
    requires SharedAt(v, j, i, k) == SharedAt(w, j', i', k)
    ensures v.e.g.Live(j, i, k) == w.e.g.Live(j', i', k)
  {
    hide Geometry.Live;
  }

  /** An in-domain place beyond a block lies in a neighbour's. */
  lemma PlaceBeyond(l: Layout, nz: nat, v: View, pj: int, pi: int, j: int, i: int)
    requires FitsRank(l, nz, v, pj, pi) && IsRank(l, pj, pi) && v.e.g.InDomain(j, i)
    ensures i == 0 ==> pi > 0
    ensures i == Cols(l, pi) + 1 ==> pi + 1 < l.px
    ensures j == 0 ==> pj > 0
    ensures j == Rows(l, pj) + 1 ==> pj + 1 < l.py
  {
    hide Rows, Cols, Setting.Ok;
  }

  lemma LiveIsActive(l: Layout, nz: nat, v: View, pj: int, pi: int, j: int, i: int, k: int)
    requires FitsRank(l, nz, v, pj, pi) && 1 <= j <= Rows(l, pj) && 1 <= i <= Cols(l, pi)
    ensures v.e.g.Live(j, i, k) == ActiveMask(v.e.g)(j, i, k)
  {
    hide Rows, Cols, Setting.Ok;
  }

  /** The domain's activity, stitched from the ranks' own. */
  ghost function Whole(l: Layout, v: PerRank<View>): (a: Mask)
    requires l.Ok()
  {
    Stitched(l, Actives(v))
  }
  ghost function Actives(v: PerRank<View>): (a: PerRank<Mask>)
    ensures forall pj, pi :: a(pj, pi) == ActiveMask(v(pj, pi).e.g)
  {
    (pj, pi) => ActiveMask(v(pj, pi).e.g)
  }

  lemma WholeInside(l: Layout, v: PerRank<View>, pj: int, pi: int, j: int, i: int, k: int)
    requires l.Ok() && IsRank(l, pj, pi) && 1 <= j <= Rows(l, pj) && 1 <= i <= Cols(l, pi)
    ensures Whole(l, v)(Row0(l, pj) + j, Col0(l, pi) + i, k) == ActiveMask(v(pj, pi).e.g)(j, i, k)
  {
    hide Rows, Cols, Row0, Col0, Stitched, ActiveMask;
    StitchedInside(l, Actives(v), pj, pi, j, i, k);
  }

  lemma LiveInside(l: Layout, nz: nat, v: PerRank<View>, pj: int, pi: int, j: int, i: int, k: int)
    requires Joined(l, nz, v) && l.Ok() && IsRank(l, pj, pi) && 1 <= j <= Rows(l, pj) && 1 <= i <= Cols(l, pi)
    ensures v(pj, pi).e.g.Live(j, i, k) == Whole(l, v)(Row0(l, pj) + j, Col0(l, pi) + i, k)
  {
    hide *;
    FitsAt(l, nz, v, pj, pi);
    LiveIsActive(l, nz, v(pj, pi), pj, pi, j, i, k);
    WholeInside(l, v, pj, pi, j, i, k);
  }

  lemma LiveAcrossX(l: Layout, nz: nat, v: PerRank<View>, pj: int, pi: int, j: int, k: int)
    requires Joined(l, nz, v) && l.Ok() && IsRank(l, pj, pi) && pi > 0 && 1 <= j <= Rows(l, pj) && 0 <= k < nz
    ensures v(pj, pi).e.g.Live(j, 0, k) == Whole(l, v)(Row0(l, pj) + j, Col0(l, pi), k)
    ensures v(pj, pi - 1).e.g.Live(j, Cols(l, pi - 1) + 1, k)
            == Whole(l, v)(Row0(l, pj) + j, Col0(l, pi - 1) + Cols(l, pi - 1) + 1, k)
  {
    hide *;
    RankBefore(l, pj, pi);
    RankRange(l, pj, pi);
    FitsAt(l, nz, v, pj, pi);
    FitsAt(l, nz, v, pj, pi - 1);
    HaloX(l, nz, v, pj, pi, j, k);
    NextCol(l, pi - 1);
    var n := Cols(l, pi - 1);
    SharedLive(v(pj, pi), v(pj, pi - 1), j, 0, j, n, k);
    SharedLive(v(pj, pi), v(pj, pi - 1), j, 1, j, n + 1, k);
    LiveInside(l, nz, v, pj, pi - 1, j, n, k);
    LiveInside(l, nz, v, pj, pi, j, 1, k);
  }

  lemma LiveAcrossY(l: Layout, nz: nat, v: PerRank<View>, pj: int, pi: int, i: int, k: int)
    requires Joined(l, nz, v) && l.Ok() && IsRank(l, pj, pi) && pj > 0 && 1 <= i <= Cols(l, pi) && 0 <= k < nz
    ensures v(pj, pi).e.g.Live(0, i, k) == Whole(l, v)(Row0(l, pj), Col0(l, pi) + i, k)
    ensures v(pj - 1, pi).e.g.Live(Rows(l, pj - 1) + 1, i, k)
            == Whole(l, v)(Row0(l, pj - 1) + Rows(l, pj - 1) + 1, Col0(l, pi) + i, k)
  {
    hide *;
    RankBefore(l, pj, pi);
    RankRange(l, pj, pi);
    FitsAt(l, nz, v, pj, pi);
    FitsAt(l, nz, v, pj - 1, pi);
    HaloY(l, nz, v, pj, pi, i, k);
    NextRow(l, pj - 1);
    var n := Rows(l, pj - 1);
    SharedLive(v(pj, pi), v(pj - 1, pi), 0, i, n, i, k);
    SharedLive(v(pj, pi), v(pj - 1, pi), 1, i, n + 1, i, k);
    LiveInside(l, nz, v, pj - 1, pi, n, i, k);
    LiveInside(l, nz, v, pj, pi, 1, i, k);
  }

  lemma RankRange(l: Layout, pj: int, pi: int)
    requires IsRank(l, pj, pi)
    ensures 0 <= pj < l.py && 0 <= pi < l.px
    ensures pi + 1 < l.px ==> IsRank(l, pj, pi + 1)
    ensures pj + 1 < l.py ==> IsRank(l, pj + 1, pi)
  {
  }

  /** A rank's activity, halo included, is the domain's. */
  lemma LiveSeen(l: Layout, nz: nat, v: PerRank<View>, pj: int, pi: int, j: int, i: int, k: int)
    requires Joined(l, nz, v) && l.Ok() && IsRank(l, pj, pi) && 0 <= k < nz && v(pj, pi).e.g.InDomain(j, i)
    requires (1 <= j <= Rows(l, pj) && 0 <= i <= Cols(l, pi) + 1)
             || (0 <= j <= Rows(l, pj) + 1 && 1 <= i <= Cols(l, pi))
    ensures v(pj, pi).e.g.Live(j, i, k) == Whole(l, v)(Row0(l, pj) + j, Col0(l, pi) + i, k)
  {
    hide *;
    FitsAt(l, nz, v, pj, pi);
    PlaceBeyond(l, nz, v(pj, pi), pj, pi, j, i);
    RankRange(l, pj, pi);
    if i == 0 {
      LiveAcrossX(l, nz, v, pj, pi, j, k);
    } else if i == Cols(l, pi) + 1 {
      LiveAcrossX(l, nz, v, pj, pi + 1, j, k);
    } else if j == 0 {
      LiveAcrossY(l, nz, v, pj, pi, i, k);
    } else if j == Rows(l, pj) + 1 {
      LiveAcrossY(l, nz, v, pj + 1, pi, i, k);
    } else {
      LiveInside(l, nz, v, pj, pi, j, i, k);
    }
  }

  lemma SealX(g: Geometry, c: Cells, j: int, i: int, k: int)
    requires Sealed(g, c) && IsFaceX(g, j, i, k) && g.InDomain(j, i) && g.InDomain(j, i + 1)
    ensures g.Live(j, i, k) != g.Live(j, i + 1, k) ==> c(j, i, k).qx == 0.0
  {
    assert InnerFaceX(g, j, i, k);
    hide Geometry.Live, Geometry.InDomain;
  }
  lemma SealY(g: Geometry, c: Cells, j: int, i: int, k: int)
    requires Sealed(g, c) && IsFaceY(g, j, i, k) && g.InDomain(j, i) && g.InDomain(j + 1, i)
    ensures g.Live(j, i, k) != g.Live(j + 1, i, k) ==> c(j, i, k).qy == 0.0
  {
    assert InnerFaceY(g, j, i, k);
    hide Geometry.Live, Geometry.InDomain;
  }

  /** Beside a cell of a block the next place is in the domain, except over an edge of the rim. */
  lemma Beside(l: Layout, nz: nat, v: View, pj: int, pi: int, j: int, i: int)
    requires FitsRank(l, nz, v, pj, pi) && 1 <= j <= Rows(l, pj) && 1 <= i <= Cols(l, pi)
    ensures v.e.g.InDomain(j, i)
    ensures !(i == 1 && v.e.g.rim.west) ==> v.e.g.InDomain(j, i - 1)
    ensures !(i == Cols(l, pi) && v.e.g.rim.east) ==> v.e.g.InDomain(j, i + 1)
    ensures !(j == 1 && v.e.g.rim.south) ==> v.e.g.InDomain(j - 1, i)
    ensures !(j == Rows(l, pj) && v.e.g.rim.north) ==> v.e.g.InDomain(j + 1, i)
    ensures (v.e.g.rim.west <==> pi == 0) && (v.e.g.rim.east <==> pi == l.px - 1)
    ensures (v.e.g.rim.south <==> pj == 0) && (v.e.g.rim.north <==> pj == l.py - 1)
    ensures v.e.g.box.ny == Rows(l, pj) && v.e.g.box.nx == Cols(l, pi) && v.e.g.box.nz == nz
  {
    hide Rows, Cols, Setting.Ok;
  }

  /** The net rate of an active cell through the domain's edges in x and in y. */
  ghost function RimX(g: Geometry, c: Cells, j: int, i: int, k: int): real {
    (if i == g.box.nx && g.rim.east then c(j, i, k).qx else 0.0)
    - (if i == 1 && g.rim.west then c(j, i - 1, k).qx else 0.0)
  }
  ghost function RimY(g: Geometry, c: Cells, j: int, i: int, k: int): real {
    (if j == g.box.ny && g.rim.north then c(j, i, k).qy else 0.0)
    - (if j == 1 && g.rim.south then c(j - 1, i, k).qy else 0.0)
  }

  lemma EdgeXBy(l: Layout, g: Geometry, m: Mask, c: Cells, pj: int, pi: int, j: int, i: int, k: int)
    requires g.box.nx == Cols(l, pi) && (g.rim.west <==> pi == 0) && (g.rim.east <==> pi == l.px - 1)
    requires !(i == Cols(l, pi) && g.rim.east) ==> m(j, i + 1, k) || c(j, i, k).qx == 0.0
    requires !(i == 1 && g.rim.west) ==> m(j, i - 1, k) || c(j, i - 1, k).qx == 0.0
    ensures EdgeX(l, m, FluxX(c), pj, pi, j, i, k) == RimX(g, c, j, i, k)
  {
    hide Rows, Cols;
  }

  /** The faces of an active cell toward inactive ones carry nothing, so what the domain counts beside it
      is what passes its edges. */
  lemma EdgeXIsRim(l: Layout, nz: nat, v: PerRank<View>, c: Cells, pj: int, pi: int, j: int, i: int, k: int)
    requires Joined(l, nz, v) && l.Ok() && IsRank(l, pj, pi) && 0 <= k < nz && Sealed(v(pj, pi).e.g, c)
    requires 1 <= j <= Rows(l, pj) && 1 <= i <= Cols(l, pi) && v(pj, pi).e.g.Live(j, i, k)
    ensures EdgeX(l, Local3(l, Whole(l, v), pj, pi), FluxX(c), pj, pi, j, i, k) == RimX(v(pj, pi).e.g, c, j, i, k)
  {
    hide *;
    var g, m := v(pj, pi).e.g, Local3(l, Whole(l, v), pj, pi);
    FitsAt(l, nz, v, pj, pi);
    FitsParts(l, nz, v(pj, pi), pj, pi);
    Beside(l, nz, v(pj, pi), pj, pi, j, i);
    OnFace(l, nz, g, pj, pi, j, i, k);
    OnFace(l, nz, g, pj, pi, j, i - 1, k);
    if !(i == Cols(l, pi) && g.rim.east) {
      LiveSeen(l, nz, v, pj, pi, j, i + 1, k);
      SealX(g, c, j, i, k);
    }
    if !(i == 1 && g.rim.west) {
      LiveSeen(l, nz, v, pj, pi, j, i - 1, k);
      SealX(g, c, j, i - 1, k);
    }
    EdgeXBy(l, g, m, c, pj, pi, j, i, k);
  }

  lemma EdgeYBy(l: Layout, g: Geometry, m: Mask, c: Cells, pj: int, pi: int, j: int, i: int, k: int)
    requires g.box.ny == Rows(l, pj) && (g.rim.south <==> pj == 0) && (g.rim.north <==> pj == l.py - 1)
    requires !(j == Rows(l, pj) && g.rim.north) ==> m(j + 1, i, k) || c(j, i, k).qy == 0.0
    requires !(j == 1 && g.rim.south) ==> m(j - 1, i, k) || c(j - 1, i, k).qy == 0.0
    ensures EdgeY(l, m, FluxY(c), pj, pi, j, i, k) == RimY(g, c, j, i, k)
  {
    hide Rows, Cols;
  }

  lemma EdgeYIsRim(l: Layout, nz: nat, v: PerRank<View>, c: Cells, pj: int, pi: int, j: int, i: int, k: int)
    requires Joined(l, nz, v) && l.Ok() && IsRank(l, pj, pi) && 0 <= k < nz && Sealed(v(pj, pi).e.g, c)
    requires 1 <= j <= Rows(l, pj) && 1 <= i <= Cols(l, pi) && v(pj, pi).e.g.Live(j, i, k)
    ensures EdgeY(l, Local3(l, Whole(l, v), pj, pi), FluxY(c), pj, pi, j, i, k) == RimY(v(pj, pi).e.g, c, j, i, k)
  {
    hide *;
    var g, m := v(pj, pi).e.g, Local3(l, Whole(l, v), pj, pi);
    FitsAt(l, nz, v, pj, pi);
    FitsParts(l, nz, v(pj, pi), pj, pi);
    Beside(l, nz, v(pj, pi), pj, pi, j, i);
    OnFace(l, nz, g, pj, pi, j, i, k);
    OnFace(l, nz, g, pj, pi, j - 1, i, k);
    if !(j == Rows(l, pj) && g.rim.north) {
      LiveSeen(l, nz, v, pj, pi, j + 1, i, k);
      SealY(g, c, j, i, k);
    }
    if !(j == 1 && g.rim.south) {
      LiveSeen(l, nz, v, pj, pi, j - 1, i, k);
      SealY(g, c, j - 1, i, k);
    }
    EdgeYBy(l, g, m, c, pj, pi, j, i, k);
  }

  /** All ranks' fluxes without the path corrections. */
  ghost function PlainFlows(l: Layout, v: PerRank<View>, s: PerRank<RankStep>): Flows
    requires l.Ok()
  {
    Flows(Whole(l, v), FluxesX(s), FluxesY(s), (pj, pi) => FluxZ(s(pj, pi).faces))
  }

  lemma RateParts(g: Geometry, c: Cells, f: Faces, j: int, i: int, k: int)
    ensures BoundaryRate(g, c, f, j, i, k)
            == if g.Active(j, i, k)
               then RimX(g, c, j, i, k) + RimY(g, c, j, i, k) + OuterZ(g.box, ActiveMask(g), FluxZ(f), j, i, k)
               else 0.0
  {
    if g.Active(j, i, k) { DownTo(g, f, j, i, k); }
    hide OuterZ;
  }

  lemma BoundaryParts(l: Layout, nz: nat, v: PerRank<View>, s: PerRank<RankStep>, pj: int, pi: int, j: int, i: int,
                      k: int)
    requires l.Ok()
    ensures var m, x := Local3(l, Whole(l, v), pj, pi), s(pj, pi);
      BoundaryAt(l, nz, PlainFlows(l, v, s), pj, pi, j, i, k)
      == if m(j, i, k)
         then EdgeX(l, m, FluxX(x.after), pj, pi, j, i, k) + EdgeY(l, m, FluxY(x.after), pj, pi, j, i, k)
              + OuterZ(Block(l, nz, pj, pi), m, FluxZ(x.faces), j, i, k)
         else 0.0
  {
    hide EdgeX, EdgeY, OuterZ, Whole, FluxX, FluxY, FluxZ, Block, Local3;
  }

  /** Columns read the activity along themselves. */
  lemma SameOuterZ(b: Box, m: Mask, m': Mask, z: Field3, j: int, i: int, k: int)
    requires forall k' :: m'(j, i, k') == m(j, i, k')
    ensures OuterZ(b, m', z, j, i, k) == OuterZ(b, m, z, j, i, k)
  {
  }

  /** What a rank audits at a cell is what the domain counts there. */
  lemma AuditedBoundary(l: Layout, nz: nat, v: PerRank<View>, s: PerRank<RankStep>, pj: int, pi: int,
                        j: int, i: int, k: int)
    requires Joined(l, nz, v) && l.Ok() && IsRank(l, pj, pi) && 0 <= k < nz && s(pj, pi).g == v(pj, pi).e.g
    requires 1 <= j <= Rows(l, pj) && 1 <= i <= Cols(l, pi) && Sealed(s(pj, pi).g, s(pj, pi).after)
    ensures BoundaryAt(l, nz, PlainFlows(l, v, s), pj, pi, j, i, k)
            == BoundaryRate(s(pj, pi).g, s(pj, pi).after, s(pj, pi).faces, j, i, k)
  {
    hide *;
    var x, m := s(pj, pi), Local3(l, Whole(l, v), pj, pi);
    FitsAt(l, nz, v, pj, pi);
    FitsParts(l, nz, v(pj, pi), pj, pi);
    LiveIsActive(l, nz, v(pj, pi), pj, pi, j, i, k);
    MaskIs(x.g, j, i, k);
    forall k' ensures m(j, i, k') == ActiveMask(x.g)(j, i, k') { WholeInside(l, v, pj, pi, j, i, k'); }
    SameOuterZ(x.g.box, ActiveMask(x.g), m, FluxZ(x.faces), j, i, k);
    RateParts(x.g, x.after, x.faces, j, i, k);
    BoundaryParts(l, nz, v, s, pj, pi, j, i, k);
    if x.g.Active(j, i, k) {
      EdgeXIsRim(l, nz, v, x.after, pj, pi, j, i, k);
      EdgeYIsRim(l, nz, v, x.after, pj, pi, j, i, k);
    }
  }

  lemma MaskIs(g: Geometry, j: int, i: int, k: int)
    ensures ActiveMask(g)(j, i, k) == g.Active(j, i, k)
  {
    hide Geometry.Active;
  }

  lemma BlockSumOf(l: Layout, nz: nat, q: PerRank<Field3>, pj: int, pi: int)
    ensures BlockSums(l, nz, q)(pj, pi) == Sum3(Block(l, nz, pj, pi), q(pj, pi))
  {
    hide Sum3, Block;
  }

  lemma PlainNet(l: Layout, v: PerRank<View>, s: PerRank<RankStep>, pj: int, pi: int)
    requires l.Ok()
    ensures NetOf(l, PlainFlows(l, v, s))(pj, pi)
            == NetFlow(Local3(l, Whole(l, v), pj, pi), FluxX(s(pj, pi).after), FluxY(s(pj, pi).after),
                       FluxZ(s(pj, pi).faces))
    ensures FlowDivergence(s(pj, pi).g, s(pj, pi).after, s(pj, pi).faces)
            == NetFlow(ActiveMask(s(pj, pi).g), FluxX(s(pj, pi).after), FluxY(s(pj, pi).after),
                       FluxZ(s(pj, pi).faces))
  {
    hide NetFlow, Whole, Local3, FluxX, FluxY, FluxZ, ActiveMask;
  }

  lemma RankNet(l: Layout, nz: nat, v: PerRank<View>, s: PerRank<RankStep>, pj: int, pi: int)
    requires l.Ok() && IsRank(l, pj, pi) && s(pj, pi).g == v(pj, pi).e.g && s(pj, pi).g.box == Block(l, nz, pj, pi)
    ensures BlockSums(l, nz, NetOf(l, PlainFlows(l, v, s)))(pj, pi)
            == Sum3(s(pj, pi).g.box, FlowDivergence(s(pj, pi).g, s(pj, pi).after, s(pj, pi).faces))
  {
    hide *;
    var x, m := s(pj, pi), Local3(l, Whole(l, v), pj, pi);
    BlockSumOf(l, nz, NetOf(l, PlainFlows(l, v, s)), pj, pi);
    PlainNet(l, v, s, pj, pi);
    forall j, i, k | x.g.box.Has(j, i, k) ensures m(j, i, k) == ActiveMask(x.g)(j, i, k) {
      BlockHas(l, nz, pj, pi, j, i, k);
      WholeInside(l, v, pj, pi, j, i, k);
    }
    NetSame(x.g.box, m, ActiveMask(x.g), FluxX(x.after), FluxY(x.after), FluxZ(x.faces));
  }

  lemma BlockHas(l: Layout, nz: nat, pj: int, pi: int, j: int, i: int, k: int)
    requires Block(l, nz, pj, pi).Has(j, i, k)
    ensures 1 <= j <= Rows(l, pj) && 1 <= i <= Cols(l, pi) && 0 <= k < nz
  {
  }

  lemma RankBoundary(l: Layout, nz: nat, v: PerRank<View>, s: PerRank<RankStep>, pj: int, pi: int)
    requires Joined(l, nz, v) && l.Ok() && IsRank(l, pj, pi) && s(pj, pi).g == v(pj, pi).e.g
    requires s(pj, pi).g.box == Block(l, nz, pj, pi) && Sealed(s(pj, pi).g, s(pj, pi).after)
    ensures BlockSums(l, nz, BoundaryOf(l, nz, PlainFlows(l, v, s)))(pj, pi)
            == Sum3(s(pj, pi).g.box, BoundaryRates(s(pj, pi).g, s(pj, pi).after, s(pj, pi).faces))
  {
    hide *;
    var x, f := s(pj, pi), PlainFlows(l, v, s);
    BlockSumOf(l, nz, BoundaryOf(l, nz, f), pj, pi);
    BoundaryOfIs(l, nz, f, pj, pi);
    forall j, i, k | x.g.box.Has(j, i, k)
      ensures BoundaryField(l, nz, f, pj, pi)(j, i, k) == BoundaryRates(x.g, x.after, x.faces)(j, i, k)
    {
      BlockHas(l, nz, pj, pi, j, i, k);
      AuditedBoundary(l, nz, v, s, pj, pi, j, i, k);
    }
    Sum3Ext(x.g.box, BoundaryField(l, nz, f, pj, pi), BoundaryRates(x.g, x.after, x.faces));
  }

  /** The audited inflow of a block, as the scaled sum of its rates. */
  lemma InflowIsRates(g: Geometry, c: Cells, f: Faces, dtg: real)
    ensures BoundaryIn(g, c, f, dtg) == dtg * Sum3(g.box, BoundaryRates(g, c, f))
  {
    hide Sum3, BoundaryTerms, BoundaryRates, Scaled;
    var scaled := Scaled(dtg, BoundaryRates(g, c, f));
    forall j, i, k | g.box.Has(j, i, k) ensures BoundaryTerms(g, c, f, dtg)(j, i, k) == scaled(j, i, k) {
      TermIsRate(g, c, f, dtg, j, i, k);
    }
    Sum3Ext(g.box, BoundaryTerms(g, c, f, dtg), scaled);
    Sum3Scaled(g.box, dtg, BoundaryRates(g, c, f));
  }

  /** Per rank: the audited boundary inflow, the inflow from other ranks, and what the audit books. */
  ghost function Inflows(r: PerRank<R.StepRun>): (q: PerRank<real>)
    ensures forall pj, pi :: q(pj, pi) == r(pj, pi).audit.boundaryIn
  {
    (pj, pi) => r(pj, pi).audit.boundaryIn
  }
  ghost function Crossings(r: PerRank<R.StepRun>, dtg: real): (q: PerRank<real>)
    ensures forall pj, pi :: q(pj, pi) == CrossIn(r(pj, pi).e.g, r(pj, pi).after, dtg)
  {
    (pj, pi) => CrossIn(r(pj, pi).e.g, r(pj, pi).after, dtg)
  }
  ghost function Books(r: PerRank<R.StepRun>): (q: PerRank<real>)
    ensures forall pj, pi :: q(pj, pi) == R.Below(r(pj, pi).audit)
  {
    (pj, pi) => R.Below(r(pj, pi).audit)
  }
  ghost function Changes(r: PerRank<R.StepRun>): (q: PerRank<real>)
    ensures forall pj, pi ::
      q(pj, pi) == Volume(r(pj, pi).e.g, r(pj, pi).after) - Volume(r(pj, pi).e.g, r(pj, pi).before)
  {
    (pj, pi) => Volume(r(pj, pi).e.g, r(pj, pi).after) - Volume(r(pj, pi).e.g, r(pj, pi).before)
  }

  /** The fluxes all ranks' steps leave, over the domain's activity. */
  ghost function Left(l: Layout, r: PerRank<R.StepRun>): Flows
    requires l.Ok()
  {
    PlainFlows(l, Views(r), StepsOf(r))
  }

  lemma RankLedgers(l: Layout, nz: nat, r: PerRank<R.StepRun>, dtg: real, pj: int, pi: int)
    requires AllStepped(l, nz, r, dtg) && l.Ok() && IsRank(l, pj, pi)
    ensures Inflows(r)(pj, pi) == dtg * BlockSums(l, nz, BoundaryOf(l, nz, Left(l, r)))(pj, pi)
    ensures Crossings(r, dtg)(pj, pi) == dtg * BlockSums(l, nz, NetOf(l, Left(l, r)))(pj, pi) - Inflows(r)(pj, pi)
    ensures Changes(r)(pj, pi) == Books(r)(pj, pi) + Crossings(r, dtg)(pj, pi)
  {
    var x, s, v := r(pj, pi), StepsOf(r), Views(r);
    hide *;
    JoinedOf(l, nz, r, dtg);
    SteppedAt(l, nz, r, dtg, pj, pi);
    RankLeft(l, nz, r, dtg, pj, pi);
    LeftIs(l, r);
    RankBoundary(l, nz, v, s, pj, pi);
    RankNet(l, nz, v, s, pj, pi);
    InflowIsRates(x.e.g, x.after, x.faces, dtg);
    BoundaryInIsDivergence(x.e.g, x.after, x.faces, dtg);
  }

  lemma LeftIs(l: Layout, r: PerRank<R.StepRun>)
    requires l.Ok()
    ensures Left(l, r) == PlainFlows(l, Views(r), StepsOf(r))
  {
    hide PlainFlows;
  }

  lemma LeftConsistent(l: Layout, nz: nat, r: PerRank<R.StepRun>, dtg: real)
    requires AllStepped(l, nz, r, dtg) && l.Ok()
    ensures Consistent(l, nz, Left(l, r))
  {
    SharedFacesAgree(l, nz, r, dtg);
    hide ColumnsMeet, RowsMeet, FluxesX, FluxesY, Whole, AllStepped;
  }

  /** Main result: when all ranks of a layout step from exchanged halos, what crosses between them
      cancels; their audited boundary inflows add up to what passes the boundary of the domain's active
      cells, and the domain's volume changes by exactly the sum of their audits. */
  lemma RanksConserve(l: Layout, nz: nat, r: PerRank<R.StepRun>, dtg: real)
    requires AllStepped(l, nz, r, dtg) && l.Ok()
    ensures OverRanks(l, Crossings(r, dtg)) == 0.0
    ensures OverRanks(l, Inflows(r)) == dtg * OverRanks(l, BlockSums(l, nz, BoundaryOf(l, nz, Left(l, r))))
    ensures OverRanks(l, Changes(r)) == OverRanks(l, Books(r))
  {
    hide *;
    var net, edge := BlockSums(l, nz, NetOf(l, Left(l, r))), BlockSums(l, nz, BoundaryOf(l, nz, Left(l, r)));
    forall pj, pi | IsRank(l, pj, pi)
      ensures Inflows(r)(pj, pi) == dtg * edge(pj, pi)
      ensures Crossings(r, dtg)(pj, pi) == dtg * net(pj, pi) - Inflows(r)(pj, pi)
      ensures Changes(r)(pj, pi) == Books(r)(pj, pi) + 1.0 * Crossings(r, dtg)(pj, pi)
    {
      RankLedgers(l, nz, r, dtg, pj, pi);
    }
    LeftConsistent(l, nz, r, dtg);
    RanksTelescope(l, nz, Left(l, r));
    RanksScaled(l, edge, dtg, Inflows(r));
    var lateral: PerRank<real> := (pj, pi) => dtg * net(pj, pi);
    RanksScaled(l, net, dtg, lateral);
    OverRanksLinear(l, lateral, -1.0, Inflows(r), Crossings(r, dtg));
    OverRanksLinear(l, Books(r), 1.0, Crossings(r, dtg), Changes(r));
  }

  lemma RanksScaled(l: Layout, u: PerRank<real>, c: real, w: PerRank<real>)
    requires forall pj, pi :: IsRank(l, pj, pi) ==> w(pj, pi) == c * u(pj, pi)
    ensures OverRanks(l, w) == c * OverRanks(l, u)
  {
    hide *;
    var none: PerRank<real> := (pj, pi) => 0.0;
    OverRanksLinear(l, none, -1.0, none, none);
    OverRanksLinear(l, none, c, u, w);
  }
}
