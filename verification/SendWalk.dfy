/** The vertical send walks of the post-allocation step (src/gw/Reallocate.cpp:303-429):
    one column's over-saturation excess is walked up and down into pore room, vented
    through the top, or dropped.  A Column is a value here; the class RichardsSolver runs
    the same walks in place on its arrays and is proved against these functions. */
module SendWalk {
  import opened Sums

  /** What a column's walks read and never change.  Cell k is active iff k >= ktop. */
  datatype Site = Site(nz: nat, ktop: nat, area: real, dtg: real, dz: seq<real>,
                       record: bool, coupled: bool, minDepth: real, headTop: bool)
  {
    ghost predicate Valid() {
      && ktop <= nz == |dz|
      && area > 0.0 && dtg > 0.0
      && forall k :: 0 <= k < nz ==> dz[k] > 0.0
    }

    /** The volume of cell k. */
    function Vol(k: int): real requires 0 <= k < |dz| { area * dz[k] }
  }

  /** theta and room per cell; q and corr per face, face k lying above cell k. */
  datatype Column = Column(theta: seq<real>, room: seq<real>, q: seq<real>, corr: seq<real>) {
    ghost predicate Fits(p: Site) {
      |theta| == |room| == p.nz && |q| == |corr| == p.nz + 1
    }
  }

  /** The surface cell over a column: its stage and depth, the infiltration budget and deposit
      tally of the coupling window, the exchanged-not-yet-applied depth, the applied seepage
      rate, the vented volume of the transport window, and the top-exchange mode. */
  datatype Pond = Pond(eta: real, dept: real, avail: real, gain: real, seepAccum: real, qss: real,
                       ventWin: real, mode: int)
  {
    /** The surface after a deposit of depth d. */
    function Raised(d: real): Pond {
      this.(eta := eta + d, dept := dept + d, avail := avail + d, gain := gain + d)
    }

    function Vented(vol: real, area: real, record: bool): Pond
      requires area != 0.0
    {
      var p := Raised(vol / area);
      if record then p.(ventWin := ventWin + vol) else p
    }
  }

  /** A column during the sweep, with the sweep's two reductions. */
  datatype Sweep = Sweep(col: Column, pond: Pond, lost: real, vent: real)

  // ----- the walks

  /** The rate of a move as face f sees it: positive upward, zero off its path. */
  function Crossed(from: int, to: int, f: int, rate: real): real {
    if to < f <= from then rate else if from < f <= to then -rate else 0.0
  }

  /** The legacy mirror of a rate: with its sign at one face. */
  function Signed(up: bool, rate: real): real { if up then rate else -rate }

  /** The path correction after a move: the legacy mirror at one face is taken back and the
      rate is put on every face crossed. */
  function Recorded(p: Site, corr: seq<real>, from: int, to: int, vol: real, legacyFace: int, up: bool): seq<real>
    requires p.dtg > 0.0
  {
    if p.record then
      var rate := vol / p.dtg;
      seq(|corr|, f requires 0 <= f < |corr| =>
        corr[f] - (if f == legacyFace then Signed(up, rate) else 0.0) + Crossed(from, to, f, rate))
    else corr
  }

  lemma RecordedSize(p: Site, corr: seq<real>, from: int, to: int, vol: real, legacyFace: int, up: bool)
    requires p.dtg > 0.0
    ensures |Recorded(p, corr, from, to, vol, legacyFace, up)| == |corr|
  {
  }

  lemma RecordedAt(p: Site, corr: seq<real>, from: int, to: int, vol: real, legacyFace: int, up: bool, f: int)
    requires p.dtg > 0.0 && 0 <= f < |corr|
    ensures |Recorded(p, corr, from, to, vol, legacyFace, up)| == |corr|
    ensures Recorded(p, corr, from, to, vol, legacyFace, up)[f]
            == if p.record then corr[f] - (if f == legacyFace then Signed(up, vol / p.dtg) else 0.0)
                                + Crossed(from, to, f, vol / p.dtg)
               else corr[f]
  {
  }

  /** The move of vol through one face of the legacy mirror. */
  function Mirrored(p: Site, c: Column, from: int, to: int, vol: real, face: nat, up: bool): (r: Column)
    requires p.Valid() && c.Fits(p) && face <= p.nz
    ensures r.Fits(p)
  {
    c.(q := c.q[face := c.q[face] + Signed(up, vol / p.dtg)],
       corr := Recorded(p, c.corr, from, to, vol, face, up))
  }

  /** Cell `to` with vol more water and less room. */
  function Filled(p: Site, c: Column, to: nat, vol: real): (r: Column)
    requires p.Valid() && c.Fits(p) && to < p.nz
    ensures r.Fits(p)
  {
    c.(theta := c.theta[to := c.theta[to] + vol / p.Vol(to)], room := c.room[to := c.room[to] - vol])
  }

  /** Cell `to` receives vol from cell `from`. */
  function Deposit(p: Site, c: Column, from: nat, to: nat, vol: real, up: bool): (r: Column)
    requires p.Valid() && c.Fits(p) && to < p.nz
    ensures r.Fits(p)
  {
    Mirrored(p, Filled(p, c, to, vol), from, to, vol, if up then to + 1 else to, up)
  }

  function Take(room: real, dV: real): real { if room > dV then dV else room }

  /** The upward walk from cell ll: the column, the cell reached, and what is left. */
  function WalkUp(p: Site, c: Column, from: nat, ll: nat, dV: real): (r: (Column, nat, real))
    requires p.Valid() && c.Fits(p) && ll < p.nz
    ensures r.0.Fits(p) && r.1 <= ll
    ensures p.ktop <= ll ==> p.ktop <= r.1
    decreases ll
  {
    if ll > p.ktop && dV > 0.0 then
      if c.room[ll - 1] > 0.0 then
        var take := Take(c.room[ll - 1], dV);
        WalkUp(p, Deposit(p, c, from, ll - 1, take, true), from, ll - 1, dV - take)
      else WalkUp(p, c, from, ll - 1, dV)
    else (c, ll, dV)
  }

  /** The downward walk below cell ll. */
  function WalkDown(p: Site, c: Column, from: nat, ll: nat, dV: real): (r: (Column, real))
    requires p.Valid() && c.Fits(p) && ll < p.nz
    ensures r.0.Fits(p)
    decreases p.nz - ll
  {
    if ll + 1 < p.nz && dV > 0.0 then
      if c.room[ll + 1] > 0.0 then
        var take := Take(c.room[ll + 1], dV);
        WalkDown(p, Deposit(p, c, from, ll + 1, take, false), from, ll + 1, dV - take)
      else WalkDown(p, c, from, ll + 1, dV)
    else (c, dV)
  }

  /** What happens to a remainder r that reached the column top, cell ll. */
  function AtTop(p: Site, s: Sweep, k: nat, ll: nat, r: real): (s': Sweep)
    requires p.Valid() && s.col.Fits(p) && ll < p.nz
    ensures s'.col.Fits(p)
  {
    if p.coupled then
      var d := r / p.area;
      if s.pond.dept > 0.0 || d > p.minDepth then
        Sweep(Mirrored(p, s.col, k, ll - 1, r, ll, true), s.pond.Vented(r, p.area, p.record), s.lost, s.vent + r)
      else s.(lost := s.lost - r)
    else if p.headTop then
      s.(col := Mirrored(p, s.col, k, ll - 1, r, ll, true))
    else
      var (c, rest) := WalkDown(p, s.col, k, ll, r);
      s.(col := c, lost := s.lost - rest)
  }

  function SendUp(p: Site, s: Sweep, k: nat, dV: real): (s': Sweep)
    requires p.Valid() && s.col.Fits(p) && k < p.nz
    ensures s'.col.Fits(p)
  {
    if dV > 0.0 then
      var (c, ll, r) := WalkUp(p, s.col, k, k, dV);
      if r > 0.0 then AtTop(p, s.(col := c), k, ll, r) else s.(col := c)
    else s
  }

  function SendDown(p: Site, s: Sweep, k: nat, dV: real): (s': Sweep)
    requires p.Valid() && s.col.Fits(p) && k < p.nz
    ensures s'.col.Fits(p)
  {
    if dV > 0.0 then
      var (c, rest) := WalkDown(p, s.col, k, k, dV);
      s.(col := c, lost := s.lost - rest)
    else s
  }

  function SendCell(p: Site, s: Sweep, k: nat, up: real, down: real): (s': Sweep)
    requires p.Valid() && s.col.Fits(p) && k < p.nz
    ensures s'.col.Fits(p)
  {
    if k < p.ktop then s else SendDown(p, SendUp(p, s, k, up), k, down)
  }

  /** The sweep over cells 0, ..., k - 1 in ascending order. */
  function SweepTo(p: Site, s: Sweep, up: seq<real>, down: seq<real>, k: nat): (s': Sweep)
    requires p.Valid() && s.col.Fits(p) && k <= p.nz == |up| == |down|
    ensures s'.col.Fits(p)
  {
    if k == 0 then s
    else SendCell(p, SweepTo(p, s, up, down, k - 1), k - 1, up[k - 1], down[k - 1])
  }

  // ----- what one move does

  ghost function Water(p: Site, c: Column, k: int): real
    requires p.Valid() && c.Fits(p) && 0 <= k < p.nz
  { c.theta[k] * p.Vol(k) }

  ghost function WaterLine(p: Site, c: Column): int -> real
    requires p.Valid() && c.Fits(p)
  { k => if 0 <= k < p.nz then Water(p, c, k) else 0.0 }

  /** All the water of the column. */
  ghost function Stored(p: Site, c: Column): real
    requires p.Valid() && c.Fits(p)
  { Sum(0, p.nz, WaterLine(p, c)) }

  /** The corrected flux through face f, positive upward. */
  ghost function Flux(p: Site, c: Column, f: int): real
    requires c.Fits(p) && 0 <= f <= p.nz
  { c.q[f] + c.corr[f] }

  /** The volume the corrected fluxes bring into cell k over the step: its discrete divergence. */
  ghost function Inflow(p: Site, c: Column, k: int): real
    requires c.Fits(p) && 0 <= k < p.nz
  { p.dtg * (Flux(p, c, k + 1) - Flux(p, c, k)) }

  ghost predicate RoomOk(p: Site, c: Column) requires c.Fits(p) {
    forall k :: p.ktop <= k < p.nz ==> c.room[k] >= 0.0
  }

  /** Moves keep each cell's water plus room, never enlarge a room, and add `sent` in all. */
  ghost predicate Kept(p: Site, c: Column, c': Column, sent: real)
    requires p.Valid()
  {
    && c.Fits(p) && c'.Fits(p)
    && (forall k :: 0 <= k < p.nz ==> c'.room[k] + Water(p, c', k) == c.room[k] + Water(p, c, k))
    && (forall k :: 0 <= k < p.nz ==> c'.room[k] <= c.room[k])
    && (forall k :: 0 <= k < p.ktop ==> c'.room[k] == c.room[k] && c'.theta[k] == c.theta[k])
    && (RoomOk(p, c) ==> RoomOk(p, c'))
    && Stored(p, c') == Stored(p, c) + sent
  }

  /** The column's end faces change by the volume `out` through the top alone. */
  ghost predicate EndFaces(p: Site, c: Column, c': Column, out: real)
    requires p.Valid() && c.Fits(p) && c'.Fits(p)
  {
    && (forall f :: 0 <= f < p.ktop ==> c'.q[f] == c.q[f] && c'.corr[f] == c.corr[f])
    && c'.corr[p.ktop] == c.corr[p.ktop]
    && c'.corr[p.nz] == c.corr[p.nz]
    && (p.ktop < p.nz ==> c'.q[p.nz] == c.q[p.nz])
    && (p.ktop < p.nz ==> c'.q[p.ktop] == c.q[p.ktop] + out / p.dtg)
  }

  /** The corrected fluxes diverge, in every active cell, by what the cell received minus the
      volume `delivered` that left cell `from`; with recording off they do not change. */
  ghost predicate Paths(p: Site, c: Column, c': Column, from: int, delivered: real)
    requires p.Valid() && c.Fits(p) && c'.Fits(p)
  {
    if p.record
    then forall k :: p.ktop <= k < p.nz ==>
           Inflow(p, c', k) - Inflow(p, c, k)
           == Water(p, c', k) - Water(p, c, k) - (if k == from then delivered else 0.0)
    else c'.corr == c.corr
  }

  /** Column c' is c after cell `from` delivered `sent` to cells of the column and `out`
      through the column's top face. */
  ghost predicate Moved(p: Site, c: Column, c': Column, from: int, sent: real, out: real)
    requires p.Valid()
  {
    Kept(p, c, c', sent) && EndFaces(p, c, c', out) && Paths(p, c, c', from, sent + out)
  }

  lemma MovedRefl(p: Site, c: Column, from: int)
    requires p.Valid() && c.Fits(p)
    ensures Moved(p, c, c, from, 0.0, 0.0)
  {
  }

  lemma MovedTrans(p: Site, a: Column, b: Column, c: Column, from: int, s: real, t: real, o: real, u: real)
    requires p.Valid()
    requires Moved(p, a, b, from, s, o) && Moved(p, b, c, from, t, u)
    ensures Moved(p, a, c, from, s + t, o + u)
  {
    assert (o + u) / p.dtg == o / p.dtg + u / p.dtg;
  }

  lemma CrossedStep(from: int, to: int, k: int, rate: real)
    ensures Crossed(from, to, k + 1, rate) - Crossed(from, to, k, rate)
            == (if k == to then rate else 0.0) - (if k == from then rate else 0.0)
  {
  }

  /** Legacy mirror and path correction together put the rate on every face crossed. */
  lemma MirroredFlux(p: Site, c: Column, from: int, to: int, vol: real, face: nat, up: bool, f: nat)
    requires p.Valid() && c.Fits(p) && face <= p.nz && f <= p.nz
    requires p.record
    ensures Flux(p, Mirrored(p, c, from, to, vol, face, up), f) == Flux(p, c, f) + Crossed(from, to, f, vol / p.dtg)
  {
  }

  /** A mirrored move brings vol into `to` and takes it out of `from`. */
  lemma MirroredInflow(p: Site, c: Column, from: int, to: int, vol: real, face: nat, up: bool, k: nat)
    requires p.Valid() && c.Fits(p) && face <= p.nz && k < p.nz
    requires p.record
    ensures Inflow(p, Mirrored(p, c, from, to, vol, face, up), k) - Inflow(p, c, k)
            == (if k == to then vol else 0.0) - (if k == from then vol else 0.0)
  {
    hide Mirrored, Flux, Crossed, Site.Valid;
    RateIs(p, vol);
    var rate := vol / p.dtg;
    MirroredFlux(p, c, from, to, vol, face, up, k);
    MirroredFlux(p, c, from, to, vol, face, up, k + 1);
    CrossedStep(from, to, k, rate);
    InflowChange(p.dtg, Flux(p, c, k), Flux(p, c, k + 1), Crossed(from, to, k, rate), Crossed(from, to, k + 1, rate),
                 rate, vol,
                 k == to, k == from);
  }

  lemma RateIs(p: Site, vol: real)
    requires p.Valid()
    ensures p.dtg != 0.0 && p.dtg * (vol / p.dtg) == vol
  {
  }

  lemma InflowChange(dtg: real, a: real, b: real, m: real, n: real, rate: real, vol: real, gains: bool, loses: bool)
    requires dtg * rate == vol
    requires n - m == (if gains then rate else 0.0) - (if loses then rate else 0.0)
    ensures dtg * ((b + n) - (a + m)) - dtg * (b - a) == (if gains then vol else 0.0) - (if loses then vol else 0.0)
  {
    assert dtg * ((b + n) - (a + m)) - dtg * (b - a) == dtg * (n - m);
  }

  /** Putting vol into a cell raises its water by vol. */
  lemma WaterAdded(p: Site, t: real, k: nat, vol: real)
    requires p.Valid() && k < p.nz
    ensures (t + vol / p.Vol(k)) * p.Vol(k) == t * p.Vol(k) + vol
  {
    var v := p.Vol(k);
    assert v > 0.0;
    assert vol / v * v == vol;
  }

  lemma StoredAdded(p: Site, c: Column, c': Column, to: nat, vol: real)
    requires p.Valid() && c.Fits(p) && c'.Fits(p) && to < p.nz
    requires forall k :: 0 <= k < p.nz && k != to ==> c'.theta[k] == c.theta[k]
    requires Water(p, c', to) == Water(p, c, to) + vol
    ensures Stored(p, c') == Stored(p, c) + vol
  {
    SumPoint(0, p.nz, WaterLine(p, c), WaterLine(p, c'), to);
  }

  lemma DepositKeeps(p: Site, c: Column, from: nat, to: nat, vol: real, up: bool)
    requires p.Valid() && c.Fits(p) && p.ktop <= to < p.nz
    requires 0.0 <= vol <= c.room[to]
    ensures Kept(p, c, Deposit(p, c, from, to, vol, up), vol)
    ensures Water(p, Deposit(p, c, from, to, vol, up), to) == Water(p, c, to) + vol
    ensures forall k :: 0 <= k < p.nz && k != to ==> Water(p, Deposit(p, c, from, to, vol, up), k) == Water(p, c, k)
  {
    WaterAdded(p, c.theta[to], to, vol);
    StoredAdded(p, c, Deposit(p, c, from, to, vol, up), to, vol);
  }

  lemma DepositMoves(p: Site, c: Column, from: nat, to: nat, vol: real, up: bool)
    requires p.Valid() && c.Fits(p)
    requires p.ktop <= from < p.nz && p.ktop <= to < p.nz
    requires if up then to < from else p.ktop < to
    requires 0.0 <= vol <= c.room[to]
    ensures Moved(p, c, Deposit(p, c, from, to, vol, up), from, vol, 0.0)
    ensures RoomOk(p, c) ==> RoomOk(p, Deposit(p, c, from, to, vol, up))
  {
    var c' := Deposit(p, c, from, to, vol, up);
    DepositKeeps(p, c, from, to, vol, up);
    assert EndFaces(p, c, c', 0.0);
    assert Paths(p, c, c', from, vol) by { DepositPaths(p, c, from, to, vol, up); }
  }

  lemma FilledWater(p: Site, c: Column, to: nat, vol: real, k: nat)
    requires p.Valid() && c.Fits(p) && to < p.nz && k < p.nz
    ensures Water(p, Filled(p, c, to, vol), k) == Water(p, c, k) + (if k == to then vol else 0.0)
    ensures Inflow(p, Filled(p, c, to, vol), k) == Inflow(p, c, k)
  {
    if k == to { WaterAdded(p, c.theta[to], to, vol); }
  }

  lemma DepositPath(p: Site, c: Column, from: nat, to: nat, vol: real, up: bool, k: nat)
    requires p.Valid() && c.Fits(p) && to < p.nz && k < p.nz && p.record
    ensures var c' := Deposit(p, c, from, to, vol, up);
      Inflow(p, c', k) - Inflow(p, c, k) == Water(p, c', k) - Water(p, c, k) - (if k == from then vol else 0.0)
  {
    FilledWater(p, c, to, vol, k);
    MirroredInflow(p, Filled(p, c, to, vol), from, to, vol, if up then to + 1 else to, up, k);
    assert Water(p, Deposit(p, c, from, to, vol, up), k) == Water(p, Filled(p, c, to, vol), k);
    hide Inflow, Water, Filled, Mirrored;
  }

  lemma DepositPaths(p: Site, c: Column, from: nat, to: nat, vol: real, up: bool)
    requires p.Valid() && c.Fits(p) && to < p.nz
    ensures Paths(p, c, Deposit(p, c, from, to, vol, up), from, vol)
  {
    if p.record {
      forall k | p.ktop <= k < p.nz
        ensures var c' := Deposit(p, c, from, to, vol, up);
          Inflow(p, c', k) - Inflow(p, c, k) == Water(p, c', k) - Water(p, c, k) - (if k == from then vol else 0.0)
      {
        DepositPath(p, c, from, to, vol, up, k);
      }
    }
  }

  /** A volume leaving through the top face. */
  lemma ReleaseMoves(p: Site, c: Column, from: nat, vol: real)
    requires p.Valid() && c.Fits(p) && p.ktop <= from < p.nz
    ensures Moved(p, c, Mirrored(p, c, from, p.ktop - 1, vol, p.ktop, true), from, 0.0, vol)
  {
    var c' := Mirrored(p, c, from, p.ktop - 1, vol, p.ktop, true);
    SumExt(0, p.nz, WaterLine(p, c), WaterLine(p, c'));
    assert Kept(p, c, c', 0.0) && EndFaces(p, c, c', vol);
    assert Paths(p, c, c', from, vol) by { ReleasePaths(p, c, from, vol); }
    hide *;
  }

  lemma ReleasePaths(p: Site, c: Column, from: nat, vol: real)
    requires p.Valid() && c.Fits(p) && p.ktop <= from < p.nz
    ensures Paths(p, c, Mirrored(p, c, from, p.ktop - 1, vol, p.ktop, true), from, vol)
  {
    var c' := Mirrored(p, c, from, p.ktop - 1, vol, p.ktop, true);
    if p.record {
      forall k | p.ktop <= k < p.nz
        ensures Inflow(p, c', k) - Inflow(p, c, k) == Water(p, c', k) - Water(p, c, k)
                - (if k == from then vol else 0.0)
      {
        assert Water(p, c', k) == Water(p, c, k);
        MirroredInflow(p, c, from, p.ktop - 1, vol, p.ktop, true, k);
        hide Inflow, Water, Mirrored;
      }
    }
  }

  // ----- what a walk does

  /** Pore room of cells [lo, hi). */
  ghost function RoomIn(c: Column, lo: int, hi: int): real
    requires 0 <= lo && hi <= |c.room|
    decreases hi - lo
  { if lo >= hi then 0.0 else c.room[lo] + RoomIn(c, lo + 1, hi) }

  lemma {:induction false} WalkUpMoves(p: Site, c: Column, from: nat, ll: nat, dV: real)
    requires p.Valid() && c.Fits(p) && RoomOk(p, c)
    requires p.ktop <= ll <= from < p.nz && dV >= 0.0
    ensures var (c', top, rest) := WalkUp(p, c, from, ll, dV);
      && Moved(p, c, c', from, dV - rest, 0.0)
      && 0.0 <= rest <= dV
      && (rest > 0.0 ==> top == p.ktop)
    decreases ll
  {
    hide Moved, Deposit;
    if ll > p.ktop && dV > 0.0 {
      if c.room[ll - 1] > 0.0 {
        var take := Take(c.room[ll - 1], dV);
        var d := Deposit(p, c, from, ll - 1, take, true);
        DepositMoves(p, c, from, ll - 1, take, true);
        WalkUpMoves(p, d, from, ll - 1, dV - take);
        var (c', top, rest) := WalkUp(p, d, from, ll - 1, dV - take);
        MovedTrans(p, c, d, c', from, take, dV - take - rest, 0.0, 0.0);
      } else {
        WalkUpMoves(p, c, from, ll - 1, dV);
      }
    } else {
      MovedRefl(p, c, from);
    }
  }

  lemma {:induction false} WalkDownMoves(p: Site, c: Column, from: nat, ll: nat, dV: real)
    requires p.Valid() && c.Fits(p) && RoomOk(p, c)
    requires p.ktop <= from < p.nz && p.ktop <= ll < p.nz && dV >= 0.0
    ensures var (c', rest) := WalkDown(p, c, from, ll, dV);
      && Moved(p, c, c', from, dV - rest, 0.0)
      && 0.0 <= rest <= dV
    decreases p.nz - ll
  {
    hide Moved, Deposit;
    if ll + 1 < p.nz && dV > 0.0 {
      if c.room[ll + 1] > 0.0 {
        var take := Take(c.room[ll + 1], dV);
        var d := Deposit(p, c, from, ll + 1, take, false);
        DepositMoves(p, c, from, ll + 1, take, false);
        WalkDownMoves(p, d, from, ll + 1, dV - take);
        var (c', rest) := WalkDown(p, d, from, ll + 1, dV - take);
        MovedTrans(p, c, d, c', from, take, dV - take - rest, 0.0, 0.0);
      } else {
        WalkDownMoves(p, c, from, ll + 1, dV);
      }
    } else {
      MovedRefl(p, c, from);
    }
  }

  // ----- the walks against their reference: water fills the nearest room first

  function Min(a: real, b: real): real { if a < b then a else b }
  function Max(a: real, b: real): real { if a > b then a else b }

  lemma {:induction false} RoomInSplit(c: Column, lo: int, hi: int)
    requires 0 <= lo < hi <= |c.room|
    ensures RoomIn(c, lo, hi) == RoomIn(c, lo, hi - 1) + c.room[hi - 1]
    decreases hi - lo
  {
    if lo + 1 < hi { RoomInSplit(c, lo + 1, hi); }
  }

  lemma {:induction false} RoomInSame(c: Column, d: Column, lo: int, hi: int)
    requires 0 <= lo && hi <= |c.room| == |d.room|
    requires forall k :: lo <= k < hi ==> c.room[k] == d.room[k]
    ensures RoomIn(c, lo, hi) == RoomIn(d, lo, hi)
    decreases hi - lo
  {
    if lo < hi { RoomInSame(c, d, lo + 1, hi); }
  }

  lemma {:induction false} RoomInNonneg(c: Column, lo: int, hi: int)
    requires 0 <= lo && hi <= |c.room|
    requires forall k :: lo <= k < hi ==> c.room[k] >= 0.0
    ensures RoomIn(c, lo, hi) >= 0.0
    decreases hi - lo
  {
    if lo < hi { RoomInNonneg(c, lo + 1, hi); }
  }

  lemma DepositRoom(p: Site, c: Column, from: nat, to: nat, vol: real, up: bool)
    requires p.Valid() && c.Fits(p) && to < p.nz
    ensures Deposit(p, c, from, to, vol, up).room == c.room[to := c.room[to] - vol]
  {
  }

  /** The upward walk leaves over what no cell above could hold. */
  lemma {:induction false} WalkUpLeaves(p: Site, c: Column, from: nat, ll: nat, dV: real)
    requires p.Valid() && c.Fits(p) && RoomOk(p, c)
    requires p.ktop <= ll < p.nz && dV >= 0.0
    ensures WalkUp(p, c, from, ll, dV).2 == Max(0.0, dV - RoomIn(c, p.ktop, ll))
    decreases ll
  {
    hide Deposit;
    RoomInNonneg(c, p.ktop, ll);
    if ll > p.ktop && dV > 0.0 {
      RoomInSplit(c, p.ktop, ll);
      RoomInNonneg(c, p.ktop, ll - 1);
      if c.room[ll - 1] > 0.0 {
        var take := Take(c.room[ll - 1], dV);
        var d := Deposit(p, c, from, ll - 1, take, true);
        DepositRoom(p, c, from, ll - 1, take, true);
        RoomInSame(c, d, p.ktop, ll - 1);
        WalkUpLeaves(p, d, from, ll - 1, dV - take);
      } else {
        WalkUpLeaves(p, c, from, ll - 1, dV);
      }
    }
  }

  /** The upward walk gives cell k what the nearer cells below it could not hold, up to its room. */
  lemma {:induction false} WalkUpFills(p: Site, c: Column, from: nat, ll: nat, dV: real, k: nat)
    requires p.Valid() && c.Fits(p) && RoomOk(p, c)
    requires p.ktop <= ll < p.nz && dV >= 0.0 && p.ktop <= k < p.nz
    ensures c.room[k] - WalkUp(p, c, from, ll, dV).0.room[k]
            == if k < ll then Min(c.room[k], Max(0.0, dV - RoomIn(c, k + 1, ll))) else 0.0
    decreases ll
  {
    hide Deposit;
    if k < ll { RoomInNonneg(c, k + 1, ll); }
    if ll > p.ktop && dV > 0.0 {
      if k < ll - 1 { RoomInSplit(c, k + 1, ll); RoomInNonneg(c, k + 1, ll - 1); }
      if c.room[ll - 1] > 0.0 {
        var take := Take(c.room[ll - 1], dV);
        var d := Deposit(p, c, from, ll - 1, take, true);
        DepositRoom(p, c, from, ll - 1, take, true);
        if k < ll - 1 { RoomInSame(c, d, k + 1, ll - 1); }
        WalkUpFills(p, d, from, ll - 1, dV - take, k);
      } else {
        WalkUpFills(p, c, from, ll - 1, dV, k);
      }
    }
  }

  /** The downward walk leaves over what no cell below could hold. */
  lemma {:induction false} WalkDownLeaves(p: Site, c: Column, from: nat, ll: nat, dV: real)
    requires p.Valid() && c.Fits(p) && RoomOk(p, c)
    requires p.ktop <= ll < p.nz && dV >= 0.0
    ensures WalkDown(p, c, from, ll, dV).1 == Max(0.0, dV - RoomIn(c, ll + 1, p.nz))
    decreases p.nz - ll
  {
    hide Deposit;
    RoomInNonneg(c, ll + 1, p.nz);
    if ll + 1 < p.nz && dV > 0.0 {
      RoomInNonneg(c, ll + 2, p.nz);
      if c.room[ll + 1] > 0.0 {
        var take := Take(c.room[ll + 1], dV);
        var d := Deposit(p, c, from, ll + 1, take, false);
        DepositRoom(p, c, from, ll + 1, take, false);
        RoomInSame(c, d, ll + 2, p.nz);
        WalkDownLeaves(p, d, from, ll + 1, dV - take);
      } else {
        WalkDownLeaves(p, c, from, ll + 1, dV);
      }
    }
  }

  /** The downward walk gives cell k what the nearer cells above it could not hold, up to its room. */
  lemma {:induction false} WalkDownFills(p: Site, c: Column, from: nat, ll: nat, dV: real, k: nat)
    requires p.Valid() && c.Fits(p) && RoomOk(p, c)
    requires p.ktop <= ll < p.nz && dV >= 0.0 && k < p.nz
    ensures c.room[k] - WalkDown(p, c, from, ll, dV).0.room[k]
            == if ll < k then Min(c.room[k], Max(0.0, dV - RoomIn(c, ll + 1, k))) else 0.0
    decreases p.nz - ll
  {
    hide Deposit;
    if ll < k { RoomInNonneg(c, ll + 1, k); }
    if ll + 1 < p.nz && dV > 0.0 {
      if ll + 1 < k { RoomInNonneg(c, ll + 2, k); }
      if c.room[ll + 1] > 0.0 {
        var take := Take(c.room[ll + 1], dV);
        var d := Deposit(p, c, from, ll + 1, take, false);
        DepositRoom(p, c, from, ll + 1, take, false);
        if ll + 1 < k { RoomInSame(c, d, ll + 2, k); }
        WalkDownFills(p, d, from, ll + 1, dV - take, k);
      } else {
        WalkDownFills(p, c, from, ll + 1, dV, k);
      }
    }
  }

  // ----- one sender, and the whole sweep

  /** The sweep after `drop` was discarded and `out` left through the top. */
  ghost predicate Booked(p: Site, s: Sweep, s': Sweep, drop: real, out: real)
    requires p.Valid()
  {
    && drop >= 0.0 && out >= 0.0
    && s'.lost == s.lost - drop
    && (if p.coupled then
          s'.vent == s.vent + out && s'.pond == s.pond.Vented(out, p.area, p.record)
        else
          s'.vent == s.vent && s'.pond == s.pond && (out > 0.0 ==> p.headTop))
  }

  lemma BookedTrans(p: Site, a: Sweep, b: Sweep, c: Sweep, d: real, o: real, d': real, o': real)
    requires p.Valid() && Booked(p, a, b, d, o) && Booked(p, b, c, d', o')
    ensures Booked(p, a, c, d + d', o + o')
  {
    if p.coupled {
      assert (o + o') / p.area == o / p.area + o' / p.area;
      assert a.pond.Vented(o, p.area, p.record).Vented(o', p.area, p.record) == a.pond.Vented(o + o', p.area, p.record);
    }
  }

  lemma AtTopMoves(p: Site, s: Sweep, k: nat, r: real) returns (drop: real, out: real)
    requires p.Valid() && s.col.Fits(p) && RoomOk(p, s.col)
    requires p.ktop <= k < p.nz && r > 0.0
    ensures var s' := AtTop(p, s, k, p.ktop, r);
      && Booked(p, s, s', drop, out) && drop + out <= r
      && Moved(p, s.col, s'.col, k, r - drop - out, out)
  {
    hide Moved;
    drop, out := 0.0, 0.0;
    if p.coupled {
      if s.pond.dept > 0.0 || r / p.area > p.minDepth {
        out := r;
        ReleaseMoves(p, s.col, k, r);
      } else {
        drop := r;
        MovedRefl(p, s.col, k);
      }
    } else if p.headTop {
      out := r;
      ReleaseMoves(p, s.col, k, r);
    } else {
      WalkDownMoves(p, s.col, k, p.ktop, r);
      drop := WalkDown(p, s.col, k, p.ktop, r).1;
    }
  }

  lemma MovedRoomOk(p: Site, a: Column, b: Column, from: int, s: real, o: real)
    requires p.Valid() && Moved(p, a, b, from, s, o)
    ensures a.Fits(p) && b.Fits(p) && (RoomOk(p, a) ==> RoomOk(p, b))
  {
  }

  lemma SendUpMoves(p: Site, s: Sweep, k: nat, dV: real) returns (drop: real, out: real)
    requires p.Valid() && s.col.Fits(p) && RoomOk(p, s.col)
    requires p.ktop <= k < p.nz && dV >= 0.0
    ensures var s' := SendUp(p, s, k, dV);
      && Booked(p, s, s', drop, out) && drop + out <= dV
      && Moved(p, s.col, s'.col, k, dV - drop - out, out)
  {
    hide Moved;
    drop, out := 0.0, 0.0;
    if dV > 0.0 {
      WalkUpMoves(p, s.col, k, k, dV);
      var (c, ll, r) := WalkUp(p, s.col, k, k, dV);
      if r > 0.0 {
        MovedRoomOk(p, s.col, c, k, dV - r, 0.0);
        drop, out := AtTopMoves(p, s.(col := c), k, r);
        MovedTrans(p, s.col, c, AtTop(p, s.(col := c), k, ll, r).col, k, dV - r, r - drop - out, 0.0, out);
      }
    } else {
      MovedRefl(p, s.col, k);
    }
  }

  lemma SendCellMoves(p: Site, s: Sweep, k: nat, up: real, down: real) returns (drop: real, out: real)
    requires p.Valid() && s.col.Fits(p) && RoomOk(p, s.col)
    requires p.ktop <= k < p.nz && up >= 0.0 && down >= 0.0
    ensures var s' := SendCell(p, s, k, up, down);
      && Booked(p, s, s', drop, out) && drop + out <= up + down
      && Moved(p, s.col, s'.col, k, up + down - drop - out, out)
  {
    hide Moved, SendUp, WalkDown, Site.Valid;
    drop, out := SendUpMoves(p, s, k, up);
    var m := SendUp(p, s, k, up);
    MovedRoomOk(p, s.col, m.col, k, up - drop - out, out);
    var rest := 0.0;
    if down > 0.0 {
      WalkDownMoves(p, m.col, k, k, down);
      rest := WalkDown(p, m.col, k, k, down).1;
    } else {
      MovedRefl(p, m.col, k);
    }
    MovedTrans(p, s.col, m.col, SendCell(p, s, k, up, down).col, k, up - drop - out, down - rest, out, 0.0);
    drop := drop + rest;
  }

  /** What cells [ktop, k) sent off and was not dropped. */
  ghost function Delivered(p: Site, up: seq<real>, down: seq<real>, drops: seq<real>, k: int): real
    requires |up| == |down| == |drops| && k <= |up|
  { Sum(p.ktop, k, l => if 0 <= l < k then up[l] + down[l] - drops[l] else 0.0) }

  ghost predicate Sends(p: Site, up: seq<real>, down: seq<real>) {
    |up| == |down| == p.nz && forall l :: p.ktop <= l < p.nz ==> up[l] >= 0.0 && down[l] >= 0.0
  }

  /** Every cell's corrected inflow changed by what it received minus what it delivered. */
  ghost predicate SweptPaths(p: Site, c: Column, c': Column, up: seq<real>, down: seq<real>, drops: seq<real>, k: int)
    requires p.Valid() && c.Fits(p) && c'.Fits(p)
    requires Sends(p, up, down) && |drops| == p.nz
  {
    if p.record
    then forall l :: p.ktop <= l < p.nz ==>
           Inflow(p, c', l) - Inflow(p, c, l)
           == Water(p, c', l) - Water(p, c, l) - (if l < k then up[l] + down[l] - drops[l] else 0.0)
    else c'.corr == c.corr
  }

  /** The sweep's guarantee after the cells below k have sent: every room stays non-negative, the
      water ledger closes on what was delivered, dropped and released through the top, the
      released volume is the change of the top face, and (with recording on) the corrected
      fluxes diverge in every cell by what it received minus what it delivered. */
  ghost predicate Swept(p: Site, s: Sweep, s': Sweep, up: seq<real>, down: seq<real>, drops: seq<real>, out: real,
                        k: int)
    requires p.Valid() && Sends(p, up, down) && k <= p.nz
  {
    && s.col.Fits(p) && s'.col.Fits(p)
    && |drops| == p.nz
    && (forall l :: p.ktop <= l < p.nz ==> 0.0 <= drops[l] <= up[l] + down[l])
    && Kept(p, s.col, s'.col, Delivered(p, up, down, drops, k) - out)
    && EndFaces(p, s.col, s'.col, out)
    && Booked(p, s, s', Dropped(p, drops, k), out)
    && SweptPaths(p, s.col, s'.col, up, down, drops, k)
  }

  lemma KeptTrans(p: Site, a: Column, b: Column, c: Column, s: real, t: real)
    requires p.Valid() && Kept(p, a, b, s) && Kept(p, b, c, t)
    ensures Kept(p, a, c, s + t)
  {
  }

  lemma EndFacesTrans(p: Site, a: Column, b: Column, c: Column, o: real, u: real)
    requires p.Valid() && a.Fits(p) && b.Fits(p) && c.Fits(p)
    requires EndFaces(p, a, b, o) && EndFaces(p, b, c, u)
    ensures EndFaces(p, a, c, o + u)
  {
    assert (o + u) / p.dtg == o / p.dtg + u / p.dtg;
  }

  lemma SweptPathsStep(p: Site, a: Column, b: Column, c: Column, up: seq<real>, down: seq<real>, drops: seq<real>,
                       k: nat, drop: real)
    requires p.Valid() && a.Fits(p) && b.Fits(p) && c.Fits(p)
    requires Sends(p, up, down) && |drops| == p.nz && p.ktop <= k < p.nz
    requires SweptPaths(p, a, b, up, down, drops, k)
    requires Paths(p, b, c, k, up[k] + down[k] - drop)
    ensures SweptPaths(p, a, c, up, down, drops[k := drop], k + 1)
  {
  }

  ghost function Dropped(p: Site, drops: seq<real>, k: int): real
    requires |drops| == p.nz
  { Sum(p.ktop, k, l => if 0 <= l < p.nz then drops[l] else 0.0) }

  lemma SumsStep(p: Site, up: seq<real>, down: seq<real>, drops: seq<real>, k: nat, drop: real)
    requires p.Valid() && Sends(p, up, down) && |drops| == p.nz && p.ktop <= k < p.nz
    ensures Delivered(p, up, down, drops[k := drop], k + 1) == Delivered(p, up, down, drops, k) + up[k] + down[k] - drop
    ensures Dropped(p, drops[k := drop], k + 1) == Dropped(p, drops, k) + drop
  {
    var drops' := drops[k := drop];
    SumExt(p.ktop, k, l => if 0 <= l < k then up[l] + down[l] - drops[l] else 0.0,
                      l => if 0 <= l < k + 1 then up[l] + down[l] - drops'[l] else 0.0);
    SumExt(p.ktop, k, l => if 0 <= l < p.nz then drops[l] else 0.0, l => if 0 <= l < p.nz then drops'[l] else 0.0);
  }

  lemma SweptStep(p: Site, s: Sweep, m: Sweep, s': Sweep, up: seq<real>, down: seq<real>, drops: seq<real>,
                  out: real, k: nat, drop: real, o: real)
    requires p.Valid() && Sends(p, up, down) && p.ktop <= k < p.nz
    requires Swept(p, s, m, up, down, drops, out, k)
    requires Booked(p, m, s', drop, o) && drop + o <= up[k] + down[k]
    requires Moved(p, m.col, s'.col, k, up[k] + down[k] - drop - o, o)
    ensures Swept(p, s, s', up, down, drops[k := drop], out + o, k + 1)
  {
    hide Kept, EndFaces, Paths, SweptPaths, Booked;
    assert s'.col.Fits(p) by { MovedRoomOk(p, m.col, s'.col, k, up[k] + down[k] - drop - o, o); }
    SumsStep(p, up, down, drops, k, drop);
    KeptTrans(p, s.col, m.col, s'.col, Delivered(p, up, down, drops, k) - out, up[k] + down[k] - drop - o);
    EndFacesTrans(p, s.col, m.col, s'.col, out, o);
    BookedTrans(p, s, m, s', Dropped(p, drops, k), out, drop, o);
    assert up[k] + down[k] - drop - o + o == up[k] + down[k] - drop;
    SweptPathsStep(p, s.col, m.col, s'.col, up, down, drops, k, drop);
    assert drop >= 0.0 && o >= 0.0 by { BookedSigns(p, m, s', drop, o); }
  }

  lemma BookedSigns(p: Site, s: Sweep, s': Sweep, drop: real, out: real)
    requires p.Valid() && Booked(p, s, s', drop, out)
    ensures drop >= 0.0 && out >= 0.0
  {
  }

  /** Main result: the whole sweep of a column. */
  lemma {:induction false} SweepMoves(p: Site, s: Sweep, up: seq<real>, down: seq<real>, k: nat)
    returns (drops: seq<real>, out: real)
    requires p.Valid() && s.col.Fits(p) && RoomOk(p, s.col)
    requires Sends(p, up, down) && k <= p.nz
    ensures Swept(p, s, SweepTo(p, s, up, down, k), up, down, drops, out, k)
    ensures k <= p.ktop ==> out == 0.0
  {
    hide Moved, Booked, Swept, SendCell, Site.Valid, RoomOk;
    if k == 0 {
      drops, out := seq(p.nz, _ => 0.0), 0.0;
      SweptNothing(p, s, up, down, drops, 0);
    } else {
      drops, out := SweepMoves(p, s, up, down, k - 1);
      SweptFacts(p, s, SweepTo(p, s, up, down, k - 1), up, down, drops, out, k - 1);
      var m := SweepTo(p, s, up, down, k - 1);
      if k - 1 < p.ktop {
        InactiveSendsNothing(p, m, k - 1, up[k - 1], down[k - 1]);
        SweptSkip(p, s, m, up, down, drops, out, k - 1);
      } else {
        var drop, o := SendCellMoves(p, m, k - 1, up[k - 1], down[k - 1]);
        SweptStep(p, s, m, SweepTo(p, s, up, down, k), up, down, drops, out, k - 1, drop, o);
        drops, out := drops[k - 1 := drop], out + o;
      }
    }
  }

  lemma InactiveSendsNothing(p: Site, s: Sweep, k: nat, up: real, down: real)
    requires p.Valid() && s.col.Fits(p) && k < p.nz && k < p.ktop
    ensures SendCell(p, s, k, up, down) == s
  {
  }

  lemma SweptFacts(p: Site, s: Sweep, s': Sweep, up: seq<real>, down: seq<real>, drops: seq<real>, out: real, k: nat)
    requires p.Valid() && Sends(p, up, down) && k <= p.nz
    requires Swept(p, s, s', up, down, drops, out, k)
    ensures |drops| == p.nz && s.col.Fits(p) && s'.col.Fits(p)
    ensures RoomOk(p, s.col) ==> RoomOk(p, s'.col)
  {
  }

  lemma SweptNothing(p: Site, s: Sweep, up: seq<real>, down: seq<real>, drops: seq<real>, k: nat)
    requires p.Valid() && s.col.Fits(p) && RoomOk(p, s.col) && Sends(p, up, down)
    requires k <= p.ktop && |drops| == p.nz && forall l :: 0 <= l < p.nz ==> drops[l] == 0.0
    ensures Swept(p, s, s, up, down, drops, 0.0, k)
  {
    assert s.pond.Vented(0.0, p.area, p.record) == s.pond;
  }

  lemma SweptSkip(p: Site, s: Sweep, m: Sweep, up: seq<real>, down: seq<real>, drops: seq<real>, out: real, k: nat)
    requires p.Valid() && Sends(p, up, down) && k < p.ktop
    requires Swept(p, s, m, up, down, drops, out, k)
    ensures Swept(p, s, m, up, down, drops, out, k + 1)
  {
  }

  /** The sweep keeps every cell at or below saturation, whatever it sends. */
  lemma SweepStaysBelowSaturation(p: Site, s: Sweep, up: seq<real>, down: seq<real>, sat: seq<real>)
    requires p.Valid() && s.col.Fits(p) && |sat| == p.nz && Sends(p, up, down)
    requires RoomOk(p, s.col) && RoomToSaturation(p, s.col, sat)
    ensures var c := SweepTo(p, s, up, down, p.nz).col;
      RoomToSaturation(p, c, sat) && forall k :: p.ktop <= k < p.nz ==> c.theta[k] <= sat[k]
  {
    hide Swept, SweepTo;
    var drops, out := SweepMoves(p, s, up, down, p.nz);
    SweptKeeps(p, s, SweepTo(p, s, up, down, p.nz), up, down, drops, out);
    KeptStaysBelow(p, s.col, SweepTo(p, s, up, down, p.nz).col, sat);
  }

  lemma KeptStaysBelow(p: Site, c: Column, c': Column, sat: seq<real>)
    requires p.Valid() && c.Fits(p) && c'.Fits(p) && |sat| == p.nz
    requires RoomToSaturation(p, c, sat) && RoomOk(p, c')
    requires forall k :: 0 <= k < p.nz ==> c'.room[k] + c'.theta[k] * p.Vol(k) == c.room[k] + c.theta[k] * p.Vol(k)
    ensures RoomToSaturation(p, c', sat) && forall k :: p.ktop <= k < p.nz ==> c'.theta[k] <= sat[k]
  {
    forall k | p.ktop <= k < p.nz ensures c'.theta[k] <= sat[k] && c'.room[k] == (sat[k] - c'.theta[k]) * p.Vol(k) {
      assert c.room[k] == (sat[k] - c.theta[k]) * p.Vol(k);
      RoomLeft(p.Vol(k), sat[k], c.theta[k], c'.theta[k], c.room[k], c'.room[k]);
    }
  }

  /** Each active cell's room is exactly what is missing to saturation. */
  ghost predicate RoomToSaturation(p: Site, c: Column, sat: seq<real>)
    requires p.Valid() && c.Fits(p) && |sat| == p.nz
  {
    forall k :: p.ktop <= k < p.nz ==> c.room[k] == (sat[k] - c.theta[k]) * p.Vol(k)
  }

  /** The reductions of a finished sweep. */
  lemma SweptBooks(p: Site, s: Sweep, s': Sweep, up: seq<real>, down: seq<real>, drops: seq<real>, out: real)
    requires p.Valid() && Sends(p, up, down) && Swept(p, s, s', up, down, drops, out, p.nz)
    ensures s'.lost <= s.lost && out >= 0.0
    ensures if p.coupled then s'.vent == s.vent + out && s'.pond == s.pond.Vented(out, p.area, p.record)
            else s'.vent == s.vent && s'.pond == s.pond
  {
  }

  lemma SweptKeeps(p: Site, s: Sweep, s': Sweep, up: seq<real>, down: seq<real>, drops: seq<real>, out: real)
    requires p.Valid() && Sends(p, up, down) && Swept(p, s, s', up, down, drops, out, p.nz)
    ensures s.col.Fits(p) && s'.col.Fits(p)
    ensures forall k :: 0 <= k < p.nz ==> s'.col.room[k] + s'.col.theta[k] * p.Vol(k)
                                          == s.col.room[k] + s.col.theta[k] * p.Vol(k)
    ensures RoomOk(p, s.col) ==> RoomOk(p, s'.col)
  {
    forall k | 0 <= k < p.nz
      ensures s'.col.room[k] + s'.col.theta[k] * p.Vol(k) == s.col.room[k] + s.col.theta[k] * p.Vol(k)
    {
      assert s'.col.room[k] + Water(p, s'.col, k) == s.col.room[k] + Water(p, s.col, k);
    }
  }

  lemma RoomLeft(v: real, sat: real, t: real, t': real, r: real, r': real)
    requires v > 0.0 && r == (sat - t) * v && r' >= 0.0
    requires r' + t' * v == r + t * v
    ensures t' <= sat && r' == (sat - t') * v
  {
    assert r == Times(sat - t, v) && r' + Times(t', v) == r + Times(t, v) && (sat - t') * v == Times(sat - t', v);
    hide Times;
    TimesLess(sat, t, v);
    TimesLess(sat, t', v);
    TimesLess(t', sat, v);
    TimesSign(t' - sat, v);
  }

  ghost function Times(x: real, v: real): real { x * v }

  lemma TimesLess(a: real, b: real, v: real)
    ensures Times(a - b, v) == Times(a, v) - Times(b, v)
  {
  }

  lemma TimesSign(a: real, v: real)
    requires v > 0.0
    ensures a > 0.0 ==> Times(a, v) > 0.0
  {
    if a > 0.0 { Positive(a, v); }
  }

  lemma Positive(a: real, b: real)
    requires a > 0.0 && b > 0.0
    ensures a * b > 0.0
  {
  }
}
