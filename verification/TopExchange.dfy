/** The coupled top of one column over a coupling window: mode classification, the budgeted
    exchange flux, its bookkeeping (src/gw/Corrector.cpp:36-81, 272-338, 387-457), window
    staging and the seepage application (src/coupling/Exchange.cpp:10-74). */
module TopExchange {
  import opened SendWalk

  datatype BcCode = NoFlux | Head | Flux | Gravity | HeadHydrostatic

  /** What one substep reads of a column's top cell: the configured top condition, heads before
      and after the solve, moisture and its bounds, conductivities and face ratios. */
  datatype TopCell = TopCell(code: BcCode, value: real, hStart: real, h: real, wc: real, wcs: real, wcr: real,
                             ksz: real, kGhost: real, kCell: real, dz: real, visc: real, rho: real)

  function Max0(x: real): real { if x > 0.0 then x else 0.0 }

  /** 0: dry seepage face; 1: capacity-limited Dirichlet top; 2: supply-limited. */
  function TopMode(x: TopCell, dtg: real, pond: Pond): int
    requires x.dz > 0.0
  {
    if pond.dept <= 0.0 then 0
    else
      var qEst := 2.0 * x.ksz * (x.hStart - pond.dept) / x.dz - x.ksz;
      if qEst < 0.0 && -qEst * dtg > pond.avail then 2 else 1
  }

  /** The Darcy flux through the top face, from half a cell below the pond. */
  function Darcy(x: TopCell, az: real, k: real, dept: real): real
    requires x.dz > 0.0
  {
    az * k * x.visc * ((x.h - dept) / (0.5 * x.dz) - x.rho)
  }

  /** The depth a flux moves over a substep. */
  function Moves(q: real, dtg: real, az: real): real requires az > 0.0 { q * dtg / az }

  /** The flux that moves depth d upward over a substep. */
  function Lifting(d: real, az: real, dtg: real): real requires dtg > 0.0 { d * az / dtg }

  /** The pore room of the top cell up to the effective-saturation mark. */
  function RoomTop(x: TopCell): real { Max0((0.9999 * x.wcs - x.wc) * x.dz) }

  /** The flux a configured top flux condition adds to a dry column, with its moisture guards. */
  function Prescribed(x: TopCell, az: real): real {
    if x.code == Flux && ((x.value > 0.0 && x.wc > x.wcr) || x.value < 0.0) then x.value * az else 0.0
  }

  /** The exchange flux of the top face, and the infiltration budget left after it. */
  function TopFlux(x: TopCell, az: real, dtg: real, pond: Pond): (r: (real, real))
    requires x.dz > 0.0 && az > 0.0 && dtg > 0.0
  {
    if pond.mode == 2 then
      var take := Min(pond.avail, RoomTop(x));
      (Lifting(-take, az, dtg), pond.avail - take)
    else if pond.mode == 1 then
      var q := Darcy(x, az, x.ksz, pond.dept);
      if q < 0.0 then
        var need := Moves(-q, dtg, az);
        if need > pond.avail then (Lifting(-pond.avail, az, dtg), 0.0) else (q, pond.avail - need)
      else (q, pond.avail)
    else
      var seep := Darcy(x, az, 0.5 * (x.kGhost + x.kCell), pond.dept);
      ((if seep <= 0.0 then 0.0 else seep) + Prescribed(x, az), pond.avail)
  }

  /** Whether downward flux q meets a top cell without pore room under a dry surface. */
  predicate Bounces(x: TopCell, az: real, dtg: real, minDepth: real, pond: Pond, q: real)
    requires x.dz > 0.0 && az > 0.0
  {
    q < 0.0 && pond.dept <= minDepth && x.wcs - x.wc < Moves(-q, dtg, az * x.dz)
  }

  /** Whether a configured evaporation leaves a moist, surface-dry column without ponding. */
  predicate Evaporates(x: TopCell, minDepth: real, pond: Pond) {
    x.code == Flux && x.value > 0.0 && x.wc > x.wcr && pond.dept <= minDepth
  }

  /** The bookkeeping of a top flux q: bounce-back, seepage accumulation, evaporation. */
  function Booking(x: TopCell, az: real, dtg: real, minDepth: real, pond: Pond, q: real): Pond
    requires x.dz > 0.0 && az > 0.0
  {
    var b := if Bounces(x, az, dtg, minDepth, pond, q) then pond.Raised(Moves(-q, dtg, az)) else pond;
    var a := b.(seepAccum := b.seepAccum + Moves(q, dtg, az));
    if Evaporates(x, minDepth, a) then a.(seepAccum := a.seepAccum - x.value * dtg) else a
  }

  /** A whole substep of the top: classify, exchange, book. */
  function Substep(x: TopCell, az: real, dtg: real, minDepth: real, pond: Pond): Pond
    requires x.dz > 0.0 && az > 0.0 && dtg > 0.0
  {
    var p := pond.(mode := TopMode(x, dtg, pond));
    var (q, left) := TopFlux(x, az, dtg, p);
    Booking(x, az, dtg, minDepth, p.(avail := left), q)
  }

  function BeginWindow(pond: Pond): Pond { pond.(avail := pond.dept, gain := 0.0) }

  /** The accumulator's application to the surface; .1 is the applied depth change and .2 the
      remainder the eta >= bottom clamp cut off. */
  function ApplySeepage(pond: Pond, dt: real, minDepth: real, bottom: real): (Pond, real, real)
    requires dt != 0.0
  {
    var a := pond.seepAccum;
    var p := pond.(qss := a / dt);
    if a < 0.0 then
      var lowered := if p.eta + a < bottom then bottom else p.eta + a;
      var change := lowered - pond.eta;
      (p.(eta := lowered, gain := p.gain + change, seepAccum := 0.0), change, change - a)
    else if p.dept > minDepth || a > minDepth then
      (p.(eta := p.eta + a, gain := p.gain + a, seepAccum := 0.0), a, 0.0)
    else (p, 0.0, 0.0)
  }

  // ----- windows: any number of substeps and vents

  /** Which top conditions the substeps of a window may carry; values follow a time series. */
  type Tops = (BcCode, real) -> bool

  datatype Event = Exchange(x: TopCell, dtg: real) | Vent(vol: real)

  datatype Window = Window(pond: Pond, bottom: real, minDepth: real, az: real, dt: real, events: seq<Event>) {
    /** A surface as the free-surface phase and updateDepth leave it, and events as the
        subsurface step produces them: a dry surface is vented onto only above minDepth. */
    ghost predicate Admissible(tops: Tops) {
      && minDepth >= 0.0 && az > 0.0 && dt > 0.0
      && pond.eta >= bottom && pond.seepAccum >= 0.0
      && pond.dept == (if pond.eta - bottom <= minDepth then 0.0 else pond.eta - bottom)
      && forall n :: 0 <= n < |events| ==> EventOk(events[n], tops)
    }

    static ghost predicate EventOk(e: Event, tops: Tops) {
      match e
      case Exchange(x, dtg) => x.dz > 0.0 && dtg > 0.0 && tops(x.code, x.value)
      case Vent(vol) => vol > 0.0
    }

    /** Soils and faces as a configuration admits them: contents between residual and saturated, the
        saturated one at most 1, conductivities not negative, ratios positive (src/core/ConfigSchema.cpp:207-214). */
    static ghost predicate PhysicalEvent(e: Event) {
      match e
      case Exchange(x, dtg) =>
        && 0.0 <= x.wcr <= x.wc <= x.wcs <= 1.0 && x.wcs > 0.0
        && x.ksz >= 0.0 && x.kGhost >= 0.0 && x.kCell >= 0.0 && x.visc > 0.0 && x.rho > 0.0
      case Vent(_) => true
    }

    ghost predicate Physical() { minDepth > 0.0 && forall n :: 0 <= n < |events| ==> PhysicalEvent(events[n]) }

    /** One event; a vent that the dry surface refuses is dropped by the send walk. */
    function Step(p: Pond, e: Event): Pond
      requires az > 0.0 && (e.Exchange? ==> e.x.dz > 0.0 && e.dtg > 0.0)
    {
      match e
      case Exchange(x, dtg) => Substep(x, az, dtg, minDepth, p)
      case Vent(vol) => if p.dept > 0.0 || vol / az > minDepth then p.Raised(vol / az) else p
    }

    /** The surface after the first n events. */
    ghost function After(n: nat, tops: Tops): Pond
      requires Admissible(tops) && n <= |events|
    {
      if n == 0 then BeginWindow(pond) else Step(After(n - 1, tops), events[n - 1])
    }

    /** What the final clamp cuts off. */
    ghost function Discarded(tops: Tops): real
      requires Admissible(tops)
    {
      ApplySeepage(After(|events|, tops), dt, minDepth, bottom).2
    }
  }

  /** The budget is never overdrawn, and stage plus accumulator stay above the bed by at least
      the budget. */
  ghost predicate Funded(p: Pond, bottom: real) {
    p.avail >= 0.0 && p.eta >= bottom && p.eta + p.seepAccum - bottom >= p.avail
  }

  /** A window never sees a film thinner than the wetting threshold. */
  ghost predicate WetOrDry(p: Pond, minDepth: real) { p.dept == 0.0 || p.dept > minDepth }

  /** The prescribed flux takes no water out of a dry surface. */
  predicate NoForcedInfiltration(code: BcCode, value: real) { code != Flux || value >= 0.0 }

  ghost predicate NoneForced(tops: Tops) {
    forall code, value :: tops(code, value) ==> NoForcedInfiltration(code, value)
  }

  lemma MovesLinear(q: real, dtg: real, az: real)
    requires az > 0.0 && dtg > 0.0
    ensures Moves(-q, dtg, az) == -Moves(q, dtg, az)
    ensures q >= 0.0 ==> Moves(q, dtg, az) >= 0.0
    ensures q < 0.0 ==> Moves(q, dtg, az) < 0.0
  {
    assert -q * dtg == -(q * dtg);
  }

  lemma LiftingMoves(d: real, az: real, dtg: real)
    requires az > 0.0 && dtg > 0.0
    ensures Moves(Lifting(d, az, dtg), dtg, az) == d
  {
    assert d * az / dtg * dtg == d * az;
  }

  lemma PrescribedMoves(base: real, v: real, az: real, dtg: real)
    requires az > 0.0 && dtg > 0.0
    ensures Moves(base + v * az, dtg, az) == Moves(base, dtg, az) + v * dtg
    ensures v > 0.0 ==> v * az > 0.0
  {
    assert (base + v * az) * dtg == base * dtg + (v * dtg) * az;
    assert ((v * dtg) * az) / az == v * dtg;
  }

  /** A wet column pays every downward flux out of the budget, and never more. */
  lemma WetFlux(x: TopCell, az: real, dtg: real, p: Pond)
    requires x.dz > 0.0 && az > 0.0 && dtg > 0.0
    requires p.avail >= 0.0 && (p.mode == 1 || p.mode == 2)
    ensures var (q, left) := TopFlux(x, az, dtg, p);
      && 0.0 <= left <= p.avail
      && (q < 0.0 ==> Moves(q, dtg, az) == left - p.avail)
      && (q >= 0.0 ==> left == p.avail)
  {
    hide Darcy, RoomTop, Lifting, Moves;
    if p.mode == 2 {
      assert RoomTop(x) >= 0.0 by { RoomTopNonneg(x); }
      var take := Min(p.avail, RoomTop(x));
      LiftingMoves(-take, az, dtg);
      MovesLinear(Lifting(-take, az, dtg), dtg, az);
    } else {
      var q := Darcy(x, az, x.ksz, p.dept);
      MovesLinear(q, dtg, az);
      LiftingMoves(-p.avail, az, dtg);
      MovesLinear(Lifting(-p.avail, az, dtg), dtg, az);
    }
  }

  lemma RoomTopNonneg(x: TopCell)
    ensures RoomTop(x) >= 0.0
  {
  }

  /** A dry column only loses what seeps out and what the configured flux prescribes. */
  lemma DryFlux(x: TopCell, az: real, dtg: real, minDepth: real, p: Pond)
    requires x.dz > 0.0 && az > 0.0 && dtg > 0.0
    requires p.mode != 1 && p.mode != 2 && NoForcedInfiltration(x.code, x.value)
    ensures var (q, left) := TopFlux(x, az, dtg, p);
      && left == p.avail && q >= 0.0
      && Moves(q, dtg, az) >= if Evaporates(x, minDepth, p) then x.value * dtg else 0.0
  {
    var seep := Darcy(x, az, 0.5 * (x.kGhost + x.kCell), p.dept);
    var base := if seep <= 0.0 then 0.0 else seep;
    hide Darcy, Moves;
    MovesLinear(base, dtg, az);
    if Prescribed(x, az) != 0.0 { PrescribedMoves(base, x.value, az, dtg); }
    if Evaporates(x, minDepth, p) { PrescribedMoves(base, x.value, az, dtg); }
  }

  lemma SubstepFunded(x: TopCell, az: real, dtg: real, minDepth: real, bottom: real, p: Pond)
    requires x.dz > 0.0 && az > 0.0 && dtg > 0.0 && minDepth >= 0.0
    requires p.avail >= 0.0
    ensures Substep(x, az, dtg, minDepth, p).avail >= 0.0
    ensures NoForcedInfiltration(x.code, x.value) && Funded(p, bottom) && WetOrDry(p, minDepth) ==>
      Funded(Substep(x, az, dtg, minDepth, p), bottom) && WetOrDry(Substep(x, az, dtg, minDepth, p), minDepth)
  {
    var p1 := p.(mode := TopMode(x, dtg, p));
    var (q, left) := TopFlux(x, az, dtg, p1);
    assert p1.mode == 0 || p1.mode == 1 || p1.mode == 2;
    assert left >= 0.0 by { if p1.mode != 0 { WetFlux(x, az, dtg, p1); } }
    MovesLinear(q, dtg, az);
    if NoForcedInfiltration(x.code, x.value) && Funded(p, bottom) && WetOrDry(p, minDepth) {
      if p1.mode == 0 { DryFlux(x, az, dtg, minDepth, p1); } else { WetFlux(x, az, dtg, p1); }
      hide TopFlux, Moves;
    }
  }

  // ----- what the send walks do to a funded surface

  /** A change of a surface cell that never lowers it, never overdraws its budget and, where no
      infiltration is prescribed, keeps it funded over every bed. */
  ghost predicate KeepsFunding(p: Pond, p': Pond, minDepth: real, safe: bool) {
    && p'.eta >= p.eta
    && (p.avail >= 0.0 ==> p'.avail >= 0.0)
    && (safe && WetOrDry(p, minDepth) ==>
          forall bottom :: Funded(p, bottom) ==> Funded(p', bottom) && WetOrDry(p', minDepth))
  }

  lemma KeepsFundingRefl(p: Pond, minDepth: real, safe: bool)
    ensures KeepsFunding(p, p, minDepth, safe)
  {
  }

  lemma KeepsFundingTrans(p: Pond, q: Pond, r: Pond, minDepth: real, safe: bool)
    requires KeepsFunding(p, q, minDepth, safe) && KeepsFunding(q, r, minDepth, safe)
    ensures KeepsFunding(p, r, minDepth, safe)
  {
  }

  lemma KeepsFundingWeaker(p: Pond, p': Pond, minDepth: real, safer: bool, safe: bool)
    requires KeepsFunding(p, p', minDepth, safer) && (safe ==> safer)
    ensures KeepsFunding(p, p', minDepth, safe)
  {
  }

  /** A substep only raises the level: what bounces back comes on top of it. */
  lemma SubstepRaises(x: TopCell, az: real, dtg: real, minDepth: real, p: Pond)
    requires x.dz > 0.0 && az > 0.0 && dtg > 0.0
    ensures Substep(x, az, dtg, minDepth, p).eta >= p.eta
  {
    var p1 := p.(mode := TopMode(x, dtg, p));
    var (q, left) := TopFlux(x, az, dtg, p1);
    if q < 0.0 { MovesLinear(q, dtg, az); }
    hide TopFlux, Moves;
  }

  lemma SubstepKeepsFunding(x: TopCell, az: real, dtg: real, minDepth: real, p: Pond)
    requires x.dz > 0.0 && az > 0.0 && dtg > 0.0 && minDepth >= 0.0
    ensures KeepsFunding(p, Substep(x, az, dtg, minDepth, p), minDepth, NoForcedInfiltration(x.code, x.value))
  {
    hide Substep;
    SubstepRaises(x, az, dtg, minDepth, p);
    if p.avail >= 0.0 { SubstepFunded(x, az, dtg, minDepth, p.eta, p); }
    forall bottom | NoForcedInfiltration(x.code, x.value) && WetOrDry(p, minDepth) && Funded(p, bottom)
      ensures Funded(Substep(x, az, dtg, minDepth, p), bottom) && WetOrDry(Substep(x, az, dtg, minDepth, p), minDepth)
    {
      SubstepFunded(x, az, dtg, minDepth, bottom, p);
    }
  }

  lemma VentKeepsFunding(p: Pond, vol: real, az: real, record: bool, minDepth: real, safe: bool)
    requires az > 0.0 && vol > 0.0 && (p.dept > 0.0 || vol / az > minDepth)
    ensures KeepsFunding(p, p.Vented(vol, az, record), minDepth, safe)
  {
    assert vol / az > 0.0;
  }

  lemma {:induction false} SweepKeepsFunding(p: Site, s: Sweep, up: seq<real>, down: seq<real>, k: nat, safe: bool)
    requires p.Valid() && s.col.Fits(p) && k <= p.nz == |up| == |down|
    ensures KeepsFunding(s.pond, SweepTo(p, s, up, down, k).pond, p.minDepth, safe)
  {
    if k > 0 {
      SweepKeepsFunding(p, s, up, down, k - 1, safe);
      var m := SweepTo(p, s, up, down, k - 1);
      if k - 1 >= p.ktop {
        SendUpKeepsFunding(p, m, k - 1, up[k - 1], safe);
        KeepsFundingTrans(s.pond, m.pond, SendUp(p, m, k - 1, up[k - 1]).pond, p.minDepth, safe);
      }
    }
  }

  lemma SendUpKeepsFunding(p: Site, s: Sweep, k: nat, dV: real, safe: bool)
    requires p.Valid() && s.col.Fits(p) && k < p.nz
    ensures KeepsFunding(s.pond, SendUp(p, s, k, dV).pond, p.minDepth, safe)
  {
    if dV > 0.0 {
      var (c, ll, r) := WalkUp(p, s.col, k, k, dV);
      hide WalkUp, WalkDown;
      if r > 0.0 && p.coupled && (s.pond.dept > 0.0 || r / p.area > p.minDepth) {
        VentKeepsFunding(s.pond, r, p.area, p.record, p.minDepth, safe);
      }
    }
  }

  // ----- whole windows

  /** The budget is never negative, whatever is configured; without forced infiltration it also
      stays covered by the stage and the accumulator. */
  lemma {:induction false} WindowFunded(w: Window, n: nat, tops: Tops)
    requires w.Admissible(tops) && n <= |w.events|
    ensures w.After(n, tops).avail >= 0.0
    ensures NoneForced(tops) ==>
      Funded(w.After(n, tops), w.bottom) && WetOrDry(w.After(n, tops), w.minDepth)
  {
    hide TopFlux, TopMode, Booking;
    if n > 0 {
      WindowFunded(w, n - 1, tops);
      var p, e := w.After(n - 1, tops), w.events[n - 1];
      assert Window.EventOk(e, tops);
      if e.Exchange? {
        SubstepFunded(e.x, w.az, e.dtg, w.minDepth, w.bottom, p);
      } else {
        assert e.vol / w.az > 0.0;
      }
    }
  }

  /** The depth one event debits from the budget. */
  ghost function Debit(w: Window, p: Pond, e: Event): real
    requires w.az > 0.0 && (e.Exchange? ==> e.x.dz > 0.0 && e.dtg > 0.0)
  {
    match e
    case Exchange(x, dtg) => p.avail - TopFlux(x, w.az, dtg, p.(mode := TopMode(x, dtg, p))).1
    case Vent(_) => 0.0
  }

  ghost function Debits(w: Window, n: nat, tops: Tops): real
    requires w.Admissible(tops) && n <= |w.events|
  {
    if n == 0 then 0.0
    else
      assert Window.EventOk(w.events[n - 1], tops);
      Debits(w, n - 1, tops) + Debit(w, w.After(n - 1, tops), w.events[n - 1])
  }

  lemma ModeIs(x: TopCell, dtg: real, p: Pond)
    requires x.dz > 0.0
    ensures var m := TopMode(x, dtg, p); m == 0 || m == 1 || m == 2
  {
  }

  lemma DryKeeps(x: TopCell, az: real, dtg: real, p: Pond)
    requires x.dz > 0.0 && az > 0.0 && dtg > 0.0 && p.mode == 0
    ensures TopFlux(x, az, dtg, p).1 == p.avail
  {
  }

  /** What the window debits never exceeds the post-solve depth plus the deposits. */
  lemma {:induction false} DebitsBounded(w: Window, n: nat, tops: Tops)
    requires w.Admissible(tops) && n <= |w.events|
    ensures w.After(n, tops).avail == w.pond.dept + w.After(n, tops).gain - Debits(w, n, tops)
    ensures 0.0 <= Debits(w, n, tops) <= w.pond.dept + w.After(n, tops).gain
  {
    hide TopFlux, TopMode;
    WindowFunded(w, n, tops);
    if n > 0 {
      DebitsBounded(w, n - 1, tops);
      WindowFunded(w, n - 1, tops);
      var p, e := w.After(n - 1, tops), w.events[n - 1];
      assert Window.EventOk(e, tops);
      if e.Exchange? {
        var p1 := p.(mode := TopMode(e.x, e.dtg, p));
        ModeIs(e.x, e.dtg, p);
        if p1.mode == 0 { DryKeeps(e.x, w.az, e.dtg, p1); } else { WetFlux(e.x, w.az, e.dtg, p1); }
        hide Moves, Bounces, Evaporates;
      }
    }
  }

  /** No event of a window lowers the surface. */
  lemma {:induction false} WindowRaises(w: Window, n: nat, tops: Tops)
    requires w.Admissible(tops) && n <= |w.events|
    ensures w.After(n, tops).eta >= w.pond.eta
  {
    if n > 0 {
      WindowRaises(w, n - 1, tops);
      var p, e := w.After(n - 1, tops), w.events[n - 1];
      assert Window.EventOk(e, tops);
      hide Substep;
      if e.Exchange? { SubstepRaises(e.x, w.az, e.dtg, w.minDepth, p); } else { assert e.vol / w.az > 0.0; }
    }
  }

  /** Whatever is configured, the accumulator a window leaves behind is not negative and the surface does
      not end below the bed; without forced infiltration the clamp at the bed cuts nothing off. */
  lemma AppliedStaysAboveBed(w: Window, tops: Tops)
    requires w.Admissible(tops)
    ensures var r := ApplySeepage(w.After(|w.events|, tops), w.dt, w.minDepth, w.bottom);
      && r.0.seepAccum >= 0.0 && r.2 >= 0.0 && r.0.eta >= w.bottom && (NoneForced(tops) ==> r.2 == 0.0)
  {
    WindowRaises(w, |w.events|, tops);
    WindowFunded(w, |w.events|, tops);
  }

  /** Main result: the clamp of applySeepage never cuts anything off in any window exactly when
      none of the top conditions it may carry prescribes infiltration; physical windows alone
      already decide it. */
  lemma ClampNeverFiresIff(tops: Tops)
    ensures (forall w: Window :: w.Admissible(tops) ==> w.Discarded(tops) == 0.0)
            <==> NoneForced(tops)
    ensures (forall w: Window :: w.Admissible(tops) && w.Physical() ==> w.Discarded(tops) == 0.0)
            <==> NoneForced(tops)
  {
    if NoneForced(tops) {
      forall w: Window | w.Admissible(tops) ensures w.Discarded(tops) == 0.0 {
        AppliedStaysAboveBed(w, tops);
      }
    } else {
      var code, value :| tops(code, value) && !NoForcedInfiltration(code, value);
      var w := ForcedWindow(value);
      ForcedInfiltrationClamps(tops, value);
      assert w.Admissible(tops) && w.Physical() && w.Discarded(tops) != 0.0;
    }
  }

  /** A step in which a prescribed infiltration brings at most half a unit of depth. */
  ghost function ForcedStep(value: real): (r: real)
    requires value < 0.0
    ensures 0.0 < r <= 1.0 && 0.0 < -value * r <= 0.5
  {
    if -value <= 0.5 then 1.0 else 0.5 / -value
  }

  /** One substep of a dry column over a half-porous soil whose top prescribes infiltration. */
  ghost function ForcedWindow(value: real): Window
    requires value < 0.0
  {
    Window(Pond(0.0, 0.0, 0.0, 0.0, 0.0, 0.0, 0.0, 0), 0.0, 0.001, 1.0, ForcedStep(value),
           [Exchange(TopCell(Flux, value, 0.0, 0.0, 0.0, 0.5, 0.0, 1.0, 1.0, 1.0, 1.0, 1.0, 1.0), ForcedStep(value))])
  }

  /** The substep books the prescribed volume on the accumulator. */
  lemma ForcedSubstep(value: real)
    requires value < 0.0
    ensures var w := ForcedWindow(value);
      var q := Substep(w.events[0].x, 1.0, ForcedStep(value), 0.001, BeginWindow(w.pond));
      q.seepAccum == value * ForcedStep(value) && q.eta == 0.0
  {
    var w, dtg := ForcedWindow(value), ForcedStep(value);
    var x, p := w.events[0].x, BeginWindow(w.pond);
    assert TopFlux(x, 1.0, dtg, p).0 == value;
    assert Moves(-value, dtg, 1.0) == -value * dtg && Moves(value, dtg, 1.0) == value * dtg;
    assert !Bounces(x, 1.0, dtg, 0.001, p, value);
    hide TopFlux, Moves, Bounces, ForcedStep;
  }

  /** The prescribed volume stays in the soil while the accumulator asks the empty surface for it. */
  lemma ForcedInfiltrationClamps(tops: Tops, value: real)
    requires value < 0.0 && tops(Flux, value)
    ensures ForcedWindow(value).Admissible(tops) && ForcedWindow(value).Physical()
    ensures ForcedWindow(value).Discarded(tops) == -value * ForcedStep(value) > 0.0
  {
    var w, dtg := ForcedWindow(value), ForcedStep(value);
    assert Window.EventOk(w.events[0], tops);
    hide Substep, ForcedStep;
    ForcedSubstep(value);
    assert w.After(1, tops) == Substep(w.events[0].x, 1.0, dtg, 0.001, BeginWindow(w.pond)) by {
      assert w.After(0, tops) == BeginWindow(w.pond);
    }
  }
}
