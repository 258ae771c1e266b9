/** The free-surface phase of a step (src/swe/SurfaceSolver.cpp:496-558): the levels enforced at the beds
    and stages, the implicit solve, the depth limiter, rain and evaporation, and the step's audit. */
module SurfaceStep {
  import opened Sums
  import opened Fields
  import opened SurfaceSystem
  import F = FreeSurface

  /** Rain and evaporation rates and where they act; a bulk evaporation takes no more than there is. */
  datatype Weather = Weather(rain: real, evap: real, rainMask: Field2, evapMask: Field2, bulk: bool)

  /** What one step takes from outside: boundary conditions and current stages, what the momentum phase
      leaves on the faces, the levels of ghost cells, and the weather. */
  datatype Surge = Surge(c: F.Conditions, stages: Field2, ex: Field2, ey: Field2, dragX: Field2, dragY: Field2,
                         ghosts: Field2, weather: Weather)
  {
    ghost predicate Ok() { forall j, i :: dragX(j, i) >= 0.0 && dragY(j, i) >= 0.0 }
  }

  /** The per-step surface volume budget. */
  datatype SurfaceAudit = SurfaceAudit(rainVolume: real, evapVolume: real, boundaryOutflow: real, bcInflow: real,
                                       clampVolume: real)
  {
    function Net(): real { bcInflow - boundaryOutflow + rainVolume - evapVolume + clampVolume }
  }

  const NO_SURFACE_AUDIT := SurfaceAudit(0.0, 0.0, 0.0, 0.0, 0.0)

  // ----- the volume of the levels

  ghost function Standing(g: Plan, w: Waters): (r: Field2)
    ensures forall j, i :: r(j, i) == g.CellArea() * w(j, i).eta
  {
    (j, i) => g.CellArea() * w(j, i).eta
  }

  ghost function Level(g: Plan, w: Waters): real { Sum2(g.Grid(), Standing(g, w)) }

  /** What a change of the levels adds, cell by cell. */
  ghost function Moved(g: Plan, w: Waters, w': Waters): (r: Field2)
    ensures forall j, i :: r(j, i) == g.CellArea() * (w'(j, i).eta - w(j, i).eta)
  {
    (j, i) => g.CellArea() * (w'(j, i).eta - w(j, i).eta)
  }

  lemma AreaTimes(a: real, x: real, y: real)
    ensures a * (x - y) == a * x - a * y
  {
  }

  lemma LevelMoves(g: Plan, w: Waters, w': Waters)
    ensures Level(g, w') == Level(g, w) + Sum2(g.Grid(), Moved(g, w, w'))
  {
    hide Sum2, Plan.CellArea;
    forall j, i ensures Standing(g, w')(j, i) == Standing(g, w)(j, i) + 1.0 * Moved(g, w, w')(j, i) {
      AreaTimes(g.CellArea(), w'(j, i).eta, w(j, i).eta);
    }
    Sum2Linear(g.Grid(), Standing(g, w), 1.0, Moved(g, w, w'), Standing(g, w'));
  }

  /** A change of the levels in up to three parts. */
  lemma LevelParts(g: Plan, w: Waters, w': Waters, a: Field2, b: Field2, c: Field2)
    requires forall j, i :: g.Has(j, i) ==> Moved(g, w, w')(j, i) == a(j, i) + b(j, i) + c(j, i)
    ensures Level(g, w') == Level(g, w) + Sum2(g.Grid(), a) + Sum2(g.Grid(), b) + Sum2(g.Grid(), c)
  {
    LevelMoves(g, w, w');
    hide Sum2, Level, Moved;
    var ab: Field2 := (j, i) => a(j, i) + b(j, i);
    Sum2Linear(g.Grid(), a, 1.0, b, ab);
    Sum2Linear(g.Grid(), ab, 1.0, c, Moved(g, w, w'));
  }

  ghost function NoDepth(): (r: Field2)
    ensures forall j, i :: r(j, i) == 0.0
  {
    (j, i) => 0.0
  }

  lemma NothingMoves(b: Box)
    ensures Sum2(b, NoDepth()) == 0.0
  {
    hide Sum2;
    Sum2Linear(b, NoDepth(), -1.0, NoDepth(), NoDepth());
  }

  // ----- beds and stages (src/swe/FreeSurface.cpp:22-58)

  /** A level below its bed is lifted onto it; a prescribed stage is set even below the bed. */
  function Lifted(x: Water): Water { if x.eta < x.bottom then x.(eta := x.bottom) else x }
  function AtStage(x: Water): Water { if x.stage then x.(eta := x.stageValue) else x }
  function Enforced(x: Water): Water { AtStage(Lifted(x)) }

  /** What the lift creates and what the stages bring. */
  function LiftAt(g: Plan, x: Water): real { if x.eta < x.bottom then (x.bottom - x.eta) * g.CellArea() else 0.0 }
  ghost function Lifts(g: Plan, w: Waters): (r: Field2)
    ensures forall j, i :: r(j, i) == LiftAt(g, w(j, i))
  {
    (j, i) => LiftAt(g, w(j, i))
  }
  ghost function Fills(g: Plan, w: Waters): (r: Field2)
    ensures forall j, i ::
      r(j, i) == if w(j, i).stage then g.CellArea() * (w(j, i).stageValue - Lifted(w(j, i)).eta) else 0.0
  {
    (j, i) => if w(j, i).stage then g.CellArea() * (w(j, i).stageValue - Lifted(w(j, i)).eta) else 0.0
  }

  lemma CellEnforced(g: Plan, w: Waters, w': Waters, j: int, i: int)
    requires w'(j, i) == Enforced(w(j, i))
    ensures Moved(g, w, w')(j, i) == Lifts(g, w)(j, i) + Fills(g, w)(j, i)
  {
    var a, x, y := g.CellArea(), w(j, i), Lifted(w(j, i));
    AreaTimes(a, y.eta, x.eta);
    AreaTimes(a, w'(j, i).eta, x.eta);
    AreaTimes(a, w'(j, i).eta, y.eta);
    hide Plan.CellArea;
  }

  lemma LevelEnforced(g: Plan, w: Waters, w': Waters)
    requires forall j, i :: g.Has(j, i) ==> w'(j, i) == Enforced(w(j, i))
    ensures Level(g, w') == Level(g, w) + Sum2(g.Grid(), Lifts(g, w)) + Sum2(g.Grid(), Fills(g, w))
    ensures g.CellArea() > 0.0 ==> Sum2(g.Grid(), Lifts(g, w)) >= 0.0
  {
    hide Enforced, Moved, Sum2, Level, LiftAt;
    forall j, i | g.Has(j, i)
      ensures Moved(g, w, w')(j, i) == Lifts(g, w)(j, i) + Fills(g, w)(j, i) + NoDepth()(j, i)
    {
      CellEnforced(g, w, w', j, i);
    }
    LevelParts(g, w, w', Lifts(g, w), Fills(g, w), NoDepth());
    NothingMoves(g.Grid());
    if g.CellArea() > 0.0 {
      forall j, i ensures Lifts(g, w)(j, i) >= 0.0 { LiftNonneg(g, w(j, i)); }
      Sum2Nonneg(g.Grid(), Lifts(g, w));
    }
  }

  lemma LiftNonneg(g: Plan, x: Water)
    requires g.CellArea() > 0.0
    ensures LiftAt(g, x) >= 0.0
  {
    hide Plan.CellArea;
    if x.eta < x.bottom { NonnegTimes(x.bottom - x.eta, g.CellArea()); }
  }

  // ----- the limiter (src/swe/WetDry.cpp:163-199)

  /** A dry cell that the solve wetted although no neighbour held water. */
  predicate Isolated(w: Waters, j: int, i: int) {
    && w(j, i).dept <= 0.0 && w(j, i).eta - w(j, i).bottom > 0.0
    && w(j, i + 1).dept <= 0.0 && w(j, i - 1).dept <= 0.0 && w(j + 1, i).dept <= 0.0 && w(j - 1, i).dept <= 0.0
  }

  /** A film thinner than the wetting threshold. */
  predicate Film(x: Water, minDepth: real) { 0.0 < x.eta - x.bottom < minDepth }

  /** The level the limiter leaves. */
  function Limited(g: Plan, w: Waters, j: int, i: int): real {
    if Isolated(w, j, i) || Film(w(j, i), g.minDepth) then w(j, i).bottom else w(j, i).eta
  }

  /** What each of its two passes leaves of a cell. */
  function Unwetted(w: Waters, j: int, i: int): Water {
    if Isolated(w, j, i) then w(j, i).(eta := w(j, i).bottom) else w(j, i)
  }
  function Filmless(g: Plan, x: Water): Water { if Film(x, g.minDepth) then x.(eta := x.bottom) else x }

  lemma TwoPasses(g: Plan, w: Waters, j: int, i: int)
    ensures Filmless(g, Unwetted(w, j, i)) == w(j, i).(eta := Limited(g, w, j, i))
  {
  }

  /** The depth the limiter dries: never negative, and no film is left. */
  lemma LimiterDries(g: Plan, w: Waters, j: int, i: int)
    ensures Limited(g, w, j, i) <= w(j, i).eta
    ensures Limited(g, w, j, i) - w(j, i).bottom <= 0.0 || Limited(g, w, j, i) - w(j, i).bottom >= g.minDepth
    ensures Limited(g, w, j, i) != w(j, i).eta ==> Limited(g, w, j, i) == w(j, i).bottom
  {
  }

  ghost function Dries(g: Plan, w: Waters): (r: Field2)
    ensures forall j, i :: r(j, i) == g.CellArea() * (w(j, i).eta - Limited(g, w, j, i))
  {
    (j, i) => g.CellArea() * (w(j, i).eta - Limited(g, w, j, i))
  }

  lemma LevelLimited(g: Plan, w: Waters, w': Waters)
    requires forall j, i :: g.Has(j, i) ==> w'(j, i).eta == Limited(g, w, j, i)
    ensures Level(g, w') == Level(g, w) - Sum2(g.Grid(), Dries(g, w))
    ensures g.CellArea() > 0.0 ==> Sum2(g.Grid(), Dries(g, w)) >= 0.0
  {
    hide Sum2, Level, Limited, Plan.CellArea;
    LevelMoves(g, w, w');
    forall j, i | g.Has(j, i) ensures Moved(g, w, w')(j, i) == NoDepth()(j, i) + -1.0 * Dries(g, w)(j, i) {
      AreaTimes(g.CellArea(), w(j, i).eta, Limited(g, w, j, i));
      AreaTimes(g.CellArea(), Limited(g, w, j, i), w(j, i).eta);
    }
    Sum2Linear(g.Grid(), NoDepth(), -1.0, Dries(g, w), Moved(g, w, w'));
    NothingMoves(g.Grid());
    if g.CellArea() > 0.0 {
      forall j, i ensures Dries(g, w)(j, i) >= 0.0 {
        LimiterDries(g, w, j, i);
        NonnegTimes(g.CellArea(), w(j, i).eta - Limited(g, w, j, i));
      }
      Sum2Nonneg(g.Grid(), Dries(g, w));
    }
  }

  // ----- rain and evaporation (src/swe/SurfaceSources.cpp:17-97)

  function RainDepth(x: Weather, dt: real, j: int, i: int): real { x.rain * dt * x.rainMask(j, i) }
  function Rained(x: Weather, dt: real, w: Water, j: int, i: int): Water { w.(eta := w.eta + RainDepth(x, dt, j, i)) }

  function EvapDepth(x: Weather, dt: real, w: Water, j: int, i: int): real {
    if x.bulk then
      var depth := w.eta - w.bottom;
      if depth > 0.0 then (if x.evap * dt < depth then x.evap * dt else depth) else 0.0
    else x.evap * dt * x.evapMask(j, i)
  }
  function Evaporated(x: Weather, dt: real, w: Water, j: int, i: int): Water {
    w.(eta := w.eta - EvapDepth(x, dt, w, j, i))
  }

  /** The volumes the two reductions add up, the evaporation's over the rained cells. */
  ghost function RainVolumes(g: Plan, x: Weather): (r: Field2)
    ensures forall j, i :: r(j, i) == RainDepth(x, g.dt, j, i) * g.CellArea()
  {
    (j, i) => RainDepth(x, g.dt, j, i) * g.CellArea()
  }
  ghost function EvapVolumes(g: Plan, x: Weather, w: Waters): (r: Field2)
    ensures forall j, i :: r(j, i) == EvapDepth(x, g.dt, w(j, i), j, i) * g.CellArea()
  {
    (j, i) => EvapDepth(x, g.dt, w(j, i), j, i) * g.CellArea()
  }
  ghost function AfterRain(g: Plan, x: Weather, w: Waters): (r: Waters)
    ensures forall j, i :: r(j, i) == if g.Has(j, i) then Rained(x, g.dt, w(j, i), j, i) else w(j, i)
  {
    (j, i) => if g.Has(j, i) then Rained(x, g.dt, w(j, i), j, i) else w(j, i)
  }

  /** Negative and thin depths are dried; the volume this creates or removes. */
  function Dried(g: Plan, w: Water): Water { if w.eta - w.bottom < g.minDepth then w.(eta := w.bottom) else w }
  function DriedVolume(g: Plan, w: Water): real {
    if w.eta - w.bottom < g.minDepth then (w.bottom - w.eta) * g.CellArea() else 0.0
  }

  function Weathered(g: Plan, x: Weather, w: Water, j: int, i: int): Water {
    Dried(g, Evaporated(x, g.dt, Rained(x, g.dt, w, j, i), j, i))
  }

  /** Whatever the weather, a cell ends dry on its bed or above the wetting threshold; a bulk evaporation
      takes nothing that is not there. */
  lemma WeatherBounds(g: Plan, x: Weather, w: Water, j: int, i: int)
    requires g.minDepth >= 0.0
    ensures var y := Weathered(g, x, w, j, i);
      y == w.(eta := y.eta) && y.eta >= y.bottom && (y.eta == y.bottom || y.eta - y.bottom >= g.minDepth)
    ensures x.bulk && w.eta >= w.bottom ==> Evaporated(x, g.dt, w, j, i).eta >= w.bottom
    ensures x.bulk && w.eta <= w.bottom ==> EvapDepth(x, g.dt, w, j, i) == 0.0
  {
  }

  /** What a kernel's reduction adds up. */
  lemma ReducedLevel(g: Plan, w: Waters, w': Waters, terms: Field2, sign: real)
    requires forall j, i :: g.Has(j, i) ==> Moved(g, w, w')(j, i) == sign * terms(j, i)
    ensures Level(g, w') == Level(g, w) + sign * Sum2(g.Grid(), terms)
  {
    hide Sum2, Level, Moved;
    LevelMoves(g, w, w');
    NothingMoves(g.Grid());
    Sum2Linear(g.Grid(), NoDepth(), sign, terms, Moved(g, w, w'));
  }

  lemma TimesArea(a: real, x: real)
    ensures a * x == x * a
  {
  }

  /** The solve moves the levels of all cells by the rises of those without a stage. */
  lemma LevelSolved(g: Plan, w: Waters, s: Waters)
    requires forall j, i :: F.OnlySolved(w(j, i), s(j, i))
    requires forall j, i :: g.Has(j, i) && w(j, i).stage ==> w(j, i).eta == w(j, i).stageValue
    requires forall j, i :: g.Has(j, i) && s(j, i).stage ==> s(j, i).eta == s(j, i).stageValue
    ensures Level(g, s) == Level(g, w) + Sum2(g.Grid(), Rises(g, w, F.Levels(s)))
  {
    hide Sum2, Level, Plan.CellArea;
    var rises := Rises(g, w, F.Levels(s));
    forall j, i | g.Has(j, i) ensures Moved(g, w, s)(j, i) == 1.0 * rises(j, i) {
      assert F.OnlySolved(w(j, i), s(j, i));
    }
    ReducedLevel(g, w, s, rises, 1.0);
  }

  lemma LevelRained(g: Plan, x: Weather, w: Waters, w': Waters, terms: Field2)
    requires forall j, i :: w'(j, i) == if g.Has(j, i) then Rained(x, g.dt, w(j, i), j, i) else w(j, i)
    requires forall j, i :: terms(j, i) == RainDepth(x, g.dt, j, i) * g.CellArea()
    ensures Level(g, w') == Level(g, w) + Sum2(g.Grid(), terms)
  {
    hide Sum2, Level, RainDepth, Plan.CellArea;
    forall j, i | g.Has(j, i) ensures Moved(g, w, w')(j, i) == 1.0 * terms(j, i) {
      TimesArea(g.CellArea(), RainDepth(x, g.dt, j, i));
    }
    ReducedLevel(g, w, w', terms, 1.0);
  }

  lemma LevelEvaporated(g: Plan, x: Weather, w: Waters, w': Waters, terms: Field2)
    requires forall j, i :: w'(j, i) == if g.Has(j, i) then Evaporated(x, g.dt, w(j, i), j, i) else w(j, i)
    requires forall j, i :: terms(j, i) == EvapDepth(x, g.dt, w(j, i), j, i) * g.CellArea()
    ensures Level(g, w') == Level(g, w) - Sum2(g.Grid(), terms)
  {
    hide Sum2, Level, EvapDepth, Plan.CellArea;
    forall j, i | g.Has(j, i) ensures Moved(g, w, w')(j, i) == -1.0 * terms(j, i) {
      EvaporatedMoves(g.CellArea(), w(j, i).eta, EvapDepth(x, g.dt, w(j, i), j, i));
    }
    ReducedLevel(g, w, w', terms, -1.0);
  }

  lemma EvaporatedMoves(a: real, eta: real, d: real)
    ensures a * ((eta - d) - eta) == -1.0 * (d * a)
  {
  }

  lemma SameEvaporation(g: Plan, x: Weather, w: Waters, m: Waters)
    requires forall j, i :: m(j, i) == if g.Has(j, i) then Rained(x, g.dt, w(j, i), j, i) else w(j, i)
    ensures Sum2(g.Grid(), EvapVolumes(g, x, m)) == Sum2(g.Grid(), EvapVolumes(g, x, AfterRain(g, x, w)))
  {
    hide Sum2, EvapDepth, Rained;
    Sum2Ext(g.Grid(), EvapVolumes(g, x, m), EvapVolumes(g, x, AfterRain(g, x, w)));
  }

  /** A prescribed evaporation takes what the rates say, whatever there is. */
  lemma PrescribedEvaporation(g: Plan, x: Weather, w: Waters, w': Waters)
    ensures !x.bulk ==> Sum2(g.Grid(), EvapVolumes(g, x, w)) == Sum2(g.Grid(), EvapVolumes(g, x, w'))
  {
    hide Sum2;
    if !x.bulk { Sum2Ext(g.Grid(), EvapVolumes(g, x, w), EvapVolumes(g, x, w')); }
  }

  lemma LevelDried(g: Plan, w: Waters, w': Waters, terms: Field2)
    requires forall j, i :: w'(j, i) == if g.Has(j, i) then Dried(g, w(j, i)) else w(j, i)
    requires forall j, i :: terms(j, i) == DriedVolume(g, w(j, i))
    ensures Level(g, w') == Level(g, w) + Sum2(g.Grid(), terms)
  {
    hide Sum2, Level, Dried, DriedVolume, Plan.CellArea;
    forall j, i | g.Has(j, i) ensures Moved(g, w, w')(j, i) == 1.0 * terms(j, i) { DriedMoves(g, w(j, i)); }
    ReducedLevel(g, w, w', terms, 1.0);
  }

  lemma DriedMoves(g: Plan, w: Water)
    ensures g.CellArea() * (Dried(g, w).eta - w.eta) == DriedVolume(g, w)
  {
    hide Plan.CellArea;
  }

  lemma EnforcedTwice(g: Plan, w: Waters, m: Waters, w': Waters)
    requires forall j, i :: m(j, i) == if g.Has(j, i) then Lifted(w(j, i)) else w(j, i)
    requires forall j, i :: w'(j, i) == if g.Has(j, i) then AtStage(m(j, i)) else m(j, i)
    ensures forall j, i :: w'(j, i) == if g.Has(j, i) then Enforced(w(j, i)) else w(j, i)
  {
    hide Lifted, AtStage;
  }

  /** A cell as a step begins with it. */
  function Begun(g: Plan, x: Surge, w: Water, j: int, i: int): Water {
    w.(eta := if g.Has(j, i) then w.eta else x.ghosts(j, i), stageValue := x.stages(j, i), ex := x.ex(j, i),
       ey := x.ey(j, i), dragX := x.dragX(j, i), dragY := x.dragY(j, i))
  }

  lemma BegunShaped(g: Plan, dt: real, x: Surge, w: Waters, w': Waters)
    requires x.Ok() && Shaped(g, w)
    requires forall j, i :: w'(j, i) == if F.Outside(g.(dt := dt), j, i) then w(j, i)
                                        else Begun(g.(dt := dt), x, w(j, i), j, i)
    ensures Shaped(g.(dt := dt), w') && forall j, i :: w'(j, i).stage == w(j, i).stage
    ensures forall j, i :: g.Has(j, i) ==> w'(j, i) == Begun(g.(dt := dt), x, w(j, i), j, i)
  {
    assert g.(dt := dt).CellArea() == g.CellArea();
    hide Plan.CellArea;
  }

  lemma PositiveArea(g: Plan)
    ensures g.Ok() ==> g.CellArea() > 0.0
  {
  }

  /** Every cell dry on its bed or above the wetting threshold. */
  ghost predicate AllSettled(g: Plan, w: Waters) {
    forall j, i :: g.Has(j, i) ==>
      w(j, i).eta >= w(j, i).bottom && (w(j, i).eta == w(j, i).bottom || w(j, i).eta - w(j, i).bottom >= g.minDepth)
  }

  /** Enforced levels pose the solve. */
  lemma EnforcedFit(g: Plan, w: Waters, w': Waters, c: F.Conditions)
    requires Shaped(g, w) && F.Apart(g, w, c)
    requires forall j, i :: w'(j, i) == if g.Has(j, i) then Enforced(w(j, i)) else w(j, i)
    ensures Shaped(g, w') && F.Apart(g, w', c)
    ensures forall j, i :: g.Has(j, i) && w'(j, i).stage ==> w'(j, i).eta == w'(j, i).stageValue
  {
    hide Plan.CellArea, F.Apart;
    forall j, i ensures w'(j, i) == w(j, i).(eta := w'(j, i).eta) {}
    F.ApartSame(g, w, w', c);
  }

  lemma EnforcedLevel(w: Water)
    ensures Enforced(w) == w.(eta := Enforced(w).eta)
  {
  }

  /** Up to the limiter, levels and coefficients alone change. */
  lemma LimitedFrame(g: Plan, w: Waters, w1: Waters, s: Waters, s1: Waters, l: Waters)
    requires forall j, i :: w1(j, i) == if g.Has(j, i) then Enforced(w(j, i)) else w(j, i)
    requires forall j, i :: F.OnlySolved(w1(j, i), s(j, i))
    requires forall j, i :: s1(j, i) == if g.Has(j, i) then Enforced(s(j, i)) else s(j, i)
    requires forall j, i :: l(j, i) == if g.Has(j, i) then s1(j, i).(eta := Limited(g, s1, j, i)) else s1(j, i)
    ensures forall j, i :: F.OnlySolved(w(j, i), l(j, i))
  {
    hide Enforced, Limited;
    forall j, i ensures F.OnlySolved(w(j, i), l(j, i)) {
      EnforcedLevel(w(j, i));
      EnforcedLevel(s(j, i));
      assert F.OnlySolved(w1(j, i), s(j, i));
    }
  }

  /** The weather changes levels alone, and settles every cell. */
  lemma WeatherFrame(g: Plan, x: Weather, w: Waters, l: Waters, r: Waters)
    requires g.Ok() && forall j, i :: F.OnlySolved(w(j, i), l(j, i))
    requires forall j, i :: r(j, i) == if g.Has(j, i) then Weathered(g, x, l(j, i), j, i) else l(j, i)
    ensures AllSettled(g, r) && forall j, i :: F.OnlySolved(w(j, i), r(j, i))
  {
    hide Weathered, Plan.CellArea;
    forall j, i
      ensures F.OnlySolved(w(j, i), r(j, i))
      ensures g.Has(j, i) ==> r(j, i).eta >= r(j, i).bottom
                              && (r(j, i).eta == r(j, i).bottom || r(j, i).eta - r(j, i).bottom >= g.minDepth)
    {
      assert F.OnlySolved(w(j, i), l(j, i));
      WeatherBounds(g, x, l(j, i), j, i);
    }
  }

  lemma NothingFilled(g: Plan, w: Waters, s: Waters)
    requires forall j, i :: g.Has(j, i) ==> !w(j, i).stage && !s(j, i).stage
    ensures Sum2(g.Grid(), Fills(g, w)) == Sum2(g.Grid(), Fills(g, s)) == 0.0
  {
    hide Sum2;
    NothingMoves(g.Grid());
    Sum2Ext(g.Grid(), Fills(g, w), NoDepth());
    Sum2Ext(g.Grid(), Fills(g, s), NoDepth());
  }

  /** Without prescribed stages nothing is filled. */
  lemma UnstagedFills(g: Plan, w: Waters, w1: Waters, s: Waters)
    requires forall j, i :: w1(j, i) == if g.Has(j, i) then Enforced(w(j, i)) else w(j, i)
    requires forall j, i :: F.OnlySolved(w1(j, i), s(j, i))
    ensures (forall j, i :: g.Has(j, i) ==> !w(j, i).stage) ==>
      Sum2(g.Grid(), Fills(g, w)) + Sum2(g.Grid(), Fills(g, s)) == 0.0
  {
    forall j, i ensures s(j, i).stage == w(j, i).stage { assert F.OnlySolved(w1(j, i), s(j, i)); }
    hide Sum2, Enforced;
    if forall j, i :: g.Has(j, i) ==> !w(j, i).stage { NothingFilled(g, w, s); }
  }

  class SurfaceSolver {
    const free: F.FreeSurface
    var rainVolume: real
    var evapVolume: real
    var clampVolume: real

    ghost predicate Valid()
      reads free`g
    {
      free.Valid()
    }

    constructor (free: F.FreeSurface)
      ensures this.free == free && rainVolume == evapVolume == clampVolume == 0.0
    {
      this.free := free;
      rainVolume, evapVolume, clampVolume := 0.0, 0.0, 0.0;
    }

    function Now(): Waters
      reads free.cells
    {
      free.Now()
    }

    function AuditNow(): SurfaceAudit
      reads this, free`bcInflow, free`boundaryOutflow
    {
      SurfaceAudit(rainVolume, evapVolume, free.boundaryOutflow, free.bcInflow, clampVolume)
    }

    // ----- the kernels

    method StageCells(x: Surge)
      requires Valid()
      modifies free.cells
      ensures forall j, i ::
        Now()(j, i) == if F.Outside(free.g, j, i) then old(Now())(j, i) else Begun(free.g, x, old(Now())(j, i), j, i)
    {
      hide Begun;
      var g := free.g;
      forall j, i | 0 <= j <= g.ny + 1 && 0 <= i <= g.nx + 1 {
        free.cells[j, i] := Begun(g, x, free.cells[j, i], j, i);
      }
    }

    /** A step's length, its conditions and the ghost levels; the audit starts from zero. */
    method BeginStep(dt: real, x: Surge)
      requires Valid() && dt > 0.0 && x.Ok() && Shaped(free.g, Now())
      modifies this, free`g, free`bcInflow, free`boundaryOutflow, free.cells
      ensures Valid() && free.g == old(free.g).(dt := dt) && Shaped(free.g, Now())
      ensures AuditNow() == NO_SURFACE_AUDIT
      ensures forall j, i :: Now()(j, i).stage == old(Now())(j, i).stage
      ensures forall j, i :: free.g.Has(j, i) ==> Now()(j, i) == Begun(free.g, x, old(Now())(j, i), j, i)
    {
      hide Begun;
      ghost var g, w := free.g, Now();
      free.BeginStep(dt);
      rainVolume, evapVolume, clampVolume := 0.0, 0.0, 0.0;
      StageCells(x);
      hide *;
      BegunShaped(g, dt, x, w, Now());
    }

    method LiftCells()
      requires Valid()
      modifies free.cells
      ensures forall j, i :: Now()(j, i) == if free.g.Has(j, i) then Lifted(old(Now())(j, i)) else old(Now())(j, i)
    {
      hide Lifted;
      var g := free.g;
      forall j, i | 1 <= j <= g.ny && 1 <= i <= g.nx {
        free.cells[j, i] := Lifted(free.cells[j, i]);
      }
    }

    method SetStages()
      requires Valid()
      modifies free.cells
      ensures forall j, i :: Now()(j, i) == if free.g.Has(j, i) then AtStage(old(Now())(j, i)) else old(Now())(j, i)
    {
      hide AtStage;
      var g := free.g;
      forall j, i | 1 <= j <= g.ny && 1 <= i <= g.nx {
        free.cells[j, i] := AtStage(free.cells[j, i]);
      }
    }

    /** Levels below the beds lifted, then the stages set; what the lift created. */
    method EnforceSurfaceBc() returns (lift: real)
      requires Valid()
      modifies free.cells
      ensures forall j, i :: Now()(j, i) == if free.g.Has(j, i) then Enforced(old(Now())(j, i)) else old(Now())(j, i)
      ensures Level(free.g, Now())
              == old(Level(free.g, Now())) + lift + Sum2(free.g.Grid(), Fills(free.g, old(Now()))) && lift >= 0.0
    {
      PlanOk();
      hide *;
      var g, w := free.g, Now();
      LiftCells();
      ghost var m := Now();
      var terms := (j, i) => LiftAt(g, w(j, i));
      lift := Reduce2(g.Grid(), terms);
      SetStages();
      EnforcedTwice(g, w, m, Now());
      LevelEnforced(g, w, Now());
      PositiveArea(g);
      Sum2Ext(g.Grid(), terms, Lifts(g, w));
    }

    lemma PlanOk()
      requires Valid()
      ensures free.g.Ok()
    {
    }

    /** The implicit solve. */
    method SolveLevels(c: F.Conditions, solver: F.Solver)
      requires Valid() && F.Exact(free.g, solver) && Shaped(free.g, Now()) && F.Apart(free.g, Now(), c)
      requires forall j, i :: free.g.Has(j, i) && Now()(j, i).stage ==> Now()(j, i).eta == Now()(j, i).stageValue
      modifies free.cells, free.rows, free.vector, free`bcInflow, free`boundaryOutflow
      ensures Level(free.g, Now())
              == old(Level(free.g, Now())) + (free.bcInflow - old(free.bcInflow))
                - (free.boundaryOutflow - old(free.boundaryOutflow))
      ensures forall j, i :: F.OnlySolved(old(Now())(j, i), Now()(j, i))
      ensures forall j, i :: free.g.Has(j, i) && Now()(j, i).stage ==> Now()(j, i).eta == Now()(j, i).stageValue
    {
      hide Sum2, Level, Rises, F.Exact, F.Apart, Shaped, F.OnlySolved;
      ghost var g, w := free.g, Now();
      free.Solve(c, solver);
      StagesNow();
      LevelSolved(g, w, Now());
    }

    lemma StagesNow()
      requires Valid()
      requires forall j, i :: free.g.Has(j, i) ==>
                 (free.cells[j, i].stage ==> free.cells[j, i].eta == free.cells[j, i].stageValue)
      ensures forall j, i :: free.g.Has(j, i) && Now()(j, i).stage ==> Now()(j, i).eta == Now()(j, i).stageValue
    {
    }

    /** The limiter's first pass: cells the solve wetted although no neighbour held water. */
    method DryIsolated()
      requires Valid()
      modifies free.cells
      ensures forall j, i :: Now()(j, i) == if free.g.Has(j, i) then Unwetted(old(Now()), j, i) else old(Now())(j, i)
    {
      hide Isolated;
      var g, w := free.g, Now();
      forall j, i | 1 <= j <= g.ny && 1 <= i <= g.nx && Isolated(w, j, i) {
        free.cells[j, i] := free.cells[j, i].(eta := free.cells[j, i].bottom);
      }
    }

    /** The second pass: films. */
    method DryFilms()
      requires Valid()
      modifies free.cells
      ensures forall j, i ::
        Now()(j, i) == if free.g.Has(j, i) then Filmless(free.g, old(Now())(j, i)) else old(Now())(j, i)
    {
      var g := free.g;
      hide Filmless;
      forall j, i | 1 <= j <= g.ny && 1 <= i <= g.nx {
        free.cells[j, i] := Filmless(g, free.cells[j, i]);
      }
    }

    /** Both passes. */
    method LimitDepth() returns (ghost dried: real)
      requires Valid()
      modifies free.cells
      ensures forall j, i ::
        Now()(j, i) == if free.g.Has(j, i) then old(Now())(j, i).(eta := Limited(free.g, old(Now()), j, i))
                       else old(Now())(j, i)
      ensures dried == Sum2(free.g.Grid(), Dries(free.g, old(Now()))) && dried >= 0.0
      ensures Level(free.g, Now()) == old(Level(free.g, Now())) - dried
    {
      ghost var g, w := free.g, Now();
      hide Sum2, Level, Unwetted, Filmless, Limited;
      DryIsolated();
      DryFilms();
      forall j, i | g.Has(j, i) ensures Now()(j, i) == w(j, i).(eta := Limited(g, w, j, i)) { TwoPasses(g, w, j, i); }
      LevelLimited(g, w, Now());
      PositiveArea(g);
      dried := Sum2(g.Grid(), Dries(g, w));
    }

    method RainCells(x: Weather)
      requires Valid()
      modifies free.cells
      ensures forall j, i ::
        Now()(j, i) == if free.g.Has(j, i) then Rained(x, free.g.dt, old(Now())(j, i), j, i) else old(Now())(j, i)
    {
      hide Rained;
      var g := free.g;
      forall j, i | 1 <= j <= g.ny && 1 <= i <= g.nx {
        free.cells[j, i] := Rained(x, g.dt, free.cells[j, i], j, i);
      }
    }

    /** The rain's depth on every level, and its volume. */
    method AddRain(x: Weather) returns (added: real)
      requires Valid()
      modifies free.cells
      ensures forall j, i ::
        Now()(j, i) == if free.g.Has(j, i) then Rained(x, free.g.dt, old(Now())(j, i), j, i) else old(Now())(j, i)
      ensures Level(free.g, Now()) == old(Level(free.g, Now())) + added
      ensures added == Sum2(free.g.Grid(), RainVolumes(free.g, x))
    {
      hide *;
      var g, w := free.g, Now();
      RainCells(x);
      var terms := (j, i) => RainDepth(x, g.dt, j, i) * g.CellArea();
      added := Reduce2(g.Grid(), terms);
      LevelRained(g, x, w, Now(), terms);
      Sum2Ext(g.Grid(), terms, RainVolumes(g, x));
    }

    method EvaporateCells(x: Weather)
      requires Valid()
      modifies free.cells
      ensures forall j, i ::
        Now()(j, i) == if free.g.Has(j, i) then Evaporated(x, free.g.dt, old(Now())(j, i), j, i) else old(Now())(j, i)
    {
      hide Evaporated;
      var g := free.g;
      forall j, i | 1 <= j <= g.ny && 1 <= i <= g.nx {
        free.cells[j, i] := Evaporated(x, g.dt, free.cells[j, i], j, i);
      }
    }

    /** The evaporated depth off every level, and its volume. */
    method TakeEvaporation(x: Weather) returns (removed: real)
      requires Valid()
      modifies free.cells
      ensures forall j, i ::
        Now()(j, i) == if free.g.Has(j, i) then Evaporated(x, free.g.dt, old(Now())(j, i), j, i) else old(Now())(j, i)
      ensures Level(free.g, Now()) == old(Level(free.g, Now())) - removed
      ensures removed == Sum2(free.g.Grid(), EvapVolumes(free.g, x, old(Now())))
    {
      hide *;
      var g, w := free.g, Now();
      EvaporateCells(x);
      var terms := (j, i) => EvapDepth(x, g.dt, w(j, i), j, i) * g.CellArea();
      removed := Reduce2(g.Grid(), terms);
      LevelEvaporated(g, x, w, Now(), terms);
      Sum2Ext(g.Grid(), terms, EvapVolumes(g, x, w));
    }

    method DryCells()
      requires Valid()
      modifies free.cells
      ensures forall j, i ::
        Now()(j, i) == if free.g.Has(j, i) then Dried(free.g, old(Now())(j, i)) else old(Now())(j, i)
    {
      hide Dried;
      var g := free.g;
      forall j, i | 1 <= j <= g.ny && 1 <= i <= g.nx {
        free.cells[j, i] := Dried(g, free.cells[j, i]);
      }
    }

    /** Negative and thin depths onto the beds, and the volume this creates. */
    method DryOut() returns (created: real)
      requires Valid()
      modifies free.cells
      ensures forall j, i ::
        Now()(j, i) == if free.g.Has(j, i) then Dried(free.g, old(Now())(j, i)) else old(Now())(j, i)
      ensures Level(free.g, Now()) == old(Level(free.g, Now())) + created
    {
      hide *;
      var g, w := free.g, Now();
      DryCells();
      var terms := (j, i) => DriedVolume(g, w(j, i));
      created := Reduce2(g.Grid(), terms);
      LevelDried(g, w, Now(), terms);
    }

    /** Rain, evaporation and the drying after them. */
    method EvapRain(x: Weather)
      requires Valid()
      modifies this, free.cells
      ensures Level(free.g, Now()) - AuditNow().Net() == old(Level(free.g, Now()) - AuditNow().Net())
      ensures rainVolume == old(rainVolume) + Sum2(free.g.Grid(), RainVolumes(free.g, x))
      ensures evapVolume
              == old(evapVolume) + Sum2(free.g.Grid(), EvapVolumes(free.g, x, AfterRain(free.g, x, old(Now()))))
      ensures forall j, i ::
        Now()(j, i) == if free.g.Has(j, i) then Weathered(free.g, x, old(Now())(j, i), j, i) else old(Now())(j, i)
    {
      hide Sum2, Level, Rained, Evaporated, Dried, EvapDepth, RainDepth, EvapVolumes, RainVolumes, AfterRain;
      ghost var g, w := free.g, Now();
      var rain := AddRain(x);
      rainVolume := rainVolume + rain;
      SameEvaporation(g, x, w, Now());
      var evap := TakeEvaporation(x);
      evapVolume := evapVolume + evap;
      var created := DryOut();
      clampVolume := clampVolume + created;
    }

    /** Levels enforced, solved, enforced again and limited. */
    method SolveAndLimit(x: Surge, solver: F.Solver) returns (ghost filled: real, ghost dried: real)
      requires Valid() && F.Exact(free.g, solver) && Shaped(free.g, Now()) && F.Apart(free.g, Now(), x.c)
      requires AuditNow() == NO_SURFACE_AUDIT
      modifies this`clampVolume, free.cells, free.rows, free.vector, free`bcInflow, free`boundaryOutflow
      ensures Level(free.g, Now()) == old(Level(free.g, Now())) + AuditNow().Net() + filled - dried && dried >= 0.0
      ensures (forall j, i :: free.g.Has(j, i) ==> !old(Now())(j, i).stage) ==> filled == 0.0
      ensures forall j, i :: F.OnlySolved(old(Now())(j, i), Now()(j, i))
    {
      hide *;
      ghost var g, w := free.g, Now();
      PlanOk();
      NothingSpent();
      var lift := EnforceSurfaceBc();
      ghost var w1 := Now();
      EnforcedFit(g, w, w1, x.c);
      SolveLevels(x.c, solver);
      ghost var s := Now();
      var more := EnforceSurfaceBc();
      ghost var s1 := Now();
      dried := LimitDepth();
      clampVolume := clampVolume + lift + more;
      SpentSoFar(lift + more);
      filled := Sum2(g.Grid(), Fills(g, w)) + Sum2(g.Grid(), Fills(g, s));
      LimitedFrame(g, w, w1, s, s1, Now());
      UnstagedFills(g, w, w1, s);
    }

    /** Main result: the free-surface phase.  The levels' volume changes by exactly what the step's audit
        says, by what the prescribed stages bring, and by what the limiter dries, which is never negative
        and is in no audit; rain and a prescribed evaporation are audited at their rates; and every cell
        ends dry on its bed or above the wetting threshold. */
    method SolveFreeSurface(x: Surge, solver: F.Solver) returns (ghost filled: real, ghost dried: real)
      requires Valid() && F.Exact(free.g, solver) && Shaped(free.g, Now()) && F.Apart(free.g, Now(), x.c)
      requires AuditNow() == NO_SURFACE_AUDIT
      modifies this, free.cells, free.rows, free.vector, free`bcInflow, free`boundaryOutflow
      ensures Level(free.g, Now()) == old(Level(free.g, Now())) + AuditNow().Net() + filled - dried && dried >= 0.0
      ensures (forall j, i :: free.g.Has(j, i) ==> !old(Now())(j, i).stage) ==> filled == 0.0
      ensures forall j, i :: F.OnlySolved(old(Now())(j, i), Now()(j, i))
      ensures AllSettled(free.g, Now())
      ensures rainVolume == Sum2(free.g.Grid(), RainVolumes(free.g, x.weather))
      ensures !x.weather.bulk ==> evapVolume == Sum2(free.g.Grid(), EvapVolumes(free.g, x.weather, old(Now())))
    {
      hide *;
      ghost var g, w := free.g, Now();
      PlanOk();
      NothingSpent();
      filled, dried := SolveAndLimit(x, solver);
      ghost var l := Now();
      EvapRain(x.weather);
      WeatherFrame(g, x.weather, w, l, Now());
      PrescribedEvaporation(g, x.weather, AfterRain(g, x.weather, l), w);
    }

    lemma NothingSpent()
      requires AuditNow() == NO_SURFACE_AUDIT
      ensures rainVolume == evapVolume == clampVolume == free.bcInflow == free.boundaryOutflow == 0.0
    {
    }

    lemma SpentSoFar(lifts: real)
      requires rainVolume == evapVolume == 0.0 && clampVolume == lifts
      ensures AuditNow().Net() == free.bcInflow - free.boundaryOutflow + lifts
    {
    }
  }
}
