/** The free-surface phase on its fields, in place (src/swe/WetDry.cpp:27-155,
    src/swe/FreeSurface.cpp:128-497): depths and geometry, right-hand side with its conditions,
    coefficients, outflow corrections, elimination, solve and boundary audit. */
module FreeSurface {
  import opened Sums
  import opened Fields
  import opened Stencil
  import opened SurfaceSystem

  datatype Side = XPlus | XMinus | YPlus | YMinus | Bottom | Top

  /** The staged conditions: members and current values. */
  datatype Discharge = Discharge(members: seq<(int, int)>, current: real, globalCount: nat)
  datatype VelocityMember = VelocityMember(j: int, i: int, side: Side)
  datatype Velocity = Velocity(members: seq<VelocityMember>, current: real)
  datatype OutflowMember = OutflowMember(j: int, i: int, side: Side, drop: real)
  datatype Outflow = Outflow(members: seq<OutflowMember>)

  datatype Conditions = Conditions(discharges: seq<Discharge>, velocities: seq<Velocity>, outflows: seq<Outflow>)

  /** The linear solver: any function that solves every symmetric positive definite system. */
  type Solver = (Matrix, Field3) -> Field3

  ghost predicate Exact(g: Plan, s: Solver) {
    forall a, rhs :: Symmetric(g.Grid(), g.Cells(), a) && Definite(g.Grid(), g.Cells(), a) ==>
        Solution(g.Cells(), a, rhs, s(a, rhs))
  }

  const NO_WATER := Water(0.0, 0.0, 0.0, 0.0, 0.0, 0.0, 0.0, 0.0, 0.0, 0.0, 0.0, 0.0, 0.0, 0.0, 0.0, false, 0.0, 0.0,
                          0.0, 0.0, 0.0, 0.0, 0.0)

  function Max(a: real, b: real): real { if a < b then b else a }

  /** The depth of the higher surface over the higher bed. */
  function FaceDepth(a: Water, b: Water): real { Max(Max(a.eta, b.eta) - Max(a.bottom, b.bottom), 0.0) }

  function CellDepth(x: Water, minDepth: real): real { if x.eta - x.bottom <= minDepth then 0.0 else x.eta - x.bottom }

  function CellVolume(g: Plan, x: Water): real { x.dept * g.dx * g.dy }

  /** The volume a velocity condition adds to its cell. */
  function VelocityVolume(g: Plan, w: Waters, m: VelocityMember, u: real): real {
    match m.side
    case XMinus => g.dt * w(m.j, 0).asx * u
    case XPlus => g.dt * w(m.j, m.i).asx * (w(m.j, m.i).ex - u)
    case YMinus => g.dt * w(0, m.i).asy * u
    case YPlus => g.dt * w(m.j, m.i).asy * (w(m.j, m.i).ey - u)
    case _ => 0.0
  }

  /** The volume an outflow face releases. */
  function ReleasedVolume(g: Plan, w: Waters, m: OutflowMember): real {
    var s :=
      match m.side
      case XPlus => w(m.j, m.i).sxp
      case XMinus => FaceTerm(g.Coef(), w(m.j, 0).asx, w(m.j, m.i).dragX, w(m.j, 0).vsx)
      case YPlus => w(m.j, m.i).syp
      case YMinus => FaceTerm(g.Coef(), w(0, m.i).asy, w(m.j, m.i).dragY, w(0, m.i).vsy)
      case _ => 0.0;
    s * m.drop
  }

  /** Sources so far, and their sum over the non-stage cells. */
  ghost function Added(src: Field2, j: int, i: int, v: real): (r: Field2)
    ensures r(j, i) == src(j, i) + v
    ensures forall j', i' :: (j', i') != (j, i) ==> r(j', i') == src(j', i')
  {
    (j', i') => if (j', i') == (j, i) then src(j, i) + v else src(j', i')
  }

  ghost function Total(g: Plan, w: Waters, src: Field2): real { Sum2(g.Grid(), Sources(g, w, src)) }

  /** w' is w with the sources in its right-hand sides. */
  ghost predicate Carries(g: Plan, w: Waters, w': Waters, src: Field2) {
    forall j, i :: w'(j, i) == if g.Has(j, i) then w(j, i).(rhs := w(j, i).rhs + src(j, i)) else w(j, i)
  }

  lemma TotalAdds(g: Plan, w: Waters, src: Field2, j: int, i: int, v: real)
    requires g.Has(j, i) && !w(j, i).stage
    ensures Total(g, w, Added(src, j, i, v)) == Total(g, w, src) + v
  {
    var a, b := Sources(g, w, src), Sources(g, w, Added(src, j, i, v));
    forall j', i' | g.Has(j', i') && (j', i') != (j, i) ensures a(j', i') == b(j', i') {}
    assert b(j, i) == a(j, i) + v;
    hide Sum2, Sources;
    Sum2Point(g.Grid(), a, b, j, i);
  }

  lemma TotalOfNothing(g: Plan, w: Waters)
    ensures Total(g, w, (j, i) => 0.0) == 0.0
  {
    var s := Sources(g, w, (j, i) => 0.0);
    forall j, i ensures s(j, i) == 0.0 {}
    hide Sum2, Sources;
    Sum2Linear(g.Grid(), s, -1.0, s, s);
  }

  /** Total does not look at right-hand sides or coefficients. */
  lemma TotalSame(g: Plan, w: Waters, w': Waters, src: Field2)
    requires forall j, i :: g.Has(j, i) ==> w'(j, i).stage == w(j, i).stage
    ensures Total(g, w', src) == Total(g, w, src)
  {
    forall j, i | g.Has(j, i) ensures Sources(g, w, src)(j, i) == Sources(g, w', src)(j, i) {
      assert w'(j, i).stage == w(j, i).stage;
      assert Inner(g, w, j, i) == Inner(g, w', j, i);
      assert Sources(g, w, src)(j, i) == if Inner(g, w, j, i) then src(j, i) else 0.0;
      assert Sources(g, w', src)(j, i) == if Inner(g, w', j, i) then src(j, i) else 0.0;
    }
    hide Sum2, Sources;
    Sum2Ext(g.Grid(), Sources(g, w, src), Sources(g, w', src));
  }

  ghost predicate Member(g: Plan, w: Waters, j: int, i: int) { g.Has(j, i) && !w(j, i).stage }

  /** Conditions on interior cells, none of them a prescribed-stage cell. */
  ghost predicate Apart(g: Plan, w: Waters, c: Conditions) {
    && (forall d <- c.discharges :: d.globalCount > 0 && forall m <- d.members :: Member(g, w, m.0, m.1))
    && (forall v <- c.velocities :: forall m <- v.members :: Member(g, w, m.j, m.i))
    && (forall o <- c.outflows :: forall m <- o.members :: Member(g, w, m.j, m.i))
  }

  lemma ApartSame(g: Plan, w: Waters, w': Waters, c: Conditions)
    requires Apart(g, w, c) && forall j, i :: g.Has(j, i) ==> w'(j, i).stage == w(j, i).stage
    ensures Apart(g, w', c)
  {
    forall j, i | Member(g, w, j, i) ensures Member(g, w', j, i) { assert w'(j, i).stage == w(j, i).stage; }
    hide Member;
  }

  /** The new levels as a field. */
  ghost function Levels(w: Waters): Field3 { (j, i, k) => w(j, i).eta }

  lemma RhsDoesNotMatter(g: Plan, w0: Waters, w1: Waters, w: Waters, a: Matrix)
    requires g.Ok() && Shaped(g, w0) && AllAssembled(g, w0, w1)
    requires forall j, i :: w(j, i) == w1(j, i).(rhs := w(j, i).rhs)
    requires forall j, i :: g.Has(j, i) ==> a(j, i, 0) == FilledRow(g, w, j, i)
    ensures Symmetric(g.Grid(), g.Cells(), a) && Definite(g.Grid(), g.Cells(), a)
  {
    hide *;
    forall j, i | g.Has(j, i) ensures a(j, i, 0) == FilledRow(g, w1, j, i) {
      RowIgnoresRhs(g, w1, w, j, i);
    }
    FilledIsDefinite(g, w0, w1, a);
  }

  lemma RowIgnoresRhs(g: Plan, w: Waters, w': Waters, j: int, i: int)
    requires forall j, i :: w'(j, i) == w(j, i).(rhs := w'(j, i).rhs)
    ensures FilledRow(g, w', j, i) == FilledRow(g, w, j, i)
  {
    hide Plan.CellArea;
  }

  lemma SolverSolves(g: Plan, solver: Solver, a: Matrix, rhs: Field3)
    requires Exact(g, solver) && Symmetric(g.Grid(), g.Cells(), a) && Definite(g.Grid(), g.Cells(), a)
    ensures Solution(g.Cells(), a, rhs, solver(a, rhs))
  {
    hide Symmetric, Definite, Solution;
  }

  lemma SolvesFull(g: Plan, w0: Waters, w1: Waters, w: Waters, a: Matrix, rhs: Field3, x: Field3)
    requires g.Ok() && Shaped(g, w0) && AllAssembled(g, w0, w1)
    requires forall j, i :: w(j, i) == w1(j, i).(rhs := w(j, i).rhs)
    requires forall j, i :: g.Has(j, i) ==> a(j, i, 0) == FilledRow(g, w, j, i) && rhs(j, i, 0) == FilledRhs(g, w, j, i)
    requires Solution(g.Cells(), a, rhs, x)
    ensures Solution(g.Cells(), Full(g, w), FullVector(g, w), x)
  {
    forall j, i | w(j, i).stage ensures g.Has(j, i) {
      assert w(j, i) == w1(j, i).(rhs := w(j, i).rhs);
      assert w1(j, i).stage == w0(j, i).stage;
    }
    assert Solution(g.Cells(), Filled(g, w), FilledVector(g, w), x) by {
      hide RowTimes, FilledRow, FilledRhs, Shaped;
    }
    hide *;
    EliminationKeepsSolutions(g, w, x);
  }

  /** The levels that solve the full system are the only ones that do. */
  lemma FullSolvedOnce(g: Plan, w0: Waters, w1: Waters, w: Waters, x: Field3)
    requires g.Ok() && Shaped(g, w0) && AllAssembled(g, w0, w1)
    requires forall j, i :: w(j, i) == w1(j, i).(rhs := w(j, i).rhs)
    requires Solution(g.Cells(), Full(g, w), FullVector(g, w), x)
    ensures OnlySolution(g.Cells(), Full(g, w), FullVector(g, w), x)
  {
    assert forall j, i :: Filled(g, w)(j, i, 0) == FilledRow(g, w, j, i);
    forall j, i | w(j, i).stage ensures g.Has(j, i) {
      assert w(j, i) == w1(j, i).(rhs := w(j, i).rhs);
      assert w1(j, i).stage == w0(j, i).stage;
    }
    hide Shaped, AllAssembled, Filled, FilledRow, Full, FilledVector, FullVector, Solution, Definite, Symmetric;
    RhsDoesNotMatter(g, w0, w1, w, Filled(g, w));
    EliminationKeepsSolutions(g, w, x);
    forall y: Field3 | Solution(g.Cells(), Full(g, w), FullVector(g, w), y)
      ensures forall j, i, k :: g.Cells()(j, i, k) ==> x(j, i, k) == y(j, i, k)
    {
      EliminationKeepsSolutions(g, w, y);
      SolutionIsUnique(g.Grid(), g.Cells(), Filled(g, w), FilledVector(g, w), x, y);
    }
  }

  lemma SameOutflow(g: Plan, w: Waters, w': Waters, x: Field3, level: Field3, j: int, i: int)
    requires g.Has(j, i) && level(j, i, 0) == x(j, i, 0)
    requires forall j, i :: w'(j, i) == if g.Has(j, i) then w(j, i).(eta := x(j, i, 0)) else w(j, i)
    ensures OutflowAt(g, w', level, j, i) == OutflowAt(g, w, x, j, i)
  {
    assert w'(j, i) == w(j, i).(eta := x(j, i, 0));
    assert w'(j, i - 1) == w(j, i - 1).(eta := w'(j, i - 1).eta)
      && w'(j, i + 1) == w(j, i + 1).(eta := w'(j, i + 1).eta);
    assert w'(j - 1, i) == w(j - 1, i).(eta := w'(j - 1, i).eta)
      && w'(j + 1, i) == w(j + 1, i).(eta := w'(j + 1, i).eta);
    SameQuantities(g, w, w', j, i);
    SameQuantities(g, w, w', j, i - 1);
    SameQuantities(g, w, w', j - 1, i);
    hide GoneX, GoneY, Mul;
  }

  /** The conditions keep clear of the stages through the assembly. */
  lemma AssembledApart(g: Plan, w0: Waters, base: Waters, w1: Waters, w2: Waters, src: Field2, c: Conditions)
    requires Apart(g, w0, c) && Carries(g, base, w1, src) && AllAssembled(g, w1, w2)
    requires forall j, i :: base(j, i) == if g.Has(j, i) then w0(j, i).(rhs := BaseRhs(g, w0, j, i)) else w0(j, i)
    ensures Apart(g, w2, c)
  {
    forall j, i | g.Has(j, i) ensures w2(j, i).stage == w0(j, i).stage {
      assert w1(j, i) == base(j, i).(rhs := base(j, i).rhs + src(j, i));
      hide BaseRhs, SX, SY;
    }
    hide *;
    ApartSame(g, w0, w2, c);
  }

  /** The states of one phase: what its solve starts from. */
  lemma Stages(g: Plan, w0: Waters, base: Waters, w1: Waters, src: Field2)
    requires Shaped(g, w0) && Carries(g, base, w1, src)
    requires forall j, i :: base(j, i) == if g.Has(j, i) then w0(j, i).(rhs := BaseRhs(g, w0, j, i)) else w0(j, i)
    ensures Shaped(g, w1)
  {
    hide BaseRhs, Plan.CellArea;
    forall j, i ensures w1(j, i) == w0(j, i).(rhs := w1(j, i).rhs) {
      assert base(j, i) == w0(j, i).(rhs := base(j, i).rhs);
    }
  }

  lemma CarriesRhs(g: Plan, w: Waters, w': Waters, more: Field2)
    requires Carries(g, w, w', more)
    ensures forall j, i :: w'(j, i) == w(j, i).(rhs := w'(j, i).rhs)
  {
  }

  /** What is posed after the outflow corrections. */
  lemma Posing(g: Plan, w0: Waters, base: Waters, w1: Waters, w2: Waters, w3: Waters, src: Field2, more: Field2,
               all: Field2)
    requires g.Ok() && Shaped(g, w0) && Carries(g, base, w1, src) && AllAssembled(g, w1, w2) && Carries(g, w2, w3, more)
    requires forall j, i :: base(j, i) == if g.Has(j, i) then w0(j, i).(rhs := BaseRhs(g, w0, j, i)) else w0(j, i)
    requires forall j, i :: all(j, i) == src(j, i) + more(j, i)
    ensures AllPosed(g, w3, all)
  {
    forall j, i ensures w1(j, i) == if g.Has(j, i) then w0(j, i).(rhs := BaseRhs(g, w0, j, i) + src(j, i))
      else w0(j, i) {
      hide BaseRhs;
    }
    forall j, i ensures w3(j, i) == if g.Has(j, i) then w2(j, i).(rhs := w2(j, i).rhs + more(j, i)) else w2(j, i) {}
    hide *;
    AssembledPoses(g, w0, w1, w2, src);
    StillPoses(g, w2, w3, src, more, all);
  }

  lemma TotalSplits(g: Plan, w0: Waters, base: Waters, w2: Waters, w3: Waters, src: Field2, more: Field2, all: Field2)
    requires forall j, i :: all(j, i) == src(j, i) + more(j, i)
    requires forall j, i :: g.Has(j, i) ==> base(j, i).stage == w0(j, i).stage && w2(j, i).stage == w0(j, i).stage
                                            && w3(j, i).stage == w0(j, i).stage
    ensures Sum2(g.Grid(), Sources(g, w3, all)) == Total(g, base, src) + Total(g, w2, more)
  {
    hide Sum2;
    TotalSame(g, base, w3, src);
    TotalSame(g, w2, w3, more);
    forall j, i | g.Has(j, i)
      ensures Sources(g, w3, all)(j, i) == Sources(g, w3, src)(j, i) + 1.0 * Sources(g, w3, more)(j, i)
    {
      assert all(j, i) == src(j, i) + more(j, i);
    }
    Sum2Linear(g.Grid(), Sources(g, w3, src), 1.0, Sources(g, w3, more), Sources(g, w3, all));
  }

  lemma SameStages(g: Plan, w0: Waters, base: Waters, w1: Waters, w2: Waters, w3: Waters, src: Field2, more: Field2)
    requires Carries(g, base, w1, src) && AllAssembled(g, w1, w2) && Carries(g, w2, w3, more)
    requires forall j, i :: base(j, i) == if g.Has(j, i) then w0(j, i).(rhs := BaseRhs(g, w0, j, i)) else w0(j, i)
    ensures forall j, i :: base(j, i).stage == w0(j, i).stage && w2(j, i).stage == w0(j, i).stage
                           && w3(j, i) == w0(j, i).(rhs := w3(j, i).rhs, sxp := w3(j, i).sxp, sxm := w3(j, i).sxm,
                                                    syp := w3(j, i).syp,
                                                    sym := w3(j, i).sym, sct := w3(j, i).sct)
  {
    hide BaseRhs, SX, SY, Plan.CellArea;
    forall j, i ensures w1(j, i) == w0(j, i).(rhs := w1(j, i).rhs) && base(j, i).stage == w0(j, i).stage {
      assert base(j, i) == w0(j, i).(rhs := base(j, i).rhs);
    }
  }

  lemma SolvedConserves(g: Plan, w0: Waters, base: Waters, w1: Waters, w2: Waters, w3: Waters, src: Field2,
                        more: Field2, x: Field3)
    requires g.Ok() && Shaped(g, w0) && Carries(g, base, w1, src) && AllAssembled(g, w1, w2) && Carries(g, w2, w3, more)
    requires forall j, i :: base(j, i) == if g.Has(j, i) then w0(j, i).(rhs := BaseRhs(g, w0, j, i)) else w0(j, i)
    requires Solution(g.Cells(), Full(g, w3), FullVector(g, w3), x)
    ensures Sum2(g.Grid(), Rises(g, w3, x)) == Total(g, base, src) + Total(g, w2, more)
            - Sum2(g.Grid(), Outflows(g, w3, x))
    ensures forall j, i :: w3(j, i).stage ==> g.Has(j, i)
    ensures forall j, i :: w3(j, i).stage == w0(j, i).stage && w3(j, i).eta == w0(j, i).eta
                           && w3(j, i).stageValue == w0(j, i).stageValue
    ensures forall j, i :: w3(j, i).stage ==> x(j, i, 0) == w3(j, i).stageValue
  {
    var all: Field2 := (j, i) => src(j, i) + more(j, i);
    SameStages(g, w0, base, w1, w2, w3, src, more);
    StagesInside(g, w0, w3);
    hide *;
    Posing(g, w0, base, w1, w2, w3, src, more, all);
    SolutionConserves(g, w3, all, x);
    TotalSplits(g, w0, base, w2, w3, src, more, all);
    StagesHold(g, w3, x);
  }

  lemma StagesInside(g: Plan, w0: Waters, w3: Waters)
    requires Shaped(g, w0) && forall j, i :: w3(j, i).stage == w0(j, i).stage
    ensures forall j, i :: w3(j, i).stage ==> g.Has(j, i)
  {
  }

  lemma StagesHold(g: Plan, w: Waters, x: Field3)
    requires g.Ok() && (forall j, i :: w(j, i).stage ==> g.Has(j, i))
             && Solution(g.Cells(), Full(g, w), FullVector(g, w), x)
    ensures forall j, i :: w(j, i).stage ==> x(j, i, 0) == w(j, i).stageValue
  {
    hide FullRow, FullRhs, RowTimes;
    forall j, i | w(j, i).stage ensures x(j, i, 0) == w(j, i).stageValue {
      assert g.Cells()(j, i, 0);
      StageRow(g, w, x, j, i);
    }
  }

  /** A cell whose level, coefficients and right-hand side alone may have changed. */
  ghost predicate OnlySolved(x: Water, y: Water) {
    y == x.(eta := y.eta, rhs := y.rhs, sxp := y.sxp, sxm := y.sxm, syp := y.syp, sym := y.sym, sct := y.sct)
  }

  lemma SolvedFrame(g: Plan, w0: Waters, base: Waters, w1: Waters, w2: Waters, w3: Waters, w4: Waters, src: Field2,
                    more: Field2, x: Field3)
    requires Carries(g, base, w1, src) && AllAssembled(g, w1, w2) && Carries(g, w2, w3, more)
    requires forall j, i :: base(j, i) == if g.Has(j, i) then w0(j, i).(rhs := BaseRhs(g, w0, j, i)) else w0(j, i)
    requires forall j, i :: w4(j, i) == if g.Has(j, i) then w3(j, i).(eta := x(j, i, 0)) else w3(j, i)
    ensures forall j, i :: OnlySolved(w0(j, i), w4(j, i))
  {
    SameStages(g, w0, base, w1, w2, w3, src, more);
    hide BaseRhs, Carries, AllAssembled;
    forall j, i ensures OnlySolved(w0(j, i), w4(j, i)) {
      assert w3(j, i) == w0(j, i).(rhs := w3(j, i).rhs, sxp := w3(j, i).sxp, sxm := w3(j, i).sxm, syp := w3(j, i).syp,
                                   sym := w3(j, i).sym, sct := w3(j, i).sct);
    }
  }

  /** The rises seen from the phase's start and end. */
  lemma Finished(g: Plan, w0: Waters, w3: Waters, w4: Waters, x: Field3)
    requires forall j, i :: w3(j, i).stage == w0(j, i).stage && w3(j, i).eta == w0(j, i).eta
                            && w3(j, i).stageValue == w0(j, i).stageValue
    requires forall j, i :: w4(j, i) == if g.Has(j, i) then w3(j, i).(eta := x(j, i, 0)) else w3(j, i)
    requires forall j, i :: w3(j, i).stage ==> x(j, i, 0) == w3(j, i).stageValue
    ensures Sum2(g.Grid(), Rises(g, w0, Levels(w4))) == Sum2(g.Grid(), Rises(g, w3, x))
    ensures forall j, i :: g.Has(j, i) ==> w4(j, i).stage == w0(j, i).stage
                                           && (w4(j, i).stage ==> w4(j, i).eta == w4(j, i).stageValue)
  {
    forall j, i | g.Has(j, i) ensures Rises(g, w0, Levels(w4))(j, i) == Rises(g, w3, x)(j, i) {
      assert w4(j, i).eta == x(j, i, 0);
      hide Plan.CellArea;
    }
    hide Rises, Sum2;
    Sum2Ext(g.Grid(), Rises(g, w0, Levels(w4)), Rises(g, w3, x));
  }

  /** After the coefficient kernel every cell is posed and the filled matrix is definite. */
  lemma CoefficientsPosed(g: Plan, w: Waters, w': Waters)
    requires g.Ok() && Shaped(g, w) && AllAssembled(g, w, w')
    ensures forall j, i :: g.Has(j, i) ==> PosedRow(g, w', j, i)
    ensures Symmetric(g.Grid(), g.Cells(), Filled(g, w')) && Definite(g.Grid(), g.Cells(), Filled(g, w'))
  {
    assert forall j, i :: Filled(g, w')(j, i, 0) == FilledRow(g, w', j, i);
    hide *;
    forall j, i | g.Has(j, i) ensures PosedRow(g, w', j, i) {
      ShapedAt(g, w, j, i);
      AssembledRow(g, w, w', j, i);
    }
    FilledIsDefinite(g, w, w', Filled(g, w'));
  }

  /** Drag factors not negative, stages on interior cells only: what the surface brings besides its
      geometry. */
  ghost predicate Staged(g: Plan, w: Waters) {
    forall j, i :: w(j, i).dragX >= 0.0 && w(j, i).dragY >= 0.0 && (w(j, i).stage ==> g.Has(j, i))
  }

  /** A cell whose depths, areas and volumes alone may have changed. */
  ghost predicate OnlyGeometry(x: Water, y: Water) {
    y == x.(dept := y.dept, deptx := y.deptx, depty := y.depty, vs := y.vs, asz := y.asz, asx := y.asx, asy := y.asy,
            vsx := y.vsx, vsy := y.vsy)
  }

  ghost predicate OnlyAreas(x: Water, y: Water) {
    y == x.(vs := y.vs, asz := y.asz, asx := y.asx, asy := y.asy, vsx := y.vsx, vsy := y.vsy)
  }

  ghost predicate OnlyDepths(x: Water, y: Water) { y == x.(dept := y.dept, deptx := y.deptx, depty := y.depty) }

  lemma AreasAfterDepths(x: Water, y: Water, z: Water)
    requires OnlyDepths(x, y) && OnlyAreas(y, z)
    ensures OnlyGeometry(x, z)
  {
  }

  /** One position after the depths, and after the geometry. */
  ghost predicate DepthAt(g: Plan, w: Waters, w': Waters, j: int, i: int) {
    && OnlyDepths(w(j, i), w'(j, i)) && w'(j, i).dept == CellDepth(w(j, i), g.minDepth) && w'(j, i).dept >= 0.0
    && (1 <= j <= g.ny && i <= g.nx ==> w'(j, i).deptx == FaceDepth(w(j, i), w(j, i + 1)) && w'(j, i).deptx >= 0.0)
    && (j <= g.ny && 1 <= i <= g.nx ==> w'(j, i).depty == FaceDepth(w(j, i), w(j + 1, i)) && w'(j, i).depty >= 0.0)
  }

  /** The faces of one position with the geometry: x holds it, w the depths and volumes. */
  ghost predicate FacesEast(g: Plan, w: Waters, x: Water, j: int, i: int) {
    1 <= j <= g.ny && i <= g.nx ==>
      && x.asx == (if g.nx == 1 then 0.0 else w(j, i).deptx * g.dy) && (w(j, i).deptx >= 0.0 ==> x.asx >= 0.0)
        && x.vsx >= 0.0
      && x.vsx == if i == 0 then CellVolume(g, w(j, 1)) else 0.5 * (CellVolume(g, w(j, i)) + CellVolume(g, w(j, i + 1)))
  }
  ghost predicate FacesNorth(g: Plan, w: Waters, x: Water, j: int, i: int) {
    j <= g.ny && 1 <= i <= g.nx ==>
      && x.asy == (if g.ny == 1 then 0.0 else w(j, i).depty * g.dx) && (w(j, i).depty >= 0.0 ==> x.asy >= 0.0)
        && x.vsy >= 0.0
      && x.vsy == if j == 0 then CellVolume(g, w(1, i)) else 0.5 * (CellVolume(g, w(j, i)) + CellVolume(g, w(j + 1, i)))
  }

  ghost predicate GeometryAt(g: Plan, w: Waters, w': Waters, j: int, i: int) {
    var x := w'(j, i);
    && OnlyAreas(w(j, i), x) && FacesEast(g, w, x, j, i) && FacesNorth(g, w, x, j, i)
    && (g.Has(j, i) ==> x.vs >= 0.0 && x.asz == if x.dept > 0.0 then g.CellArea() else 0.0)
  }

  ghost predicate Outside(g: Plan, j: int, i: int) { !(0 <= j <= g.ny + 1 && 0 <= i <= g.nx + 1) }

  ghost predicate DepthsFrom(g: Plan, w: Waters, w': Waters) {
    forall j, i :: if Outside(g, j, i) then w'(j, i) == w(j, i) else DepthAt(g, w, w', j, i)
  }
  ghost predicate GeometryFrom(g: Plan, w: Waters, w': Waters) {
    forall j, i :: if Outside(g, j, i) then w'(j, i) == w(j, i) else GeometryAt(g, w, w', j, i)
  }

  /** A cell with its volume and areas; face areas vanish along a one-cell axis. */
  function Volumed(g: Plan, x: Water): Water {
    x.(vs := x.dept * g.dx * g.dy, asz := if x.dept > 0.0 then g.CellArea() else 0.0,
       asx := if g.nx == 1 then 0.0 else x.deptx * g.dy, asy := if g.ny == 1 then 0.0 else x.depty * g.dx)
  }

  /** A cell with its faces' volumes: the means of the cells on both sides. */
  function Faced(g: Plan, w: Waters, j: int, i: int): Water {
    w(j, i).(vsx := if 1 <= j <= g.ny && i <= g.nx then 0.5 * (w(j, i).vs + w(j, i + 1).vs) else w(j, i).vsx,
             vsy := if j <= g.ny && 1 <= i <= g.nx then 0.5 * (w(j, i).vs + w(j + 1, i).vs) else w(j, i).vsy)
  }

  /** An edge that copies its cell. */
  function Edged(g: Plan, w: Waters, j: int, i: int): Water {
    if i == 0 && 1 <= j <= g.ny then w(j, 0).(vs := w(j, 1).vs, asy := w(j, 1).asy, asz := w(j, 1).asz, vsx :=
                                              w(j, 1).vs)
    else if j == 0 && 1 <= i <= g.nx then w(0, i).(vs := w(1, i).vs, asx := w(1, i).asx, asz := w(1, i).asz, vsy :=
                                                   w(1, i).vs)
    else w(j, i)
  }

  lemma VolumedSigns(g: Plan, x: Water)
    requires g.Ok() && x.dept >= 0.0
    ensures var y := Volumed(g, x);
      y.vs == CellVolume(g, x) >= 0.0 && (x.deptx >= 0.0 ==> y.asx >= 0.0) && (x.depty >= 0.0 ==> y.asy >= 0.0)
  {
    VolumeNonneg(x.dept, g.dx, g.dy);
    if x.deptx >= 0.0 { NonnegTimes(x.deptx, g.dy); }
    if x.depty >= 0.0 { NonnegTimes(x.depty, g.dx); }
  }

  /** The three passes at one position. */
  lemma GeometryCell(g: Plan, w: Waters, a: Waters, b: Waters, c: Waters, j: int, i: int)
    requires g.Ok() && !Outside(g, j, i)
    requires forall j, i :: !Outside(g, j, i) ==> w(j, i).dept >= 0.0 && a(j, i) == Volumed(g, w(j, i))
    requires forall j, i :: !Outside(g, j, i) ==> b(j, i) == Faced(g, a, j, i) && c(j, i) == Edged(g, b, j, i)
    ensures GeometryAt(g, w, c, j, i)
  {
    VolumedSigns(g, w(j, i));
    GeometryEast(g, w, a, b, c, j, i);
    GeometryNorth(g, w, a, b, c, j, i);
    hide CellVolume, Plan.CellArea, FacesEast, FacesNorth;
  }

  lemma GeometryEast(g: Plan, w: Waters, a: Waters, b: Waters, c: Waters, j: int, i: int)
    requires g.Ok() && !Outside(g, j, i)
    requires forall j, i :: !Outside(g, j, i) ==> w(j, i).dept >= 0.0 && a(j, i) == Volumed(g, w(j, i))
    requires forall j, i :: !Outside(g, j, i) ==> b(j, i) == Faced(g, a, j, i) && c(j, i) == Edged(g, b, j, i)
    ensures FacesEast(g, w, c(j, i), j, i)
  {
    if 1 <= j <= g.ny && i <= g.nx {
      assert !Outside(g, j, 1);
      VolumedSigns(g, w(j, i));
      VolumedSigns(g, w(j, i + 1));
      VolumedSigns(g, w(j, 1));
      hide CellVolume, Plan.CellArea;
    }
  }

  lemma GeometryNorth(g: Plan, w: Waters, a: Waters, b: Waters, c: Waters, j: int, i: int)
    requires g.Ok() && !Outside(g, j, i)
    requires forall j, i :: !Outside(g, j, i) ==> w(j, i).dept >= 0.0 && a(j, i) == Volumed(g, w(j, i))
    requires forall j, i :: !Outside(g, j, i) ==> b(j, i) == Faced(g, a, j, i) && c(j, i) == Edged(g, b, j, i)
    ensures FacesNorth(g, w, c(j, i), j, i)
  {
    if j <= g.ny && 1 <= i <= g.nx {
      assert !Outside(g, 1, i);
      VolumedSigns(g, w(j, i));
      VolumedSigns(g, w(j + 1, i));
      VolumedSigns(g, w(1, i));
      hide CellVolume, Plan.CellArea;
    }
  }

  lemma GeometryIs(g: Plan, w: Waters, a: Waters, b: Waters, c: Waters)
    requires g.Ok() && forall j, i :: !Outside(g, j, i) ==> w(j, i).dept >= 0.0
    requires forall j, i :: a(j, i) == if Outside(g, j, i) then w(j, i) else Volumed(g, w(j, i))
    requires forall j, i :: b(j, i) == if Outside(g, j, i) then a(j, i) else Faced(g, a, j, i)
    requires forall j, i :: c(j, i) == if Outside(g, j, i) then b(j, i) else Edged(g, b, j, i)
    ensures GeometryFrom(g, w, c)
  {
    hide Volumed, Faced, Edged, GeometryAt, Outside;
    forall j, i ensures if Outside(g, j, i) then c(j, i) == w(j, i) else GeometryAt(g, w, c, j, i) {
      if !Outside(g, j, i) { GeometryCell(g, w, a, b, c, j, i); }
    }
  }

  /** Depths, then geometry, shape the surface. */
  lemma GeometryShapes(g: Plan, w: Waters, m: Waters, w': Waters)
    requires Staged(g, w) && DepthsFrom(g, w, m) && GeometryFrom(g, m, w')
    ensures Shaped(g, w') && FacesNonnegative(g, w') && forall j, i :: OnlyGeometry(w(j, i), w'(j, i))
  {
    forall j, i
      ensures OnlyGeometry(w(j, i), w'(j, i))
      ensures !Outside(g, j, i) ==> DepthAt(g, w, m, j, i) && GeometryAt(g, m, w', j, i)
                                    && w'(j, i).dept == m(j, i).dept
    {
      if !Outside(g, j, i) {
        assert DepthAt(g, w, m, j, i) && GeometryAt(g, m, w', j, i);
        AreasAfterDepths(w(j, i), m(j, i), w'(j, i));
      }
      hide FaceDepth, CellDepth, CellVolume, Plan.CellArea;
    }
    hide FaceDepth, CellDepth, CellVolume, Plan.CellArea, DepthsFrom, GeometryFrom;
  }

  /** No face has a negative area or volume. */
  ghost predicate FacesNonnegative(g: Plan, w: Waters) {
    && (forall j, i :: 1 <= j <= g.ny && 0 <= i <= g.nx ==> w(j, i).asx >= 0.0 && w(j, i).vsx >= 0.0)
    && (forall j, i :: 0 <= j <= g.ny && 1 <= i <= g.nx ==> w(j, i).asy >= 0.0 && w(j, i).vsy >= 0.0)
  }

  class FreeSurface {
    var g: Plan
    const cells: array2<Water>
    const rows: array2<Row>
    const vector: array2<real>
    var bcInflow: real
    var boundaryOutflow: real

    ghost predicate Valid()
      reads this`g
    {
      && g.Ok()
      && cells.Length0 == g.ny + 2 && cells.Length1 == g.nx + 2
      && rows.Length0 == g.ny + 2 && rows.Length1 == g.nx + 2
      && vector.Length0 == g.ny + 2 && vector.Length1 == g.nx + 2
    }

    constructor (g: Plan, cells: array2<Water>, rows: array2<Row>, vector: array2<real>)
      ensures this.g == g && this.cells == cells && this.rows == rows && this.vector == vector
      ensures bcInflow == boundaryOutflow == 0.0
    {
      this.g, this.cells, this.rows, this.vector := g, cells, rows, vector;
      bcInflow, boundaryOutflow := 0.0, 0.0;
    }

    function Now(): Waters reads cells { Snap2(cells, NO_WATER) }

    /** A step's length, and its audits from zero. */
    method BeginStep(dt: real)
      requires Valid() && dt > 0.0
      modifies this`g, this`bcInflow, this`boundaryOutflow
      ensures Valid() && g == old(g).(dt := dt) && bcInflow == boundaryOutflow == 0.0
    {
      g, bcInflow, boundaryOutflow := g.(dt := dt), 0.0, 0.0;
    }

    // ----- depths and geometry (src/swe/WetDry.cpp)

    /** Cell and face depths. */
    method UpdateDepth()
      requires Valid()
      modifies cells
      ensures DepthsFrom(g, old(Now()), Now())
      ensures forall j, i :: 0 <= j <= g.ny + 1 && 0 <= i <= g.nx + 1 ==> cells[j, i].dept >= 0.0
    {
      var w := Now();
      forall j, i | 0 <= j <= g.ny + 1 && 0 <= i <= g.nx + 1 {
        cells[j, i] := cells[j, i].(
          dept := CellDepth(w(j, i), g.minDepth),
          deptx := if 1 <= j <= g.ny && i <= g.nx then FaceDepth(w(j, i), w(j, i + 1)) else cells[j, i].deptx,
          depty := if j <= g.ny && 1 <= i <= g.nx then FaceDepth(w(j, i), w(j + 1, i)) else cells[j, i].depty);
      }
    }

    /** Cell volumes and areas; face areas vanish along a one-cell axis. */
    method CellGeometry()
      requires Valid()
      modifies cells
      ensures forall j, i :: Now()(j, i) == if Outside(g, j, i) then old(Now())(j, i) else Volumed(g, old(Now())(j, i))
    {
      forall j, i | 0 <= j <= g.ny + 1 && 0 <= i <= g.nx + 1 {
        cells[j, i] := Volumed(g, cells[j, i]);
      }
    }

    method FaceVolumes()
      requires Valid()
      modifies cells
      ensures forall j, i :: Now()(j, i) == if Outside(g, j, i) then old(Now())(j, i) else Faced(g, old(Now()), j, i)
    {
      hide Faced;
      var w := Now();
      forall j, i | 0 <= j <= g.ny + 1 && 0 <= i <= g.nx + 1 {
        cells[j, i] := Faced(g, w, j, i);
      }
    }

    /** The west and south edges copy their cells, except for the boundary face's own area. */
    method EdgeGeometry()
      requires Valid()
      modifies cells
      ensures forall j, i :: Now()(j, i) == if Outside(g, j, i) then old(Now())(j, i) else Edged(g, old(Now()), j, i)
    {
      var w := Now();
      forall j | 1 <= j <= g.ny {
        cells[j, 0] := Edged(g, w, j, 0);
      }
      forall i | 1 <= i <= g.nx {
        cells[0, i] := Edged(g, w, 0, i);
      }
    }

    /** The geometry the matrix relies on, no area or volume negative. */
    method UpdateGeometry()
      requires Valid() && forall j, i :: 0 <= j <= g.ny + 1 && 0 <= i <= g.nx + 1 ==> cells[j, i].dept >= 0.0
      modifies cells
      ensures GeometryFrom(g, old(Now()), Now())
    {
      ghost var w := Now();
      hide *;
      PositiveExtents();
      CellGeometry();
      ghost var a := Now();
      FaceVolumes();
      ghost var b := Now();
      EdgeGeometry();
      GeometryIs(g, w, a, b, Now());
    }

    lemma PositiveExtents()
      requires Valid() && forall j, i :: 0 <= j <= g.ny + 1 && 0 <= i <= g.nx + 1 ==> cells[j, i].dept >= 0.0
      ensures g.Ok() && forall j, i :: !Outside(g, j, i) ==> Now()(j, i).dept >= 0.0
    {
    }

    /** Depths, then geometry: whatever the levels, what they leave is what the solve relies on, and
        no face area is negative. */
    method RefreshGeometry()
      requires Valid() && Staged(g, Now())
      modifies cells
      ensures Shaped(g, Now()) && FacesNonnegative(g, Now())
      ensures forall j, i :: OnlyGeometry(old(Now())(j, i), Now()(j, i))
    {
      ghost var w := Now();
      UpdateDepth();
      ghost var m := Now();
      hide DepthsFrom, GeometryFrom, Staged, Shaped, FacesNonnegative, OnlyGeometry;
      UpdateGeometry();
      GeometryShapes(g, w, m, Now());
    }

    // ----- right-hand side (src/swe/FreeSurface.cpp:128-201)

    method BaseRightHandSides()
      requires Valid()
      modifies cells
      ensures forall j, i :: Now()(j, i) == if g.Has(j, i) then old(Now())(j, i).(rhs := BaseRhs(g, old(Now()), j, i))
              else old(Now())(j, i)
    {
      hide BaseRhs;
      var w := Now();
      forall j, i | 1 <= j <= g.ny && 1 <= i <= g.nx {
        cells[j, i] := cells[j, i].(rhs := BaseRhs(g, w, j, i));
      }
    }

    /** One addition to a right-hand side; base is the state before any source, src what came since. */
    method Add(j: int, i: int, v: real, ghost base: Waters, ghost src: Field2)
      requires Valid() && Member(g, base, j, i) && Carries(g, base, Now(), src)
      modifies cells
      ensures Carries(g, base, Now(), Added(src, j, i, v))
      ensures Total(g, base, Added(src, j, i, v)) == Total(g, base, src) + v
    {
      hide Total;
      TotalAdds(g, base, src, j, i, v);
      cells[j, i] := cells[j, i].(rhs := cells[j, i].rhs + v);
    }

    /** A discharge condition: its inflow shared equally over its global member count. */
    method AddDischarge(d: Discharge, ghost base: Waters, ghost src0: Field2) returns (added: real, ghost src: Field2)
      requires Valid() && d.globalCount > 0 && (forall m <- d.members :: Member(g, base, m.0, m.1))
               && Carries(g, base, Now(), src0)
      modifies cells
      ensures Carries(g, base, Now(), src) && Total(g, base, src) == Total(g, base, src0) + added
      ensures added == |d.members| as real * (d.current * g.dt / d.globalCount as real)
    {
      hide Total, Carries;
      var perCell := d.current * g.dt / d.globalCount as real;
      added, src := 0.0, src0;
      for n := 0 to |d.members|
        invariant Carries(g, base, Now(), src) && Total(g, base, src) == Total(g, base, src0) + added
        invariant added == n as real * perCell
      {
        assert d.members[n] in d.members;
        var (j, i) := d.members[n];
        Add(j, i, perCell, base, src);
        src := Added(src, j, i, perCell);
        added := added + perCell;
      }
    }

    method AddVelocity(v: Velocity, ghost base: Waters, ghost src0: Field2) returns (added: real, ghost src: Field2)
      requires Valid() && (forall m <- v.members :: Member(g, base, m.j, m.i)) && Carries(g, base, Now(), src0)
      modifies cells
      ensures Carries(g, base, Now(), src) && Total(g, base, src) == Total(g, base, src0) + added
    {
      hide Total, Carries, VelocityVolume;
      added, src := 0.0, src0;
      for n := 0 to |v.members|
        invariant Carries(g, base, Now(), src) && Total(g, base, src) == Total(g, base, src0) + added
      {
        var m := v.members[n];
        assert m in v.members;
        var volume := VelocityVolume(g, Now(), m, v.current);
        Add(m.j, m.i, volume, base, src);
        src := Added(src, m.j, m.i, volume);
        added := added + volume;
      }
    }

    /** The whole right-hand side; the audit grows by what the conditions add. */
    method AssembleRhs(c: Conditions) returns (ghost base: Waters, ghost src: Field2)
      requires Valid() && Apart(g, Now(), c)
      modifies cells, this`bcInflow
      ensures forall j, i :: base(j, i) == if g.Has(j, i) then old(Now())(j, i).(rhs := BaseRhs(g, old(Now()), j, i))
              else old(Now())(j, i)
      ensures Carries(g, base, Now(), src)
      ensures bcInflow == old(bcInflow) + Total(g, base, src)
    {
      hide Total, BaseRhs;
      BaseRightHandSides();
      base, src := Now(), (j, i) => 0.0;
      hide Member;
      TotalOfNothing(g, base);
      assert Carries(g, base, Now(), src);
      assert Apart(g, base, c) by { ApartSame(g, old(Now()), base, c); }
      hide Carries;
      for n := 0 to |c.discharges|
        invariant Carries(g, base, Now(), src) && bcInflow == old(bcInflow) + Total(g, base, src)
      {
        assert c.discharges[n] in c.discharges;
        var added;
        added, src := AddDischarge(c.discharges[n], base, src);
        bcInflow := bcInflow + added;
      }
      for n := 0 to |c.velocities|
        invariant Carries(g, base, Now(), src) && bcInflow == old(bcInflow) + Total(g, base, src)
      {
        assert c.velocities[n] in c.velocities;
        var added;
        added, src := AddVelocity(c.velocities[n], base, src);
        bcInflow := bcInflow + added;
      }
    }

    // ----- coefficients, outflow, fill and solve (src/swe/FreeSurface.cpp:203-457)

    /** The coefficient kernel with the dry-cell closure: every cell, dry ones included, has its
        storage and the legs inside the domain on its diagonal, so that the system filled from them
        is symmetric positive definite. */
    method AssembleCoefficients()
      requires Valid() && Shaped(g, Now())
      modifies cells
      ensures AllAssembled(g, old(Now()), Now())
      ensures forall j, i :: g.Has(j, i) ==> PosedRow(g, Now(), j, i)
      ensures Symmetric(g.Grid(), g.Cells(), Filled(g, Now())) && Definite(g.Grid(), g.Cells(), Filled(g, Now()))
    {
      hide Assembled;
      var w := Now();
      forall j, i | 1 <= j <= g.ny && 1 <= i <= g.nx {
        cells[j, i] := Assembled(g, w, j, i);
      }
      CoefficientsPosed(g, w, Now());
    }

    /** One outflow condition; more is what outflow has taken since base. */
    method ApplyOutflow(o: Outflow, ghost base: Waters, ghost more0: Field2)
      returns (released: real, ghost more: Field2)
      requires Valid() && (forall m <- o.members :: Member(g, base, m.j, m.i)) && Carries(g, base, Now(), more0)
      modifies cells
      ensures Carries(g, base, Now(), more) && Total(g, base, more) == Total(g, base, more0) - released
    {
      hide Total, Carries, ReleasedVolume;
      released, more := 0.0, more0;
      for n := 0 to |o.members|
        invariant Carries(g, base, Now(), more) && Total(g, base, more) == Total(g, base, more0) - released
      {
        var m := o.members[n];
        assert m in o.members;
        var volume := ReleasedVolume(g, Now(), m);
        Add(m.j, m.i, -volume, base, more);
        more := Added(more, m.j, m.i, -volume);
        released := released + volume;
      }
    }

    method ApplyOutflowCorrections(c: Conditions) returns (ghost more: Field2)
      requires Valid() && Apart(g, Now(), c)
      modifies cells, this`boundaryOutflow
      ensures Carries(g, old(Now()), Now(), more)
      ensures boundaryOutflow == old(boundaryOutflow) - Total(g, old(Now()), more)
    {
      hide Total, Member;
      ghost var base := Now();
      more := (j, i) => 0.0;
      TotalOfNothing(g, base);
      assert Carries(g, base, Now(), more);
      hide Carries;
      for n := 0 to |c.outflows|
        invariant Carries(g, base, Now(), more) && boundaryOutflow == old(boundaryOutflow) - Total(g, base, more)
      {
        assert c.outflows[n] in c.outflows;
        var released;
        released, more := ApplyOutflow(c.outflows[n], base, more);
        boundaryOutflow := boundaryOutflow + released;
      }
    }

    /** The rows and right-hand sides, prescribed-stage columns eliminated. */
    method Fill()
      requires Valid()
      modifies rows, vector
      ensures forall j, i :: g.Has(j, i) ==> rows[j, i] == FilledRow(g, Now(), j, i)
                                             && vector[j, i] == FilledRhs(g, Now(), j, i)
    {
      hide FilledRow, FilledRhs;
      var w := Now();
      forall j, i | 1 <= j <= g.ny && 1 <= i <= g.nx {
        rows[j, i] := FilledRow(g, w, j, i);
      }
      forall j, i | 1 <= j <= g.ny && 1 <= i <= g.nx {
        vector[j, i] := FilledRhs(g, w, j, i);
      }
    }

    method Scatter(x: Field3)
      requires Valid()
      modifies cells
      ensures forall j, i :: Now()(j, i) == if g.Has(j, i) then old(Now())(j, i).(eta := x(j, i, 0))
              else old(Now())(j, i)
    {
      forall j, i | 1 <= j <= g.ny && 1 <= i <= g.nx {
        cells[j, i] := cells[j, i].(eta := x(j, i, 0));
      }
    }

    /** Fill, solve and scatter: the new levels solve the full system, stages included, and no others do. */
    method FillAndSolve(solver: Solver, ghost w0: Waters, ghost w1: Waters) returns (ghost x: Field3)
      requires Valid() && Exact(g, solver) && Shaped(g, w0) && AllAssembled(g, w0, w1)
      requires forall j, i :: Now()(j, i) == w1(j, i).(rhs := Now()(j, i).rhs)
      modifies rows, vector, cells
      ensures forall j, i :: Now()(j, i) == if g.Has(j, i) then old(Now())(j, i).(eta := x(j, i, 0))
              else old(Now())(j, i)
      ensures Solution(g.Cells(), Full(g, old(Now())), FullVector(g, old(Now())), x)
      ensures OnlySolution(g.Cells(), Full(g, old(Now())), FullVector(g, old(Now())), x)
    {
      hide *;
      Fill();
      var r, v := Snap2(rows, Row(0.0, 0.0, 0.0, 0.0, 0.0, 0.0, 0.0)), Snap2(vector, 0.0);
      var a: Matrix, rhs: Field3 := (j, i, k) => r(j, i), (j, i, k) => v(j, i);
      ghost var w := Now();
      forall j, i | g.Has(j, i) ensures a(j, i, 0) == FilledRow(g, w, j, i) && rhs(j, i, 0) == FilledRhs(g, w, j, i) {
        InGrid(j, i);
      }
      ShapedAt();
      RhsDoesNotMatter(g, w0, w1, w, a);
      SolverSolves(g, solver, a, rhs);
      var y := solver(a, rhs);
      SolvesFull(g, w0, w1, w, a, rhs, y);
      FullSolvedOnce(g, w0, w1, w, y);
      Scatter(y);
      x := y;
    }

    lemma InGrid(j: int, i: int)
      requires Valid() && g.Has(j, i)
      ensures 0 <= j < rows.Length0 && 0 <= i < rows.Length1 && 0 <= j < vector.Length0 && 0 <= i < vector.Length1
    {
    }

    lemma ShapedAt()
      requires Valid()
      ensures g.Ok()
    {
    }

    /** What leaves through the domain edges and into prescribed stages. */
    method AccumulateBoundaryFluxes(ghost before: Waters, ghost x: Field3)
      requires Valid()
      requires forall j, i :: Now()(j, i) == if g.Has(j, i) then before(j, i).(eta := x(j, i, 0)) else before(j, i)
      modifies this`boundaryOutflow
      ensures boundaryOutflow == old(boundaryOutflow) + Sum2(g.Grid(), Outflows(g, before, x))
    {
      hide OutflowAt, Sum2;
      var w, plan := Now(), g;
      var level := (j, i, k) => w(j, i).eta;
      var terms := (j, i) => OutflowAt(plan, w, level, j, i);
      var outflow := Reduce2(Box(g.ny, g.nx, 1), terms);
      boundaryOutflow := boundaryOutflow + outflow;
      forall j, i | g.Has(j, i) ensures terms(j, i) == Outflows(g, before, x)(j, i) {
        SameOutflow(g, before, w, x, level, j, i);
      }
      Sum2Ext(g.Grid(), terms, Outflows(g, before, x));
    }

    /** Main result: the free-surface phase.  With an exact solver the stored volume of the
        non-stage cells changes by exactly the audited inflow less the audited outflow, and the
        stage cells end at their stages. */
    method Solve(c: Conditions, solver: Solver)
      requires Valid() && Exact(g, solver) && Shaped(g, Now()) && Apart(g, Now(), c)
      modifies cells, rows, vector, this`bcInflow, this`boundaryOutflow
      ensures Sum2(g.Grid(), Rises(g, old(Now()), Levels(Now())))
              == (bcInflow - old(bcInflow)) - (boundaryOutflow - old(boundaryOutflow))
      ensures forall j, i :: g.Has(j, i) ==>
        cells[j, i].stage == old(cells[j, i].stage) && (cells[j, i].stage ==> cells[j, i].eta == cells[j, i].stageValue)
      ensures forall j, i :: OnlySolved(old(Now())(j, i), Now()(j, i))
    {
      hide *;
      ghost var w0 := Now();
      CellsAre();
      ghost var base, src := AssembleRhs(c);
      ghost var w1 := Now();
      Stages(g, w0, base, w1, src);
      AssembleCoefficients();
      ghost var w2 := Now();
      AssembledApart(g, w0, base, w1, w2, src, c);
      ghost var more := ApplyOutflowCorrections(c);
      ghost var w3 := Now();
      CarriesRhs(g, w2, w3, more);
      ghost var x := FillAndSolve(solver, w1, w2);
      AccumulateBoundaryFluxes(w3, x);
      ShapedAt();
      SolvedConserves(g, w0, base, w1, w2, w3, src, more, x);
      Finished(g, w0, w3, Now(), x);
      SolvedFrame(g, w0, base, w1, w2, w3, Now(), src, more, x);
      CellsAre();
    }

    lemma CellsAre()
      requires Valid()
      ensures forall j, i :: g.Has(j, i) ==> Now()(j, i) == cells[j, i]
    {
    }
  }

  lemma VolumeNonneg(d: real, x: real, y: real)
    requires d >= 0.0 && x > 0.0 && y > 0.0
    ensures d * x * y >= 0.0
  {
    NonnegTimes(d, x);
    NonnegTimes(d * x, y);
  }
}
