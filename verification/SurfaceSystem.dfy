/** The implicit free-surface system as values (src/swe/FreeSurface.cpp:128-281, 331-425): right-hand
    side, coefficients with the dry-cell closure, elimination of prescribed stages, and why every
    assembled system is symmetric positive definite and conservative. */
module SurfaceSystem {
  import opened Sums
  import opened Telescoping
  import opened Stencil

  /** One surface cell's slots; asx, vsx, dragX, ex and sxp lie on its x+ face, the y ones on its
      y+ face. */
  datatype Water = Water(eta: real, bottom: real, dept: real, deptx: real, depty: real, vs: real, asz: real, asx: real,
                         asy: real,
                         vsx: real, vsy: real, dragX: real, dragY: real, ex: real, ey: real, stage: bool,
                           stageValue: real,
                         sxp: real, sxm: real, syp: real, sym: real, sct: real, rhs: real)

  type Waters = (int, int) -> Water

  datatype Plan = Plan(ny: nat, nx: nat, dx: real, dy: real, gravity: real, dt: real, minDepth: real) {
    ghost predicate Ok() { dx > 0.0 && dy > 0.0 && gravity > 0.0 && dt > 0.0 && minDepth >= 0.0 }
    function Grid(): Box { Box(ny, nx, 1) }
    function CellArea(): real { dx * dy }
    function Coef(): real { gravity * dt * dt }
    predicate Has(j: int, i: int) { 1 <= j <= ny && 1 <= i <= nx }
    ghost function Cells(): Mask { (j, i, k) => Has(j, i) && k == 0 }
  }

  /** What depth update and geometry leave behind, drag factors as they are, stages on interior
      cells only. */
  ghost predicate Shaped(g: Plan, w: Waters) {
    && (forall j, i :: w(j, i).dragX >= 0.0 && w(j, i).dragY >= 0.0)
    && (forall j, i :: w(j, i).stage ==> g.Has(j, i))
    && (forall j, i :: g.Has(j, i) ==> w(j, i).dept >= 0.0 && w(j, i).asz == if w(j, i).dept > 0.0 then g.CellArea()
        else 0.0)
  }

  /** A face coefficient. */
  function FaceTerm(coef: real, area: real, drag: real, volume: real): real {
    if volume > 0.0 then coef * area * area * drag / volume else 0.0
  }

  function SX(g: Plan, w: Waters, j: int, i: int): real { FaceTerm(g.Coef(), w(j, i).asx, w(j, i).dragX, w(j, i).vsx) }
  function SY(g: Plan, w: Waters, j: int, i: int): real { FaceTerm(g.Coef(), w(j, i).asy, w(j, i).dragY, w(j, i).vsy) }

  lemma FaceTermNonneg(coef: real, area: real, drag: real, volume: real)
    requires coef >= 0.0 && drag >= 0.0
    ensures FaceTerm(coef, area, drag, volume) >= 0.0
  {
    if volume > 0.0 {
      assert area * area >= 0.0;
      NonnegTimes(coef, area * area);
      NonnegTimes(coef * (area * area), drag);
      assert coef * area * area * drag == coef * (area * area) * drag;
    }
  }

  lemma NonnegTimes(a: real, b: real)
    requires a >= 0.0 && b >= 0.0
    ensures a * b >= 0.0
  {
  }

  /** The explicit volume through a face over the step. */
  function GoneX(g: Plan, w: Waters, j: int, i: int): real { g.dt * (w(j, i).asx * w(j, i).ex) }
  function GoneY(g: Plan, w: Waters, j: int, i: int): real { g.dt * (w(j, i).asy * w(j, i).ey) }

  /** The base right-hand side. */
  function BaseRhs(g: Plan, w: Waters, j: int, i: int): real {
    w(j, i).eta * w(j, i).asz
    - g.dt * (w(j, i).asx * w(j, i).ex - w(j, i - 1).asx * w(j, i - 1).ex
              + w(j, i).asy * w(j, i).ey - w(j - 1, i).asy * w(j - 1, i).ey)
  }

  /** A cell with its coefficients: a dry cell is a zero-depth continuity row, and legs across the
      domain edge fold into the diagonal. */
  function Assembled(g: Plan, w: Waters, j: int, i: int): Water {
    var x := w(j, i);
    var sxp, sxm, syp, sym := SX(g, w, j, i), SX(g, w, j, i - 1), SY(g, w, j, i), SY(g, w, j - 1, i);
    var open := (if x.dept == 0.0 then g.CellArea() else x.asz) + sxp + sxm + syp + sym;
    x.(sxp := sxp, sxm := sxm, syp := syp, sym := sym,
       sct := open - (if i == 1 then sxm else 0.0) - (if i == g.nx then sxp else 0.0)
              - (if j == 1 then sym else 0.0) - (if j == g.ny then syp else 0.0),
       rhs := if x.dept == 0.0 then x.rhs + x.eta * g.CellArea() else x.rhs)
  }

  ghost predicate AllAssembled(g: Plan, w: Waters, w': Waters) {
    forall j, i :: w'(j, i) == if g.Has(j, i) then Assembled(g, w, j, i) else w(j, i)
  }

  /** The row of a cell with the prescribed-stage columns still in it. */
  function FullRow(g: Plan, x: Water): Row {
    if x.stage then Row(g.CellArea(), 0.0, 0.0, 0.0, 0.0, 0.0, 0.0)
    else Row(x.sct, -x.sxm, -x.sxp, -x.sym, -x.syp, 0.0, 0.0)
  }
  function FullRhs(g: Plan, x: Water): real { if x.stage then x.stageValue * g.CellArea() else x.rhs }

  /** The filled row: stage columns eliminated into the right-hand side. */
  function FilledRow(g: Plan, w: Waters, j: int, i: int): Row {
    var x := w(j, i);
    if x.stage then Row(g.CellArea(), 0.0, 0.0, 0.0, 0.0, 0.0, 0.0)
    else Row(x.sct, if w(j, i - 1).stage then 0.0 else -x.sxm, if w(j, i + 1).stage then 0.0 else -x.sxp,
             if w(j - 1, i).stage then 0.0 else -x.sym, if w(j + 1, i).stage then 0.0 else -x.syp, 0.0, 0.0)
  }

  function FilledRhs(g: Plan, w: Waters, j: int, i: int): real {
    var x := w(j, i);
    if x.stage then x.stageValue * g.CellArea()
    else x.rhs + (if w(j, i - 1).stage then x.sxm * w(j, i - 1).stageValue else 0.0)
               + (if w(j, i + 1).stage then x.sxp * w(j, i + 1).stageValue else 0.0)
               + (if w(j - 1, i).stage then x.sym * w(j - 1, i).stageValue else 0.0)
               + (if w(j + 1, i).stage then x.syp * w(j + 1, i).stageValue else 0.0)
  }

  function Filled(g: Plan, w: Waters): Matrix { (j, i, k) => FilledRow(g, w, j, i) }
  function FilledVector(g: Plan, w: Waters): Field3 { (j, i, k) => FilledRhs(g, w, j, i) }
  ghost function Full(g: Plan, w: Waters): Matrix { (j, i, k) => FullRow(g, w(j, i)) }
  ghost function FullVector(g: Plan, w: Waters): Field3 { (j, i, k) => FullRhs(g, w(j, i)) }

  // ----- the network of the filled system

  ghost function JoinX(g: Plan, w: Waters, j: int, i: int): real {
    if g.Has(j, i) && g.Has(j, i + 1) && !w(j, i).stage && !w(j, i + 1).stage then SX(g, w, j, i) else 0.0
  }
  ghost function JoinY(g: Plan, w: Waters, j: int, i: int): real {
    if g.Has(j, i) && g.Has(j + 1, i) && !w(j, i).stage && !w(j + 1, i).stage then SY(g, w, j, i) else 0.0
  }

  /** A cell's storage, and its legs to prescribed stages. */
  ghost function OwnTerm(g: Plan, w: Waters, j: int, i: int): real {
    if !g.Has(j, i) then 0.0
    else if w(j, i).stage then g.CellArea()
    else g.CellArea() + (if w(j, i - 1).stage then SX(g, w, j, i - 1) else 0.0)
         + (if w(j, i + 1).stage then SX(g, w, j, i) else 0.0)
         + (if w(j - 1, i).stage then SY(g, w, j - 1, i) else 0.0) + (if w(j + 1, i).stage then SY(g, w, j, i) else 0.0)
  }

  ghost function SurfaceNet(g: Plan, w: Waters): Net {
    Net((j, i, k) => if k == 0 then OwnTerm(g, w, j, i) else 0.0,
        (j, i, k) => if k == 0 then JoinX(g, w, j, i) else 0.0,
        (j, i, k) => if k == 0 then JoinY(g, w, j, i) else 0.0, (j, i, k) => 0.0)
  }

  lemma FacesNonneg(g: Plan, w: Waters, j: int, i: int)
    requires g.Ok() && Shaped(g, w)
    ensures SX(g, w, j, i) >= 0.0 && SY(g, w, j, i) >= 0.0
  {
    CoefNonneg(g);
    FaceTermNonneg(g.Coef(), w(j, i).asx, w(j, i).dragX, w(j, i).vsx);
    FaceTermNonneg(g.Coef(), w(j, i).asy, w(j, i).dragY, w(j, i).vsy);
  }

  lemma CoefNonneg(g: Plan)
    requires g.Ok()
    ensures g.Coef() >= 0.0 && g.CellArea() > 0.0
  {
    NonnegTimes(g.gravity, g.dt);
    NonnegTimes(g.gravity * g.dt, g.dt);
  }

  lemma TermsNonneg(g: Plan, w: Waters, j: int, i: int)
    requires g.Ok() && Shaped(g, w)
    ensures JoinX(g, w, j, i) >= 0.0 && JoinY(g, w, j, i) >= 0.0 && OwnTerm(g, w, j, i) >= 0.0
    ensures g.Has(j, i) ==> OwnTerm(g, w, j, i) > 0.0
  {
    CoefNonneg(g);
    FacesNonneg(g, w, j, i);
    FacesNonneg(g, w, j, i - 1);
    FacesNonneg(g, w, j - 1, i);
    hide SX, SY, Plan.CellArea, Plan.Coef, Shaped;
  }

  lemma Places(g: Plan, w: Waters, j: int, i: int)
    ensures OwnTerm(g, w, j, i) != 0.0 ==> g.Has(j, i)
    ensures JoinX(g, w, j, i) != 0.0 ==> g.Has(j, i) && g.Has(j, i + 1)
    ensures JoinY(g, w, j, i) != 0.0 ==> g.Has(j, i) && g.Has(j + 1, i)
  {
  }

  lemma NetAt(g: Plan, w: Waters, j: int, i: int, k: int)
    requires g.Ok() && Shaped(g, w)
    ensures TermsOk(g.Cells(), SurfaceNet(g, w), j, i, k)
  {
    hide OwnTerm, JoinX, JoinY, Shaped, Plan.Ok;
    TermsNonneg(g, w, j, i);
    Places(g, w, j, i);
  }

  lemma SurfaceNetOk(g: Plan, w: Waters)
    requires g.Ok() && Shaped(g, w)
    ensures NetOk(g.Cells(), SurfaceNet(g, w)) && Inside(g.Grid(), g.Cells())
  {
    forall j, i, k ensures TermsOk(g.Cells(), SurfaceNet(g, w), j, i, k) { NetAt(g, w, j, i, k); }
    hide SurfaceNet, TermsOk;
  }

  lemma NetTerms(g: Plan, w: Waters, j: int, i: int)
    ensures var net := SurfaceNet(g, w);
      && net.own(j, i, 0) == OwnTerm(g, w, j, i) && net.wx(j, i, 0) == JoinX(g, w, j, i)
        && net.wy(j, i, 0) == JoinY(g, w, j, i)
      && net.wz(j, i, 0) == 0.0 && net.wz(j, i, 1) == 0.0
  {
    hide OwnTerm, JoinX, JoinY;
  }

  lemma SameFaces(g: Plan, w0: Waters, w: Waters, j: int, i: int)
    requires AllAssembled(g, w0, w)
    ensures SX(g, w, j, i) == SX(g, w0, j, i) && SY(g, w, j, i) == SY(g, w0, j, i)
    ensures w(j, i).stage == w0(j, i).stage && w(j, i).stageValue == w0(j, i).stageValue
  {
    hide FaceTerm, Plan.CellArea;
  }

  lemma FilledRowIs(g: Plan, w0: Waters, w: Waters, j: int, i: int)
    requires g.Ok() && Shaped(g, w0) && AllAssembled(g, w0, w) && g.Has(j, i)
    ensures RowIs(g.Cells(), FilledRow(g, w, j, i), SurfaceNet(g, w), j, i, 0)
  {
    hide SurfaceNet;
    NetTerms(g, w, j, i);
    NetTerms(g, w, j, i - 1);
    NetTerms(g, w, j - 1, i);
    hide SX, SY, Plan.CellArea, Plan.Ok;
    SameFaces(g, w0, w, j, i);
    SameFaces(g, w0, w, j, i - 1);
    SameFaces(g, w0, w, j - 1, i);
    assert w(j, i) == Assembled(g, w0, j, i);
    assert w(j, i + 1).stage == w0(j, i + 1).stage && w(j, i - 1).stage == w0(j, i - 1).stage;
    assert w(j + 1, i).stage == w0(j + 1, i).stage && w(j - 1, i).stage == w0(j - 1, i).stage;
    RowSum(g, w0, w, j, i);
    hide OwnTerm;
  }

  /** A cell's coefficients: its storage on the diagonal with every leg inside the domain. */
  ghost predicate PosedRow(g: Plan, w: Waters, j: int, i: int) {
    var x, sxp, sxm, syp, sym := w(j, i), SX(g, w, j, i), SX(g, w, j, i - 1), SY(g, w, j, i), SY(g, w, j - 1, i);
    && x.sxp == sxp && x.sxm == sxm && x.syp == syp && x.sym == sym
    && x.sct == g.CellArea() + (if i == 1 then 0.0 else sxm) + (if i == g.nx then 0.0 else sxp)
                + (if j == 1 then 0.0 else sym) + (if j == g.ny then 0.0 else syp)
  }

  lemma AssembledRow(g: Plan, w0: Waters, w: Waters, j: int, i: int)
    requires AllAssembled(g, w0, w) && g.Has(j, i)
    requires w0(j, i).dept >= 0.0 && w0(j, i).asz == if w0(j, i).dept > 0.0 then g.CellArea() else 0.0
    ensures PosedRow(g, w, j, i)
  {
    hide SX, SY, Plan.CellArea;
    SameFaces(g, w0, w, j, i);
    SameFaces(g, w0, w, j, i - 1);
    SameFaces(g, w0, w, j - 1, i);
    assert w(j, i) == Assembled(g, w0, j, i);
    hide AllAssembled;
  }

  /** The diagonal is the storage plus every live leg: legs across the domain edge are folded
      away, legs to a prescribed stage stay. */
  lemma RowSum(g: Plan, w0: Waters, w: Waters, j: int, i: int)
    requires g.Ok() && Shaped(g, w0) && AllAssembled(g, w0, w) && g.Has(j, i)
    ensures FilledRow(g, w, j, i).ct
            == OwnTerm(g, w, j, i) + JoinX(g, w, j, i - 1) + JoinX(g, w, j, i) + JoinY(g, w, j - 1, i)
              + JoinY(g, w, j, i)
  {
    hide SX, SY, JoinX, JoinY, Plan.CellArea, Plan.Ok, AllAssembled, Shaped, Assembled;
    if w(j, i).stage {
      NothingJoins(g, w, j, i);
    } else {
      ShapedAt(g, w0, j, i);
      AssembledRow(g, w0, w, j, i);
      StageInside(g, w0, w, j, i + 1);
      StageInside(g, w0, w, j, i - 1);
      StageInside(g, w0, w, j - 1, i);
      StageInside(g, w0, w, j + 1, i);
      LegShares(g, w, j, i);
    }
  }

  lemma ShapedAt(g: Plan, w: Waters, j: int, i: int)
    requires Shaped(g, w) && g.Has(j, i)
    ensures w(j, i).dept >= 0.0 && w(j, i).asz == if w(j, i).dept > 0.0 then g.CellArea() else 0.0
  {
  }

  lemma NothingJoins(g: Plan, w: Waters, j: int, i: int)
    requires w(j, i).stage
    ensures JoinX(g, w, j, i - 1) == JoinX(g, w, j, i) == JoinY(g, w, j - 1, i) == JoinY(g, w, j, i) == 0.0
  {
    hide SX, SY;
  }

  /** A leg inside the domain leads to a prescribed stage or joins two cells. */
  lemma LegShares(g: Plan, w: Waters, j: int, i: int)
    requires g.Has(j, i) && !w(j, i).stage
    requires (w(j, i - 1).stage ==> g.Has(j, i - 1)) && (w(j, i + 1).stage ==> g.Has(j, i + 1))
    requires (w(j - 1, i).stage ==> g.Has(j - 1, i)) && (w(j + 1, i).stage ==> g.Has(j + 1, i))
    ensures (if i == 1 then 0.0 else SX(g, w, j, i - 1)) == (if w(j, i - 1).stage then SX(g, w, j, i - 1) else 0.0)
            + JoinX(g, w, j, i - 1)
    ensures (if i == g.nx then 0.0 else SX(g, w, j, i)) == (if w(j, i + 1).stage then SX(g, w, j, i) else 0.0)
            + JoinX(g, w, j, i)
    ensures (if j == 1 then 0.0 else SY(g, w, j - 1, i)) == (if w(j - 1, i).stage then SY(g, w, j - 1, i) else 0.0)
            + JoinY(g, w, j - 1, i)
    ensures (if j == g.ny then 0.0 else SY(g, w, j, i)) == (if w(j + 1, i).stage then SY(g, w, j, i) else 0.0)
            + JoinY(g, w, j, i)
  {
    hide SX, SY;
  }

  lemma StageInside(g: Plan, w0: Waters, w: Waters, j: int, i: int)
    requires Shaped(g, w0) && AllAssembled(g, w0, w)
    ensures w(j, i).stage ==> g.Has(j, i)
  {
    SameFaces(g, w0, w, j, i);
  }

  /** Main result: every assembled and filled system is symmetric positive definite. */
  lemma FilledIsDefinite(g: Plan, w0: Waters, w: Waters, a: Matrix)
    requires g.Ok() && Shaped(g, w0) && AllAssembled(g, w0, w)
    requires forall j, i :: g.Has(j, i) ==> a(j, i, 0) == FilledRow(g, w, j, i)
    ensures Symmetric(g.Grid(), g.Cells(), a) && Definite(g.Grid(), g.Cells(), a)
  {
    var b, m, net := g.Grid(), g.Cells(), SurfaceNet(g, w);
    assert Shaped(g, w);
    SurfaceNetOk(g, w);
    forall j, i, k | m(j, i, k) ensures RowIs(m, a(j, i, k), net, j, i, k) {
      FilledRowIs(g, w0, w, j, i);
      hide FilledRow, SurfaceNet, RowIs;
    }
    assert FromNet(b, m, a, net);
    NetIsSymmetric(b, m, a, net);
    assert Anchored(m, net) by { StorageAnchors(g, w); }
    hide *;
    DefiniteIffAnchored(b, m, a, net);
  }

  lemma StorageAnchors(g: Plan, w: Waters)
    requires g.Ok() && Shaped(g, w)
    ensures Anchored(g.Cells(), SurfaceNet(g, w))
  {
    hide OwnTerm, ClosedSet;
    forall s: Mask | ClosedSet(g.Cells(), SurfaceNet(g, w), s) && exists j, i, k :: s(j, i, k)
      ensures exists j, i, k :: s(j, i, k) && SurfaceNet(g, w).own(j, i, k) > 0.0
    {
      var j, i, k :| s(j, i, k);
      assert g.Cells()(j, i, k) by { ClosedIn(g.Cells(), SurfaceNet(g, w), s, j, i, k); }
      TermsNonneg(g, w, j, i);
      assert SurfaceNet(g, w).own(j, i, k) > 0.0;
    }
  }

  lemma ClosedIn(m: Mask, net: Net, s: Mask, j: int, i: int, k: int)
    requires ClosedSet(m, net, s) && s(j, i, k)
    ensures m(j, i, k)
  {
  }

  // ----- elimination

  /** One cell's filled and full rows agree once the stages around it hold their values. */
  lemma RowsAgree(g: Plan, w: Waters, x: Field3, j: int, i: int)
    requires forall j, i :: w(j, i).stage ==> g.Has(j, i)
    requires !w(j, i).stage && g.Has(j, i)
    requires forall j', i' :: w(j', i').stage ==> x(j', i', 0) == w(j', i').stageValue
    ensures RowTimes(g.Cells(), FilledRow(g, w, j, i), x, j, i, 0) - FilledRhs(g, w, j, i)
            == RowTimes(g.Cells(), FullRow(g, w(j, i)), x, j, i, 0) - FullRhs(g, w(j, i))
  {
  }

  /** Main result: eliminating the prescribed stages does not change the solutions. */
  lemma EliminationKeepsSolutions(g: Plan, w: Waters, x: Field3)
    requires g.Ok() && forall j, i :: w(j, i).stage ==> g.Has(j, i)
    ensures Solution(g.Cells(), Filled(g, w), FilledVector(g, w), x)
            <==> Solution(g.Cells(), Full(g, w), FullVector(g, w), x)
  {
    CoefNonneg(g);
    hide FilledRow, FilledRhs, FullRow, FullRhs, RowTimes;
    var m := g.Cells();
    if Solution(m, Filled(g, w), FilledVector(g, w), x) || Solution(m, Full(g, w), FullVector(g, w), x) {
      forall j, i | w(j, i).stage ensures x(j, i, 0) == w(j, i).stageValue {
        assert m(j, i, 0);
        StageRow(g, w, x, j, i);
      }
      forall j, i, k | m(j, i, k)
        ensures RowTimes(m, Filled(g, w)(j, i, k), x, j, i, k) - FilledVector(g, w)(j, i, k)
                == RowTimes(m, Full(g, w)(j, i, k), x, j, i, k) - FullVector(g, w)(j, i, k)
      {
        if w(j, i).stage { StageRow(g, w, x, j, i); } else { RowsAgree(g, w, x, j, i); }
      }
    }
  }

  /** A prescribed-stage row is the same in both systems and gives the stage. */
  lemma StageRow(g: Plan, w: Waters, x: Field3, j: int, i: int)
    requires g.Ok() && w(j, i).stage && g.Has(j, i)
    ensures FilledRow(g, w, j, i) == FullRow(g, w(j, i)) && FilledRhs(g, w, j, i) == FullRhs(g, w(j, i))
    ensures RowTimes(g.Cells(), FullRow(g, w(j, i)), x, j, i, 0) == FullRhs(g, w(j, i)) ==>
      x(j, i, 0) == w(j, i).stageValue
  {
    CoefNonneg(g);
    Cancels(g.CellArea(), x(j, i, 0), w(j, i).stageValue);
  }

  lemma Cancels(a: real, x: real, y: real)
    requires a > 0.0
    ensures Mul(a, x) == y * a ==> x == y
  {
  }

  // ----- conservation

  /** The continuity equation of a non-stage cell: storage, explicit face volumes, sources. */
  ghost predicate Posed(g: Plan, w: Waters, src: Field2, j: int, i: int) {
    && PosedRow(g, w, j, i)
    && w(j, i).rhs == g.CellArea() * w(j, i).eta - (GoneX(g, w, j, i) - GoneX(g, w, j, i - 1))
      - (GoneY(g, w, j, i) - GoneY(g, w, j - 1, i))
                      + src(j, i)
  }

  ghost predicate Inner(g: Plan, w: Waters, j: int, i: int) { g.Has(j, i) && !w(j, i).stage }

  ghost predicate AllPosed(g: Plan, w: Waters, src: Field2) {
    forall j, i :: Inner(g, w, j, i) ==> Posed(g, w, src, j, i)
  }

  /** A leg's share of a row: nothing across the domain edge. */
  ghost function Jump(open: bool, s: real, v: real, n: real): real { if open then Mul(s, v - n) else 0.0 }

  /** The whole volume through a face: explicit, and implicit inside the domain. */
  ghost function ThroughXAt(g: Plan, w: Waters, x: Field3, j: int, i: int): real {
    GoneX(g, w, j, i) + Jump(1 <= i < g.nx, SX(g, w, j, i), x(j, i, 0), x(j, i + 1, 0))
  }
  ghost function ThroughYAt(g: Plan, w: Waters, x: Field3, j: int, i: int): real {
    GoneY(g, w, j, i) + Jump(1 <= j < g.ny, SY(g, w, j, i), x(j, i, 0), x(j + 1, i, 0))
  }

  ghost function ThroughX(g: Plan, w: Waters, x: Field3): (q: Field3)
    ensures forall j, i :: q(j, i, 0) == ThroughXAt(g, w, x, j, i)
  {
    (j, i, k) => ThroughXAt(g, w, x, j, i)
  }
  ghost function ThroughY(g: Plan, w: Waters, x: Field3): (q: Field3)
    ensures forall j, i :: q(j, i, 0) == ThroughYAt(g, w, x, j, i)
  {
    (j, i, k) => ThroughYAt(g, w, x, j, i)
  }

  ghost function InnerMask(g: Plan, w: Waters): Mask { (j, i, k) => k == 0 && Inner(g, w, j, i) }

  /** The rise of a non-stage cell's stored volume. */
  ghost function RiseAt(g: Plan, w: Waters, x: Field3, j: int, i: int): real {
    if Inner(g, w, j, i) then g.CellArea() * x(j, i, 0) - g.CellArea() * w(j, i).eta else 0.0
  }

  /** What one cell's boundary audit adds: its open edges and its faces into prescribed stages,
      eta being the new level. */
  function OutflowAt(g: Plan, w: Waters, x: Field3, j: int, i: int): real {
    if w(j, i).stage || !g.Has(j, i) then 0.0
    else
      (if i == 1 then -GoneX(g, w, j, i - 1) else 0.0) + (if i == g.nx then GoneX(g, w, j, i) else 0.0)
      + (if j == 1 then -GoneY(g, w, j - 1, i) else 0.0) + (if j == g.ny then GoneY(g, w, j, i) else 0.0)
      + (if w(j, i + 1).stage then GoneX(g, w, j, i) - Mul(w(j, i).sxp, w(j, i + 1).stageValue - x(j, i, 0)) else 0.0)
      + (if w(j, i - 1).stage then -GoneX(g, w, j, i - 1) - Mul(w(j, i).sxm, w(j, i - 1).stageValue - x(j, i, 0))
         else 0.0)
      + (if w(j + 1, i).stage then GoneY(g, w, j, i) - Mul(w(j, i).syp, w(j + 1, i).stageValue - x(j, i, 0)) else 0.0)
      + (if w(j - 1, i).stage then -GoneY(g, w, j - 1, i) - Mul(w(j, i).sym, w(j - 1, i).stageValue - x(j, i, 0))
         else 0.0)
  }

  lemma SplitDiagonal(a: real, p: real, q: real, r: real, s: real, v: real)
    ensures Mul(a + p + q + r + s, v) == Mul(a, v) + Mul(p, v) + Mul(q, v) + Mul(r, v) + Mul(s, v)
    ensures Mul(0.0, v) == 0.0
  {
  }

  lemma Swapped(s: real, a: real, b: real)
    ensures Mul(s, a - b) == -Mul(s, b - a)
  {
  }

  lemma LegIs(m: Mask, s: real, x: Field3, j: int, i: int, k: int, v: real)
    ensures Leg(m, -s, x, j, i, k) + Mul(if m(j, i, k) then s else 0.0, v) == Jump(m(j, i, k), s, v, x(j, i, k))
    ensures Leg(m, 0.0, x, j, i, k) == 0.0
  {
  }

  /** A full row is the storage term plus one jump per leg. */
  lemma FullRowJumps(g: Plan, w: Waters, src: Field2, x: Field3, j: int, i: int)
    requires Inner(g, w, j, i) && Posed(g, w, src, j, i)
    ensures var v := x(j, i, 0);
      RowTimes(g.Cells(), FullRow(g, w(j, i)), x, j, i, 0)
      == Mul(g.CellArea(), v) + Jump(i != 1, SX(g, w, j, i - 1), v, x(j, i - 1, 0))
        + Jump(i != g.nx, SX(g, w, j, i), v, x(j, i + 1, 0))
         + Jump(j != 1, SY(g, w, j - 1, i), v, x(j - 1, i, 0)) + Jump(j != g.ny, SY(g, w, j, i), v, x(j + 1, i, 0))
  {
    hide Mul, Leg, SX, SY, GoneX, GoneY, Plan.CellArea, Jump;
    var m, v := g.Cells(), x(j, i, 0);
    SplitDiagonal(g.CellArea(), if i == 1 then 0.0 else SX(g, w, j, i - 1), if i == g.nx then 0.0 else SX(g, w, j, i),
                  if j == 1 then 0.0 else SY(g, w, j - 1, i), if j == g.ny then 0.0 else SY(g, w, j, i), v);
    LegIs(m, SX(g, w, j, i - 1), x, j, i - 1, 0, v);
    LegIs(m, SX(g, w, j, i), x, j, i + 1, 0, v);
    LegIs(m, SY(g, w, j - 1, i), x, j - 1, i, 0, v);
    LegIs(m, SY(g, w, j, i), x, j + 1, i, 0, v);
    LegIs(m, 0.0, x, j, i, -1, v);
    LegIs(m, 0.0, x, j, i, 1, v);
  }

  lemma ThroughAt(g: Plan, w: Waters, x: Field3, j: int, i: int)
    ensures ThroughXAt(g, w, x, j, i) == GoneX(g, w, j, i)
            + Jump(1 <= i < g.nx, SX(g, w, j, i), x(j, i, 0), x(j, i + 1, 0))
    ensures ThroughYAt(g, w, x, j, i) == GoneY(g, w, j, i)
            + Jump(1 <= j < g.ny, SY(g, w, j, i), x(j, i, 0), x(j + 1, i, 0))
  {
  }

  lemma JumpBack(open: bool, s: real, a: real, b: real)
    ensures Jump(open, s, a, b) == -Jump(open, s, b, a)
  {
  }

  lemma FullRhsIs(g: Plan, w: Waters, src: Field2, j: int, i: int)
    requires Inner(g, w, j, i) && Posed(g, w, src, j, i)
    ensures FullRhs(g, w(j, i))
            == Mul(g.CellArea(), w(j, i).eta) - (GoneX(g, w, j, i) - GoneX(g, w, j, i - 1))
              - (GoneY(g, w, j, i) - GoneY(g, w, j - 1, i))
               + src(j, i)
  {
    hide SX, SY, GoneX, GoneY, Plan.CellArea;
  }

  lemma RiseIs(g: Plan, w: Waters, x: Field3, j: int, i: int)
    requires Inner(g, w, j, i)
    ensures RiseAt(g, w, x, j, i) == Mul(g.CellArea(), x(j, i, 0)) - Mul(g.CellArea(), w(j, i).eta)
  {
    hide Plan.CellArea;
  }

  /** A solved cell rises by its sources less the net volume through its faces. */
  lemma CellRises(g: Plan, w: Waters, src: Field2, x: Field3, j: int, i: int)
    requires Inner(g, w, j, i) && Posed(g, w, src, j, i)
    requires RowTimes(g.Cells(), FullRow(g, w(j, i)), x, j, i, 0) == FullRhs(g, w(j, i))
    ensures RiseAt(g, w, x, j, i)
            == src(j, i) - (ThroughXAt(g, w, x, j, i) - ThroughXAt(g, w, x, j, i - 1))
               - (ThroughYAt(g, w, x, j, i) - ThroughYAt(g, w, x, j - 1, i))
  {
    hide *;
    InnerRange(g, w, j, i);
    FullRowJumps(g, w, src, x, j, i);
    FullRhsIs(g, w, src, j, i);
    RiseIs(g, w, x, j, i);
    ThroughAt(g, w, x, j, i);
    ThroughAt(g, w, x, j, i - 1);
    ThroughAt(g, w, x, j - 1, i);
    JumpBack(i != 1, SX(g, w, j, i - 1), x(j, i, 0), x(j, i - 1, 0));
    JumpBack(j != 1, SY(g, w, j - 1, i), x(j, i, 0), x(j - 1, i, 0));
    assert (1 <= i - 1 < g.nx) == (i != 1) && (1 <= j - 1 < g.ny) == (j != 1);
    assert (1 <= i < g.nx) == (i != g.nx) && (1 <= j < g.ny) == (j != g.ny);
  }

  lemma InnerRange(g: Plan, w: Waters, j: int, i: int)
    requires Inner(g, w, j, i)
    ensures 1 <= i <= g.nx && 1 <= j <= g.ny
  {
  }

  /** One cell's outer faces carry what its boundary audit says, once the stages hold. */
  lemma OuterIsOutflow(g: Plan, w: Waters, src: Field2, x: Field3, j: int, i: int)
    requires forall j, i :: w(j, i).stage ==> g.Has(j, i)
    requires Inner(g, w, j, i) && Posed(g, w, src, j, i)
    requires forall j', i' :: w(j', i').stage ==> x(j', i', 0) == w(j', i').stageValue
    ensures OuterX(g.Grid(), InnerMask(g, w), ThroughX(g, w, x), j, i, 0)
            + OuterY(g.Grid(), InnerMask(g, w), ThroughY(g, w, x), j, i, 0)
            == OutflowAt(g, w, x, j, i)
  {
    hide ThroughX, ThroughY, ThroughXAt, ThroughYAt, SX, SY, GoneX, GoneY, Mul, Plan.CellArea;
    ThroughAt(g, w, x, j, i);
    ThroughAt(g, w, x, j, i - 1);
    ThroughAt(g, w, x, j - 1, i);
    Swapped(SX(g, w, j, i), x(j, i, 0), x(j, i + 1, 0));
    Swapped(SY(g, w, j, i), x(j, i, 0), x(j + 1, i, 0));
  }

  /** Face quantities read the geometry, the drag and the momentum alone. */
  lemma SameQuantities(g: Plan, w: Waters, w': Waters, j: int, i: int)
    requires w'(j, i).asx == w(j, i).asx && w'(j, i).ex == w(j, i).ex && w'(j, i).asy == w(j, i).asy
             && w'(j, i).ey == w(j, i).ey
    requires w'(j, i).dragX == w(j, i).dragX && w'(j, i).dragY == w(j, i).dragY
    requires w'(j, i).vsx == w(j, i).vsx && w'(j, i).vsy == w(j, i).vsy
    ensures GoneX(g, w', j, i) == GoneX(g, w, j, i) && GoneY(g, w', j, i) == GoneY(g, w, j, i)
    ensures SX(g, w', j, i) == SX(g, w, j, i) && SY(g, w', j, i) == SY(g, w, j, i)
  {
    hide FaceTerm, Plan.Coef;
  }

  lemma AssembledPosed(g: Plan, w0: Waters, w1: Waters, w2: Waters, src: Field2, j: int, i: int)
    requires g.Ok() && Shaped(g, w0) && g.Has(j, i)
    requires forall j, i :: w1(j, i) == if g.Has(j, i) then w0(j, i).(rhs := BaseRhs(g, w0, j, i) + src(j, i))
             else w0(j, i)
    requires AllAssembled(g, w1, w2)
    ensures Posed(g, w2, src, j, i)
  {
    hide SX, SY, GoneX, GoneY, BaseRhs, Plan.CellArea, PosedRow;
    assert w1(j, i).dept == w0(j, i).dept >= 0.0 && w1(j, i).asz == w0(j, i).asz == if w0(j, i).dept > 0.0
      then g.CellArea() else 0.0;
    AssembledRow(g, w1, w2, j, i);
    BaseIs(g, w0, j, i);
    GoneStays(g, w0, w1, w2, src, j, i);
    GoneStays(g, w0, w1, w2, src, j, i - 1);
    GoneStays(g, w0, w1, w2, src, j - 1, i);
    assert w2(j, i).rhs == (if w1(j, i).dept == 0.0 then w1(j, i).rhs + w1(j, i).eta * g.CellArea() else w1(j, i).rhs)
      && w2(j, i).eta == w0(j, i).eta by {
      assert w2(j, i) == Assembled(g, w1, j, i);
    }
    DryStorage(w0(j, i).eta, w0(j, i).asz, g.CellArea());
    hide Shaped, Plan.Ok, AllAssembled;
  }

  lemma GoneStays(g: Plan, w0: Waters, w1: Waters, w2: Waters, src: Field2, j: int, i: int)
    requires forall j, i :: w1(j, i) == if g.Has(j, i) then w0(j, i).(rhs := BaseRhs(g, w0, j, i) + src(j, i))
             else w0(j, i)
    requires AllAssembled(g, w1, w2)
    ensures GoneX(g, w2, j, i) == GoneX(g, w0, j, i) && GoneY(g, w2, j, i) == GoneY(g, w0, j, i)
  {
    hide SX, SY, GoneX, GoneY, BaseRhs, Plan.CellArea;
    SameQuantities(g, w0, w2, j, i);
  }

  /** After assembly every non-stage cell poses its continuity equation. */
  lemma AssembledPoses(g: Plan, w0: Waters, w1: Waters, w2: Waters, src: Field2)
    requires g.Ok() && Shaped(g, w0)
    requires forall j, i :: w1(j, i) == if g.Has(j, i) then w0(j, i).(rhs := BaseRhs(g, w0, j, i) + src(j, i))
             else w0(j, i)
    requires AllAssembled(g, w1, w2)
    ensures AllPosed(g, w2, src)
  {
    hide BaseRhs, Posed, AllAssembled, Shaped;
    forall j, i | Inner(g, w2, j, i) ensures Posed(g, w2, src, j, i) { AssembledPosed(g, w0, w1, w2, src, j, i); }
  }

  lemma DryStorage(eta: real, asz: real, area: real)
    ensures asz == 0.0 ==> eta * asz + eta * area == area * eta
    ensures asz == area ==> eta * asz == area * eta
  {
  }

  lemma BaseIs(g: Plan, w: Waters, j: int, i: int)
    ensures BaseRhs(g, w, j, i)
            == w(j, i).eta * w(j, i).asz - (GoneX(g, w, j, i) - GoneX(g, w, j, i - 1))
              - (GoneY(g, w, j, i) - GoneY(g, w, j - 1, i))
  {
    Spread4(g.dt, w(j, i).asx * w(j, i).ex, w(j, i - 1).asx * w(j, i - 1).ex, w(j, i).asy * w(j, i).ey,
            w(j - 1, i).asy * w(j - 1, i).ey);
  }

  lemma Spread4(d: real, p: real, q: real, r: real, s: real)
    ensures d * (p - q + r - s) == (d * p - d * q) + (d * r - d * s)
  {
  }

  lemma StillPosed(g: Plan, w: Waters, w': Waters, src: Field2, more: Field2, total: Field2, j: int, i: int)
    requires Posed(g, w, src, j, i) && g.Has(j, i)
    requires forall j, i :: w'(j, i) == if g.Has(j, i) then w(j, i).(rhs := w(j, i).rhs + more(j, i)) else w(j, i)
    requires total(j, i) == src(j, i) + more(j, i)
    ensures Posed(g, w', total, j, i)
  {
    hide SX, SY, GoneX, GoneY, Plan.CellArea;
    var x, x' := w(j, i), w'(j, i);
    assert x' == x.(rhs := x.rhs + more(j, i));
    SameQuantities(g, w, w', j, i);
    SameQuantities(g, w, w', j, i - 1);
    SameQuantities(g, w, w', j - 1, i);
    assert PosedRow(g, w', j, i);
  }

  /** Sources added after assembly only add to the posed right-hand sides. */
  lemma StillPoses(g: Plan, w: Waters, w': Waters, src: Field2, more: Field2, total: Field2)
    requires AllPosed(g, w, src)
    requires forall j, i :: w'(j, i) == if g.Has(j, i) then w(j, i).(rhs := w(j, i).rhs + more(j, i)) else w(j, i)
    requires forall j, i :: total(j, i) == src(j, i) + more(j, i)
    ensures AllPosed(g, w', total)
  {
    hide Posed;
    forall j, i | Inner(g, w', j, i) ensures Posed(g, w', total, j, i) { StillPosed(g, w, w', src, more, total, j, i); }
  }

  // ----- sums over the surface

  lemma Flat(g: Plan, f: Field3, h: Field2)
    requires forall j, i :: g.Has(j, i) ==> f(j, i, 0) == h(j, i)
    ensures Sum3(g.Grid(), f) == Sum2(g.Grid(), h)
  {
    var b := g.Grid();
    forall j, i | b.Has2(j, i) ensures ColumnSum(b, f, j, i) == h(j, i) {
      assert Sum(0, 1, k => f(j, i, k)) == Sum(0, 0, k => f(j, i, k)) + f(j, i, 0);
    }
    hide ColumnSum, Sum2;
    Sum2Ext(b, (j, i) => ColumnSum(b, f, j, i), h);
  }

  ghost function Rises(g: Plan, w: Waters, x: Field3): Field2 { (j, i) => RiseAt(g, w, x, j, i) }
  ghost function Sources(g: Plan, w: Waters, src: Field2): Field2 {
    (j, i) => if Inner(g, w, j, i) then src(j, i) else 0.0
  }
  ghost function Outflows(g: Plan, w: Waters, x: Field3): Field2 { (j, i) => OutflowAt(g, w, x, j, i) }

  ghost function NoField(): Field3 { (j, i, k) => 0.0 }

  /** The net and the outer volumes of all non-stage cells. */
  ghost function NetThrough(g: Plan, w: Waters, x: Field3): Field3 {
    NetFlow(InnerMask(g, w), ThroughX(g, w, x), ThroughY(g, w, x), NoField())
  }
  ghost function OuterThrough(g: Plan, w: Waters, x: Field3): Field3 {
    OuterFlow(g.Grid(), InnerMask(g, w), ThroughX(g, w, x), ThroughY(g, w, x), NoField())
  }

  lemma NetThroughAt(g: Plan, w: Waters, x: Field3, j: int, i: int)
    ensures NetThrough(g, w, x)(j, i, 0)
            == if Inner(g, w, j, i) then (ThroughX(g, w, x)(j, i, 0) - ThroughX(g, w, x)(j, i - 1, 0))
                                         + (ThroughY(g, w, x)(j, i, 0) - ThroughY(g, w, x)(j - 1, i, 0))
               else 0.0
  {
    hide ThroughX, ThroughY;
  }

  lemma OuterThroughAt(g: Plan, w: Waters, x: Field3, j: int, i: int)
    ensures OuterThrough(g, w, x)(j, i, 0)
            == if Inner(g, w, j, i) then OuterX(g.Grid(), InnerMask(g, w), ThroughX(g, w, x), j, i, 0)
                                         + OuterY(g.Grid(), InnerMask(g, w), ThroughY(g, w, x), j, i, 0)
               else 0.0
  {
    hide ThroughX, ThroughY;
  }

  /** Main result: any exact solution of a posed system changes the stored volume of the non-stage
      cells by their sources less the audited boundary outflow. */
  lemma SolutionConserves(g: Plan, w: Waters, src: Field2, x: Field3)
    requires g.Ok() && (forall j, i :: w(j, i).stage ==> g.Has(j, i)) && AllPosed(g, w, src)
    requires Solution(g.Cells(), Full(g, w), FullVector(g, w), x)
    ensures Sum2(g.Grid(), Rises(g, w, x)) == Sum2(g.Grid(), Sources(g, w, src)) - Sum2(g.Grid(), Outflows(g, w, x))
  {
    hide Sum2, Sum3, FullRow, FullRhs, RowTimes, ThroughX, ThroughY, Posed, RiseAt, OutflowAt, NetThrough,
      OuterThrough, OuterX, OuterY;
    forall j, i | w(j, i).stage ensures x(j, i, 0) == w(j, i).stageValue {
      assert g.Cells()(j, i, 0);
      StageRow(g, w, x, j, i);
    }
    var net2: Field2, out2: Field2 := (j, i) => NetThrough(g, w, x)(j, i, 0), (j, i) => OuterThrough(g, w, x)(j, i, 0);
    forall j, i | g.Has(j, i)
      ensures Rises(g, w, x)(j, i) == Sources(g, w, src)(j, i) + -1.0 * net2(j, i)
      ensures out2(j, i) == Outflows(g, w, x)(j, i)
    {
      NetThroughAt(g, w, x, j, i);
      OuterThroughAt(g, w, x, j, i);
      if Inner(g, w, j, i) {
        assert g.Cells()(j, i, 0);
        CellRises(g, w, src, x, j, i);
        OuterIsOutflow(g, w, src, x, j, i);
      } else {
        StageIsStill(g, w, x, j, i);
      }
    }
    Sum2Linear(g.Grid(), Sources(g, w, src), -1.0, net2, Rises(g, w, x));
    Sum2Ext(g.Grid(), out2, Outflows(g, w, x));
    Flat(g, NetThrough(g, w, x), net2);
    Flat(g, OuterThrough(g, w, x), out2);
    Telescopes(g, w, x);
  }

  lemma StageIsStill(g: Plan, w: Waters, x: Field3, j: int, i: int)
    requires !Inner(g, w, j, i)
    ensures RiseAt(g, w, x, j, i) == 0.0 && OutflowAt(g, w, x, j, i) == 0.0
  {
  }

  lemma Telescopes(g: Plan, w: Waters, x: Field3)
    ensures Sum3(g.Grid(), NetThrough(g, w, x)) == Sum3(g.Grid(), OuterThrough(g, w, x))
  {
    FlowTelescopes(g.Grid(), InnerMask(g, w), ThroughX(g, w, x), ThroughY(g, w, x), NoField());
  }
}
