/** The implicit head system (src/gw/Predictor.cpp): face conductivities by passes that overwrite
    each other, the seven-point coefficients, and when the matrix is positive definite. */
module Predictor {
  import opened Sums
  import opened Retention
  import opened TopExchange
  import opened GroundwaterTerms
  import opened SendWalk
  import opened Corrector

  // ----- face conductivities (src/gw/Predictor.cpp:85-294)

  predicate IsHead(code: BcCode) { code == Head || code == HeadHydrostatic }

  /** A cell's conductivity under its own head. */
  function CellK(e: Setting, c: Cells, ks: Field3, j: int, i: int, k: int): real
    requires e.Ok()
  {
    ConductivityFromHead(e.soil.pow, e.soil.at(j, i, k), c(j, i, k).h, ks(j, i, k))
  }

  /** An edge face: sealed, the interior cell's own value under a prescribed head, or as it was. */
  function EdgeK(code: BcCode, own: real, before: real): real {
    if code == NoFlux then 0.0 else if IsHead(code) then own else before
  }

  predicate Unsaturated3(e: Setting, c: Cells, j: int, i: int, k: int) {
    e.g.Active(j, i, k) && c(j, i, k).wc < e.soil.at(j, i, k).thetaS
  }

  predicate Idle(g: Geometry, j: int, i: int, k: int) { 1 <= j <= g.box.ny && 1 <= i <= g.box.nx && !g.Active(j, i, k) }

  function MeanX(e: Setting, c: Cells, j: int, i: int, k: int): real
    requires e.Ok()
  {
    0.5 * (CellK(e, c, e.soil.ksx, j, i, k) + CellK(e, c, e.soil.ksx, j, i + 1, k))
  }
  function MeanY(e: Setting, c: Cells, j: int, i: int, k: int): real
    requires e.Ok()
  {
    0.5 * (CellK(e, c, e.soil.ksy, j, i, k) + CellK(e, c, e.soil.ksy, j + 1, i, k))
  }

  /** What the passes leave on the x+ face of (j, i, k): sealing beats column mode beats the edge
      rule beats the mean. */
  function KX(e: Setting, c: Cells, j: int, i: int, k: int): real
    requires e.Ok()
  {
    if Idle(e.g, j, i, k) || Idle(e.g, j, i + 1, k) then 0.0
    else if !e.opt.full3d && (Unsaturated3(e, c, j, i, k) || Unsaturated3(e, c, j, i + 1, k)) then 0.0
    else if i == e.g.box.nx then EdgeK(e.bc.east(j).code, CellK(e, c, e.soil.ksx, j, i, k), MeanX(e, c, j, i, k))
    else if i == 0 then EdgeK(e.bc.west(j).code, CellK(e, c, e.soil.ksx, j, 1, k), MeanX(e, c, j, i, k))
    else MeanX(e, c, j, i, k)
  }

  function KY(e: Setting, c: Cells, j: int, i: int, k: int): real
    requires e.Ok()
  {
    if Idle(e.g, j, i, k) || Idle(e.g, j + 1, i, k) then 0.0
    else if !e.opt.full3d && (Unsaturated3(e, c, j, i, k) || Unsaturated3(e, c, j + 1, i, k)) then 0.0
    else if j == e.g.box.ny then EdgeK(e.bc.north(i).code, CellK(e, c, e.soil.ksy, j, i, k), MeanY(e, c, j, i, k))
    else if j == 0 then EdgeK(e.bc.south(i).code, CellK(e, c, e.soil.ksy, 1, i, k), MeanY(e, c, j, i, k))
    else MeanY(e, c, j, i, k)
  }

  /** The rule of a column's top face. */
  function TopK(e: Setting, c: Cells, pond: Pond, j: int, i: int, k: int): real
    requires e.Ok()
  {
    var own, ks := CellK(e, c, e.soil.ksz, j, i, k), e.soil.ksz(j, i, k);
    if e.opt.coupled then if pond.dept > 0.0 then 0.5 * (ks + own) else own
    else match e.bc.top(j, i).code
         case Head => ks
         case NoFlux => 0.0
         case _ => own
  }

  /** What the passes leave on face k of column (j, i): only an unmasked top survives the seal. */
  function KZ(e: Setting, c: Cells, pond: Pond, j: int, i: int, k: int): real
    requires e.Ok()
  {
    if (k >= 1 && !e.g.Active(j, i, k - 1)) || (k < e.g.box.nz && !e.g.Active(j, i, k)) then 0.0
    else if k == e.g.box.nz then
      if k == 0 || e.bc.bottom(j, i).code == NoFlux then 0.0 else CellK(e, c, e.soil.ksz, j, i, k - 1)
    else if k == 0 then TopK(e, c, pond, j, i, k)
    else 0.5 * (CellK(e, c, e.soil.ksz, j, i, k - 1) + CellK(e, c, e.soil.ksz, j, i, k))
  }

  /** The first pass over the vertical faces. */
  function FirstZ(e: Setting, c: Cells, j: int, i: int, k: int): real
    requires e.Ok()
  {
    if k == 0 then 0.0
    else if k == e.g.box.nz then
      if e.bc.bottom(j, i).code == NoFlux then 0.0 else CellK(e, c, e.soil.ksz, j, i, k - 1)
    else if e.g.Active(j, i, k) && !e.g.Active(j, i, k - 1) then CellK(e, c, e.soil.ksz, j, i, k)
    else if !e.g.Active(j, i, k - 1) then 0.0
    else 0.5 * (CellK(e, c, e.soil.ksz, j, i, k - 1) + CellK(e, c, e.soil.ksz, j, i, k))
  }

  // Faces of the lateral axes.
  predicate IsX(g: Geometry, j: int, i: int) { 1 <= j <= g.box.ny && 0 <= i <= g.box.nx }
  predicate IsY(g: Geometry, j: int, i: int) { 0 <= j <= g.box.ny && 1 <= i <= g.box.nx }

  /** The conductivity passes in place; c holds the heads and moistures they read. */
  class FacePasses {
    const e: Setting
    const cells: array3<Cell>
    const faces: array3<Face>
    const ponds: array2<Pond>

    ghost predicate Valid() {
      && e.Ok() && e.g.box.nx >= 1 && e.g.box.ny >= 1 && e.g.box.nz >= 1
      && cells.Length0 == e.g.box.ny + 2 && cells.Length1 == e.g.box.nx + 2 && cells.Length2 == e.g.box.nz
      && faces.Length0 == e.g.box.ny + 2 && faces.Length1 == e.g.box.nx + 2 && faces.Length2 == e.g.box.nz + 1
      && ponds.Length0 == e.g.box.ny + 2 && ponds.Length1 == e.g.box.nx + 2
    }

    constructor (e: Setting, cells: array3<Cell>, faces: array3<Face>, ponds: array2<Pond>)
      ensures this.e == e && this.cells == cells && this.faces == faces && this.ponds == ponds
    {
      this.e, this.cells, this.faces, this.ponds := e, cells, faces, ponds;
    }

    /** Arithmetic means of each flank's own state. */
    method MeanPass(c: Cells)
      requires Valid()
      modifies cells, faces
      ensures forall j, i, k {:trigger cells[j, i, k]} ::
        0 <= j < cells.Length0 && 0 <= i < cells.Length1 && 0 <= k < cells.Length2 ==>
        var x := old(cells[j, i, k]);
        cells[j, i, k] == x.(kx := if IsX(e.g, j, i) then MeanX(e, c, j, i, k) else x.kx,
                             ky := if IsY(e.g, j, i) then MeanY(e, c, j, i, k) else x.ky)
      ensures forall j, i, k {:trigger faces[j, i, k]} ::
        0 <= j < faces.Length0 && 0 <= i < faces.Length1 && 0 <= k < faces.Length2 ==>
        var x := old(faces[j, i, k]); faces[j, i, k] == if e.g.box.Has2(j, i) then x.(k := FirstZ(e, c, j, i, k)) else x
    {
      hide MeanX, MeanY, FirstZ;
      forall j, i, k | 0 <= j < cells.Length0 && 0 <= i < cells.Length1 && 0 <= k < cells.Length2 {
        cells[j, i, k] := cells[j, i, k].(
          kx := if IsX(e.g, j, i) then MeanX(e, c, j, i, k) else cells[j, i, k].kx,
          ky := if IsY(e.g, j, i) then MeanY(e, c, j, i, k) else cells[j, i, k].ky);
      }
      forall j, i, k | 1 <= j <= e.g.box.ny && 1 <= i <= e.g.box.nx && 0 <= k <= e.g.box.nz {
        faces[j, i, k] := faces[j, i, k].(k := FirstZ(e, c, j, i, k));
      }
    }

    /** The domain-edge overrides. */
    method EdgePass(c: Cells)
      requires Valid()
      modifies cells
      ensures forall j, i, k {:trigger cells[j, i, k]} ::
        0 <= j < cells.Length0 && 0 <= i < cells.Length1 && 0 <= k < cells.Length2 ==>
        var x := old(cells[j, i, k]);
        cells[j, i, k] == x.(
          kx := if !IsX(e.g, j, i) then x.kx
                else if i == e.g.box.nx then EdgeK(e.bc.east(j).code, CellK(e, c, e.soil.ksx, j, i, k), x.kx)
                else if i == 0 then EdgeK(e.bc.west(j).code, CellK(e, c, e.soil.ksx, j, 1, k), x.kx) else x.kx,
          ky := if !IsY(e.g, j, i) then x.ky
                else if j == e.g.box.ny then EdgeK(e.bc.north(i).code, CellK(e, c, e.soil.ksy, j, i, k), x.ky)
                else if j == 0 then EdgeK(e.bc.south(i).code, CellK(e, c, e.soil.ksy, 1, i, k), x.ky) else x.ky)
    {
      hide CellK, EdgeK;
      var nx, ny := e.g.box.nx, e.g.box.ny;
      forall j, k | 1 <= j <= ny && 0 <= k < e.g.box.nz {
        cells[j, 0, k] :=
          cells[j, 0, k].(kx := EdgeK(e.bc.west(j).code, CellK(e, c, e.soil.ksx, j, 1, k), cells[j, 0, k].kx));
      }
      forall j, k | 1 <= j <= ny && 0 <= k < e.g.box.nz {
        cells[j, nx, k] :=
          cells[j, nx, k].(kx := EdgeK(e.bc.east(j).code, CellK(e, c, e.soil.ksx, j, nx, k), cells[j, nx, k].kx));
      }
      forall i, k | 1 <= i <= nx && 0 <= k < e.g.box.nz {
        cells[0, i, k] :=
          cells[0, i, k].(ky := EdgeK(e.bc.south(i).code, CellK(e, c, e.soil.ksy, 1, i, k), cells[0, i, k].ky));
      }
      forall i, k | 1 <= i <= nx && 0 <= k < e.g.box.nz {
        cells[ny, i, k] :=
          cells[ny, i, k].(ky := EdgeK(e.bc.north(i).code, CellK(e, c, e.soil.ksy, ny, i, k), cells[ny, i, k].ky));
      }
    }

    /** The top-face rule of every column with an active cell. */
    method TopPass(c: Cells)
      requires Valid()
      modifies faces
      ensures forall j, i, k {:trigger faces[j, i, k]} ::
        0 <= j < faces.Length0 && 0 <= i < faces.Length1 && 0 <= k < faces.Length2 ==>
        var x := old(faces[j, i, k]);
        faces[j, i, k] == if e.g.Active(j, i, k) && !e.g.Active(j, i, k - 1)
          then x.(k := TopK(e, c, ponds[j, i], j, i, k)) else x
    {
      hide TopK;
      forall j, i, k | 1 <= j <= e.g.box.ny && 1 <= i <= e.g.box.nx && 0 <= k < e.g.box.nz && e.g.Active(j, i, k)
        && !e.g.Active(j, i, k - 1) {
        faces[j, i, k] := faces[j, i, k].(k := TopK(e, c, ponds[j, i], j, i, k));
      }
    }

    /** Column mode: lateral faces next to an unsaturated active cell stop conducting. */
    method ColumnModePass(c: Cells)
      requires Valid()
      modifies cells
      ensures forall j, i, k {:trigger cells[j, i, k]} ::
        0 <= j < cells.Length0 && 0 <= i < cells.Length1 && 0 <= k < cells.Length2 ==>
        var x := old(cells[j, i, k]);
        cells[j, i, k] == if e.opt.full3d then x else
          x.(kx := if IsX(e.g, j, i) && (Unsaturated3(e, c, j, i, k) || Unsaturated3(e, c, j, i + 1, k)) then 0.0
                   else x.kx,
             ky := if IsY(e.g, j, i) && (Unsaturated3(e, c, j, i, k) || Unsaturated3(e, c, j + 1, i, k)) then 0.0
                   else x.ky)
    {
      if !e.opt.full3d {
        forall j, i, k | 0 <= j < cells.Length0 && 0 <= i < cells.Length1 && 0 <= k < cells.Length2 {
          cells[j, i, k] := cells[j, i, k].(
            kx := if IsX(e.g, j, i) && (Unsaturated3(e, c, j, i, k) || Unsaturated3(e, c, j, i + 1, k)) then 0.0
              else cells[j, i, k].kx,
            ky := if IsY(e.g, j, i) && (Unsaturated3(e, c, j, i, k) || Unsaturated3(e, c, j + 1, i, k)) then 0.0
              else cells[j, i, k].ky);
        }
      }
    }

    /** The seal, last: every face next to an inactive interior cell. */
    method SealPass()
      requires Valid()
      modifies cells, faces
      ensures forall j, i, k {:trigger cells[j, i, k]} ::
        0 <= j < cells.Length0 && 0 <= i < cells.Length1 && 0 <= k < cells.Length2 ==>
        var x := old(cells[j, i, k]);
        cells[j, i, k]
        == x.(kx := if IsX(e.g, j, i) && (Idle(e.g, j, i, k) || Idle(e.g, j, i + 1, k)) then 0.0 else x.kx,
              ky := if IsY(e.g, j, i) && (Idle(e.g, j, i, k) || Idle(e.g, j + 1, i, k)) then 0.0 else x.ky)
      ensures forall j, i, k {:trigger faces[j, i, k]} ::
        0 <= j < faces.Length0 && 0 <= i < faces.Length1 && 0 <= k < faces.Length2 ==>
        var x := old(faces[j, i, k]);
        faces[j, i, k] == if e.g.box.Has2(j, i)
          && ((k >= 1 && !e.g.Active(j, i, k - 1)) || (k < e.g.box.nz && !e.g.Active(j, i, k)))
                          then x.(k := 0.0) else x
    {
      forall j, i, k | 0 <= j < cells.Length0 && 0 <= i < cells.Length1 && 0 <= k < cells.Length2 {
        cells[j, i, k] := cells[j, i, k].(
          kx := if IsX(e.g, j, i) && (Idle(e.g, j, i, k) || Idle(e.g, j, i + 1, k)) then 0.0 else cells[j, i, k].kx,
          ky := if IsY(e.g, j, i) && (Idle(e.g, j, i, k) || Idle(e.g, j + 1, i, k)) then 0.0 else cells[j, i, k].ky);
      }
      forall j, i, k | 1 <= j <= e.g.box.ny && 1 <= i <= e.g.box.nx && 0 <= k <= e.g.box.nz
                       && ((k >= 1 && !e.g.Active(j, i, k - 1)) || (k < e.g.box.nz && !e.g.Active(j, i, k))) {
        faces[j, i, k] := faces[j, i, k].(k := 0.0);
      }
    }

    /** Main result: five passes, each overwriting what earlier ones left, amount to one rule per
        face in which sealing has the last word. */
    method ComputeFaceConductivity(c: Cells)
      requires Valid()
      modifies cells, faces
      ensures forall j, i, k {:trigger cells[j, i, k]} ::
        0 <= j < cells.Length0 && 0 <= i < cells.Length1 && 0 <= k < cells.Length2 ==>
        var x := old(cells[j, i, k]);
        cells[j, i, k] == x.(kx := if IsX(e.g, j, i) then KX(e, c, j, i, k) else x.kx, ky := if IsY(e.g, j, i)
                             then KY(e, c, j, i, k) else x.ky)
      ensures forall j, i, k {:trigger faces[j, i, k]} ::
        0 <= j < faces.Length0 && 0 <= i < faces.Length1 && 0 <= k < faces.Length2 ==>
        var x := old(faces[j, i, k]);
        faces[j, i, k] == if e.g.box.Has2(j, i) then x.(k := KZ(e, c, ponds[j, i], j, i, k)) else x
    {
      hide CellK, TopK, EdgeK, MeanX, MeanY;
      MeanPass(c);
      EdgePass(c);
      TopPass(c);
      ColumnModePass(c);
      SealPass();
    }
  }
}
