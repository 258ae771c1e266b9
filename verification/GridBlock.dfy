/** One rank's share of the compressed ids (src/core/Grid.cpp:147-315): counting, numbering, the
    exchange of halo ids, and the seven-slot matrix pattern (src/gw/RichardsSolver.cpp:617-661). */
module GridBlocks {
  import opened Decomposition
  import opened HaloPacking
  import opened HaloProtocol
  import opened HaloCorners
  import opened GridIds

  // ----- halo ids

  /** The two exchanges of a cell's surface id (layer 0) with its layers' ids (layers 1 and up). */
  ghost function IdPlan(q: Masked): Plan<int>
    requires q.l.px > 0 && q.l.py > 0
  {
    Plan(q.l, [q.nz + 1], [Call({West, East}, false), Call({South, North}, false)], [[0], [0]], r => [OwnIds(q, r)],
         (r, c, f) => f)
  }

  /** A rank's ids before any exchange: its own in the interior, -1 in every halo cell. */
  ghost function OwnIds(q: Masked, r: nat): Field<int>
    requires q.l.px > 0 && q.l.py > 0
  {
    (j, i, k) =>
      if 1 <= j <= q.l.NyLocal(r) && 1 <= i <= q.l.NxLocal(r) && 0 <= k then
        if k == 0 then q.Gid2(r, j - 1, i - 1) else q.Gid3(r, j - 1, i - 1, k - 1)
      else -1
  }

  /** The id of layer k in that block. */
  ghost function LayerId(q: Masked, r: nat, j: int, i: int, k: nat): int
    requires q.l.px > 0 && q.l.py > 0
  {
    OwnIds(q, r)(j, i, k + 1)
  }

  /** The id of a global cell: its owner's, or -1 outside the domain. */
  ghost function GlobalId(q: Masked, gj: int, gi: int, k: nat): int
    requires q.Ok()
  {
    if 0 <= gj < q.l.ny && 0 <= gi < q.l.nx then
      var o := OwnerOf(q.l, gj, gi);
      OwnIds(q, o)(gj - q.l.J0(o) + 1, gi - q.l.I0(o) + 1, k)
    else -1
  }

  ghost function OwnerOf(l: Layout, gj: nat, gi: nat): (o: nat)
    requires l.Ok() && gj < l.ny && gi < l.nx
    ensures OwnsCell(l, o, gj, gi)
  {
    OwnerIs(l, gj, gi);
    var o: nat :| OwnsCell(l, o, gj, gi);
    o
  }

  lemma OwnerIs(l: Layout, gj: nat, gi: nat)
    requires l.Ok() && gj < l.ny && gi < l.nx
    ensures exists o: nat :: OwnsCell(l, o, gj, gi)
  {
    var r := CellOwner(l, gj, gi);
    assert OwnsCell(l, r, gj, gi);
  }

  predicate Corner(l: Layout, r: nat, j: int, i: int)
    requires l.px > 0 && l.py > 0
  {
    (j == 0 || j == l.NyLocal(r) + 1) && (i == 0 || i == l.NxLocal(r) + 1)
  }

  lemma OwnIsGlobal(q: Masked, r: nat, j: int, i: int, k: nat)
    requires q.Ok() && r < q.l.Size() && 1 <= j <= q.l.NyLocal(r) && 1 <= i <= q.l.NxLocal(r)
    ensures OwnIds(q, r)(j, i, k) == GlobalId(q, GlobalJ(q.l, r, j), GlobalI(q.l, r, i), k)
  {
    EdgesInDomain(q.l, r);
    var gj, gi := GlobalJ(q.l, r, j), GlobalI(q.l, r, i);
    assert InDomainJ(q.l, r, j) && InDomainI(q.l, r, i);
    OneOwner(q.l, r, OwnerOf(q.l, gj, gi), gj, gi);
  }

  lemma PlanOk(q: Masked)
    requires q.Ok()
    ensures IdPlan(q).Ok()
  {
  }

  /** After the first exchange: the interior is unchanged, a halo column holds the facing ids. */
  lemma AfterFirst(q: Masked, r: nat, j: int, i: int, k: nat)
    requires q.Ok() && r < q.l.Size() && k <= q.nz
    requires 1 <= j <= q.l.NyLocal(r) && 0 <= i <= q.l.NxLocal(r) + 1
    ensures IdPlan(q).Ok() && |FieldsAt(IdPlan(q), 1, r)| == 1
    ensures FieldsAt(IdPlan(q), 1, r)[0](j, i, k) == GlobalId(q, GlobalJ(q.l, r, j), GlobalI(q.l, r, i), k)
  {
    hide *;
    FirstPlan(q, r);
    EdgesInDomain(q.l, r);
    FillsInRow(q, r, j, i, k);
    OneExchange(IdPlan(q), 0, r, 0, j, i, k);
    if 1 <= i <= q.l.NxLocal(r) {
      OwnIsGlobal(q, r, j, i, k);
    } else {
      var d := if i == 0 then West else East;
      if q.l.Neighbor(r, d) == NULL_RANK { OutsideIds(q, r, j, i, k); } else { FacingColumn(q, r, d, j, i, k); }
    }
  }

  lemma FirstPlan(q: Masked, r: nat)
    requires q.Ok() && r < q.l.Size()
    ensures IdPlan(q).Ok() && IdPlan(q).l == q.l && |IdPlan(q).calls| == 2 && |IdPlan(q).layers| == 1
    ensures FieldsBefore(IdPlan(q), 0, r) == [OwnIds(q, r)]
    ensures q.l.Ok() && q.l.px > 0 && q.l.py > 0
  {
    PlanOk(q);
  }

  /** In an interior row the first exchange fills the halo columns that have a neighbour. */
  lemma FillsInRow(q: Masked, r: nat, j: int, i: int, k: nat)
    requires q.Ok() && r < q.l.Size() && k <= q.nz && IdPlan(q).Ok()
    requires 1 <= j <= q.l.NyLocal(r) && 0 <= i <= q.l.NxLocal(r) + 1
    ensures forall d ::
      Fills(IdPlan(q), 0, r, d, 0, j, i, k) <==> ((d == West && i == 0) || (d == East && i == q.l.NxLocal(r) + 1))
                                                 && q.l.Neighbor(r, d) != NULL_RANK
  {
    EdgesInDomain(q.l, r);
    hide BlockStart, BlockSize, Layout.Neighbor, InDomainJ, InDomainI;
  }

  lemma OutsideIds(q: Masked, r: nat, j: int, i: int, k: nat)
    requires q.Ok() && r < q.l.Size() && !(1 <= j <= q.l.NyLocal(r) && 1 <= i <= q.l.NxLocal(r))
    requires !(InDomainJ(q.l, r, j) && InDomainI(q.l, r, i))
    ensures OwnIds(q, r)(j, i, k) == -1 == GlobalId(q, GlobalJ(q.l, r, j), GlobalI(q.l, r, i), k)
  {
  }

  lemma FacingColumn(q: Masked, r: nat, d: Dir, j: int, i: int, k: nat)
    requires q.Ok() && r < q.l.Size() && 1 <= j <= q.l.NyLocal(r) && IdPlan(q).Ok()
    requires q.l.Neighbor(r, d) != NULL_RANK && ((d == West && i == 0) || (d == East && i == q.l.NxLocal(r) + 1))
    ensures Across(IdPlan(q), 0, r, d, 0, j, i, k) == GlobalId(q, GlobalJ(q.l, r, j), GlobalI(q.l, r, i), k)
  {
    NeighborsMirror(q.l, r, d);
    var n: nat := q.l.Neighbor(r, d);
    EdgesInDomain(q.l, n);
    assert FieldsBefore(IdPlan(q), 0, n) == [OwnIds(q, n)];
    var i' := if i == 0 then q.l.NxLocal(n) else 1;
    OwnIsGlobal(q, n, j, i', k);
    hide FieldsBefore, GlobalId, OwnIds, BlockStart, BlockSize;
    assert GlobalJ(q.l, n, j) == GlobalJ(q.l, r, j) && GlobalI(q.l, n, i') == GlobalI(q.l, r, i);
  }

  /** Main result: after both exchanges every cell of a rank's box but its corners holds the id its
      owner gave it, and -1 outside the domain; corners stay -1. */
  lemma HaloIdsAreOwners(q: Masked, r: nat, j: int, i: int, k: nat)
    requires q.Ok() && r < q.l.Size() && k <= q.nz
    requires 0 <= j <= q.l.NyLocal(r) + 1 && 0 <= i <= q.l.NxLocal(r) + 1
    ensures IdPlan(q).Ok() && |FieldsAt(IdPlan(q), 2, r)| == 1
    ensures FieldsAt(IdPlan(q), 2, r)[0](j, i, k)
            == if Corner(q.l, r, j, i) then -1 else GlobalId(q, GlobalJ(q.l, r, j), GlobalI(q.l, r, i), k)
  {
    hide FieldsAt, GlobalId, OwnIds, BlockStart, BlockSize;
    PlanOk(q);
    if 1 <= j <= q.l.NyLocal(r) { SecondKeeps(q, r, j, i, k); } else { SecondFills(q, r, j, i, k); }
  }

  lemma SecondKeeps(q: Masked, r: nat, j: int, i: int, k: nat)
    requires q.Ok() && r < q.l.Size() && k <= q.nz && IdPlan(q).Ok()
    requires 1 <= j <= q.l.NyLocal(r) && 0 <= i <= q.l.NxLocal(r) + 1
    ensures |FieldsAt(IdPlan(q), 2, r)| == 1
    ensures FieldsAt(IdPlan(q), 2, r)[0](j, i, k) == GlobalId(q, GlobalJ(q.l, r, j), GlobalI(q.l, r, i), k)
  {
    hide GlobalId, OwnIds, BlockStart, BlockSize;
    var p := IdPlan(q);
    OneExchange(p, 1, r, 0, j, i, k);
    assert FieldsBefore(p, 1, r) == FieldsAt(p, 1, r);
    AfterFirst(q, r, j, i, k);
    hide FieldsAt, FieldsBefore;
    assert forall d :: !Fills(p, 1, r, d, 0, j, i, k);
  }

  lemma SecondFills(q: Masked, r: nat, j: int, i: int, k: nat)
    requires q.Ok() && r < q.l.Size() && k <= q.nz && IdPlan(q).Ok()
    requires (j == 0 || j == q.l.NyLocal(r) + 1) && 0 <= i <= q.l.NxLocal(r) + 1
    ensures |FieldsAt(IdPlan(q), 2, r)| == 1
    ensures FieldsAt(IdPlan(q), 2, r)[0](j, i, k)
            == if Corner(q.l, r, j, i) then -1 else GlobalId(q, GlobalJ(q.l, r, j), GlobalI(q.l, r, i), k)
  {
    hide GlobalId, OwnIds, BlockStart, BlockSize;
    var p := IdPlan(q);
    OneExchange(p, 1, r, 0, j, i, k);
    EdgesInDomain(q.l, r);
    assert FieldsBefore(p, 1, r) == FieldsAt(p, 1, r);
    hide FieldsAt, FieldsBefore, Across;
    var d := if j == 0 then South else North;
    if q.l.Neighbor(r, d) == NULL_RANK || Corner(q.l, r, j, i) {
      assert forall e :: !Fills(p, 1, r, e, 0, j, i, k);
      HaloRowKept(q, r, j, i, k);
      if !Corner(q.l, r, j, i) { OutsideIds(q, r, j, i, k); }
    } else {
      assert Fills(p, 1, r, d, 0, j, i, k);
      FacingRow(q, r, d, j, i, k);
    }
  }

  lemma HaloRowKept(q: Masked, r: nat, j: int, i: int, k: nat)
    requires q.Ok() && r < q.l.Size() && IdPlan(q).Ok() && (j == 0 || j == q.l.NyLocal(r) + 1)
    ensures |FieldsAt(IdPlan(q), 1, r)| == 1 && FieldsAt(IdPlan(q), 1, r)[0](j, i, k) == -1
  {
    var p := IdPlan(q);
    OneExchange(p, 0, r, 0, j, i, k);
    assert FieldsBefore(p, 0, r) == [OwnIds(q, r)];
    hide FieldsAt, FieldsBefore;
    assert forall d :: !Fills(p, 0, r, d, 0, j, i, k);
  }

  lemma FacingRow(q: Masked, r: nat, d: Dir, j: int, i: int, k: nat)
    requires q.Ok() && r < q.l.Size() && 1 <= i <= q.l.NxLocal(r) && k <= q.nz && IdPlan(q).Ok()
    requires q.l.Neighbor(r, d) != NULL_RANK && ((d == South && j == 0) || (d == North && j == q.l.NyLocal(r) + 1))
    ensures Across(IdPlan(q), 1, r, d, 0, j, i, k) == GlobalId(q, GlobalJ(q.l, r, j), GlobalI(q.l, r, i), k)
  {
    NeighborsMirror(q.l, r, d);
    var n: nat := q.l.Neighbor(r, d);
    EdgesInDomain(q.l, n);
    assert FieldsBefore(IdPlan(q), 1, n) == FieldsAt(IdPlan(q), 1, n);
    var j' := if j == 0 then q.l.NyLocal(n) else 1;
    AfterFirst(q, n, j', i, k);
    hide FieldsBefore, FieldsAt, GlobalId, OwnIds, BlockStart, BlockSize;
    assert GlobalJ(q.l, n, j') == GlobalJ(q.l, r, j) && GlobalI(q.l, n, i) == GlobalI(q.l, r, i);
  }

  /** Under every interleaving of the ranks, a rank that finished both exchanges holds those ids. */
  lemma EveryRunSharesIds(q: Masked, run: seq<State<seq<Field<int>>, seq<int>>>, steps: seq<Step>, b: Buffering, n: nat,
                          r: nat, j: int, i: int, k: nat)
    requires q.Ok() && r < q.l.Size() && k <= q.nz && n < |run|
    requires 0 <= j <= q.l.NyLocal(r) + 1 && 0 <= i <= q.l.NxLocal(r) + 1
    requires IsRun(ProgramOf(IdPlan(q)), run, steps, b) && r < |run[n].ranks| && run[n].ranks[r].Idle?
             && run[n].ranks[r].call == 2
    ensures |run[n].ranks[r].field| == 1
    ensures run[n].ranks[r].field[0](j, i, k)
            == if Corner(q.l, r, j, i) then -1 else GlobalId(q, GlobalJ(q.l, r, j), GlobalI(q.l, r, i), k)
  {
    HaloIdsAreOwners(q, r, j, i, k);
    RunsFollowLockstep(ProgramOf(IdPlan(q)), run, steps, b, n, r);
    hide Lockstep, ProgramOf, GlobalId;
  }

  // ----- one rank's numbering

  /** The next free ids when the numbering pass reaches column (j, i). */
  ghost function Next2(q: Masked, r: nat, j: nat, i: nat): nat
    requires q.l.px > 0 && q.l.py > 0
  {
    q.Numbers2().Offset(r) + Prefix(q.Numbers2().Sizes(r), RowPlace(q.l.NxLocal(r), j, i))
  }
  ghost function Next3(q: Masked, r: nat, j: nat, i: nat): nat
    requires q.l.px > 0 && q.l.py > 0
  {
    q.Numbers3().Offset(r) + Prefix(q.Numbers3().Sizes(r), RowPlace(q.l.NxLocal(r), j, i))
  }

  lemma NextColumn(q: Masked, r: nat, j: nat, i: nat)
    requires q.l.Ok() && q.Owned(r, j, i)
    ensures Next2(q, r, j, i + 1) == Next2(q, r, j, i) + if q.ktop(r, j, i) < q.nz then 1 else 0
    ensures Next3(q, r, j, i + 1) == Next3(q, r, j, i) + if q.ktop(r, j, i) < q.nz then q.nz - q.ktop(r, j, i) else 0
  {
    SizesAt(q, r, j, i);
    hide Masked.Numbers2, Masked.Numbers3, Masked.Owned, Numbering.Offset, Numbering.Sizes, Prefix, BlockSize;
    var m := RowPlace(q.l.NxLocal(r), j, i);
    PrefixStep(q.Numbers2().Sizes(r), m);
    PrefixStep(q.Numbers3().Sizes(r), m);
  }

  lemma PrefixStep(f: nat -> nat, m: nat)
    ensures Prefix(f, m + 1) == Prefix(f, m) + f(m)
  {
  }

  lemma NextRow(q: Masked, r: nat, j: nat)
    requires q.l.px > 0 && q.l.py > 0
    ensures Next2(q, r, j + 1, 0) == Next2(q, r, j, q.l.NxLocal(r))
            && Next3(q, r, j + 1, 0) == Next3(q, r, j, q.l.NxLocal(r))
  {
    assert (j + 1) * q.l.NxLocal(r) == j * q.l.NxLocal(r) + q.l.NxLocal(r);
  }

  lemma FirstIds(q: Masked, r: nat)
    requires q.l.px > 0 && q.l.py > 0
    ensures Next2(q, r, 0, 0) == q.Numbers2().Offset(r) && Next3(q, r, 0, 0) == q.Numbers3().Offset(r)
    ensures r == 0 ==> q.Numbers2().Offset(r) == 0 == q.Numbers3().Offset(r)
  {
  }

  lemma LastIds(q: Masked, r: nat)
    requires q.l.Ok() && r < q.l.Size()
    ensures Next2(q, r, q.l.NyLocal(r), 0) == q.Numbers2().Offset(r) + q.Numbers2().Local(r)
    ensures Next3(q, r, q.l.NyLocal(r), 0) == q.Numbers3().Offset(r) + q.Numbers3().Local(r)
  {
    hide Numbering.Offset, Prefix;
  }

  class GridBlock {
    const l: Layout
    const rank: nat
    const nz: nat
    const ktop: array2<int>
    const gid2: array2<int>
    const gid3: array3<int>

    ghost predicate Valid() {
      && l.Ok() && rank < l.Size()
      && ktop.Length0 == l.NyLocal(rank) && ktop.Length1 == l.NxLocal(rank)
      && gid2.Length0 == l.NyLocal(rank) + 2 && gid2.Length1 == l.NxLocal(rank) + 2
      && gid3.Length0 == gid2.Length0 && gid3.Length1 == gid2.Length1 && gid3.Length2 == nz
      && ktop != gid2
    }

    /** A mask is this rank's where its first active layers are sensible. */
    ghost predicate Mask(q: Masked)
      requires Valid()
      reads ktop
    {
      q.l == l && q.nz == nz
      && forall j: nat, i: nat :: j < ktop.Length0 && i < ktop.Length1 && ktop[j, i] >= 0 ==>
          q.ktop(rank, j, i) == ktop[j, i]
    }

    constructor (layout: Layout, r: nat, layers: nat)
      requires layout.Ok() && r < layout.Size()
      ensures Valid() && l == layout && rank == r && nz == layers && fresh(ktop) && fresh(gid2) && fresh(gid3)
    {
      l, rank, nz := layout, r, layers;
      ktop := new int[layout.NyLocal(r), layout.NxLocal(r)];
      gid2 := new int[layout.NyLocal(r) + 2, layout.NxLocal(r) + 2];
      gid3 := new int[layout.NyLocal(r) + 2, layout.NxLocal(r) + 2, layers];
    }

    /** The counts a rank contributes, or an error when a first active layer is out of range. */
    method CountActive(ghost q: Masked) returns (r: Result<(nat, nat)>)
      requires Valid() && Mask(q)
      ensures r.Ok? <==> forall j: nat, i: nat :: j < ktop.Length0 && i < ktop.Length1 ==> 0 <= ktop[j, i] <= nz
      ensures r.Ok? ==> r.value == (q.Numbers2().Local(rank), q.Numbers3().Local(rank))
    {
      hide Next2, Next3, Numbering.Local, Numbering.Offset;
      ghost var first2, first3 := q.Numbers2().Offset(rank), q.Numbers3().Offset(rank);
      FirstIds(q, rank);
      LastIds(q, rank);
      var count2: nat, count3: nat := 0, 0;
      var nxl: nat := ktop.Length1;
      for j: nat := 0 to ktop.Length0
        invariant forall j': nat, i: nat :: j' < j && i < nxl ==> 0 <= ktop[j', i] <= nz
        invariant first2 + count2 == Next2(q, rank, j, 0) && first3 + count3 == Next3(q, rank, j, 0)
      {
        for i: nat := 0 to nxl
          invariant forall j': nat, i': nat :: (j' < j && i' < nxl) || (j' == j && i' < i) ==> 0 <= ktop[j', i'] <= nz
          invariant first2 + count2 == Next2(q, rank, j, i) && first3 + count3 == Next3(q, rank, j, i)
        {
          var kt := ktop[j, i];
          if kt < 0 || kt > nz { return Err("ktop outside [0, nz]"); }
          NextColumn(q, rank, j, i);
          if kt < nz {
            count2 := count2 + 1;
            count3 := count3 + (nz - kt);
          }
        }
        NextRow(q, rank, j);
      }
      return Ok((count2, count3));
    }

    /** The numbering pass: ids from the exclusive scan of the counts, -1 everywhere else. The scan
        of rank 0 is ignored. */
    method NumberCells(ghost q: Masked, scan2: int, scan3: int, total2: int, total3: int, largest: int)
      returns (r: Result<(nat, nat)>)
      requires Valid() && Mask(q) && q.Ok() && forall j: nat, i: nat :: j < ktop.Length0 && i < ktop.Length1 ==>
                 ktop[j, i] >= 0
      requires rank > 0 ==> scan2 == q.Numbers2().Offset(rank) && scan3 == q.Numbers3().Offset(rank)
      requires total2 == q.Numbers2().Total() && total3 == q.Numbers3().Total()
      modifies gid2, gid3
      ensures r.Err? <==> total2 > largest || total3 > largest
      ensures r.Ok? ==> r.value == (q.Numbers2().Offset(rank), q.Numbers3().Offset(rank))
      ensures r.Ok? ==> forall j: nat, i: nat :: j < gid2.Length0 && i < gid2.Length1 ==>
                gid2[j, i] == OwnIds(q, rank)(j, i, 0)
      ensures r.Ok? ==> forall j: nat, i: nat, k: nat :: j < gid3.Length0 && i < gid3.Length1 && k < nz ==>
                gid3[j, i, k] == LayerId(q, rank, j, i, k)
    {
      hide Next2, Next3, Numbering.Total, Numbering.Offset, OwnIds;
      if total3 > largest || total2 > largest { return Err("active cells overflow PetscInt"); }
      FirstIds(q, rank);
      var offset2: nat, offset3: nat := if rank == 0 then 0 else scan2, if rank == 0 then 0 else scan3;
      ClearIds();
      FreshNumbering(q);
      NumberRows(q, offset2, offset3);
      AllNumbered(q);
      return Ok((offset2, offset3));
    }

    method ClearIds()
      requires Valid()
      modifies gid2, gid3
      ensures forall j: nat, i: nat {:trigger gid2[j, i]} :: j < gid2.Length0 && i < gid2.Length1 ==> gid2[j, i] == -1
      ensures forall j: nat, i: nat, k: nat {:trigger gid3[j, i, k]} ::
        j < gid3.Length0 && i < gid3.Length1 && k < nz ==> gid3[j, i, k] == -1
    {
      forall j, i | 0 <= j < gid2.Length0 && 0 <= i < gid2.Length1 { gid2[j, i] := -1; }
      forall j, i, k | 0 <= j < gid3.Length0 && 0 <= i < gid3.Length1 && 0 <= k < gid3.Length2 { gid3[j, i, k] := -1; }
    }

    /** The loop over owned columns. */
    method NumberRows(ghost q: Masked, offset2: int, offset3: int)
      requires Valid() && Mask(q) && q.Ok() && Numbered(q, 0, 0)
      requires forall j: nat, i: nat :: j < ktop.Length0 && i < ktop.Length1 ==> ktop[j, i] >= 0
      requires offset2 == Next2(q, rank, 0, 0) && offset3 == Next3(q, rank, 0, 0)
      modifies gid2, gid3
      ensures Numbered(q, ktop.Length0, 0)
    {
      hide Next2, Next3, Numbered;
      var next2, next3 := offset2, offset3;
      for j: nat := 0 to ktop.Length0
        invariant next2 == Next2(q, rank, j, 0) && next3 == Next3(q, rank, j, 0) && Numbered(q, j, 0)
      {
        for i: nat := 0 to ktop.Length1
          invariant next2 == Next2(q, rank, j, i) && next3 == Next3(q, rank, j, i) && Numbered(q, j, i)
        {
          next2, next3 := NumberCell(q, j, i, next2, next3);
        }
        NextRow(q, rank, j);
        RowDone(q, j);
      }
    }

    lemma AllNumbered(q: Masked)
      requires Valid() && Mask(q) && q.Ok() && Numbered(q, ktop.Length0, 0)
      ensures forall j: nat, i: nat :: j < gid2.Length0 && i < gid2.Length1 ==> gid2[j, i] == OwnIds(q, rank)(j, i, 0)
      ensures forall j: nat, i: nat, k: nat :: j < gid3.Length0 && i < gid3.Length1 && k < nz ==>
                gid3[j, i, k] == LayerId(q, rank, j, i, k)
    {
    }

    lemma FreshNumbering(q: Masked)
      requires Valid() && Mask(q) && q.Ok()
      requires forall j: nat, i: nat :: j < gid2.Length0 && i < gid2.Length1 ==> gid2[j, i] == -1
      requires forall j: nat, i: nat, k: nat :: j < gid3.Length0 && i < gid3.Length1 && k < nz ==> gid3[j, i, k] == -1
      ensures Numbered(q, 0, 0)
    {
    }

    /** The end of one row is the start of the next. */
    lemma RowDone(q: Masked, j: nat)
      requires Valid() && Mask(q) && q.Ok() && j < ktop.Length0 && Numbered(q, j, ktop.Length1)
      ensures Numbered(q, j + 1, 0)
    {
    }

    /** One cell's turn in the numbering pass. */
    method NumberCell(ghost q: Masked, j: nat, i: nat, at2: int, at3: int) returns (next2: int, next3: int)
      requires Valid() && Mask(q) && q.Ok() && j < ktop.Length0 && i < ktop.Length1 && ktop[j, i] >= 0
               && Numbered(q, j, i)
      requires at2 == Next2(q, rank, j, i) && at3 == Next3(q, rank, j, i)
      modifies gid2, gid3
      ensures Numbered(q, j, i + 1)
      ensures next2 == Next2(q, rank, j, i + 1) && next3 == Next3(q, rank, j, i + 1)
    {
      hide Next2, Next3, OwnIds, LayerId;
      next2, next3 := at2, at3;
      var kt: nat := ktop[j, i];
      NextColumn(q, rank, j, i);
      SurfaceIdAt(q, rank, j, i);
      var jh, ih := j + 1, i + 1;
      forall k: nat | k < nz
        ensures LayerId(q, rank, jh, ih, k) == if kt <= k then at3 + (k - kt) else -1
      {
        LayerIdAt(q, rank, j, i, k);
      }
      if kt < nz {
        gid2[j + 1, i + 1] := next2;
        next2 := next2 + 1;
        next3 := NumberColumn(j + 1, i + 1, kt, next3);
      }
    }

    /** Consecutive ids down one column from its first active layer. */
    method NumberColumn(jh: nat, ih: nat, kt: nat, first: int) returns (next: int)
      requires Valid() && jh < gid3.Length0 && ih < gid3.Length1 && kt <= nz
      modifies gid3
      ensures next == first + (nz - kt)
      ensures forall j: nat, i: nat, k: nat {:trigger gid3[j, i, k]} ::
        j < gid3.Length0 && i < gid3.Length1 && k < nz ==>
        gid3[j, i, k] == if j == jh && i == ih && kt <= k then first + (k - kt) else old(gid3[j, i, k])
    {
      next := first;
      for k: nat := kt to nz
        invariant next == first + (k - kt)
        invariant forall j': nat, i': nat, k': nat {:trigger gid3[j', i', k']} ::
                    j' < gid3.Length0 && i' < gid3.Length1 && k' < nz ==>
          gid3[j', i', k'] == if j' == jh && i' == ih && kt <= k' < k then first + (k' - kt) else old(gid3[j', i', k'])
      {
        gid3[jh, ih, k] := next;
        next := next + 1;
      }
    }

    /** The box's layer ids, exchanged: everything the pattern reads. */
    ghost predicate BoxIds(q: Masked)
      requires Valid() && q.Ok()
      reads gid3
    {
      forall j: nat, i: nat, k: nat :: j < gid3.Length0 && i < gid3.Length1 && k < nz && !Corner(l, rank, j, i) ==>
        gid3[j, i, k] == GlobalId(q, GlobalJ(l, rank, j), GlobalI(l, rank, i), k + 1)
    }

    /** One cell's seven slots. */
    ghost predicate Slotted(q: Masked, offset: int, cols: seq<int>, j: nat, i: nat, k: nat)
      requires l.Ok() && q.Ok()
    {
      var x := GlobalId(q, GlobalJ(l, rank, j), GlobalI(l, rank, i), k + 1);
      && offset <= x && 7 * (x - offset) + 6 < |cols|
      && forall leg: nat :: leg < 7 ==> cols[7 * (x - offset) + leg]
                                        == ColumnId(q, GlobalJ(l, rank, j), GlobalI(l, rank, i), k, leg)
    }

    /** The slots of the first n active cells carry their row ids, and every active cell before
        (j, i, k) in row order is one of them, its columns written. */
    ghost predicate Filled(q: Masked, offset: int, rows: seq<int>, cols: seq<int>, n: nat, j: nat, i: nat, k: nat)
      requires l.Ok() && q.Ok()
    {
      && 7 * n <= |rows|
      && (forall s: nat :: s < 7 * n ==> rows[s] == offset + s / 7)
      && (forall j': nat, i': nat, k': nat :: Visited(q, j', i', k', j, i, k) ==>
            GlobalId(q, GlobalJ(l, rank, j'), GlobalI(l, rank, i'), k' + 1) < offset + n
              && Slotted(q, offset, cols, j', i', k'))
    }

    /** An active cell of the block before (j, i, k) in row order. */
    ghost predicate Visited(q: Masked, j': nat, i': nat, k': nat, j: nat, i: nat, k: nat)
      requires l.Ok() && q.Ok()
    {
      && 1 <= j' <= l.NyLocal(rank) && 1 <= i' <= l.NxLocal(rank) && k' < nz
      && (j' < j || (j' == j && (i' < i || (i' == i && k' < k))))
      && GlobalId(q, GlobalJ(l, rank, j'), GlobalI(l, rank, i'), k' + 1) >= 0
    }

    /** What a cell's legs read from the box. */
    lemma NeighborsInBox(q: Masked, j: nat, i: nat, k: nat)
      requires Valid() && q.Ok() && q.l == l && q.nz == nz && BoxIds(q) && k < nz
      requires 1 <= j <= l.NyLocal(rank) && 1 <= i <= l.NxLocal(rank)
      ensures var gj, gi := GlobalJ(l, rank, j), GlobalI(l, rank, i);
        && gid3[j, i, k] == GlobalId(q, gj, gi, k + 1) == ColumnId(q, gj, gi, k, 0)
        && gid3[j, i - 1, k] == ColumnId(q, gj, gi, k, 1) && gid3[j, i + 1, k] == ColumnId(q, gj, gi, k, 2)
        && gid3[j - 1, i, k] == ColumnId(q, gj, gi, k, 3) && gid3[j + 1, i, k] == ColumnId(q, gj, gi, k, 4)
        && (if k > 0 then gid3[j, i, k - 1] else -1) == ColumnId(q, gj, gi, k, 5)
        && (if k + 1 < nz then gid3[j, i, k + 1] else -1) == ColumnId(q, gj, gi, k, 6)
    {
      hide GlobalId, BlockStart, BlockSize;
    }

    /** One active cell's slots, written in place. */
    method FillSlots(ghost q: Masked, offset: int, rows: array<int>, cols: array<int>, ghost n: nat, j: nat, i: nat,
                     k: nat)
      requires Valid() && q.Ok() && q.l == l && q.nz == nz && BoxIds(q) && rows != cols
      requires 1 <= j <= l.NyLocal(rank) && 1 <= i <= l.NxLocal(rank) && k < nz
      requires gid3[j, i, k] == offset + n && offset >= 0 && rows.Length == cols.Length && 7 * n + 6 < rows.Length
      modifies rows, cols
      ensures forall s: nat :: s < rows.Length ==> rows[s] == if 7 * n <= s < 7 * n + 7 then offset + n
              else old(rows[s])
      ensures forall s: nat :: s < 7 * n ==> cols[s] == old(cols[s])
      ensures Slotted(q, offset, cols[..], j, i, k)
    {
      hide GlobalId, ColumnId, GlobalJ, GlobalI, BoxIds, Slotted;
      NeighborsInBox(q, j, i, k);
      var row := gid3[j, i, k];
      var base: nat := 7 * (row - offset);
      FillRows(rows, base, row);
      FillColumns(cols, base, j, i, k);
      SlotsAssembled(q, offset, cols[..], n, j, i, k);
    }

    lemma SlotsAssembled(q: Masked, offset: int, cols: seq<int>, n: nat, j: nat, i: nat, k: nat)
      requires l.Ok() && q.Ok() && 7 * n + 6 < |cols| && GlobalId(q, GlobalJ(l, rank, j), GlobalI(l, rank, i), k + 1)
               == offset + n
      requires var gj, gi := GlobalJ(l, rank, j), GlobalI(l, rank, i);
        && cols[7 * n] == ColumnId(q, gj, gi, k, 0) && cols[7 * n + 1] == ColumnId(q, gj, gi, k, 1)
        && cols[7 * n + 2] == ColumnId(q, gj, gi, k, 2) && cols[7 * n + 3] == ColumnId(q, gj, gi, k, 3)
        && cols[7 * n + 4] == ColumnId(q, gj, gi, k, 4) && cols[7 * n + 5] == ColumnId(q, gj, gi, k, 5)
        && cols[7 * n + 6] == ColumnId(q, gj, gi, k, 6)
      ensures Slotted(q, offset, cols, j, i, k)
    {
      hide GlobalId, ColumnId, GlobalJ, GlobalI;
    }

    method FillRows(rows: array<int>, base: nat, row: int)
      requires base + 6 < rows.Length
      modifies rows
      ensures forall s: nat :: s < rows.Length ==> rows[s] == if base <= s < base + 7 then row else old(rows[s])
    {
      for leg: nat := 0 to 7
        invariant forall s: nat :: s < rows.Length ==> rows[s] == if base <= s < base + leg then row else old(rows[s])
      {
        rows[base + leg] := row;
      }
    }

    method FillColumns(cols: array<int>, base: nat, j: nat, i: nat, k: nat)
      requires Valid() && 1 <= j <= l.NyLocal(rank) && 1 <= i <= l.NxLocal(rank) && k < nz && base + 6 < cols.Length
      modifies cols
      ensures cols[base] == gid3[j, i, k] && cols[base + 1] == gid3[j, i - 1, k] && cols[base + 2] == gid3[j, i + 1, k]
      ensures cols[base + 3] == gid3[j - 1, i, k] && cols[base + 4] == gid3[j + 1, i, k]
      ensures cols[base + 5] == (if k > 0 then gid3[j, i, k - 1] else -1) && cols[base + 6] == if k + 1 < nz
              then gid3[j, i, k + 1] else -1
      ensures forall s: nat :: s < base ==> cols[s] == old(cols[s])
    {
      cols[base] := gid3[j, i, k];
      cols[base + 1] := gid3[j, i - 1, k];
      cols[base + 2] := gid3[j, i + 1, k];
      cols[base + 3] := gid3[j - 1, i, k];
      cols[base + 4] := gid3[j + 1, i, k];
      cols[base + 5] := if k > 0 then gid3[j, i, k - 1] else -1;
      cols[base + 6] := if k + 1 < nz then gid3[j, i, k + 1] else -1;
    }

    lemma FilledGrows(q: Masked, offset: int, rows: seq<int>, cols: seq<int>, rows': seq<int>, cols': seq<int>, n: nat,
                      j: nat, i: nat, k: nat)
      requires l.Ok() && q.Ok() && Filled(q, offset, rows, cols, n, j, i, k)
               && 7 * n + 7 <= |rows'| == |rows| == |cols| == |cols'|
      requires GlobalId(q, GlobalJ(l, rank, j), GlobalI(l, rank, i), k + 1) == offset + n
      requires forall s: nat :: s < |rows| ==> rows'[s] == if 7 * n <= s < 7 * n + 7 then offset + n else rows[s]
      requires (forall s: nat :: s < 7 * n ==> cols'[s] == cols[s]) && Slotted(q, offset, cols', j, i, k)
      ensures Filled(q, offset, rows', cols', n + 1, j, i, k + 1)
    {
      hide GlobalId, ColumnId;
      forall j': nat, i': nat, k': nat | Visited(q, j', i', k', j, i, k + 1)
        ensures GlobalId(q, GlobalJ(l, rank, j'), GlobalI(l, rank, i'), k' + 1) < offset + n + 1
                && Slotted(q, offset, cols', j', i', k')
      {
        if !(j' == j && i' == i && k' == k) {
          assert Visited(q, j', i', k', j, i, k);
          StaySlotted(q, offset, cols, cols', n, j', i', k');
        }
      }
    }

    lemma StaySlotted(q: Masked, offset: int, cols: seq<int>, cols': seq<int>, n: nat, j: nat, i: nat, k: nat)
      requires l.Ok() && q.Ok() && |cols| == |cols'| && 7 * n <= |cols| && forall s: nat :: s < 7 * n ==>
                 cols'[s] == cols[s]
      requires Slotted(q, offset, cols, j, i, k)
               && GlobalId(q, GlobalJ(l, rank, j), GlobalI(l, rank, i), k + 1) < offset + n
      ensures Slotted(q, offset, cols', j, i, k)
    {
      hide GlobalId, ColumnId;
      var x := GlobalId(q, GlobalJ(l, rank, j), GlobalI(l, rank, i), k + 1);
      forall leg: nat | leg < 7
        ensures cols'[7 * (x - offset) + leg] == ColumnId(q, GlobalJ(l, rank, j), GlobalI(l, rank, i), k, leg)
      {
        var s := 7 * (x - offset) + leg;
        assert cols'[s] == cols[s];
      }
    }

    lemma FilledSkips(q: Masked, offset: int, rows: seq<int>, cols: seq<int>, n: nat, j: nat, i: nat, k: nat)
      requires l.Ok() && q.Ok() && Filled(q, offset, rows, cols, n, j, i, k)
      requires GlobalId(q, GlobalJ(l, rank, j), GlobalI(l, rank, i), k + 1) < 0
      ensures Filled(q, offset, rows, cols, n, j, i, k + 1)
    {
      hide GlobalId, Slotted;
      assert forall j': nat, i': nat, k': nat :: Visited(q, j', i', k', j, i, k + 1) ==>
          Visited(q, j', i', k', j, i, k);
    }

    lemma ColumnTurns(q: Masked, offset: int, rows: seq<int>, cols: seq<int>, n: nat, j: nat, i: nat)
      requires l.Ok() && q.Ok() && Filled(q, offset, rows, cols, n, j, i, nz)
      ensures Filled(q, offset, rows, cols, n, j, i + 1, 0)
    {
      hide GlobalId, Slotted;
      var i1 := i + 1;
      assert forall j': nat, i': nat, k': nat :: Visited(q, j', i', k', j, i1, 0) ==> Visited(q, j', i', k', j, i, nz);
    }

    lemma RowTurns(q: Masked, offset: int, rows: seq<int>, cols: seq<int>, n: nat, j: nat)
      requires l.Ok() && q.Ok() && Filled(q, offset, rows, cols, n, j, l.NxLocal(rank) + 1, 0)
      ensures Filled(q, offset, rows, cols, n, j + 1, 1, 0)
    {
      hide GlobalId, Slotted;
      var nx, j1 := l.NxLocal(rank) + 1, j + 1;
      assert forall j': nat, i': nat, k': nat :: Visited(q, j', i', k', j1, 1, 0) ==> Visited(q, j', i', k', j, nx, 0);
    }

    /** One column's active cells, which number on from offset + n. */
    method FillColumn(ghost q: Masked, offset: int, rows: array<int>, cols: array<int>, ghost n: nat, j: nat, i: nat)
      returns (ghost m: nat)
      requires Valid() && q.Ok() && q.l == l && q.nz == nz && BoxIds(q) && rows != cols && rows.Length == cols.Length
               && offset >= 0
      requires 1 <= j <= l.NyLocal(rank) && 1 <= i <= l.NxLocal(rank)
      requires Filled(q, offset, rows[..], cols[..], n, j, i, 0)
      requires offset + n == Next3(q, rank, j - 1, i - 1) && 7 * (Next3(q, rank, j - 1, i) - offset) <= rows.Length
      modifies rows, cols
      ensures Filled(q, offset, rows[..], cols[..], m, j, i + 1, 0) && offset + m == Next3(q, rank, j - 1, i)
    {
      hide Next3, GlobalId, Filled, Slotted, LayerId;
      m := n;
      ghost var kt := q.ktop(rank, j - 1, i - 1);
      NextColumn(q, rank, j - 1, i - 1);
      for k: nat := 0 to nz
        invariant m == n + if k > kt then k - kt else 0
        invariant Filled(q, offset, rows[..], cols[..], m, j, i, k)
      {
        IdInBox(q, j, i, k);
        ghost var r0, c0 := rows[..], cols[..];
        if gid3[j, i, k] >= 0 {
          FillSlots(q, offset, rows, cols, m, j, i, k);
          FilledGrows(q, offset, r0, c0, rows[..], cols[..], m, j, i, k);
          m := m + 1;
        } else {
          FilledSkips(q, offset, r0, c0, m, j, i, k);
        }
      }
      ColumnTurns(q, offset, rows[..], cols[..], m, j, i);
    }

    lemma IdInBox(q: Masked, j: nat, i: nat, k: nat)
      requires Valid() && q.Ok() && q.l == l && q.nz == nz && BoxIds(q) && k < nz
      requires 1 <= j <= l.NyLocal(rank) && 1 <= i <= l.NxLocal(rank)
      ensures gid3[j, i, k] == GlobalId(q, GlobalJ(l, rank, j), GlobalI(l, rank, i), k + 1)
      ensures gid3[j, i, k] == if q.ktop(rank, j - 1, i - 1) <= k
              then Next3(q, rank, j - 1, i - 1) + (k - q.ktop(rank, j - 1, i - 1)) else -1
    {
      hide Next3, GlobalId;
      LayerIdAt(q, rank, j - 1, i - 1, k);
      OwnIsGlobal(q, rank, j, i, k + 1);
    }

    /** The seven-slot pattern: the active cells' slots fill the row and column arrays exactly once,
        in the order of their ids; absent neighbours get column -1. */
    method BuildCooPattern(ghost q: Masked, offset: int, active: nat) returns (rows: array<int>, cols: array<int>)
      requires Valid() && q.Ok() && q.l == l && q.nz == nz && BoxIds(q)
      requires offset == q.Numbers3().Offset(rank) && active == q.Numbers3().Local(rank)
      ensures fresh(rows) && fresh(cols) && rows.Length == cols.Length == 7 * active
      ensures forall s: nat :: s < 7 * active ==> rows[s] == offset + s / 7
      ensures forall j: nat, i: nat, k: nat :: Visited(q, j, i, k, l.NyLocal(rank) + 1, 1, 0) ==>
                Slotted(q, offset, cols[..], j, i, k)
    {
      hide Next3, Numbering.Local, Numbering.Offset, GlobalId, Slotted, Visited;
      rows, cols := new int[7 * active], new int[7 * active];
      ghost var n: nat := 0;
      FirstIds(q, rank);
      NothingVisited(q, offset, rows[..], cols[..]);
      for j: nat := 1 to l.NyLocal(rank) + 1
        invariant offset + n == Next3(q, rank, j - 1, 0) && Filled(q, offset, rows[..], cols[..], n, j, 1, 0)
      {
        for i: nat := 1 to l.NxLocal(rank) + 1
          invariant offset + n == Next3(q, rank, j - 1, i - 1) && Filled(q, offset, rows[..], cols[..], n, j, i, 0)
        {
          WithinBlock(q, rank, j - 1, i);
          n := FillColumn(q, offset, rows, cols, n, j, i);
        }
        NextRow(q, rank, j - 1);
        RowTurns(q, offset, rows[..], cols[..], n, j);
      }
      LastIds(q, rank);
    }

    lemma NothingVisited(q: Masked, offset: int, rows: seq<int>, cols: seq<int>)
      requires l.Ok() && q.Ok()
      ensures Filled(q, offset, rows, cols, 0, 1, 1, 0)
    {
    }

    /** Rows before j, and row j before column i, are numbered; the rest is -1. */
    ghost predicate Numbered(q: Masked, j: nat, i: nat)
      requires Valid() && q.Ok() && q.l == l
      reads gid2, gid3
    {
      && (forall j': nat, i': nat :: j' < gid2.Length0 && i' < gid2.Length1 ==>
            gid2[j', i'] == if j' < j + 1 || (j' == j + 1 && i' < i + 1) then OwnIds(q, rank)(j', i', 0) else -1)
      && (forall j': nat, i': nat, k: nat :: j' < gid3.Length0 && i' < gid3.Length1 && k < nz ==>
            gid3[j', i', k] == if j' < j + 1 || (j' == j + 1 && i' < i + 1) then LayerId(q, rank, j', i', k) else -1)
    }
  }

  lemma SizesAt(q: Masked, r: nat, j: nat, i: nat)
    requires q.l.Ok() && q.Owned(r, j, i)
    ensures RowPlace(q.l.NxLocal(r), j, i) < q.Columns(r)
    ensures q.Numbers2().Sizes(r)(RowPlace(q.l.NxLocal(r), j, i)) == if q.ktop(r, j, i) < q.nz then 1 else 0
    ensures q.Numbers3().Sizes(r)(RowPlace(q.l.NxLocal(r), j, i)) == if q.ktop(r, j, i) < q.nz
            then q.nz - q.ktop(r, j, i) else 0
  {
    QuotientOf(j, q.l.NxLocal(r), i);
    MulMono(j + 1, q.l.NyLocal(r), q.l.NxLocal(r));
    assert (j + 1) * q.l.NxLocal(r) == j * q.l.NxLocal(r) + q.l.NxLocal(r);
  }

  /** The running count never passes the rank's share. */
  lemma WithinBlock(q: Masked, r: nat, j: nat, i: nat)
    requires q.l.Ok() && r < q.l.Size() && j < q.l.NyLocal(r) && i <= q.l.NxLocal(r)
    ensures Next3(q, r, j, i) <= q.Numbers3().Offset(r) + q.Numbers3().Local(r)
  {
    hide Prefix, BlockSize;
    MulMono(j + 1, q.l.NyLocal(r), q.l.NxLocal(r));
    assert (j + 1) * q.l.NxLocal(r) == j * q.l.NxLocal(r) + q.l.NxLocal(r);
    PrefixGrows(q.Numbers3().Sizes(r), RowPlace(q.l.NxLocal(r), j, i), q.Columns(r));
  }

  /** A cell's ids from the running counts. */
  lemma SurfaceIdAt(q: Masked, r: nat, j: nat, i: nat)
    requires q.Ok() && q.Owned(r, j, i)
    ensures OwnIds(q, r)(j + 1, i + 1, 0)
            == if q.ktop(r, j, i) < q.nz then Next2(q, r, j, i) else -1
  {
    hide Numbering.Offset, Prefix, Masked.Numbers2;
    var s: nat := 0;
    assert OwnIds(q, r)(j + 1, i + 1, s) == q.Gid2(r, j, i);
    if q.ktop(r, j, i) < q.nz { assert q.Gid2(r, j, i) == q.Numbers2().Id(r, RowPlace(q.l.NxLocal(r), j, i), s); }
  }

  lemma LayerIdAt(q: Masked, r: nat, j: nat, i: nat, k: nat)
    requires q.Ok() && q.Owned(r, j, i) && k < q.nz
    ensures LayerId(q, r, j + 1, i + 1, k)
            == if q.ktop(r, j, i) <= k then Next3(q, r, j, i) + (k - q.ktop(r, j, i)) else -1
  {
    hide Numbering.Offset, Prefix, Masked.Numbers3;
  }

  // ----- the matrix pattern

  /** The column id of a leg, in the slot order diagonal, west, east, south, north, up, down. */
  ghost function ColumnId(q: Masked, gj: int, gi: int, k: nat, leg: nat): int
    requires q.Ok() && leg < 7
  {
    match leg
    case 0 => GlobalId(q, gj, gi, k + 1)
    case 1 => GlobalId(q, gj, gi - 1, k + 1)
    case 2 => GlobalId(q, gj, gi + 1, k + 1)
    case 3 => GlobalId(q, gj - 1, gi, k + 1)
    case 4 => GlobalId(q, gj + 1, gi, k + 1)
    case 5 => if k > 0 then GlobalId(q, gj, gi, k) else -1
    case 6 => if k + 1 < q.nz then GlobalId(q, gj, gi, k + 2) else -1
  }

  function OppositeLeg(leg: nat): nat
    requires leg < 7
  {
    if leg == 0 then 0 else if leg % 2 == 1 then leg + 1 else leg - 1
  }

  /** A global cell's id is the one its owner gave it. */
  lemma GlobalIdIs(q: Masked, gj: int, gi: int, k: nat) returns (o: nat, j: nat, i: nat)
    requires q.Ok() && GlobalId(q, gj, gi, k + 1) >= 0
    ensures q.Owned(o, j, i) && gj == q.l.J0(o) + j && gi == q.l.I0(o) + i
            && GlobalId(q, gj, gi, k + 1) == q.Gid3(o, j, i, k)
  {
    hide Masked.Gid2, Masked.Gid3, BlockStart, BlockSize;
    o := OwnerOf(q.l, gj, gi);
    j, i := gj - q.l.J0(o), gi - q.l.I0(o);
  }

  /** An id belongs to one global cell. */
  lemma GlobalIdsDistinct(q: Masked, gj: int, gi: int, k: nat, gj': int, gi': int, k': nat)
    requires q.Ok() && GlobalId(q, gj, gi, k + 1) >= 0 && GlobalId(q, gj, gi, k + 1) == GlobalId(q, gj', gi', k' + 1)
    ensures gj == gj' && gi == gi' && k == k'
  {
    hide *;
    var o, j, i := GlobalIdIs(q, gj, gi, k);
    var o', j', i' := GlobalIdIs(q, gj', gi', k');
    Gid3Distinct(q, o, j, i, k, o', j', i', k');
  }

  /** Main result: the pattern is structurally symmetric across all ranks. A cell's leg points at
      another cell exactly when that cell's opposite leg points back. */
  lemma PatternIsSymmetric(q: Masked, gj: int, gi: int, k: nat, gj': int, gi': int, k': nat, leg: nat)
    requires q.Ok() && leg < 7 && k < q.nz && k' < q.nz && GlobalId(q, gj, gi, k + 1) >= 0
             && GlobalId(q, gj', gi', k' + 1) >= 0
    ensures ColumnId(q, gj, gi, k, leg) == GlobalId(q, gj', gi', k' + 1)
            <==> ColumnId(q, gj', gi', k', OppositeLeg(leg)) == GlobalId(q, gj, gi, k + 1)
  {
    hide GlobalId;
    if ColumnId(q, gj, gi, k, leg) == GlobalId(q, gj', gi', k' + 1) { LegLands(q, gj, gi, k, gj', gi', k', leg); }
    if ColumnId(q, gj', gi', k', OppositeLeg(leg)) == GlobalId(q, gj, gi, k + 1) {
      LegLands(q, gj', gi', k', gj, gi, k, OppositeLeg(leg));
    }
  }

  lemma LegLands(q: Masked, gj: int, gi: int, k: nat, gj': int, gi': int, k': nat, leg: nat)
    requires q.Ok() && leg < 7 && k < q.nz && GlobalId(q, gj', gi', k' + 1) >= 0
    requires ColumnId(q, gj, gi, k, leg) == GlobalId(q, gj', gi', k' + 1)
    ensures gj' == gj + (if leg == 3 then -1 else if leg == 4 then 1 else 0)
    ensures gi' == gi + (if leg == 1 then -1 else if leg == 2 then 1 else 0)
    ensures k' == k + (if leg == 5 then -1 else if leg == 6 then 1 else 0)
  {
    hide GlobalId;
    match leg
    case 0 => GlobalIdsDistinct(q, gj', gi', k', gj, gi, k);
    case 1 => GlobalIdsDistinct(q, gj', gi', k', gj, gi - 1, k);
    case 2 => GlobalIdsDistinct(q, gj', gi', k', gj, gi + 1, k);
    case 3 => GlobalIdsDistinct(q, gj', gi', k', gj - 1, gi, k);
    case 4 => GlobalIdsDistinct(q, gj', gi', k', gj + 1, gi, k);
    case 5 => if k > 0 { GlobalIdsDistinct(q, gj', gi', k', gj, gi, k - 1); }
    case 6 => if k + 1 < q.nz { GlobalIdsDistinct(q, gj', gi', k', gj, gi, k + 1); }
  }
}
