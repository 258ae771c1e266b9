/** What the exchanges do to fields (src/core/HaloExchanger.cpp:155-281): the halo protocol with the
    packing of src/core/HaloExchanger.cpp, and the two-phase exchange that fills corners. */
module HaloCorners {
  import opened Decomposition
  import opened HaloPacking
  import opened HaloProtocol

  /** Fields with their layer counts, the exchanges with their selections, and the work between. */
  datatype Plan<!V(!new)> = Plan(l: Layout, layers: seq<nat>, calls: seq<Call>, sels: seq<seq<nat>>,
                                 init: nat -> seq<Field<V>>,
                           compute: (nat, nat, seq<Field<V>>) -> seq<Field<V>>)
  {
    ghost predicate Ok() {
      && l.Ok() && |sels| == |calls|
      && (forall c, d :: 0 <= c < |calls| && d in calls[c].dirs ==> Opposite(d) in calls[c].dirs)
      && (forall c :: 0 <= c < |sels| ==> Selects(sels[c], |layers|))
      && (forall r :: |init(r)| == |layers|)
      && (forall r, c, f :: |f| == |layers| ==> |compute(r, c, f)| == |layers|)
    }
  }

  function ExtentOf(l: Layout, r: nat): Extent
    requires l.px > 0 && l.py > 0
  {
    Extent(l.NyLocal(r), l.NxLocal(r))
  }

  /** The message of an exchange toward d. */
  function PackFor<V(!new)>(q: Plan<V>, r: nat, c: nat, d: Dir, f: seq<Field<V>>): seq<V> {
    if q.l.px > 0 && q.l.py > 0 && c < |q.calls| && c < |q.sels| && |f| == |q.layers| && Selects(q.sels[c], |f|)
    then PackAll(f, q.layers, q.sels[c], ExtentOf(q.l, r), d, q.calls[c].wide)
    else []
  }

  /** The unpacking of one direction's message, if there is one. */
  function UnpackFrom<V(!new)>(q: Plan<V>, r: nat, c: nat, f: seq<Field<V>>, got: map<Dir, seq<V>>,
                               d: Dir): seq<Field<V>> {
    if d in got && q.l.px > 0 && q.l.py > 0 && c < |q.calls| && c < |q.sels| && |f| == |q.layers|
      && Selects(q.sels[c], |f|)
       && |got[d]| == Offset(q.layers, q.sels[c], |q.sels[c]|, ExtentOf(q.l, r), d, q.calls[c].wide)
    then UnpackTo(f, q.layers, q.sels[c], |q.sels[c]|, ExtentOf(q.l, r), d, q.calls[c].wide, got[d])
    else f
  }

  function UnpackFor<V(!new)>(q: Plan<V>, r: nat, c: nat, f: seq<Field<V>>, got: map<Dir, seq<V>>): seq<Field<V>> {
    UnpackFrom(q, r, c, UnpackFrom(q, r, c, UnpackFrom(q, r, c, UnpackFrom(q, r, c, f, got, West), got, East), got,
                                   South), got, North)
  }

  function ProgramOf<V(!new)>(q: Plan<V>): Program<seq<Field<V>>, seq<V>> {
    Program(q.l, q.calls, q.init, q.compute, (r, c, d, f) => PackFor(q, r, c, d, f), (r, c, f, got) =>
            UnpackFor(q, r, c, f, got))
  }

  // ----- one exchange

  ghost function FieldsAt<V(!new)>(q: Plan<V>, c: nat, r: nat): seq<Field<V>>
    requires q.Ok()
  {
    Lockstep(ProgramOf(q), c, r)
  }

  /** The fields at the start of exchange c, the work before it done. */
  ghost function FieldsBefore<V(!new)>(q: Plan<V>, c: nat, r: nat): seq<Field<V>>
    requires q.Ok()
  {
    Prepared(ProgramOf(q), c, r)
  }

  lemma {:induction false} Sized<V(!new)>(q: Plan<V>, c: nat, r: nat)
    requires q.Ok()
    ensures |FieldsAt(q, c, r)| == |q.layers| && |FieldsBefore(q, c, r)| == |q.layers|
    decreases c
  {
    if c > 0 { Sized(q, c - 1, r); }
  }

  /** Facing planes have the same rows. */
  lemma SameRows(l: Layout, r: nat, d: Dir, wide: bool)
    requires l.Ok() && r < l.Size() && l.Neighbor(r, d) != NULL_RANK
    ensures 0 <= l.Neighbor(r, d) < l.Size()
    ensures RowCells(ExtentOf(l, r), d, wide) == RowCells(ExtentOf(l, l.Neighbor(r, d)), d, wide)
  {
    NeighborsMirror(l, r, d);
  }

  /** The value the neighbour's boundary plane holds across from a halo cell. */
  ghost function Across<V(!new)>(q: Plan<V>, c: nat, r: nat, d: Dir, m: nat, j: int, i: int, k: int): V
    requires q.Ok() && r < q.l.Size() && q.l.Neighbor(r, d) != NULL_RANK && m < |q.layers|
  {
    NeighborsMirror(q.l, r, d);
    var n: nat := q.l.Neighbor(r, d);
    Sized(q, c, n);
    var p := SendPlane(ExtentOf(q.l, n), Opposite(d));
    if AlongX(d) then FieldsBefore(q, c, n)[m](j, p, k) else FieldsBefore(q, c, n)[m](p, i, k)
  }

  lemma UnpacksDelivered<V(!new)>(q: Plan<V>, c: nat, r: nat, f: seq<Field<V>>, d: Dir, m: nat, j: int, i: int, k: int)
    requires q.Ok() && r < q.l.Size() && c < |q.calls| && |f| == |q.layers| && m < |f|
    ensures var g := UnpackFrom(q, r, c, f, Delivery(ProgramOf(q), c, r), d);
      && |g| == |q.layers|
      && g[m](j, i, k)
         == if d in q.calls[c].dirs && q.l.Neighbor(r, d) != NULL_RANK && m in q.sels[c]
               && OnPlane(ExtentOf(q.l, r), d, q.calls[c].wide, j, i) && 0 <= k < q.layers[m]
            then Across(q, c, r, d, m, j, i, k) else f[m](j, i, k)
  {
    var p := ProgramOf(q);
    assert p.Ok();
    if d in Active(p, r, c) {
      SameRows(q.l, r, d, q.calls[c].wide);
      var n: nat := q.l.Neighbor(r, d);
      Sized(q, c, n);
      var sel, wide := q.sels[c], q.calls[c].wide;
      assert Delivery(p, c, r)[d] == PackAll(FieldsBefore(q, c, n), q.layers, sel, ExtentOf(q.l, n), Opposite(d), wide);
      UnpackedFields(f, FieldsBefore(q, c, n), q.layers, sel, |sel|, ExtentOf(q.l, r), ExtentOf(q.l, n), d, wide, m, j,
                     i, k);
      assert sel[..|sel|] == sel;
    }
  }

  /** Whether exchange c fills the halo cell from direction d. */
  ghost predicate Fills<V(!new)>(q: Plan<V>, c: nat, r: nat, d: Dir, m: nat, j: int, i: int, k: int)
    requires q.Ok() && c < |q.calls| && m < |q.layers|
  {
    d in q.calls[c].dirs && q.l.Neighbor(r, d) != NULL_RANK && m in q.sels[c]
    && OnPlane(ExtentOf(q.l, r), d, q.calls[c].wide, j, i) && 0 <= k < q.layers[m]
  }

  /** One exchange: a halo cell on an active plane takes the value across from it, everything
      else is kept. */
  lemma OneExchange<V(!new)>(q: Plan<V>, c: nat, r: nat, m: nat, j: int, i: int, k: int)
    requires q.Ok() && r < q.l.Size() && c < |q.calls| && m < |q.layers|
    ensures |FieldsAt(q, c + 1, r)| == |FieldsBefore(q, c, r)| == |q.layers|
    ensures forall d :: Fills(q, c, r, d, m, j, i, k) ==>
              FieldsAt(q, c + 1, r)[m](j, i, k) == Across(q, c, r, d, m, j, i, k)
    ensures (forall d :: !Fills(q, c, r, d, m, j, i, k)) ==>
      FieldsAt(q, c + 1, r)[m](j, i, k) == FieldsBefore(q, c, r)[m](j, i, k)
  {
    hide UnpackFrom, Across, Delivery, FieldsAt, FieldsBefore, ProgramOf, Plan.Ok, ExtentOf, OnPlane;
    Sized(q, c, r);
    Sized(q, c + 1, r);
    Unfolds(q, c, r);
    var got, f := Delivery(ProgramOf(q), c, r), FieldsBefore(q, c, r);
    var w := UnpackFrom(q, r, c, f, got, West);
    UnpacksDelivered(q, c, r, f, West, m, j, i, k);
    var e := UnpackFrom(q, r, c, w, got, East);
    UnpacksDelivered(q, c, r, w, East, m, j, i, k);
    var s := UnpackFrom(q, r, c, e, got, South);
    UnpacksDelivered(q, c, r, e, South, m, j, i, k);
    UnpacksDelivered(q, c, r, s, North, m, j, i, k);
    PlanesApart(q.l, r, q.calls[c].wide, j, i);
    if !Fills(q, c, r, West, m, j, i, k) && !Fills(q, c, r, East, m, j, i, k) && !Fills(q, c, r, South, m, j, i, k)
       && !Fills(q, c, r, North, m, j, i, k) {
      assert FieldsAt(q, c + 1, r)[m](j, i, k) == f[m](j, i, k);
    }
    forall d | Fills(q, c, r, d, m, j, i, k)
      ensures FieldsAt(q, c + 1, r)[m](j, i, k) == Across(q, c, r, d, m, j, i, k)
    {
      match d case West => case East => case South => case North =>
    }
  }

  lemma Unfolds<V(!new)>(q: Plan<V>, c: nat, r: nat)
    requires q.Ok()
    ensures ProgramOf(q).Ok() && q.l.Ok()
    ensures FieldsAt(q, c + 1, r) == UnpackFor(q, r, c, FieldsBefore(q, c, r), Delivery(ProgramOf(q), c, r))
  {
    assert ProgramOf(q).Ok();
    hide UnpackFor, Delivery;
  }

  /** A cell lies on at most one halo plane. */
  lemma PlanesApart(l: Layout, r: nat, wide: bool, j: int, i: int)
    requires l.Ok() && r < l.Size()
    ensures forall d, e :: OnPlane(ExtentOf(l, r), d, wide, j, i) && OnPlane(ExtentOf(l, r), e, wide, j, i) ==> d == e
  {
    RankParts(l, r);
    NoEmptyBlockIff(l.nx, l.px);
    NoEmptyBlockIff(l.ny, l.py);
  }

  // ----- the two-phase exchange

  /** Calls c and c + 1 exchange with corners, nothing happening between them. */
  ghost predicate WithCorners<V(!new)>(q: Plan<V>, c: nat) {
    && c + 1 < |q.calls| && |q.sels| == |q.calls|
    && q.calls[c] == Call({West, East}, false) && q.calls[c + 1] == Call({South, North}, true)
      && q.sels[c] == q.sels[c + 1]
    && forall r, n, f :: n == c + 1 ==> q.compute(r, n, f) == f
  }

  /** The global row and column of a rank's cell, halo included. */
  function GlobalJ(l: Layout, r: nat, j: int): int requires l.px > 0 && l.py > 0 { l.J0(r) + j - 1 }
  function GlobalI(l: Layout, r: nat, i: int): int requires l.px > 0 && l.py > 0 { l.I0(r) + i - 1 }

  predicate InDomainJ(l: Layout, r: nat, j: int) requires l.px > 0 && l.py > 0 { 0 <= GlobalJ(l, r, j) < l.ny }
  predicate InDomainI(l: Layout, r: nat, i: int) requires l.px > 0 && l.py > 0 { 0 <= GlobalI(l, r, i) < l.nx }

  /** An edge of a rank's block lies inside the domain exactly when a neighbour is there. */
  lemma EdgesInDomain(l: Layout, r: nat)
    requires l.Ok() && r < l.Size()
    ensures l.NxLocal(r) >= 1 && l.NyLocal(r) >= 1
    ensures forall i :: 1 <= i <= l.NxLocal(r) ==> InDomainI(l, r, i)
    ensures forall j :: 1 <= j <= l.NyLocal(r) ==> InDomainJ(l, r, j)
    ensures InDomainI(l, r, 0) <==> l.Neighbor(r, West) != NULL_RANK
    ensures InDomainI(l, r, l.NxLocal(r) + 1) <==> l.Neighbor(r, East) != NULL_RANK
    ensures InDomainJ(l, r, 0) <==> l.Neighbor(r, South) != NULL_RANK
    ensures InDomainJ(l, r, l.NyLocal(r) + 1) <==> l.Neighbor(r, North) != NULL_RANK
  {
    hide BlockStart, BlockSize, Layout.Neighbor;
    RankParts(l, r);
    AxisEdges(l.nx, l.px, l.Pi(r));
    AxisEdges(l.ny, l.py, l.Pj(r));
    MissingAtEdges(l, r);
  }

  lemma AxisEdges(n: nat, parts: nat, p: nat)
    requires 0 < parts <= n && p < parts
    ensures BlockSize(n, parts, p) >= 1 && BlockStart(n, parts, p) + BlockSize(n, parts, p) <= n
    ensures BlockStart(n, parts, p) >= 1 <==> p > 0
    ensures BlockStart(n, parts, p) + BlockSize(n, parts, p) < n <==> p + 1 < parts
  {
    NoEmptyBlockIff(n, parts);
    BlocksAbut(n, parts, p);
    BlocksAbut(n, parts, 0);
    StartsGrow(n, parts, p + 1, parts);
    if p > 0 { StartsGrow(n, parts, 0, p); }
    assert BlockSize(n, parts, 0) >= 1 && BlockSize(n, parts, p) >= 1;
    if p + 1 < parts { assert BlockSize(n, parts, p + 1) >= 1; }
  }

  /** After the first phase: the halo columns of interior rows hold the neighbours' columns. */
  lemma AfterColumns<V(!new)>(q: Plan<V>, c: nat, r: nat, m: nat, j: int, i: int, k: int)
    requires q.Ok() && WithCorners(q, c) && r < q.l.Size() && m in q.sels[c] && 0 <= k < q.layers[m]
    requires m < |q.layers| && 1 <= j <= q.l.NyLocal(r) && 0 <= i <= q.l.NxLocal(r) + 1
    ensures |FieldsBefore(q, c + 1, r)| == |FieldsBefore(q, c, r)| == |q.layers|
    ensures FieldsBefore(q, c + 1, r)[m](j, i, k)
            == if i == 0 && q.l.Neighbor(r, West) != NULL_RANK then Across(q, c, r, West, m, j, i, k)
               else if i == q.l.NxLocal(r) + 1 && q.l.Neighbor(r, East) != NULL_RANK
                 then Across(q, c, r, East, m, j, i, k)
               else FieldsBefore(q, c, r)[m](j, i, k)
  {
    EdgesInDomain(q.l, r);
    Sized(q, c, r);
    Sized(q, c + 1, r);
    OneExchange(q, c, r, m, j, i, k);
    assert FieldsBefore(q, c + 1, r) == FieldsAt(q, c + 1, r);
    hide FieldsAt, FieldsBefore, Across;
    assert Fills(q, c, r, West, m, j, i, k) == (i == 0 && q.l.Neighbor(r, West) != NULL_RANK);
    assert Fills(q, c, r, East, m, j, i, k) == (i == q.l.NxLocal(r) + 1 && q.l.Neighbor(r, East) != NULL_RANK);
  }

  /** Rank o owns the cell at global row gj and column gi. */
  ghost predicate OwnsCell(l: Layout, o: nat, gj: int, gi: int)
    requires l.px > 0 && l.py > 0
  {
    o < l.Size() && l.J0(o) <= gj < l.J0(o) + l.NyLocal(o) && l.I0(o) <= gi < l.I0(o) + l.NxLocal(o)
  }

  lemma OneOwner(l: Layout, o: nat, p: nat, gj: int, gi: int)
    requires l.Ok() && OwnsCell(l, o, gj, gi) && OwnsCell(l, p, gj, gi)
    ensures o == p
  {
    EdgesInDomain(l, o);
    assert InDomainJ(l, o, gj - l.J0(o) + 1) && InDomainI(l, o, gi - l.I0(o) + 1);
    var r := CellOwner(l, gj, gi);
  }

  /** The owner's value of a global cell before exchange c. */
  ghost function Owned<V(!new)>(q: Plan<V>, c: nat, o: nat, m: nat, gj: int, gi: int, k: int): V
    requires q.Ok() && m < |q.layers| && OwnsCell(q.l, o, gj, gi)
  {
    Sized(q, c, o);
    FieldsBefore(q, c, o)[m](gj - q.l.J0(o) + 1, gi - q.l.I0(o) + 1, k)
  }

  /** A row of a block and its halo columns after the first phase: the owners' values inside the
      domain, what was there outside it. */
  lemma RowSettled<V(!new)>(q: Plan<V>, c: nat, r: nat, m: nat, j: int, i: int, k: int, o: nat)
    requires q.Ok() && WithCorners(q, c) && r < q.l.Size() && m in q.sels[c] && m < |q.layers| && 0 <= k < q.layers[m]
    requires 1 <= j <= q.l.NyLocal(r) && 0 <= i <= q.l.NxLocal(r) + 1
    requires InDomainI(q.l, r, i) ==> OwnsCell(q.l, o, GlobalJ(q.l, r, j), GlobalI(q.l, r, i))
    ensures |FieldsBefore(q, c + 1, r)| == |FieldsBefore(q, c, r)| == |q.layers|
    ensures FieldsBefore(q, c + 1, r)[m](j, i, k)
            == if InDomainI(q.l, r, i) then Owned(q, c, o, m, GlobalJ(q.l, r, j), GlobalI(q.l, r, i), k)
               else FieldsBefore(q, c, r)[m](j, i, k)
  {
    AfterColumns(q, c, r, m, j, i, k);
    EdgesInDomain(q.l, r);
    hide FieldsBefore, BlockStart, BlockSize;
    var gj, gi := GlobalJ(q.l, r, j), GlobalI(q.l, r, i);
    if 1 <= i <= q.l.NxLocal(r) {
      OneOwner(q.l, o, r, gj, gi);
    } else if InDomainI(q.l, r, i) {
      var d := if i == 0 then West else East;
      NeighborsMirror(q.l, r, d);
      var n: nat := q.l.Neighbor(r, d);
      EdgesInDomain(q.l, n);
      assert OwnsCell(q.l, n, gj, gi);
      OneOwner(q.l, o, n, gj, gi);
    }
  }

  /** Main result: after the two-phase exchange every cell of a rank's box whose place lies inside
      the domain, corners included, holds its owner's value from before. */
  lemma CornersFilled<V(!new)>(q: Plan<V>, c: nat, r: nat, m: nat, j: int, i: int, k: int, o: nat)
    requires q.Ok() && WithCorners(q, c) && r < q.l.Size() && m in q.sels[c] && m < |q.layers| && 0 <= k < q.layers[m]
    requires 0 <= j <= q.l.NyLocal(r) + 1 && 0 <= i <= q.l.NxLocal(r) + 1 && InDomainJ(q.l, r, j)
             && InDomainI(q.l, r, i)
    requires OwnsCell(q.l, o, GlobalJ(q.l, r, j), GlobalI(q.l, r, i))
    ensures |FieldsAt(q, c + 2, r)| == |q.layers|
    ensures FieldsAt(q, c + 2, r)[m](j, i, k) == Owned(q, c, o, m, GlobalJ(q.l, r, j), GlobalI(q.l, r, i), k)
  {
    EdgesInDomain(q.l, r);
    OneExchange(q, c + 1, r, m, j, i, k);
    hide FieldsBefore, FieldsAt, Owned, BlockStart, BlockSize;
    if 1 <= j <= q.l.NyLocal(r) {
      RowSettled(q, c, r, m, j, i, k, o);
      RowKept(q, c, r, m, j, i, k);
    } else {
      var d := if j == 0 then South else North;
      RowTravels(q, c, r, d, m, j, i, k);
      NeighborsMirror(q.l, r, d);
      var n: nat := q.l.Neighbor(r, d);
      EdgesInDomain(q.l, n);
      var j' := if j == 0 then q.l.NyLocal(n) else 1;
      assert GlobalJ(q.l, n, j') == GlobalJ(q.l, r, j) && GlobalI(q.l, n, i) == GlobalI(q.l, r, i);
      RowSettled(q, c, n, m, j', i, k, o);
    }
  }

  /** The second phase leaves interior rows, and rows without a neighbour, alone. */
  lemma RowKept<V(!new)>(q: Plan<V>, c: nat, r: nat, m: nat, j: int, i: int, k: int)
    requires q.Ok() && WithCorners(q, c) && r < q.l.Size() && m < |q.layers|
    requires 0 <= j <= q.l.NyLocal(r) + 1 && (1 <= j <= q.l.NyLocal(r) || !InDomainJ(q.l, r, j))
    ensures |FieldsAt(q, c + 2, r)| == |FieldsBefore(q, c + 1, r)| == |q.layers|
    ensures FieldsAt(q, c + 2, r)[m](j, i, k) == FieldsBefore(q, c + 1, r)[m](j, i, k)
  {
    EdgesInDomain(q.l, r);
    OneExchange(q, c + 1, r, m, j, i, k);
    hide FieldsBefore, FieldsAt, Across, BlockStart, BlockSize, Layout.Neighbor, InDomainJ, InDomainI;
    var c1 := c + 1;
    forall d ensures !Fills(q, c1, r, d, m, j, i, k) {}
  }

  /** The second phase fills a halo row, its corner cells included, with the neighbour's boundary
      row as the first phase left it. */
  lemma RowTravels<V(!new)>(q: Plan<V>, c: nat, r: nat, d: Dir, m: nat, j: int, i: int, k: int)
    requires q.Ok() && WithCorners(q, c) && r < q.l.Size() && m in q.sels[c] && m < |q.layers| && 0 <= k < q.layers[m]
    requires 0 <= i <= q.l.NxLocal(r) + 1 && q.l.Neighbor(r, d) != NULL_RANK
    requires (d == South && j == 0) || (d == North && j == q.l.NyLocal(r) + 1)
    ensures 0 <= q.l.Neighbor(r, d) < q.l.Size()
    ensures |FieldsAt(q, c + 2, r)| == |FieldsBefore(q, c + 1, q.l.Neighbor(r, d))| == |q.layers|
    ensures FieldsAt(q, c + 2, r)[m](j, i, k)
            == FieldsBefore(q, c + 1, q.l.Neighbor(r, d))[m](
                 if j == 0 then q.l.NyLocal(q.l.Neighbor(r, d)) else 1, i, k)
  {
    NeighborsMirror(q.l, r, d);
    Sized(q, c + 1, q.l.Neighbor(r, d));
    OneExchange(q, c + 1, r, m, j, i, k);
    hide FieldsBefore, FieldsAt;
    assert Fills(q, c + 1, r, d, m, j, i, k);
  }

  /** A domain-edge halo cell in a row that travels takes the neighbour's halo value. */
  lemma WideRowTravels<V(!new)>(q: Plan<V>, c: nat, r: nat, d: Dir, m: nat, j: int, i: int, k: int)
    requires q.Ok() && WithCorners(q, c) && r < q.l.Size() && m in q.sels[c] && m < |q.layers| && 0 <= k < q.layers[m]
    requires 0 <= i <= q.l.NxLocal(r) + 1 && !InDomainI(q.l, r, i) && InDomainJ(q.l, r, j)
    requires (d == South && j == 0) || (d == North && j == q.l.NyLocal(r) + 1)
    ensures var n := q.l.Neighbor(r, d);
      && 0 <= n < q.l.Size() && |FieldsBefore(q, c, n)| == |q.layers| && |FieldsAt(q, c + 2, r)| == |q.layers|
      && FieldsAt(q, c + 2, r)[m](j, i, k) == FieldsBefore(q, c, n)[m](if j == 0 then q.l.NyLocal(n) else 1, i, k)
  {
    EdgesInDomain(q.l, r);
    RowTravels(q, c, r, d, m, j, i, k);
    NeighborsMirror(q.l, r, d);
    hide FieldsBefore, FieldsAt, BlockStart, BlockSize;
    var n: nat := q.l.Neighbor(r, d);
    EdgesInDomain(q.l, n);
    RowSettled(q, c, n, m, if j == 0 then q.l.NyLocal(n) else 1, i, k, 0);
  }

  /** Domain-edge halos are not written, except that a corner whose row is inside the domain takes
      the neighbour's domain-edge halo through the wide row. */
  lemma DomainEdgesKept<V(!new)>(q: Plan<V>, c: nat, r: nat, m: nat, j: int, i: int, k: int)
    requires q.Ok() && WithCorners(q, c) && r < q.l.Size() && m in q.sels[c] && m < |q.layers| && 0 <= k < q.layers[m]
    requires 0 <= j <= q.l.NyLocal(r) + 1 && 0 <= i <= q.l.NxLocal(r) + 1
    ensures |FieldsAt(q, c + 2, r)| == |FieldsBefore(q, c, r)| == |q.layers|
    ensures 1 <= j <= q.l.NyLocal(r) && !InDomainI(q.l, r, i) ==>
      FieldsAt(q, c + 2, r)[m](j, i, k) == FieldsBefore(q, c, r)[m](j, i, k)
    ensures !InDomainJ(q.l, r, j) ==> FieldsAt(q, c + 2, r)[m](j, i, k) == FieldsBefore(q, c, r)[m](j, i, k)
    ensures forall d :: !InDomainI(q.l, r, i) && ((d == South && j == 0) || (d == North && j == q.l.NyLocal(r) + 1))
                        && InDomainJ(q.l, r, j) ==>
      var n := q.l.Neighbor(r, d);
      && 0 <= n < q.l.Size() && |FieldsBefore(q, c, n)| == |q.layers|
      && FieldsAt(q, c + 2, r)[m](j, i, k) == FieldsBefore(q, c, n)[m](if j == 0 then q.l.NyLocal(n) else 1, i, k)
  {
    EdgesInDomain(q.l, r);
    Sized(q, c, r);
    OneExchange(q, c, r, m, j, i, k);
    OneExchange(q, c + 1, r, m, j, i, k);
    assert FieldsBefore(q, c + 1, r) == FieldsAt(q, c + 1, r);
    hide FieldsBefore, FieldsAt, Across, BlockStart, BlockSize, Layout.Neighbor, InDomainJ, InDomainI;
    if 1 <= j <= q.l.NyLocal(r) && !InDomainI(q.l, r, i) {
      RowSettled(q, c, r, m, j, i, k, 0);
      RowKept(q, c, r, m, j, i, k);
    }
    if !InDomainJ(q.l, r, j) {
      RowKept(q, c, r, m, j, i, k);
      forall d ensures !Fills(q, c, r, d, m, j, i, k) {}
    }
    forall d | !InDomainI(q.l, r, i) && ((d == South && j == 0) || (d == North && j == q.l.NyLocal(r) + 1))
      && InDomainJ(q.l, r, j)
      ensures var n := q.l.Neighbor(r, d);
        && 0 <= n < q.l.Size() && |FieldsBefore(q, c, n)| == |q.layers|
        && FieldsAt(q, c + 2, r)[m](j, i, k) == FieldsBefore(q, c, n)[m](if j == 0 then q.l.NyLocal(n) else 1, i, k)
    {
      WideRowTravels(q, c, r, d, m, j, i, k);
    }
  }

  /** Under every interleaving: a rank that has completed the two-phase exchange holds its owners'
      values on its whole box inside the domain. */
  lemma EveryRunFillsCorners<V(!new)>(q: Plan<V>, run: seq<State<seq<Field<V>>, seq<V>>>, steps: seq<Step>,
                                      b: Buffering, n: nat, c: nat, r: nat, m: nat, j: int, i: int, k: int, o: nat)
    requires q.Ok() && WithCorners(q, c) && IsRun(ProgramOf(q), run, steps, b) && n < |run|
    requires r < q.l.Size() && r < |run[n].ranks| && run[n].ranks[r].Idle? && run[n].ranks[r].call == c + 2
    requires m in q.sels[c] && m < |q.layers| && 0 <= k < q.layers[m]
    requires 0 <= j <= q.l.NyLocal(r) + 1 && 0 <= i <= q.l.NxLocal(r) + 1 && InDomainJ(q.l, r, j)
             && InDomainI(q.l, r, i)
    requires OwnsCell(q.l, o, GlobalJ(q.l, r, j), GlobalI(q.l, r, i))
    ensures |run[n].ranks[r].field| == |q.layers|
    ensures run[n].ranks[r].field[m](j, i, k) == Owned(q, c, o, m, GlobalJ(q.l, r, j), GlobalI(q.l, r, i), k)
  {
    RunsFollowLockstep(ProgramOf(q), run, steps, b, n, r);
    CornersFilled(q, c, r, m, j, i, k, o);
    hide Owned, Lockstep, ProgramOf;
  }
}
