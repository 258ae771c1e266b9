/** Compressed global ids (src/core/Grid.cpp:147-315) and the matrix pattern over them
    (src/gw/RichardsSolver.cpp:617-661): numbering by prefix sums over ranks and columns. */
module GridIds {
  import opened Decomposition
  import opened HaloCorners

  // ----- prefix sums

  function Prefix(f: nat -> nat, n: nat): nat { if n == 0 then 0 else Prefix(f, n - 1) + f(n - 1) }

  lemma {:induction false} PrefixGrows(f: nat -> nat, m: nat, n: nat)
    requires m <= n
    ensures Prefix(f, m) <= Prefix(f, n)
    ensures m < n ==> Prefix(f, m) + f(m) <= Prefix(f, n)
    decreases n
  {
    if m < n { PrefixGrows(f, m, n - 1); }
  }

  /** Every number below the total lies in exactly one part. */
  lemma {:induction false} Locate(f: nat -> nat, n: nat, x: nat) returns (m: nat)
    requires x < Prefix(f, n)
    ensures m < n && Prefix(f, m) <= x < Prefix(f, m) + f(m)
    decreases n
  {
    if x >= Prefix(f, n - 1) { m := n - 1; } else { m := Locate(f, n - 1, x); }
  }

  lemma LocatedOnce(f: nat -> nat, m: nat, n: nat, x: nat)
    requires Prefix(f, m) <= x < Prefix(f, m) + f(m) && Prefix(f, n) <= x < Prefix(f, n) + f(n)
    ensures m == n
  {
    if m < n { PrefixGrows(f, m, n); } else if n < m { PrefixGrows(f, n, m); }
  }

  // ----- ids of a two-level numbering: ranks, then a rank's columns, then a column's cells

  /** How many cells each column of each rank contributes, columns in row order. */
  datatype Numbering = Numbering(ranks: nat, columns: nat -> nat, size: (nat, nat) -> nat) {
    function Sizes(r: nat): nat -> nat { m => size(r, m) }
    function Local(r: nat): nat { Prefix(Sizes(r), columns(r)) }
    function Locals(): nat -> nat { r => Local(r) }
    function Offset(r: nat): nat { Prefix(Locals(), r) }
    function Total(): nat { Offset(ranks) }
    function Id(r: nat, m: nat, s: nat): nat { Offset(r) + Prefix(Sizes(r), m) + s }
    predicate Has(r: nat, m: nat, s: nat) { r < ranks && m < columns(r) && s < size(r, m) }
  }

  /** A rank's ids are its own contiguous range, a column's a contiguous range inside it. */
  lemma IdInRange(q: Numbering, r: nat, m: nat, s: nat)
    requires q.Has(r, m, s)
    ensures q.Offset(r) <= q.Id(r, m, s) < q.Offset(r) + q.Local(r) <= q.Total()
    ensures q.Id(r, m, s) == q.Id(r, m, 0) + s
  {
    PrefixGrows(q.Sizes(r), m, q.columns(r));
    PrefixGrows(q.Locals(), r, q.ranks);
  }

  /** Main result: the ids number the cells of all ranks without gap or repetition. */
  lemma IdsAreDistinct(q: Numbering, r: nat, m: nat, s: nat, r': nat, m': nat, s': nat)
    requires q.Has(r, m, s) && q.Has(r', m', s') && q.Id(r, m, s) == q.Id(r', m', s')
    ensures r == r' && m == m' && s == s'
  {
    IdInRange(q, r, m, s);
    IdInRange(q, r', m', s');
    LocatedOnce(q.Locals(), r, r', q.Id(r, m, s));
    LocatedOnce(q.Sizes(r), m, m', q.Id(r, m, s) - q.Offset(r));
  }

  lemma IdsCover(q: Numbering, x: nat) returns (r: nat, m: nat, s: nat)
    requires x < q.Total()
    ensures q.Has(r, m, s) && q.Id(r, m, s) == x
  {
    r := Locate(q.Locals(), q.ranks, x);
    m := Locate(q.Sizes(r), q.columns(r), x - q.Offset(r));
    s := x - q.Offset(r) - Prefix(q.Sizes(r), m);
  }

  // ----- surface and subsurface ids

  /** Where a row-order array keeps the cell of row j and column i. */
  function RowPlace(nx: nat, j: nat, i: nat): nat { j * nx + i }

  /** The masked grid: every rank's first active layer per owned column. */
  datatype Masked = Masked(l: Layout, nz: nat, ktop: (nat, nat, nat) -> nat) {
    ghost predicate Ok() {
      l.Ok() && forall r: nat, j: nat, i: nat :: Owned(r, j, i) ==> ktop(r, j, i) <= nz
    }
    function Columns(r: nat): nat { if l.px > 0 && l.py > 0 then l.NyLocal(r) * l.NxLocal(r) else 0 }
    function TopOf(r: nat, m: nat): nat {
      if l.px > 0 && l.py > 0 && l.NxLocal(r) > 0 then ktop(r, m / l.NxLocal(r), m % l.NxLocal(r)) else nz
    }
    function Numbers2(): Numbering { Numbering(l.Size(), r => Columns(r), (r, m) => if TopOf(r, m) < nz then 1 else 0) }
    function Numbers3(): Numbering {
      Numbering(l.Size(), r => Columns(r), (r, m) => if TopOf(r, m) < nz then nz - TopOf(r, m) else 0)
    }

    /** A rank's own ids, -1 where inactive. */
    function Gid2(r: nat, j: nat, i: nat): int
      requires l.px > 0 && l.py > 0
    {
      if ktop(r, j, i) < nz then Numbers2().Id(r, RowPlace(l.NxLocal(r), j, i), 0) else -1
    }
    function Gid3(r: nat, j: nat, i: nat, k: nat): int
      requires l.px > 0 && l.py > 0
    {
      if ktop(r, j, i) <= k < nz then Numbers3().Id(r, RowPlace(l.NxLocal(r), j, i), k - ktop(r, j, i)) else -1
    }
    predicate Owned(r: nat, j: nat, i: nat)
      requires l.px > 0 && l.py > 0
    {
      r < l.Size() && j < l.NyLocal(r) && i < l.NxLocal(r)
    }

    /** Some owned cell has number x. */
    ghost predicate Numbers3Cell(x: nat)
      requires l.px > 0 && l.py > 0
    {
      exists r: nat, j: nat, i: nat, k: nat :: Owned(r, j, i) && Gid3(r, j, i, k) == x
    }
    ghost predicate Numbers2Cell(x: nat)
      requires l.px > 0 && l.py > 0
    {
      exists r: nat, j: nat, i: nat :: Owned(r, j, i) && Gid2(r, j, i) == x
    }
  }

  lemma ColumnIndex(q: Masked, r: nat, j: nat, i: nat)
    requires q.Ok() && q.Owned(r, j, i)
    ensures RowPlace(q.l.NxLocal(r), j, i) < q.Columns(r) && q.TopOf(r, RowPlace(q.l.NxLocal(r), j, i))
            == q.ktop(r, j, i)
  {
    QuotientOf(j, q.l.NxLocal(r), i);
    MulMono(j + 1, q.l.NyLocal(r), q.l.NxLocal(r));
    assert (j + 1) * q.l.NxLocal(r) == j * q.l.NxLocal(r) + q.l.NxLocal(r);
  }

  /** Main result: the subsurface ids of all ranks are a bijection from the active cells onto
      [0, total), contiguous per rank and per column. */
  lemma Gid3Bijective(q: Masked)
    requires q.Ok()
    ensures forall r: nat, j: nat, i: nat, k: nat, r': nat, j': nat, i': nat, k': nat ::
      (q.Owned(r, j, i) && q.Owned(r', j', i') && q.Gid3(r, j, i, k) >= 0
       && q.Gid3(r, j, i, k) == q.Gid3(r', j', i', k'))
      ==> (r == r' && j == j' && i == i' && k == k')
    ensures forall r: nat, j: nat, i: nat, k: nat :: (q.Owned(r, j, i) && q.Gid3(r, j, i, k) >= 0) ==>
      (q.Numbers3().Offset(r) <= q.Gid3(r, j, i, k) < q.Numbers3().Offset(r) + q.Numbers3().Local(r)
       <= q.Numbers3().Total()
       && q.Gid3(r, j, i, k) == q.Gid3(r, j, i, q.ktop(r, j, i)) + k - q.ktop(r, j, i))
    ensures forall x: nat :: x < q.Numbers3().Total() ==> q.Numbers3Cell(x)
  {
    hide Numbering.Id, Numbering.Offset, Numbering.Local, Numbering.Total;
    forall r: nat, j: nat, i: nat, k: nat, r': nat, j': nat, i': nat, k': nat
      | q.Owned(r, j, i) && q.Owned(r', j', i') && q.Gid3(r, j, i, k) >= 0
        && q.Gid3(r, j, i, k) == q.Gid3(r', j', i', k')
      ensures r == r' && j == j' && i == i' && k == k'
    {
      Gid3Distinct(q, r, j, i, k, r', j', i', k');
    }
    forall r: nat, j: nat, i: nat, k: nat | q.Owned(r, j, i) && q.Gid3(r, j, i, k) >= 0
      ensures q.Numbers3().Offset(r) <= q.Gid3(r, j, i, k) < q.Numbers3().Offset(r) + q.Numbers3().Local(r)
              <= q.Numbers3().Total()
      ensures q.Gid3(r, j, i, k) == q.Gid3(r, j, i, q.ktop(r, j, i)) + k - q.ktop(r, j, i)
    {
      Gid3InRange(q, r, j, i, k);
    }
    forall x: nat | x < q.Numbers3().Total() ensures q.Numbers3Cell(x) {
      var r, j, i, k := Gid3Covers(q, x);
    }
  }

  lemma Gid3InRange(q: Masked, r: nat, j: nat, i: nat, k: nat)
    requires q.Ok() && q.Owned(r, j, i) && q.Gid3(r, j, i, k) >= 0
    ensures q.Numbers3().Offset(r) <= q.Gid3(r, j, i, k) < q.Numbers3().Offset(r) + q.Numbers3().Local(r)
            <= q.Numbers3().Total()
    ensures q.Gid3(r, j, i, k) == q.Gid3(r, j, i, q.ktop(r, j, i)) + k - q.ktop(r, j, i)
  {
    hide *;
    var m := Gid3IsId(q, r, j, i, k);
    IdInRange(q.Numbers3(), r, m, k - q.ktop(r, j, i));
  }

  lemma Gid3IsId(q: Masked, r: nat, j: nat, i: nat, k: nat) returns (m: nat)
    requires q.Ok() && q.Owned(r, j, i) && q.Gid3(r, j, i, k) >= 0
    ensures q.ktop(r, j, i) <= k < q.nz && q.Numbers3().Has(r, m, k - q.ktop(r, j, i))
    ensures q.Gid3(r, j, i, k) == q.Numbers3().Id(r, m, k - q.ktop(r, j, i))
    ensures q.Gid3(r, j, i, q.ktop(r, j, i)) == q.Numbers3().Id(r, m, 0)
  {
    hide Numbering.Id;
    ColumnIndex(q, r, j, i);
    m := RowPlace(q.l.NxLocal(r), j, i);
  }

  lemma Gid3Distinct(q: Masked, r: nat, j: nat, i: nat, k: nat, r': nat, j': nat, i': nat, k': nat)
    requires q.Ok() && q.Owned(r, j, i) && q.Owned(r', j', i') && q.Gid3(r, j, i, k) >= 0
             && q.Gid3(r, j, i, k) == q.Gid3(r', j', i', k')
    ensures (r, j, i, k) == (r', j', i', k')
  {
    hide Numbering.Id;
    ColumnIndex(q, r, j, i);
    ColumnIndex(q, r', j', i');
    IdsAreDistinct(q.Numbers3(), r, RowPlace(q.l.NxLocal(r), j, i), k - q.ktop(r, j, i), r',
                   RowPlace(q.l.NxLocal(r'), j', i'), k' - q.ktop(r', j', i'));
    QuotientOf(j, q.l.NxLocal(r), i);
    QuotientOf(j', q.l.NxLocal(r), i');
  }

  lemma Gid3Covers(q: Masked, x: nat) returns (r: nat, j: nat, i: nat, k: nat)
    requires q.Ok() && x < q.Numbers3().Total()
    ensures q.Owned(r, j, i) && q.Gid3(r, j, i, k) == x
  {
    hide Numbering.Id, Numbering.Total;
    var m, s;
    r, m, s := IdsCover(q.Numbers3(), x);
    j, i := ColumnCell(q, r, m);
    k := q.ktop(r, j, i) + s;
  }

  lemma ColumnCell(q: Masked, r: nat, m: nat) returns (j: nat, i: nat)
    requires q.Ok() && r < q.l.Size() && m < q.Columns(r)
    ensures q.Owned(r, j, i) && m == RowPlace(q.l.NxLocal(r), j, i) && q.TopOf(r, m) == q.ktop(r, j, i)
  {
    EdgesInDomain(q.l, r);
    var nx, ny := q.l.NxLocal(r), q.l.NyLocal(r);
    hide Layout.NxLocal, Layout.NyLocal;
    j, i := RowCell(nx, ny, m);
  }

  lemma RowCell(nx: nat, ny: nat, m: nat) returns (j: nat, i: nat)
    requires nx > 0 && m < ny * nx
    ensures j == m / nx && i == m % nx && j < ny && i < nx && m == RowPlace(nx, j, i)
  {
    j, i := m / nx, m % nx;
    DivMod(m, nx);
    if j >= ny { MulMono(ny, j, nx); }
  }

  /** The same for the surface ids of active columns. */
  lemma Gid2Bijective(q: Masked)
    requires q.Ok()
    ensures forall r: nat, j: nat, i: nat, r': nat, j': nat, i': nat ::
      (q.Owned(r, j, i) && q.Owned(r', j', i') && q.Gid2(r, j, i) >= 0 && q.Gid2(r, j, i) == q.Gid2(r', j', i'))
      ==> (r == r' && j == j' && i == i')
    ensures forall r: nat, j: nat, i: nat :: (q.Owned(r, j, i) && q.Gid2(r, j, i) >= 0) ==>
      q.Numbers2().Offset(r) <= q.Gid2(r, j, i) < q.Numbers2().Offset(r) + q.Numbers2().Local(r) <= q.Numbers2().Total()
    ensures forall x: nat :: x < q.Numbers2().Total() ==> q.Numbers2Cell(x)
  {
    hide Numbering.Id, Numbering.Offset, Numbering.Local, Numbering.Total;
    forall r: nat, j: nat, i: nat, r': nat, j': nat, i': nat
      | q.Owned(r, j, i) && q.Owned(r', j', i') && q.Gid2(r, j, i) >= 0 && q.Gid2(r, j, i) == q.Gid2(r', j', i')
      ensures r == r' && j == j' && i == i'
    {
      Gid2Distinct(q, r, j, i, r', j', i');
    }
    forall r: nat, j: nat, i: nat | q.Owned(r, j, i) && q.Gid2(r, j, i) >= 0
      ensures q.Numbers2().Offset(r) <= q.Gid2(r, j, i) < q.Numbers2().Offset(r) + q.Numbers2().Local(r)
              <= q.Numbers2().Total()
    {
      ColumnIndex(q, r, j, i);
      IdInRange(q.Numbers2(), r, RowPlace(q.l.NxLocal(r), j, i), 0);
    }
    forall x: nat | x < q.Numbers2().Total() ensures q.Numbers2Cell(x) {
      var r, m, s := IdsCover(q.Numbers2(), x);
      var j, i := ColumnCell(q, r, m);
      assert q.Gid2(r, j, i) == x;
    }
  }

  lemma Gid2Distinct(q: Masked, r: nat, j: nat, i: nat, r': nat, j': nat, i': nat)
    requires q.Ok() && q.Owned(r, j, i) && q.Owned(r', j', i') && q.Gid2(r, j, i) >= 0
             && q.Gid2(r, j, i) == q.Gid2(r', j', i')
    ensures (r, j, i) == (r', j', i')
  {
    hide Numbering.Id;
    ColumnIndex(q, r, j, i);
    ColumnIndex(q, r', j', i');
    IdsAreDistinct(q.Numbers2(), r, RowPlace(q.l.NxLocal(r), j, i), 0, r', RowPlace(q.l.NxLocal(r'), j', i'), 0);
    QuotientOf(j, q.l.NxLocal(r), i);
    QuotientOf(j', q.l.NxLocal(r), i');
  }
}
