/** Distributed datasets (src/io/Hdf5Output.cpp:150-316) and the interiors a checkpoint stores
    (src/io/Checkpoint.cpp:14-43, 111-135): strided slabs of one flat dataset per field. */
module FileLayout {
  import opened Decomposition
  import opened HaloCorners

  // ----- slabs

  /** A regular one-dimensional selection: count blocks, stride apart. */
  datatype Slab = Slab(start: nat, stride: nat, count: nat, block: nat) {
    function Size(): nat { count * block }

    /** The m-th selected position. */
    function At(m: nat): nat
      requires block > 0
    {
      start + m / block * stride + m % block
    }
  }

  /** A rank's rows of a dataset with per values a cell. */
  function SlabOf(l: Layout, r: nat, per: nat): Slab
    requires l.px > 0 && l.py > 0
  {
    Slab(FileIndex(l.nx, per, l.J0(r), l.I0(r), 0), Product(l.nx, per), l.NyLocal(r), Product(l.NxLocal(r), per))
  }

  function Product(a: nat, b: nat): nat { a * b }

  /** Where a dataset keeps value k of a global cell. */
  function FileIndex(nx: nat, per: nat, gj: nat, gi: nat, k: nat): nat { (gj * nx + gi) * per + k }

  /** Where a rank's buffer keeps it. */
  function BufferIndex(nxl: nat, per: nat, j: nat, i: nat, k: nat): nat { FileIndex(nxl, per, j, i, k) }

  function CellJ(nx: nat, per: nat, x: nat): nat requires nx > 0 && per > 0 { x / per / nx }
  function CellI(nx: nat, per: nat, x: nat): nat requires nx > 0 && per > 0 { x / per % nx }
  function CellK(per: nat, x: nat): nat requires per > 0 { x % per }

  lemma IndexParts(nx: nat, per: nat, gj: nat, gi: nat, k: nat)
    requires gi < nx && k < per
    ensures CellJ(nx, per, FileIndex(nx, per, gj, gi, k)) == gj
    ensures CellI(nx, per, FileIndex(nx, per, gj, gi, k)) == gi
    ensures CellK(per, FileIndex(nx, per, gj, gi, k)) == k
  {
    QuotientOf(gj * nx + gi, per, k);
    QuotientOf(gj, nx, gi);
  }

  lemma PartsIndex(nx: nat, per: nat, x: nat)
    requires nx > 0 && per > 0
    ensures CellI(nx, per, x) < nx && CellK(per, x) < per
    ensures FileIndex(nx, per, CellJ(nx, per, x), CellI(nx, per, x), CellK(per, x)) == x
  {
    DivMod(x, per);
    DivMod(x / per, nx);
  }

  lemma IndexBounded(nx: nat, ny: nat, per: nat, gj: nat, gi: nat, k: nat)
    requires gj < ny && gi < nx && k < per
    ensures FileIndex(nx, per, gj, gi, k) < ny * nx * per
  {
    MulMono(gj + 1, ny, nx);
    assert (gj + 1) * nx == gj * nx + nx;
    MulMono(gj * nx + gi + 1, ny * nx, per);
    assert (gj * nx + gi + 1) * per == (gj * nx + gi) * per + per;
  }

  lemma RowBounded(nx: nat, ny: nat, per: nat, x: nat)
    requires nx > 0 && per > 0 && x < ny * nx * per
    ensures CellJ(nx, per, x) < ny
  {
    PartsIndex(nx, per, x);
    var gj := CellJ(nx, per, x);
    if gj >= ny {
      MulMono(ny, gj, nx);
      MulMono(ny * nx, gj * nx + CellI(nx, per, x), per);
    }
  }

  /** A slab visits a rank's cells in buffer order, each at its global place. */
  lemma SlabPlaces(l: Layout, r: nat, per: nat, j: nat, i: nat, k: nat)
    requires l.Ok() && r < l.Size() && per > 0 && i < l.NxLocal(r) && k < per
    ensures SlabOf(l, r, per).block > 0
    ensures SlabOf(l, r, per).At(BufferIndex(l.NxLocal(r), per, j, i, k))
            == FileIndex(l.nx, per, l.J0(r) + j, l.I0(r) + i, k)
  {
    hide BlockSize, BlockStart;
    var nxl, j0, i0, nx := l.NxLocal(r), l.J0(r), l.I0(r), l.nx;
    BlockPosition(nxl, per, j, i, k);
    PlaceArithmetic(nx, per, j0, i0, j, i, k);
  }

  lemma BlockPosition(nxl: nat, per: nat, j: nat, i: nat, k: nat)
    requires i < nxl && k < per
    ensures nxl * per > 0
    ensures BufferIndex(nxl, per, j, i, k) / (nxl * per) == j && BufferIndex(nxl, per, j, i, k) % (nxl * per)
            == i * per + k
  {
    MulMono(i + 1, nxl, per);
    assert (i + 1) * per == i * per + per;
    assert (j * nxl + i) * per == j * (nxl * per) + i * per;
    QuotientOf(j, nxl * per, i * per + k);
  }

  lemma PlaceArithmetic(nx: nat, per: nat, j0: nat, i0: nat, j: nat, i: nat, k: nat)
    ensures (j0 * nx + i0) * per + j * (nx * per) + (i * per + k) == FileIndex(nx, per, j0 + j, i0 + i, k)
  {
    assert (j0 + j) * nx == j0 * nx + j * nx;
    assert ((j0 + j) * nx + (i0 + i)) * per == (j0 * nx + i0) * per + (j * nx) * per + i * per;
    assert (j * nx) * per == j * (nx * per);
  }

  // ----- the partition

  /** Whether a rank's slab selects file position x as its m-th. */
  ghost predicate Selected(l: Layout, r: nat, per: nat, m: nat, x: nat)
    requires l.Ok() && per > 0
  {
    r < l.Size() && m < SlabOf(l, r, per).Size() && SlabOf(l, r, per).block > 0 && SlabOf(l, r, per).At(m) == x
  }

  /** A slab's m-th position is the global place of the m-th cell of the block. */
  lemma SelectedCell(l: Layout, r: nat, per: nat, m: nat, x: nat)
    requires l.Ok() && per > 0 && Selected(l, r, per, m, x)
    ensures l.NxLocal(r) > 0
    ensures var j, i, k := CellJ(l.NxLocal(r), per, m), CellI(l.NxLocal(r), per, m), CellK(per, m);
      && j < l.NyLocal(r) && i < l.NxLocal(r) && k < per && m == BufferIndex(l.NxLocal(r), per, j, i, k)
      && x == FileIndex(l.nx, per, l.J0(r) + j, l.I0(r) + i, k)
  {
    EdgesInDomain(l, r);
    hide BlockSize, BlockStart, InDomainI, InDomainJ;
    var nxl := l.NxLocal(r);
    PartsIndex(nxl, per, m);
    var j, i, k := CellJ(nxl, per, m), CellI(nxl, per, m), CellK(per, m);
    SameSize(l.NyLocal(r), nxl, per);
    RowBounded(nxl, l.NyLocal(r), per, m);
    SlabPlaces(l, r, per, j, i, k);
  }

  lemma SameSize(a: nat, b: nat, c: nat)
    ensures a * Product(b, c) == a * b * c
  {
  }

  /** Main result: the ranks' slabs partition the dataset; the value kept for a cell is the one its
      owner puts there. */
  lemma SlabsPartition(l: Layout, per: nat)
    requires l.Ok() && per > 0
    ensures forall x: nat :: x < l.ny * l.nx * per ==> Covered(l, per, x)
    ensures forall r: nat, m: nat, x: nat, r': nat, m': nat ::
      Selected(l, r, per, m, x) && Selected(l, r', per, m', x) ==> r == r' && m == m'
    ensures forall r: nat, m: nat, x: nat :: Selected(l, r, per, m, x) ==> x < l.ny * l.nx * per
  {
    hide Selected;
    forall x: nat | x < l.ny * l.nx * per ensures Covered(l, per, x) { PositionCovered(l, per, x); }
    forall r: nat, m: nat, x: nat, r': nat, m': nat | Selected(l, r, per, m, x) && Selected(l, r', per, m', x)
      ensures r == r' && m == m'
    {
      SelectedOnce(l, per, r, m, x, r', m');
    }
    forall r: nat, m: nat, x: nat | Selected(l, r, per, m, x) ensures x < l.ny * l.nx * per {
      SelectedInside(l, per, r, m, x);
    }
  }

  ghost predicate Covered(l: Layout, per: nat, x: nat)
    requires l.Ok() && per > 0
  {
    exists r: nat, m: nat :: Selected(l, r, per, m, x)
  }

  lemma PositionCovered(l: Layout, per: nat, x: nat)
    requires l.Ok() && per > 0 && x < l.ny * l.nx * per
    ensures Covered(l, per, x)
  {
    PartsIndex(l.nx, per, x);
    RowBounded(l.nx, l.ny, per, x);
    var gj, gi, k := CellJ(l.nx, per, x), CellI(l.nx, per, x), CellK(per, x);
    var r := CellOwner(l, gj, gi);
    CellSelected(l, per, r, gj - l.J0(r), gi - l.I0(r), k);
    hide Selected, BlockSize, BlockStart;
    var m := BufferIndex(l.NxLocal(r), per, gj - l.J0(r), gi - l.I0(r), k);
    assert Selected(l, r, per, m, x);
  }

  lemma CellSelected(l: Layout, per: nat, r: nat, j: nat, i: nat, k: nat)
    requires l.Ok() && r < l.Size() && j < l.NyLocal(r) && i < l.NxLocal(r) && k < per
    ensures Selected(l, r, per, BufferIndex(l.NxLocal(r), per, j, i, k),
                     FileIndex(l.nx, per, l.J0(r) + j, l.I0(r) + i, k))
  {
    SlabPlaces(l, r, per, j, i, k);
    hide BlockSize, BlockStart;
    IndexBounded(l.NxLocal(r), l.NyLocal(r), per, j, i, k);
    SameSize(l.NyLocal(r), l.NxLocal(r), per);
  }

  lemma SelectedOnce(l: Layout, per: nat, r: nat, m: nat, x: nat, r': nat, m': nat)
    requires l.Ok() && per > 0 && Selected(l, r, per, m, x) && Selected(l, r', per, m', x)
    ensures r == r' && m == m'
  {
    SelectedCell(l, r, per, m, x);
    SelectedCell(l, r', per, m', x);
    EdgesInDomain(l, r);
    EdgesInDomain(l, r');
    hide Selected, BlockSize, BlockStart, FileIndex, CellJ, CellI, CellK;
    var nxl, nxl' := l.NxLocal(r), l.NxLocal(r');
    var j, i, j', i' := CellJ(nxl, per, m), CellI(nxl, per, m), CellJ(nxl', per, m'), CellI(nxl', per, m');
    InBlock(l, r, j, i);
    InBlock(l, r', j', i');
    IndexParts(l.nx, per, l.J0(r) + j, l.I0(r) + i, CellK(per, m));
    IndexParts(l.nx, per, l.J0(r') + j', l.I0(r') + i', CellK(per, m'));
    OneOwner(l, r, r', l.J0(r) + j, l.I0(r) + i);
  }

  lemma InBlock(l: Layout, r: nat, j: nat, i: nat)
    requires l.Ok() && r < l.Size() && j < l.NyLocal(r) && i < l.NxLocal(r)
    ensures l.J0(r) + j < l.ny && l.I0(r) + i < l.nx && OwnsCell(l, r, l.J0(r) + j, l.I0(r) + i)
  {
    EdgesInDomain(l, r);
    assert InDomainJ(l, r, j + 1) && InDomainI(l, r, i + 1);
  }

  lemma SelectedInside(l: Layout, per: nat, r: nat, m: nat, x: nat)
    requires l.Ok() && per > 0 && Selected(l, r, per, m, x)
    ensures x < l.ny * l.nx * per
  {
    SelectedCell(l, r, per, m, x);
    hide Selected, BlockSize, BlockStart;
    var j, i := CellJ(l.NxLocal(r), per, m), CellI(l.NxLocal(r), per, m);
    InBlock(l, r, j, i);
    IndexBounded(l.nx, l.ny, per, l.J0(r) + j, l.I0(r) + i, CellK(per, m));
  }

  // ----- writing and reading one rank's block

  ghost predicate Extents(l: Layout, r: nat, per: nat, block: array3<real>)
    requires l.px > 0 && l.py > 0
  {
    block.Length0 == l.NyLocal(r) && block.Length1 == l.NxLocal(r) && block.Length2 == per
  }

  /** The next cell in row order takes the next place of the buffer. */
  lemma NextPlace(nxl: nat, per: nat, j: nat, i: nat)
    ensures BufferIndex(nxl, per, j, i, per) == BufferIndex(nxl, per, j, i + 1, 0)
    ensures BufferIndex(nxl, per, j, nxl, 0) == BufferIndex(nxl, per, j + 1, 0, 0)
    ensures BufferIndex(nxl, per, 0, 0, 0) == 0
  {
    assert (j + 1) * nxl == j * nxl + nxl;
    assert (j * nxl + (i + 1)) * per == (j * nxl + i) * per + per;
  }

  lemma LastPlace(nxl: nat, per: nat, nyl: nat)
    ensures BufferIndex(nxl, per, nyl, 0, 0) == nyl * nxl * per
  {
  }

  /** The value of the m-th cell of a block in row order. */
  ghost function InRowOrder(block: array3<real>, m: nat): real
    requires block.Length1 > 0 && block.Length2 > 0
    reads block
  {
    var j, i, k := CellJ(block.Length1, block.Length2, m), CellI(block.Length1, block.Length2, m),
      CellK(block.Length2, m);
    if j < block.Length0 && i < block.Length1 && k < block.Length2 then block[j, i, k] else 0.0
  }

  /** A cell's place in the buffer. */
  lemma PlaceOf(block: array3<real>, size: nat, j: nat, i: nat, k: nat)
    requires j < block.Length0 && i < block.Length1 && k < block.Length2
             && size == block.Length0 * block.Length1 * block.Length2
    ensures BufferIndex(block.Length1, block.Length2, j, i, k) < size
    ensures InRowOrder(block, BufferIndex(block.Length1, block.Length2, j, i, k)) == block[j, i, k]
    ensures BufferIndex(block.Length1, block.Length2, j, i, k + 1)
            == BufferIndex(block.Length1, block.Length2, j, i, k) + 1
  {
    IndexBounded(block.Length1, block.Length0, block.Length2, j, i, k);
    IndexParts(block.Length1, block.Length2, j, i, k);
    IndexStep(block.Length1, block.Length2, j, i, k);
    Alias(block.Length1, block.Length2, j, i, k);
    hide FileIndex, BufferIndex;
  }

  /** A buffer in row order, filled with a running index. */
  method FillBuffer(block: array3<real>) returns (buffer: array<real>)
    requires block.Length1 > 0 && block.Length2 > 0
    ensures fresh(buffer) && buffer.Length == block.Length0 * block.Length1 * block.Length2
    ensures InOrder(block, buffer[..])
  {
    var nyl: nat, nxl: nat, per: nat := block.Length0, block.Length1, block.Length2;
    var size: nat := nyl * nxl * per;
    buffer := new real[size];
    var n: nat := 0;
    NextPlace(nxl, per, 0, 0);
    LastPlace(nxl, per, nyl);
    hide BufferIndex, InRowOrder;
    for j: nat := 0 to nyl
      invariant n == BufferIndex(nxl, per, j, 0, 0)
      invariant forall m: nat :: m < n && m < size ==> buffer[m] == InRowOrder(block, m)
    {
      for i: nat := 0 to nxl
        invariant n == BufferIndex(nxl, per, j, i, 0)
        invariant forall m: nat :: m < n && m < size ==> buffer[m] == InRowOrder(block, m)
      {
        for k: nat := 0 to per
          invariant n == BufferIndex(nxl, per, j, i, k)
          invariant forall m: nat :: m < n && m < size ==> buffer[m] == InRowOrder(block, m)
        {
          PlaceOf(block, size, j, i, k);
          buffer[n] := block[j, i, k];
          n := n + 1;
        }
        NextPlace(nxl, per, j, i);
      }
      NextPlace(nxl, per, j, 0);
    }
    forall j: nat, i: nat, k: nat | j < nyl && i < nxl && k < per
      ensures BufferIndex(nxl, per, j, i, k) < size && buffer[BufferIndex(nxl, per, j, i, k)] == block[j, i, k]
    {
      PlaceOf(block, size, j, i, k);
    }
  }

  lemma Alias(nxl: nat, per: nat, j: nat, i: nat, k: nat)
    ensures BufferIndex(nxl, per, j, i, k) == FileIndex(nxl, per, j, i, k)
  {
  }

  lemma IndexStep(nxl: nat, per: nat, j: nat, i: nat, k: nat)
    ensures BufferIndex(nxl, per, j, i, k + 1) == BufferIndex(nxl, per, j, i, k) + 1
  {
  }

  /** A block's value lies at its cell's global place. */
  ghost predicate StoredAt(l: Layout, r: nat, per: nat, block: array3<real>, file: seq<real>, j: nat, i: nat, k: nat)
    requires l.Ok() && j < block.Length0 && i < block.Length1 && k < block.Length2
    reads block
  {
    FileIndex(l.nx, per, l.J0(r) + j, l.I0(r) + i, k) < |file|
    && file[FileIndex(l.nx, per, l.J0(r) + j, l.I0(r) + i, k)] == block[j, i, k]
  }

  ghost predicate Stored(l: Layout, r: nat, per: nat, block: array3<real>, file: seq<real>)
    requires l.Ok() && per > 0 && Extents(l, r, per, block)
    reads block
  {
    forall j: nat, i: nat, k: nat :: j < l.NyLocal(r) && i < l.NxLocal(r) && k < per ==>
        StoredAt(l, r, per, block, file, j, i, k)
  }

  ghost predicate SelectedBy(l: Layout, r: nat, per: nat, x: nat)
    requires l.Ok() && per > 0
  {
    exists m: nat :: Selected(l, r, per, m, x)
  }

  /** The write of a buffer through the rank's selection. */
  method WriteSlab(l: Layout, r: nat, per: nat, buffer: array<real>, file: array<real>)
    requires l.Ok() && r < l.Size() && per > 0 && buffer != file
    requires file.Length == l.ny * l.nx * per && buffer.Length == l.NyLocal(r) * l.NxLocal(r) * per
    modifies file
    ensures Matches(l, r, per, buffer[..], file[..])
    ensures forall x: nat :: x < file.Length && !SelectedBy(l, r, per, x) ==> file[x] == old(file[x])
  {
    SameSize(l.NyLocal(r), l.NxLocal(r), per);
    EdgesInDomain(l, r);
    var slab := SlabOf(l, r, per);
    assert slab.Size() == buffer.Length;
    BlockNonempty(l.NxLocal(r), per);
    hide SlabOf, BlockSize, BlockStart, Slab.At;
    for m: nat := 0 to buffer.Length
      invariant forall m': nat, x: nat :: m' < m && Selected(l, r, per, m', x) ==>
                  x < file.Length && file[x] == buffer[m']
      invariant forall x: nat :: x < file.Length && !SelectedBy(l, r, per, x) ==> file[x] == old(file[x])
    {
      var at := slab.At(m);
      assert Selected(l, r, per, m, at);
      SelectedInside(l, per, r, m, at);
      file[at] := buffer[m];
      forall m': nat, x: nat | m' < m + 1 && Selected(l, r, per, m', x)
        ensures x < file.Length && file[x] == buffer[m']
      {
        if m' < m && x == at { SelectedOnce(l, per, r, m, at, r, m'); }
      }
    }
  }

  lemma BlockNonempty(nxl: nat, per: nat)
    requires nxl > 0 && per > 0
    ensures Product(nxl, per) > 0
  {
    MulMono(1, nxl, per);
  }

  /** The read of the rank's selection into a buffer. */
  method ReadBlock(l: Layout, r: nat, per: nat, file: array<real>) returns (buffer: array<real>)
    requires l.Ok() && r < l.Size() && per > 0 && file.Length == l.ny * l.nx * per
    ensures fresh(buffer) && buffer.Length == l.NyLocal(r) * l.NxLocal(r) * per
    ensures Matches(l, r, per, buffer[..], file[..])
  {
    SameSize(l.NyLocal(r), l.NxLocal(r), per);
    EdgesInDomain(l, r);
    var slab := SlabOf(l, r, per);
    BlockNonempty(l.NxLocal(r), per);
    buffer := new real[slab.Size()];
    hide SlabOf, BlockSize, BlockStart, Slab.At;
    for m: nat := 0 to buffer.Length
      invariant forall m': nat, x: nat :: m' < m && Selected(l, r, per, m', x) ==>
                  x < file.Length && buffer[m'] == file[x]
    {
      assert Selected(l, r, per, m, slab.At(m));
      SelectedInside(l, per, r, m, slab.At(m));
      buffer[m] := file[slab.At(m)];
    }
  }

  /** A buffer holds a block in row order. */
  ghost predicate InOrder(block: array3<real>, buffer: seq<real>)
    reads block
  {
    forall j: nat, i: nat, k: nat :: j < block.Length0 && i < block.Length1 && k < block.Length2 ==>
      BufferIndex(block.Length1, block.Length2, j, i, k) < |buffer|
      && buffer[BufferIndex(block.Length1, block.Length2, j, i, k)] == block[j, i, k]
  }

  /** A buffer and a dataset agree through the rank's selection. */
  ghost predicate Matches(l: Layout, r: nat, per: nat, buffer: seq<real>, file: seq<real>)
    requires l.Ok() && per > 0
  {
    forall m: nat, x: nat :: Selected(l, r, per, m, x) ==> m < |buffer| && x < |file| && file[x] == buffer[m]
  }

  /** A buffer in row order meets the dataset at its cells' global places. */
  lemma StoredBySlab(l: Layout, r: nat, per: nat, block: array3<real>, buffer: seq<real>, file: seq<real>)
    requires l.Ok() && r < l.Size() && per > 0 && Extents(l, r, per, block)
    requires InOrder(block, buffer) && Matches(l, r, per, buffer, file)
    ensures Stored(l, r, per, block, file)
  {
    forall j: nat, i: nat, k: nat | j < l.NyLocal(r) && i < l.NxLocal(r) && k < per
      ensures StoredAt(l, r, per, block, file, j, i, k)
    {
      hide Selected, BlockSize, BlockStart, FileIndex, BufferIndex;
      CellSelected(l, per, r, j, i, k);
      var m, x := BufferIndex(block.Length1, block.Length2, j, i, k), FileIndex(l.nx, per, l.J0(r) + j, l.I0(r) + i, k);
      assert Selected(l, r, per, m, x);
      assert buffer[m] == block[j, i, k];
    }
  }

  /** One rank's collective write; false on a block of the wrong shape. */
  method WriteDistributed3(l: Layout, r: nat, per: nat, block: array3<real>, file: array<real>) returns (ok: bool)
    requires l.Ok() && r < l.Size() && per > 0 && file.Length == l.ny * l.nx * per
    modifies file
    ensures ok <==> Extents(l, r, per, block)
    ensures ok ==> Stored(l, r, per, block, file[..])
    ensures forall x: nat :: x < file.Length && !(ok && SelectedBy(l, r, per, x)) ==> file[x] == old(file[x])
  {
    ok := block.Length0 == l.NyLocal(r) && block.Length1 == l.NxLocal(r) && block.Length2 == per;
    if ok {
      EdgesInDomain(l, r);
      hide *;
      var buffer := FillBuffer(block);
      WriteSlab(l, r, per, buffer, file);
      StoredBySlab(l, r, per, block, buffer[..], file[..]);
    }
  }

  /** One rank's collective read; false on a block of the wrong shape. */
  method ReadDistributed3(l: Layout, r: nat, per: nat, file: array<real>, block: array3<real>) returns (ok: bool)
    requires l.Ok() && r < l.Size() && per > 0 && file.Length == l.ny * l.nx * per
    modifies block
    ensures ok <==> Extents(l, r, per, block)
    ensures ok ==> Stored(l, r, per, block, file[..])
  {
    ok := block.Length0 == l.NyLocal(r) && block.Length1 == l.NxLocal(r) && block.Length2 == per;
    if ok {
      EdgesInDomain(l, r);
      hide *;
      var buffer := ReadBlock(l, r, per, file);
      EmptyBuffer(buffer, block);
      StoredBySlab(l, r, per, block, buffer[..], file[..]);
    }
  }

  /** A buffer's value for a cell. */
  ghost function Held(buffer: array<real>, nxl: nat, per: nat, j: nat, i: nat, k: nat): real
    reads buffer
  {
    if BufferIndex(nxl, per, j, i, k) < buffer.Length then buffer[BufferIndex(nxl, per, j, i, k)] else 0.0
  }

  lemma HeldPlace(buffer: array<real>, nyl: nat, nxl: nat, per: nat, j: nat, i: nat, k: nat)
    requires j < nyl && i < nxl && k < per && buffer.Length == nyl * nxl * per
    ensures BufferIndex(nxl, per, j, i, k) < buffer.Length && Held(buffer, nxl, per, j, i, k)
            == buffer[BufferIndex(nxl, per, j, i, k)]
    ensures BufferIndex(nxl, per, j, i, k + 1) == BufferIndex(nxl, per, j, i, k) + 1
  {
    IndexBounded(nxl, nyl, per, j, i, k);
    IndexStep(nxl, per, j, i, k);
    Alias(nxl, per, j, i, k);
    hide FileIndex, BufferIndex;
  }

  /** A buffer in row order, taken out with a running index. */
  method EmptyBuffer(buffer: array<real>, block: array3<real>)
    requires block.Length1 > 0 && block.Length2 > 0 && buffer.Length == block.Length0 * block.Length1 * block.Length2
    modifies block
    ensures InOrder(block, buffer[..])
  {
    var nyl: nat, nxl: nat, per: nat := block.Length0, block.Length1, block.Length2;
    var n: nat := 0;
    NextPlace(nxl, per, 0, 0);
    hide BufferIndex, Held;
    for j: nat := 0 to nyl
      invariant n == BufferIndex(nxl, per, j, 0, 0)
      invariant Taken(buffer, block, j, 0, 0)
    {
      for i: nat := 0 to nxl
        invariant n == BufferIndex(nxl, per, j, i, 0)
        invariant Taken(buffer, block, j, i, 0)
      {
        for k: nat := 0 to per
          invariant n == BufferIndex(nxl, per, j, i, k)
          invariant Taken(buffer, block, j, i, k)
        {
          HeldPlace(buffer, nyl, nxl, per, j, i, k);
          block[j, i, k] := buffer[n];
          n := n + 1;
        }
        NextPlace(nxl, per, j, i);
      }
      NextPlace(nxl, per, j, 0);
    }
    forall j: nat, i: nat, k: nat | j < nyl && i < nxl && k < per
      ensures BufferIndex(nxl, per, j, i, k) < buffer.Length && block[j, i, k] == buffer[BufferIndex(nxl, per, j, i, k)]
    {
      HeldPlace(buffer, nyl, nxl, per, j, i, k);
    }
  }

  ghost predicate Taken(buffer: array<real>, block: array3<real>, j: nat, i: nat, k: nat)
    reads buffer, block
  {
    forall j': nat, i': nat, k': nat ::
      (j' < block.Length0 && i' < block.Length1 && k' < block.Length2
       && (j' < j || (j' == j && (i' < i || (i' == i && k' < k))))) ==>
      block[j', i', k'] == Held(buffer, block.Length1, block.Length2, j', i', k')
  }

  // ----- all ranks together

  /** A block is its rank's part of a global field. */
  ghost predicate PartOf(l: Layout, r: nat, per: nat, block: array3<real>, g: (nat, nat, nat) -> real)
    requires l.Ok() && Extents(l, r, per, block)
    reads block
  {
    forall j: nat, i: nat, k: nat :: j < l.NyLocal(r) && i < l.NxLocal(r) && k < per ==>
        block[j, i, k] == g(l.J0(r) + j, l.I0(r) + i, k)
  }

  /** The dataset keeps the field's value of a global cell. */
  ghost predicate Keeps(l: Layout, per: nat, g: (nat, nat, nat) -> real, file: seq<real>, gj: nat, gi: nat, k: nat) {
    FileIndex(l.nx, per, gj, gi, k) < |file| && file[FileIndex(l.nx, per, gj, gi, k)] == g(gj, gi, k)
  }

  /** What a rank's write does to the dataset. */
  ghost predicate Wrote(l: Layout, r: nat, per: nat, g: (nat, nat, nat) -> real, before: seq<real>, after: seq<real>)
    requires l.Ok() && per > 0
  {
    && |before| == |after| == l.ny * l.nx * per
    && (forall gj: nat, gi: nat, k: nat :: OwnsCell(l, r, gj, gi) && k < per ==> Keeps(l, per, g, after, gj, gi, k))
    && (forall x: nat :: x < |after| && !SelectedBy(l, r, per, x) ==> after[x] == before[x])
  }

  lemma WriteIsWrote(l: Layout, r: nat, per: nat, block: array3<real>, g: (nat, nat, nat) -> real, before: seq<real>,
                     after: seq<real>)
    requires l.Ok() && r < l.Size() && per > 0 && Extents(l, r, per, block) && |before| == |after| == l.ny * l.nx * per
    requires PartOf(l, r, per, block, g) && Stored(l, r, per, block, after)
    requires forall x: nat :: x < |after| && !SelectedBy(l, r, per, x) ==> after[x] == before[x]
    ensures Wrote(l, r, per, g, before, after)
  {
    hide SelectedBy, FileIndex, BlockSize, BlockStart;
    forall gj: nat, gi: nat, k: nat | OwnsCell(l, r, gj, gi) && k < per ensures Keeps(l, per, g, after, gj, gi, k) {
      var j: nat, i: nat := gj - l.J0(r), gi - l.I0(r);
      assert StoredAt(l, r, per, block, after, j, i, k);
      assert block[j, i, k] == g(l.J0(r) + j, l.I0(r) + i, k);
    }
  }

  /** The ranks write one after another, in some order. */
  ghost predicate Writes(l: Layout, per: nat, g: (nat, nat, nat) -> real, files: seq<seq<real>>, order: seq<nat>)
    requires l.Ok() && per > 0
  {
    && |files| == |order| + 1
    && (forall n: nat :: n < |order| ==> order[n] < l.Size())
    && (forall n: nat, m: nat :: n < |order| && m == n + 1 ==> Wrote(l, order[n], per, g, files[n], files[m]))
  }

  /** A write of another rank leaves a cell's value alone; the owner's puts it there. */
  lemma WriteKeeps(l: Layout, r: nat, o: nat, per: nat, g: (nat, nat, nat) -> real, before: seq<real>,
                   after: seq<real>, gj: nat, gi: nat, k: nat)
    requires l.Ok() && per > 0 && Wrote(l, r, per, g, before, after) && r < l.Size() && OwnsCell(l, o, gj, gi)
             && k < per
    requires r == o || Keeps(l, per, g, before, gj, gi, k)
    ensures Keeps(l, per, g, after, gj, gi, k)
  {
    if r != o {
      var x := FileIndex(l.nx, per, gj, gi, k);
      if SelectedBy(l, r, per, x) {
        var m: nat :| Selected(l, r, per, m, x);
        CellSelected(l, per, o, gj - l.J0(o), gi - l.I0(o), k);
        SelectedOnce(l, per, r, m, x, o, BufferIndex(l.NxLocal(o), per, gj - l.J0(o), gi - l.I0(o), k));
      }
      hide SelectedBy, FileIndex, BlockSize, BlockStart;
    }
  }

  lemma {:induction false} CellWritten(l: Layout, per: nat, g: (nat, nat, nat) -> real, files: seq<seq<real>>,
                                       order: seq<nat>, n: nat, o: nat, gj: nat, gi: nat, k: nat)
    requires l.Ok() && per > 0 && Writes(l, per, g, files, order) && n <= |order| && o in order[..n]
             && OwnsCell(l, o, gj, gi) && k < per
    ensures Keeps(l, per, g, files[n], gj, gi, k)
    decreases n
  {
    hide Wrote, Keeps;
    if o in order[..n - 1] { CellWritten(l, per, g, files, order, n - 1, o, gj, gi, k); }
    WriteKeeps(l, order[n - 1], o, per, g, files[n - 1], files[n], gj, gi, k);
  }

  /** Main result: a field written by all ranks of one decomposition, in any order, is restored by
      every rank of any other decomposition of the same grid. */
  lemma AnyDecompositionRestores(l: Layout, l': Layout, per: nat, g: (nat, nat, nat) -> real, files: seq<seq<real>>,
                                 order: seq<nat>, r': nat, block: array3<real>)
    requires l.Ok() && l'.Ok() && l.nx == l'.nx && l.ny == l'.ny && per > 0
    requires Writes(l, per, g, files, order) && forall r: nat :: r < l.Size() ==> r in order
    requires r' < l'.Size() && Extents(l', r', per, block) && Stored(l', r', per, block, files[|order|])
    ensures PartOf(l', r', per, block, g)
  {
    assert |files| == |order| + 1;
    hide Writes, FileIndex, BlockSize, BlockStart;
    forall j: nat, i: nat, k: nat | j < l'.NyLocal(r') && i < l'.NxLocal(r') && k < per
      ensures block[j, i, k] == g(l'.J0(r') + j, l'.I0(r') + i, k)
    {
      InBlock(l', r', j, i);
      var gj, gi := l'.J0(r') + j, l'.I0(r') + i;
      var o := CellOwner(l, gj, gi);
      assert order[..|order|] == order;
      assert StoredAt(l', r', per, block, files[|order|], j, i, k);
      CellWritten(l, per, g, files, order, |order|, o, gj, gi, k);
    }
  }

  /** All ranks of a decomposition write their parts of a field, one after another in some order. */
  method WriteAll(l: Layout, per: nat, ghost g: (nat, nat, nat) -> real, blocks: seq<array3<real>>, order: seq<nat>,
                  file: array<real>)
    returns (ghost files: seq<seq<real>>)
    requires l.Ok() && per > 0 && file.Length == l.ny * l.nx * per && |blocks| == l.Size()
    requires forall r: nat :: r < l.Size() ==> Extents(l, r, per, blocks[r]) && PartOf(l, r, per, blocks[r], g)
    requires forall n: nat :: n < |order| ==> order[n] < l.Size()
    modifies file
    ensures Writes(l, per, g, files, order) && files[|order|] == file[..]
  {
    hide *;
    files := [file[..]];
    WritesNothing(l, per, g, files[0]);
    for n := 0 to |order|
      invariant |files| == n + 1 && files[n] == file[..] && Writes(l, per, g, files, order[..n])
    {
      var r := order[n];
      var ok := WriteDistributed3(l, r, per, blocks[r], file);
      WriteIsWrote(l, r, per, blocks[r], g, files[n], file[..]);
      WritesNext(l, per, g, files, order, n, file[..]);
      files := files + [file[..]];
    }
    assert order[..|order|] == order;
  }

  lemma WritesNothing(l: Layout, per: nat, g: (nat, nat, nat) -> real, file: seq<real>)
    requires l.Ok() && per > 0
    ensures Writes(l, per, g, [file], [])
  {
  }

  lemma WritesNext(l: Layout, per: nat, g: (nat, nat, nat) -> real, files: seq<seq<real>>, order: seq<nat>, n: nat,
                   after: seq<real>)
    requires l.Ok() && per > 0 && n < |order| && |files| == n + 1 && order[n] < l.Size()
    requires Writes(l, per, g, files, order[..n]) && Wrote(l, order[n], per, g, files[n], after)
    ensures Writes(l, per, g, files + [after], order[..n + 1])
  {
    hide Wrote;
    var more, longer := files + [after], order[..n + 1];
    forall m: nat | m < n + 1 ensures longer[m] < l.Size() && Wrote(l, longer[m], per, g, more[m], more[m + 1]) {
      if m < n { assert longer[m] == order[..n][m]; }
    }
  }

  /** Main result: what all ranks of one decomposition wrote, in any order, a rank of any other
      decomposition of the same grid reads back. */
  method RestoreAny(l: Layout, l': Layout, per: nat, ghost g: (nat, nat, nat) -> real, blocks: seq<array3<real>>,
                    order: seq<nat>, file: array<real>, r': nat, block: array3<real>) returns (ok: bool)
    requires l.Ok() && l'.Ok() && l.nx == l'.nx && l.ny == l'.ny && per > 0
    requires file.Length == l.ny * l.nx * per && |blocks| == l.Size() && r' < l'.Size()
    requires forall r: nat :: r < l.Size() ==> Extents(l, r, per, blocks[r]) && PartOf(l, r, per, blocks[r], g)
    requires (forall n: nat :: n < |order| ==> order[n] < l.Size()) && forall r: nat :: r < l.Size() ==> r in order
    modifies file, block
    ensures ok <==> Extents(l', r', per, block)
    ensures ok ==> PartOf(l', r', per, block, g)
  {
    hide *;
    ghost var files := WriteAll(l, per, g, blocks, order, file);
    ok := ReadDistributed3(l', r', per, file, block);
    if ok { AnyDecompositionRestores(l, l', per, g, files, order, r', block); }
  }

  // ----- the interiors a checkpoint stores

  /** A field's interior without its halo. */
  method InteriorOf(field: array3<real>) returns (block: array3<real>)
    requires field.Length0 >= 2 && field.Length1 >= 2
    ensures fresh(block) && block.Length0 == field.Length0 - 2 && block.Length1 == field.Length1 - 2
            && block.Length2 == field.Length2
    ensures forall j: nat, i: nat, k: nat :: j < block.Length0 && i < block.Length1 && k < block.Length2 ==>
              block[j, i, k] == field[j + 1, i + 1, k]
  {
    block := new real[field.Length0 - 2, field.Length1 - 2, field.Length2];
    forall j, i, k | 0 <= j < block.Length0 && 0 <= i < block.Length1 && 0 <= k < block.Length2 {
      block[j, i, k] := field[j + 1, i + 1, k];
    }
  }

  /** The interior put back; the halo stays the caller's. */
  method SetInterior(block: array3<real>, field: array3<real>)
    requires field.Length0 == block.Length0 + 2 && field.Length1 == block.Length1 + 2 && field.Length2 == block.Length2
             && field != block
    modifies field
    ensures forall j: nat, i: nat, k: nat {:trigger field[j, i, k]} ::
      j < field.Length0 && i < field.Length1 && k < field.Length2 ==>
      field[j, i, k] == if 1 <= j <= block.Length0 && 1 <= i <= block.Length1 then block[j - 1, i - 1, k]
        else old(field[j, i, k])
  {
    forall j, i, k | 1 <= j <= block.Length0 && 1 <= i <= block.Length1 && 0 <= k < block.Length2 {
      field[j, i, k] := block[j - 1, i - 1, k];
    }
  }
}
