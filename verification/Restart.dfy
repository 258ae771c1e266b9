/** Checkpoint and restart (src/io/Checkpoint.cpp:47-137): all ranks' fields and the header written under
    one decomposition, and read by a rank of another. */
module Restarts {
  import opened Decomposition
  import opened FileLayout
  import opened Checkpoints

  /** A field over the whole grid, by global row, column and layer. */
  type Global = (nat, nat, nat) -> real

  /** The dataset holds the field, whoever wrote it. */
  ghost predicate Holds(l: Layout, per: nat, g: Global, file: seq<real>) {
    forall gj: nat, gi: nat, k: nat :: gj < l.ny && gi < l.nx && k < per ==> Keeps(l, per, g, file, gj, gi, k)
  }

  /** A rank's view of a field: its block with a halo of one cell. */
  ghost predicate Haloed(l: Layout, r: nat, per: nat, field: array3<real>)
    requires l.px > 0 && l.py > 0
  {
    field.Length0 == l.NyLocal(r) + 2 && field.Length1 == l.NxLocal(r) + 2 && field.Length2 == per
  }

  predicate Inner(l: Layout, r: nat, j: nat, i: nat)
    requires l.px > 0 && l.py > 0
  {
    1 <= j <= l.NyLocal(r) && 1 <= i <= l.NxLocal(r)
  }

  /** The view's interior is the rank's part of the field. */
  ghost predicate Carries(l: Layout, r: nat, per: nat, field: array3<real>, g: Global)
    requires l.Ok() && Haloed(l, r, per, field)
    reads field
  {
    forall j: nat, i: nat, k: nat :: Inner(l, r, j, i) && k < per ==>
      field[j, i, k] == g(l.J0(r) + j - 1, l.I0(r) + i - 1, k)
  }

  // ----- one field

  lemma WrittenHolds(l: Layout, per: nat, g: Global, files: seq<seq<real>>, order: seq<nat>)
    requires l.Ok() && per > 0 && Writes(l, per, g, files, order) && forall r: nat :: r < l.Size() ==> r in order
    ensures |files| == |order| + 1 && Holds(l, per, g, files[|order|])
  {
    assert |files| == |order| + 1;
    hide Writes, Keeps, BlockSize, BlockStart;
    forall gj: nat, gi: nat, k: nat | gj < l.ny && gi < l.nx && k < per
      ensures Keeps(l, per, g, files[|order|], gj, gi, k)
    {
      var o := CellOwner(l, gj, gi);
      assert order[..|order|] == order;
      CellWritten(l, per, g, files, order, |order|, o, gj, gi, k);
    }
  }

  /** A rank's interior out of its view. */
  method InteriorPart(l: Layout, r: nat, per: nat, ghost g: Global, field: array3<real>) returns (block: array3<real>)
    requires l.Ok() && Haloed(l, r, per, field) && Carries(l, r, per, field, g)
    ensures fresh(block) && Extents(l, r, per, block) && PartOf(l, r, per, block, g)
  {
    hide BlockSize, BlockStart;
    block := InteriorOf(field);
    forall j: nat, i: nat, k: nat | j < l.NyLocal(r) && i < l.NxLocal(r) && k < per
      ensures block[j, i, k] == g(l.J0(r) + j, l.I0(r) + i, k)
    {
      assert Inner(l, r, j + 1, i + 1);
      assert field[j + 1, i + 1, k] == g(l.J0(r) + (j + 1) - 1, l.I0(r) + (i + 1) - 1, k);
    }
  }

  /** One rank's interior written to the dataset. */
  method WritePart(l: Layout, r: nat, per: nat, ghost g: Global, field: array3<real>, data: array<real>)
    requires l.Ok() && r < l.Size() && per > 0 && data.Length == l.ny * l.nx * per
    requires Haloed(l, r, per, field) && Carries(l, r, per, field, g)
    modifies data
    ensures Wrote(l, r, per, g, old(data[..]), data[..])
  {
    hide *;
    ghost var before := data[..];
    var block := InteriorPart(l, r, per, g, field);
    var ok := WriteDistributed3(l, r, per, block, data);
    WriteIsWrote(l, r, per, block, g, before, data[..]);
  }

  /** All ranks write their interiors of a field, in some order. */
  method WriteField(l: Layout, per: nat, ghost g: Global, views: seq<array3<real>>, order: seq<nat>, data: array<real>)
    requires l.Ok() && per > 0 && data.Length == l.ny * l.nx * per && |views| == l.Size()
    requires forall r: nat :: r < l.Size() ==> r in order && Haloed(l, r, per, views[r])
                                               && Carries(l, r, per, views[r], g)
    requires forall n: nat :: n < |order| ==> order[n] < l.Size()
    modifies data
    ensures Holds(l, per, g, data[..])
  {
    hide *;
    ghost var files := [data[..]];
    WritesNothing(l, per, g, files[0]);
    for n := 0 to |order|
      invariant |files| == n + 1 && files[n] == data[..] && Writes(l, per, g, files, order[..n])
    {
      WritePart(l, order[n], per, g, views[order[n]], data);
      WritesNext(l, per, g, files, order, n, data[..]);
      files := files + [data[..]];
    }
    assert order[..|order|] == order;
    WrittenHolds(l, per, g, files, order);
  }

  lemma PartRead(l: Layout, r: nat, per: nat, g: Global, block: array3<real>, file: seq<real>)
    requires l.Ok() && r < l.Size() && per > 0 && |file| == l.ny * l.nx * per && Extents(l, r, per, block)
    requires Stored(l, r, per, block, file) && Holds(l, per, g, file)
    ensures PartOf(l, r, per, block, g)
  {
    hide FileIndex, BlockSize, BlockStart;
    forall j: nat, i: nat, k: nat | j < l.NyLocal(r) && i < l.NxLocal(r) && k < per
      ensures block[j, i, k] == g(l.J0(r) + j, l.I0(r) + i, k)
    {
      InBlock(l, r, j, i);
      assert StoredAt(l, r, per, block, file, j, i, k);
      assert Keeps(l, per, g, file, l.J0(r) + j, l.I0(r) + i, k);
    }
  }

  /** What a read leaves of a view: the field's values inside, the halo as it was. */
  twostate predicate Restored(l: Layout, r: nat, per: nat, g: Global, field: array3<real>)
    requires l.Ok() && Haloed(l, r, per, field)
    reads field
  {
    forall j: nat, i: nat, k: nat {:trigger field[j, i, k]} :: j < field.Length0 && i < field.Length1 && k < per ==>
      field[j, i, k] == if Inner(l, r, j, i) then g(l.J0(r) + j - 1, l.I0(r) + i - 1, k) else old(field[j, i, k])
  }

  /** One rank reads its interior of a field. */
  method ReadField(l: Layout, r: nat, per: nat, ghost g: Global, data: array<real>, field: array3<real>)
    requires l.Ok() && r < l.Size() && per > 0 && data.Length == l.ny * l.nx * per
    requires Haloed(l, r, per, field) && Holds(l, per, g, data[..])
    modifies field
    ensures Restored(l, r, per, g, field)
  {
    hide Holds, PartOf, Stored, BlockSize, BlockStart;
    var block := new real[l.NyLocal(r), l.NxLocal(r), per];
    var ok := ReadDistributed3(l, r, per, data, block);
    PartRead(l, r, per, g, block, data[..]);
    PutBack(l, r, per, g, block, field);
  }

  method PutBack(l: Layout, r: nat, per: nat, ghost g: Global, block: array3<real>, field: array3<real>)
    requires l.Ok() && Haloed(l, r, per, field) && Extents(l, r, per, block) && PartOf(l, r, per, block, g)
             && block != field
    modifies field
    ensures Restored(l, r, per, g, field)
  {
    hide BlockSize, BlockStart;
    SetInterior(block, field);
    forall j: nat, i: nat, k: nat | j < field.Length0 && i < field.Length1 && k < per && Inner(l, r, j, i)
      ensures field[j, i, k] == g(l.J0(r) + j - 1, l.I0(r) + i - 1, k)
    {
      var y: nat, x: nat := j - 1, i - 1;
      assert block[y, x, k] == g(l.J0(r) + y, l.I0(r) + x, k);
    }
  }

  // ----- a checkpoint

  /** The group of a checkpoint: its attributes and one dataset a field. */
  class CheckpointFile {
    const header: Group
    const data: seq<array<real>>

    constructor (header: Group, data: seq<array<real>>)
      ensures this.header == header && this.data == data
    {
      this.header, this.data := header, data;
    }

    /** One dataset of the grid's size per field, no two the same. */
    ghost predicate Fits(l: Layout, layers: seq<nat>) {
      && |data| == |layers|
      && (forall n :: 0 <= n < |data| ==> layers[n] > 0 && data[n].Length == l.ny * l.nx * layers[n])
      && (forall n, m :: 0 <= n < m < |data| ==> data[n] != data[m])
    }

    ghost predicate HoldsAll(l: Layout, layers: seq<nat>, g: seq<Global>)
      requires Fits(l, layers) && |g| == |layers|
      reads data
    {
      forall n :: 0 <= n < |data| ==> Holds(l, layers[n], g[n], data[n][..])
    }

    /** All ranks of a layout write: the header, then every field.  views[n][r] is rank r's view of
        field n. */
    method Write(l: Layout, layers: seq<nat>, ghost g: seq<Global>, views: seq<seq<array3<real>>>, order: seq<nat>,
                 t: real, step: int, names: seq<string>, scalars: map<string, real>)
      requires l.Ok() && Fits(l, layers) && |g| == |views| == |layers|
      requires forall n :: 0 <= n < |layers| ==> PosedField(l, layers[n], g[n], views[n], order)
      requires forall n :: n in names ==> n in scalars
      modifies header, data
      ensures header.attrs == Written(old(header.attrs), t, step, names, scalars)
      ensures HoldsAll(l, layers, g)
    {
      hide Holds, Haloed, Carries, Written;
      header.Write(t, step, names, scalars);
      for n := 0 to |layers|
        invariant header.attrs == Written(old(header.attrs), t, step, names, scalars)
        invariant forall m :: 0 <= m < n ==> Holds(l, layers[m], g[m], data[m][..])
      {
        assert PosedField(l, layers[n], g[n], views[n], order);
        WriteField(l, layers[n], g[n], views[n], order, data[n]);
      }
    }

    /** A rank of a layout reads: the header first; a header it cannot parse ends the read. */
    method Read(l: Layout, r: nat, layers: seq<nat>, ghost g: seq<Global>, fields: seq<array3<real>>)
      returns (h: Result<Header>)
      requires l.Ok() && r < l.Size() && Fits(l, layers) && |g| == |fields| == |layers| && HoldsAll(l, layers, g)
      requires forall n :: 0 <= n < |fields| ==> Haloed(l, r, layers[n], fields[n])
      requires forall n, m :: 0 <= n < m < |fields| ==> fields[n] != fields[m]
      modifies fields
      ensures h == Parsed(header.attrs)
      ensures h.Ok? ==> forall n :: 0 <= n < |fields| ==> Restored(l, r, layers[n], g[n], fields[n])
      ensures h.Err? ==> forall n :: 0 <= n < |fields| ==> unchanged(fields[n])
    {
      hide Holds, Parsed;
      h := header.Read();
      if h.Err? { return; }
      for n := 0 to |fields|
        invariant forall m :: 0 <= m < n ==> Restored(l, r, layers[m], g[m], fields[m])
        invariant forall m :: n <= m < |fields| ==> unchanged(fields[m])
      {
        label before:
        ReadField(l, r, layers[n], g[n], data[n], fields[n]);
        assert Restored@before(l, r, layers[n], g[n], fields[n]);
      }
    }
  }

  /** Every rank's view of every field carries its part, and every rank is in the order. */
  ghost predicate PosedField(l: Layout, per: nat, g: Global, views: seq<array3<real>>, order: seq<nat>)
    requires l.Ok()
    reads views
  {
    && |views| == l.Size()
    && (forall r: nat :: r < l.Size() ==> r in order && Haloed(l, r, per, views[r]) && Carries(l, r, per, views[r], g))
    && (forall n: nat :: n < |order| ==> order[n] < l.Size())
  }

  /** Main result: a checkpoint written by all ranks of one layout and read by any rank of another
      layout of the same grid.  The header comes back exactly when every scalar's name is restorable;
      then every interior value of every field is back, and no halo cell has changed. */
  method Restart(file: CheckpointFile, l: Layout, l': Layout, r': nat, layers: seq<nat>, ghost g: seq<Global>,
                 views: seq<seq<array3<real>>>, order: seq<nat>, t: real, step: int, names: seq<string>,
                 scalars: map<string, real>, fields: seq<array3<real>>)
    returns (h: Result<Header>)
    requires l.Ok() && l'.Ok() && l.nx == l'.nx && l.ny == l'.ny && r' < l'.Size()
    requires file.Fits(l, layers) && |g| == |views| == |fields| == |layers|
    requires forall n :: 0 <= n < |layers| ==> PosedField(l, layers[n], g[n], views[n], order)
    requires scalars.Keys == (set n | n in names) && forall n :: n in names ==> '\0' !in n
    requires forall n :: 0 <= n < |fields| ==> Haloed(l', r', layers[n], fields[n])
    requires forall n, m :: 0 <= n < m < |fields| ==> fields[n] != fields[m]
    modifies file.header, file.data, fields
    ensures h == Ok(Header(t, step, scalars)) <==> forall n :: n in names ==> Restorable(n)
    ensures h.Ok? ==> forall n :: 0 <= n < |fields| ==> Restored(l', r', layers[n], g[n], fields[n])
    ensures h.Err? ==> forall n :: 0 <= n < |fields| ==> unchanged(fields[n])
  {
    hide Holds, Parsed, Written, PosedField, Restorable;
    ghost var attrs := file.header.attrs;
    file.Write(l, layers, g, views, order, t, step, names, scalars);
    HeaderRestoredIff(attrs, t, step, names, scalars);
    forall n | 0 <= n < |layers| ensures Holds(l', layers[n], g[n], file.data[n][..]) {
      SameGrid(l, l', layers[n], g[n], file.data[n][..]);
    }
    h := file.Read(l', r', layers, g, fields);
  }

  lemma SameGrid(l: Layout, l': Layout, per: nat, g: Global, file: seq<real>)
    requires l.nx == l'.nx && l.ny == l'.ny && Holds(l, per, g, file)
    ensures Holds(l', per, g, file)
  {
    hide FileIndex;
    forall gj: nat, gi: nat, k: nat | gj < l'.ny && gi < l'.nx && k < per ensures Keeps(l', per, g, file, gj, gi, k) {
      assert Keeps(l, per, g, file, gj, gi, k);
    }
  }
}
