/** One rank's side of the halo exchange (src/core/HaloExchanger.cpp:20-189, 199-281): which cells
    a message carries, coalescing of several fields into one message, and their unpacking. */
module HaloPacking {
  import opened Decomposition
  import opened Fields

  type Field<V> = (int, int, int) -> V

  /** A rank's interior extents. */
  datatype Extent = Extent(nyl: nat, nxl: nat)

  predicate AlongX(d: Dir) { d == West || d == East }

  /** The interior plane sent toward d, and the halo plane received from it. */
  function SendPlane(e: Extent, d: Dir): nat {
    match d
    case West => 1
    case East => e.nxl
    case South => 1
    case North => e.nyl
  }
  function RecvPlane(e: Extent, d: Dir): nat {
    match d
    case West => 0
    case East => e.nxl + 1
    case South => 0
    case North => e.nyl + 1
  }

  /** The cells of a plane's row; wide rows include the halo columns so that corners travel. */
  function RowCells(e: Extent, d: Dir, wide: bool): nat {
    if AlongX(d) then e.nyl else if wide then e.nxl + 2 else e.nxl
  }
  function RowStart(d: Dir, wide: bool): nat { if wide && !AlongX(d) then 0 else 1 }

  function PlaneCount(e: Extent, layers: nat, d: Dir, wide: bool): nat { RowCells(e, d, wide) * layers }

  /** Row position r of plane p as a cell. */
  function CellJ(d: Dir, wide: bool, p: nat, r: int): int { if AlongX(d) then r + RowStart(d, wide) else p }
  function CellI(d: Dir, wide: bool, p: nat, r: int): int { if AlongX(d) then p else r + RowStart(d, wide) }

  /** One field's share of the message toward d. */
  function Pack<V>(f: Field<V>, e: Extent, layers: nat, d: Dir, wide: bool): (data: seq<V>)
    ensures |data| == PlaneCount(e, layers, d, wide)
  {
    if layers == 0 then []
    else seq(PlaneCount(e, layers, d, wide), n requires 0 <= n =>
           f(CellJ(d, wide, SendPlane(e, d), n / layers), CellI(d, wide, SendPlane(e, d), n / layers), n % layers))
  }

  /** Whether a cell lies on the halo plane received from d. */
  predicate OnPlane(e: Extent, d: Dir, wide: bool, j: int, i: int) {
    if AlongX(d) then i == RecvPlane(e, d) && 1 <= j <= e.nyl
    else j == RecvPlane(e, d) && RowStart(d, wide) <= i < RowStart(d, wide) + RowCells(e, d, wide)
  }

  /** The position of a plane's cell in the message. */
  function Position(layers: nat, d: Dir, wide: bool, j: int, i: int, k: int): int {
    (if AlongX(d) then j - RowStart(d, wide) else i - RowStart(d, wide)) * layers + k
  }

  lemma PositionFits(e: Extent, layers: nat, d: Dir, wide: bool, j: int, i: int, k: int)
    requires OnPlane(e, d, wide, j, i) && 0 <= k < layers
    ensures 0 <= Position(layers, d, wide, j, i, k) < PlaneCount(e, layers, d, wide)
  {
    var r := if AlongX(d) then j - RowStart(d, wide) else i - RowStart(d, wide);
    MulMono(r + 1, RowCells(e, d, wide), layers);
    assert (r + 1) * layers == r * layers + layers;
  }

  /** A field after the halo plane from d was filled from data. */
  function Unpack<V>(f: Field<V>, e: Extent, layers: nat, d: Dir, wide: bool, data: seq<V>): Field<V>
    requires |data| == PlaneCount(e, layers, d, wide)
  {
    (j, i, k) =>
      if OnPlane(e, d, wide, j, i) && 0 <= k < layers then
        PositionFits(e, layers, d, wide, j, i, k);
        data[Position(layers, d, wide, j, i, k)]
      else f(j, i, k)
  }

  /** Unpacking what the neighbour packed puts its boundary plane into the halo plane: the cell
      with the same row position. */
  lemma PackedArrives<V>(f: Field<V>, g: Field<V>, e: Extent, n: Extent, layers: nat, d: Dir, wide: bool, j: int,
                         i: int, k: int)
    requires RowCells(e, d, wide) == RowCells(n, d, wide) && OnPlane(e, d, wide, j, i) && 0 <= k < layers
    ensures Unpack(f, e, layers, d, wide, Pack(g, n, layers, Opposite(d), wide))(j, i, k)
            == if AlongX(d) then g(j, SendPlane(n, Opposite(d)), k) else g(SendPlane(n, Opposite(d)), i, k)
  {
    PositionFits(e, layers, d, wide, j, i, k);
    var r: nat := if AlongX(d) then j - RowStart(d, wide) else i - RowStart(d, wide);
    QuotientOf(r, layers, k);
    assert AlongX(Opposite(d)) == AlongX(d) && RowStart(Opposite(d), wide) == RowStart(d, wide);
    var plane, data := SendPlane(n, Opposite(d)), Pack(g, n, layers, Opposite(d), wide);
    assert Position(layers, d, wide, j, i, k) == r * layers + k;
    assert data[r * layers + k] == g(CellJ(Opposite(d), wide, plane, r), CellI(Opposite(d), wide, plane, r), k);
  }

  // ----- coalescing

  /** The selected entries exist. */
  predicate Selects(sel: seq<nat>, count: nat) { forall n :: 0 <= n < |sel| ==> sel[n] < count }

  /** The message of several selected fields. */
  function PackAll<V>(fields: seq<Field<V>>, layers: seq<nat>, sel: seq<nat>, e: Extent, d: Dir,
                      wide: bool): (data: seq<V>)
    requires |fields| == |layers| && Selects(sel, |fields|)
    ensures |data| == Offset(layers, sel, |sel|, e, d, wide)
  {
    if sel == [] then []
    else
      var m := sel[|sel| - 1];
      OffsetPrefix(layers, sel, |sel| - 1, e, d, wide);
      PackAll(fields, layers, sel[..|sel| - 1], e, d, wide) + Pack(fields[m], e, layers[m], d, wide)
  }

  /** Where the n-th selected field starts in the message. */
  function Offset(layers: seq<nat>, sel: seq<nat>, n: nat, e: Extent, d: Dir, wide: bool): nat
    requires n <= |sel| && Selects(sel, |layers|)
  {
    if n == 0 then 0 else Offset(layers, sel, n - 1, e, d, wide) + PlaneCount(e, layers[sel[n - 1]], d, wide)
  }

  lemma {:induction false} OffsetPrefix(layers: seq<nat>, sel: seq<nat>, n: nat, e: Extent, d: Dir, wide: bool)
    requires n < |sel| && Selects(sel, |layers|)
    ensures Offset(layers, sel[..|sel| - 1], n, e, d, wide) == Offset(layers, sel, n, e, d, wide)
    decreases n
  {
    if n > 0 { OffsetPrefix(layers, sel, n - 1, e, d, wide); }
  }

  lemma {:induction false} OffsetGrows(layers: seq<nat>, sel: seq<nat>, n: nat, m: nat, e: Extent, d: Dir, wide: bool)
    requires n <= m <= |sel| && Selects(sel, |layers|)
    ensures Offset(layers, sel, n, e, d, wide) <= Offset(layers, sel, m, e, d, wide)
    decreases m
  {
    if n < m { OffsetGrows(layers, sel, n, m - 1, e, d, wide); }
  }

  /** Each selected field finds its own plane at its offset. */
  lemma {:induction false} SliceIsPack<V>(fields: seq<Field<V>>, layers: seq<nat>, sel: seq<nat>, n: nat, e: Extent,
                                          d: Dir, wide: bool)
    requires |fields| == |layers| && Selects(sel, |fields|) && n < |sel|
    ensures Offset(layers, sel, n + 1, e, d, wide) <= |PackAll(fields, layers, sel, e, d, wide)|
    ensures PackAll(fields, layers, sel, e, d,
                    wide)[Offset(layers, sel, n, e, d, wide)..Offset(layers, sel, n + 1, e, d, wide)]
            == Pack(fields[sel[n]], e, layers[sel[n]], d, wide)
    decreases |sel|
  {
    hide Pack, PlaneCount;
    var last := |sel| - 1;
    var a, b := PackAll(fields, layers, sel[..last], e, d, wide),
      Pack(fields[sel[last]], e, layers[sel[last]], d, wide);
    OffsetGrows(layers, sel, n + 1, |sel|, e, d, wide);
    OffsetPrefix(layers, sel, n, e, d, wide);
    assert PackAll(fields, layers, sel, e, d, wide) == a + b;
    if n < last {
      SliceIsPack(fields, layers, sel[..last], n, e, d, wide);
      OffsetPrefix(layers, sel, n + 1, e, d, wide);
      Slices(a, b, Offset(layers, sel, n, e, d, wide), Offset(layers, sel, n + 1, e, d, wide));
    } else {
      Slices(a, b, 0, 0);
    }
  }

  lemma Slices<V>(a: seq<V>, b: seq<V>, lo: nat, hi: nat)
    requires lo <= hi <= |a|
    ensures (a + b)[lo..hi] == a[lo..hi] && (a + b)[|a|..|a| + |b|] == b
  {
  }

  /** All selected fields unpacked, in order. */
  function UnpackTo<V>(fields: seq<Field<V>>, layers: seq<nat>, sel: seq<nat>, n: nat, e: Extent, d: Dir, wide: bool,
                       data: seq<V>): (r: seq<Field<V>>)
    requires |fields| == |layers| && Selects(sel, |fields|) && n <= |sel|
    requires |data| == Offset(layers, sel, |sel|, e, d, wide)
    ensures |r| == |fields|
  {
    if n == 0 then fields
    else
      OffsetGrows(layers, sel, n, |sel|, e, d, wide);
      var before, m := UnpackTo(fields, layers, sel, n - 1, e, d, wide, data), sel[n - 1];
      before[m := Unpack(before[m], e, layers[m], d, wide,
                         data[Offset(layers, sel, n - 1, e, d, wide)..Offset(layers, sel, n, e, d, wide)])]
  }

  /** Main result of the coalescing: a message of many fields does to each selected field what a
      message of that field alone would, and nothing to the others. */
  lemma {:induction false} UnpackedFields<V>(fields: seq<Field<V>>, others: seq<Field<V>>, layers: seq<nat>,
                                             sel: seq<nat>, n: nat, e: Extent, o: Extent, d: Dir, wide: bool, m: nat,
                                             j: int, i: int, k: int)
    requires |fields| == |others| == |layers| && Selects(sel, |fields|) && n <= |sel| && m < |fields|
    requires RowCells(e, d, wide) == RowCells(o, d, wide)
    ensures |PackAll(others, layers, sel, o, Opposite(d), wide)| == Offset(layers, sel, |sel|, e, d, wide)
    ensures UnpackTo(fields, layers, sel, n, e, d, wide, PackAll(others, layers, sel, o, Opposite(d), wide))[m](j, i, k)
            == if m in sel[..n] && OnPlane(e, d, wide, j, i) && 0 <= k < layers[m]
               then (if AlongX(d) then others[m](j, SendPlane(o, Opposite(d)), k)
                     else others[m](SendPlane(o, Opposite(d)), i, k))
               else fields[m](j, i, k)
    decreases n
  {
    hide Pack, Unpack, PackAll, OnPlane, Position, RowCells, SendPlane, Offset;
    SameOffsets(layers, sel, |sel|, e, o, d, wide);
    if n > 0 {
      UnpackedFields(fields, others, layers, sel, n - 1, e, o, d, wide, m, j, i, k);
      var data := PackAll(others, layers, sel, o, Opposite(d), wide);
      var before, q := UnpackTo(fields, layers, sel, n - 1, e, d, wide, data), sel[n - 1];
      SameOffsets(layers, sel, n - 1, e, o, d, wide);
      SameOffsets(layers, sel, n, e, o, d, wide);
      SliceIsPack(others, layers, sel, n - 1, o, Opposite(d), wide);
      assert sel[..n] == sel[..n - 1] + [q];
      OffsetGrows(layers, sel, n - 1, n, e, d, wide);
      OffsetGrows(layers, sel, n, |sel|, e, d, wide);
      if m == q {
        var own := Pack(others[q], o, layers[q], Opposite(d), wide);
        assert data[Offset(layers, sel, n - 1, e, d, wide)..Offset(layers, sel, n, e, d, wide)] == own;
        SameCount(e, o, layers[q], d, wide);
        assert UnpackTo(fields, layers, sel, n, e, d, wide, data)[m] == Unpack(before[q], e, layers[q], d, wide, own);
        if OnPlane(e, d, wide, j, i) && 0 <= k < layers[m] {
          PackedArrives(before[q], others[q], e, o, layers[q], d, wide, j, i, k);
        } else {
          OffPlane(before[q], e, layers[q], d, wide, own, j, i, k);
        }
      }
    }
  }

  lemma SameCount(e: Extent, o: Extent, layers: nat, d: Dir, wide: bool)
    requires RowCells(e, d, wide) == RowCells(o, d, wide)
    ensures PlaneCount(e, layers, d, wide) == PlaneCount(o, layers, Opposite(d), wide)
  {
  }

  lemma OffPlane<V>(f: Field<V>, e: Extent, layers: nat, d: Dir, wide: bool, data: seq<V>, j: int, i: int, k: int)
    requires |data| == PlaneCount(e, layers, d, wide) && !(OnPlane(e, d, wide, j, i) && 0 <= k < layers)
    ensures Unpack(f, e, layers, d, wide, data)(j, i, k) == f(j, i, k)
  {
  }

  lemma {:induction false} SameOffsets(layers: seq<nat>, sel: seq<nat>, n: nat, e: Extent, o: Extent, d: Dir,
                                       wide: bool)
    requires n <= |sel| && Selects(sel, |layers|) && RowCells(e, d, wide) == RowCells(o, d, wide)
    ensures Offset(layers, sel, n, e, d, wide) == Offset(layers, sel, n, o, Opposite(d), wide)
    decreases n
  {
    if n > 0 { SameOffsets(layers, sel, n - 1, e, o, d, wide); }
  }

  // ----- buffers

  /** The scalars all entries need in the widest mode. */
  function Needed(layers: seq<nat>, e: Extent, d: Dir): nat {
    if layers == [] then 0 else Needed(layers[..|layers| - 1], e, d) + PlaneCount(e, layers[|layers| - 1], d, true)
  }

  predicate Distinct(sel: seq<nat>) { forall n, m :: 0 <= n < m < |sel| ==> sel[n] != sel[m] }

  function Without(sel: seq<nat>, n: nat): seq<nat>
    requires n < |sel|
  {
    sel[..n] + sel[n + 1..]
  }

  /** The layers a selection carries, and the layers of all registered fields. */
  function Carried(layers: seq<nat>, sel: seq<nat>, n: nat): nat
    requires n <= |sel| && Selects(sel, |layers|)
  {
    if n == 0 then 0 else Carried(layers, sel, n - 1) + layers[sel[n - 1]]
  }
  function Registered(layers: seq<nat>): nat {
    if layers == [] then 0 else Registered(layers[..|layers| - 1]) + layers[|layers| - 1]
  }

  lemma {:induction false} OffsetIs(layers: seq<nat>, sel: seq<nat>, n: nat, e: Extent, d: Dir, wide: bool)
    requires n <= |sel| && Selects(sel, |layers|)
    ensures Offset(layers, sel, n, e, d, wide) == RowCells(e, d, wide) * Carried(layers, sel, n)
    decreases n
  {
    hide RowCells;
    if n > 0 {
      OffsetIs(layers, sel, n - 1, e, d, wide);
      TimesSum(RowCells(e, d, wide), Carried(layers, sel, n - 1), layers[sel[n - 1]]);
    }
  }

  lemma {:induction false} NeededIs(layers: seq<nat>, e: Extent, d: Dir)
    ensures Needed(layers, e, d) == RowCells(e, d, true) * Registered(layers)
    decreases |layers|
  {
    hide RowCells;
    if layers != [] {
      NeededIs(layers[..|layers| - 1], e, d);
      TimesSum(RowCells(e, d, true), Registered(layers[..|layers| - 1]), layers[|layers| - 1]);
    }
  }

  lemma TimesSum(a: nat, b: nat, c: nat)
    ensures a * (b + c) == a * b + a * c
  {
  }

  lemma TimesOrder(a: nat, b: nat, c: nat, d: nat)
    ensures a <= c && b <= d ==> a * b <= c * d
    ensures a > 0 && b > d ==> a * b > a * d
  {
    if a <= c && b <= d {
      MulMono(a, c, b);
      MulMono(b, d, c);
    }
    if a > 0 && b > d { MulMono(1, a, b - d); }
  }

  lemma {:induction false} CarriedPrefix(layers: seq<nat>, sel: seq<nat>, n: nat)
    requires n < |sel| && Selects(sel, |layers|)
    ensures Carried(layers, sel[..|sel| - 1], n) == Carried(layers, sel, n)
    decreases n
  {
    if n > 0 { CarriedPrefix(layers, sel, n - 1); }
  }

  /** Leaving out one selected entry leaves out its layers. */
  lemma {:induction false} CarriedWithout(layers: seq<nat>, sel: seq<nat>, n: nat)
    requires Selects(sel, |layers|) && n < |sel|
    ensures Selects(Without(sel, n), |layers|)
    ensures Carried(layers, sel, |sel|) == Carried(layers, Without(sel, n), |sel| - 1) + layers[sel[n]]
    decreases |sel|
  {
    var last := |sel| - 1;
    CarriedPrefix(layers, sel, last);
    if n == last {
      assert Without(sel, n) == sel[..last];
    } else {
      CarriedWithout(layers, sel[..last], n);
      var w := Without(sel, n);
      assert w[..|w| - 1] == Without(sel[..last], n) && w[|w| - 1] == sel[last];
      CarriedPrefix(layers, w, |w| - 1);
    }
  }

  lemma {:induction false} CarriedShorter(layers: seq<nat>, fewer: seq<nat>, sel: seq<nat>, n: nat)
    requires Selects(sel, |fewer|) && fewer <= layers && n <= |sel|
    ensures Carried(layers, sel, n) == Carried(fewer, sel, n)
    decreases n
  {
    if n > 0 { CarriedShorter(layers, fewer, sel, n - 1); }
  }

  /** A selection that names no field twice carries no more than is registered. */
  lemma {:induction false} DistinctCarries(layers: seq<nat>, sel: seq<nat>)
    requires Selects(sel, |layers|) && Distinct(sel)
    ensures Carried(layers, sel, |sel|) <= Registered(layers)
    decreases |layers|
  {
    if layers != [] {
      var last := |layers| - 1;
      if n :| 0 <= n < |sel| && sel[n] == last {
        CarriedWithout(layers, sel, n);
        DistinctCarries(layers[..last], Without(sel, n));
        CarriedShorter(layers, layers[..last], Without(sel, n), |sel| - 1);
      } else {
        DistinctCarries(layers[..last], sel);
        CarriedShorter(layers, layers[..last], sel, |sel|);
      }
    }
  }

  /** A selection's message fits the buffers in every direction and mode exactly when it carries no
      more layers than are registered. */
  lemma FitsIff(layers: seq<nat>, sel: seq<nat>, e: Extent)
    requires Selects(sel, |layers|) && e.nyl > 0
    ensures (forall d, wide :: Offset(layers, sel, |sel|, e, d, wide) <= Needed(layers, e, d))
            <==> Carried(layers, sel, |sel|) <= Registered(layers)
  {
    var carried, registered := Carried(layers, sel, |sel|), Registered(layers);
    forall d, wide
      ensures carried <= registered ==> Offset(layers, sel, |sel|, e, d, wide) <= Needed(layers, e, d)
      ensures d == West && carried > registered ==> Offset(layers, sel, |sel|, e, d, wide) > Needed(layers, e, d)
    {
      OffsetIs(layers, sel, |sel|, e, d, wide);
      NeededIs(layers, e, d);
      TimesOrder(RowCells(e, d, wide), carried, RowCells(e, d, true), registered);
    }
    assert carried > registered ==> Offset(layers, sel, |sel|, e, West, true) > Needed(layers, e, West);
  }

  /** The buffers hold the message of any selection that names no field twice. */
  lemma CapacitySuffices(layers: seq<nat>, sel: seq<nat>, e: Extent, d: Dir, wide: bool)
    requires Selects(sel, |layers|) && Distinct(sel)
    ensures Offset(layers, sel, |sel|, e, d, wide) <= Needed(layers, e, d)
  {
    DistinctCarries(layers, sel);
    OffsetIs(layers, sel, |sel|, e, d, wide);
    NeededIs(layers, e, d);
    TimesOrder(RowCells(e, d, wide), Carried(layers, sel, |sel|), RowCells(e, d, true), Registered(layers));
  }

  /** The layers of registered fields: one of a surface field, nz of a subsurface one. */
  function LayerCounts(is3d: seq<bool>, nz: nat): (r: seq<nat>)
    ensures |r| == |is3d|
  {
    seq(|is3d|, n requires 0 <= n < |is3d| => if is3d[n] then nz else 1)
  }

  /** The selection's message fits, whatever kinds of fields are registered. */
  ghost predicate AlwaysFits(sel: seq<nat>, count: nat, e: Extent)
    requires Selects(sel, count)
  {
    forall is3d: seq<bool>, nz: nat, d, wide :: |is3d| == count && nz > 0 ==>
      Offset(LayerCounts(is3d, nz), sel, |sel|, e, d, wide) <= Needed(LayerCounts(is3d, nz), e, d)
  }

  lemma {:induction false} CarriedAtLeast(layers: seq<nat>, sel: seq<nat>, n: nat, m: nat, k: nat)
    requires Selects(sel, |layers|) && n < m < k <= |sel| && sel[n] == sel[m]
    ensures Carried(layers, sel, k) >= 2 * layers[sel[n]]
    decreases k
  {
    if k > m + 1 { CarriedAtLeast(layers, sel, n, m, k - 1); } else { CarriedOne(layers, sel, n, m); }
  }

  lemma {:induction false} CarriedOne(layers: seq<nat>, sel: seq<nat>, n: nat, k: nat)
    requires Selects(sel, |layers|) && n < k <= |sel|
    ensures Carried(layers, sel, k) >= layers[sel[n]]
    decreases k
  {
    if k > n + 1 { CarriedOne(layers, sel, n, k - 1); }
  }

  /** One tall field among flat ones. */
  lemma {:induction false} OneTallField(layers: seq<nat>, q: nat, nz: nat)
    requires forall n :: 0 <= n < |layers| ==> layers[n] == if n == q then nz else 1
    ensures Registered(layers) <= |layers| + if q < |layers| then nz else 0
    decreases |layers|
  {
    if layers != [] { OneTallField(layers[..|layers| - 1], q, nz); }
  }

  /** Main result: a selection's message fits the buffers of every registry exactly when it names no
      field twice. */
  lemma AlwaysFitsIff(sel: seq<nat>, count: nat, e: Extent)
    requires Selects(sel, count) && e.nyl > 0
    ensures AlwaysFits(sel, count, e) <==> Distinct(sel)
  {
    if Distinct(sel) {
      forall is3d: seq<bool>, nz: nat, d, wide | |is3d| == count && nz > 0
        ensures Offset(LayerCounts(is3d, nz), sel, |sel|, e, d, wide) <= Needed(LayerCounts(is3d, nz), e, d)
      {
        CapacitySuffices(LayerCounts(is3d, nz), sel, e, d, wide);
      }
    } else {
      var n, m :| 0 <= n < m < |sel| && sel[n] == sel[m];
      var q, nz := sel[n], count + 1;
      var is3d := seq(count, l => l == q);
      var layers := LayerCounts(is3d, nz);
      CarriedAtLeast(layers, sel, n, m, |sel|);
      OneTallField(layers, q, nz);
      FitsIff(layers, sel, e);
      var d, wide :| Offset(layers, sel, |sel|, e, d, wide) > Needed(layers, e, d);
    }
  }

  /** The smallest case: the only registered field, named twice. */
  lemma RepeatedNameOverflows(e: Extent, layers: nat)
    requires e.nyl > 0 && layers > 0
    ensures Offset([layers], [0, 0], 2, e, West, false) > Needed([layers], e, West)
  {
    assert Offset([layers], [0, 0], 1, e, West, false) == e.nyl * layers;
    assert Needed([], e, West) == 0 && [layers][..0] == [];
    MulMono(1, e.nyl, layers);
  }

  datatype Option<T> = None | Some(value: T)

  predicate NamesDistinct(names: seq<string>) { forall n, m :: 0 <= n < m < |names| ==> names[n] != names[m] }

  /** One rank's registered fields and message buffers. */
  class Exchanger {
    const e: Extent
    const nz: nat
    var names: seq<string>
    var fields: seq<array3<real>>
    var sendBuf: map<Dir, array<real>>
    var recvBuf: map<Dir, array<real>>

    function Layers(): (r: seq<nat>)
      reads this`fields
      ensures |r| == |fields| && forall n :: 0 <= n < |r| ==> r[n] == fields[n].Length2
    {
      var fs := fields;
      seq(|fs|, n requires 0 <= n < |fs| => fs[n].Length2)
    }

    /** The registered fields' contents. */
    function FieldsNow(): (r: seq<Field<real>>)
      reads this`fields, fields
      ensures |r| == |fields| && forall n :: 0 <= n < |r| ==> r[n] == Snap3(fields[n], 0.0)
    {
      var fs := fields;
      seq(|fs|, n requires 0 <= n < |fs| reads fs => Snap3(fs[n], 0.0))
    }

    /** Direction d's buffers hold the widest message of all entries. */
    ghost predicate Roomy(d: Dir)
      reads this`fields, this`sendBuf, this`recvBuf
    {
      d in sendBuf && d in recvBuf && sendBuf[d].Length == recvBuf[d].Length >= Needed(Layers(), e, d)
    }

    ghost predicate Buffered()
      reads this`sendBuf, this`recvBuf
    {
      forall d: Dir :: d in sendBuf && d in recvBuf && sendBuf[d].Length == recvBuf[d].Length
    }

    /** A field of the right extents: one layer on the surface, nz below it. */
    predicate Shaped(f: array3<real>, is3d: bool) {
      f.Length0 == e.nyl + 2 && f.Length1 == e.nxl + 2 && f.Length2 == if is3d then nz else 1
    }

    ghost predicate AllShaped()
      reads this`fields
    {
      forall n :: 0 <= n < |fields| ==> Shaped(fields[n], true) || Shaped(fields[n], false)
    }

    ghost predicate Valid()
      reads this`names, this`fields, this`sendBuf, this`recvBuf
    {
      && e.nyl >= 1 && e.nxl >= 1 && nz >= 1
      && |names| == |fields| && NamesDistinct(names) && AllShaped()
      && Buffered() && (forall d: Dir :: Roomy(d))
    }

    constructor (e: Extent, nz: nat)
      requires e.nyl >= 1 && e.nxl >= 1 && nz >= 1
      ensures Valid() && this.e == e && this.nz == nz && fields == [] && names == []
    {
      this.e, this.nz, fields, names := e, nz, [], [];
      var a := new real[0];
      sendBuf := map[West := a, East := a, South := a, North := a];
      recvBuf := map[West := a, East := a, South := a, North := a];
      new;
      assert Layers() == [];
      forall d: Dir ensures Roomy(d) && sendBuf[d].Length == recvBuf[d].Length {
        assert d == West || d == East || d == South || d == North;
      }
    }

    /** Sizes one direction's buffers for the widest message of all entries. */
    method EnsureRoom(d: Dir)
      requires Buffered()
      modifies this`sendBuf, this`recvBuf
      ensures Buffered() && Roomy(d) && forall o: Dir :: old(Roomy(o)) ==> Roomy(o)
    {
      hide Needed;
      var needed := Needed(Layers(), e, d);
      if sendBuf[d].Length < needed {
        var s, r := new real[needed], new real[needed];
        sendBuf, recvBuf := sendBuf[d := s], recvBuf[d := r];
      }
    }

    /** Sizes every direction's buffers. */
    method EnsureCapacity()
      requires Buffered()
      modifies this`sendBuf, this`recvBuf
      ensures Buffered() && forall d: Dir :: Roomy(d)
    {
      hide *;
      EnsureRoom(West);
      EnsureRoom(East);
      EnsureRoom(South);
      EnsureRoom(North);
      forall d: Dir ensures Roomy(d) { assert d == West || d == East || d == South || d == North; }
    }

    /** Registers a field; a name already taken or a field of the wrong extents is refused. */
    method Register(name: string, f: array3<real>, is3d: bool) returns (ok: bool)
      requires Valid()
      modifies this
      ensures Valid() && ok == (name !in old(names) && Shaped(f, is3d))
      ensures fields == if ok then old(fields) + [f] else old(fields)
      ensures names == if ok then old(names) + [name] else old(names)
    {
      hide Needed;
      ok := name !in names && Shaped(f, is3d);
      if ok {
        names, fields := names + [name], fields + [f];
        EnsureCapacity();
      }
    }

    /** The entries of the requested names; none when one of them is not registered.  A selection
        repeats an entry exactly when the request repeats a name. */
    method ResolveNames(request: seq<string>) returns (r: Option<seq<nat>>)
      requires Valid()
      ensures r.Some? <==> forall n :: 0 <= n < |request| ==> request[n] in names
      ensures r.Some? ==> Selects(r.value, |fields|) && |r.value| == |request|
      ensures r.Some? ==> forall n :: 0 <= n < |request| ==> names[r.value[n]] == request[n]
      ensures r.Some? ==> (Distinct(r.value) <==> NamesDistinct(request))
    {
      hide Roomy, Buffered, AllShaped;
      var sel: seq<nat> := [];
      for n := 0 to |request|
        invariant |sel| == n && Selects(sel, |fields|)
        invariant forall m :: 0 <= m < n ==> names[sel[m]] == request[m]
      {
        var k := 0;
        while k < |names| && names[k] != request[n]
          invariant 0 <= k <= |names| && request[n] !in names[..k]
        {
          k := k + 1;
        }
        if k == |names| {
          assert names[..k] == names;
          return None;
        }
        sel := sel + [k];
      }
      return Some(sel);
    }

    /** One row position of a plane, all layers. */
    method PackRow(f: array3<real>, buf: array<real>, d: Dir, start: nat, wide: bool, r: nat)
      requires e.nyl >= 1 && e.nxl >= 1 && f.Length0 == e.nyl + 2 && f.Length1 == e.nxl + 2
      requires r < RowCells(e, d, wide) && start + f.Length2 <= buf.Length
      modifies buf
      ensures buf[start..start + f.Length2] == PackedRow(Snap3(f, 0.0), e, f.Length2, d, wide, r)
      ensures buf[..start] == old(buf[..start]) && buf[start + f.Length2..] == old(buf[start + f.Length2..])
    {
      var j, i := CellJ(d, wide, SendPlane(e, d), r), CellI(d, wide, SendPlane(e, d), r);
      for m := 0 to f.Length2
        invariant forall k :: 0 <= k < m ==> buf[start + k] == f[j, i, k]
        invariant buf[..start] == old(buf[..start]) && buf[start + f.Length2..] == old(buf[start + f.Length2..])
      {
        buf[start + m] := f[j, i, m];
      }
    }

    /** One field's plane into a buffer at an offset. */
    method PackEntry(f: array3<real>, buf: array<real>, d: Dir, offset: nat, wide: bool)
      requires e.nyl >= 1 && e.nxl >= 1 && f.Length0 == e.nyl + 2 && f.Length1 == e.nxl + 2
      requires offset + PlaneCount(e, f.Length2, d, wide) <= buf.Length
      modifies buf
      ensures buf[offset..offset + PlaneCount(e, f.Length2, d, wide)] == Pack(Snap3(f, 0.0), e, f.Length2, d, wide)
      ensures buf[..offset] == old(buf[..offset])
      ensures buf[offset + PlaneCount(e, f.Length2, d, wide)..]
              == old(buf[offset + PlaneCount(e, f.Length2, d, wide)..])
    {
      var rows, layers := RowCells(e, d, wide), f.Length2;
      ghost var data, end := Pack(Snap3(f, 0.0), e, layers, d, wide), offset + PlaneCount(e, layers, d, wide);
      assert |data| == end - offset == rows * layers;
      hide *;
      var done := 0;
      for r := 0 to rows
        invariant done == r * layers <= |data|
        invariant buf[offset..offset + done] == data[..done]
        invariant buf[..offset] == old(buf[..offset]) && buf[end..] == old(buf[end..])
      {
        RowEnds(r, rows, layers);
        RowOfPack(Snap3(f, 0.0), e, layers, d, wide, r);
        ghost var before, next := buf[..], done + layers;
        PackRow(f, buf, d, offset + done, wide, r);
        RowAdded(before, buf[..], offset, done, next, end, data);
        done := done + layers;
      }
    }

    /** One row position of a plane, all layers. */
    method UnpackRow(f: array3<real>, buf: array<real>, d: Dir, start: nat, wide: bool, r: nat)
      requires e.nyl >= 1 && e.nxl >= 1 && f.Length0 == e.nyl + 2 && f.Length1 == e.nxl + 2
      requires r < RowCells(e, d, wide) && start + f.Length2 <= buf.Length
      modifies f
      ensures forall j, i, k {:trigger f[j, i, k]} :: 0 <= j < f.Length0 && 0 <= i < f.Length1 && 0 <= k < f.Length2 ==>
        f[j, i, k] == if OnPlane(e, d, wide, j, i) && RowOf(d, wide, j, i) == r then buf[start + k] else old(f[j, i, k])
    {
      var plane := RecvPlane(e, d);
      for m := 0 to f.Length2
        invariant forall j, i, k {:trigger f[j, i, k]} ::
          0 <= j < f.Length0 && 0 <= i < f.Length1 && 0 <= k < f.Length2 ==>
          f[j, i, k] == if OnPlane(e, d, wide, j, i) && RowOf(d, wide, j, i) == r && k < m then buf[start + k]
            else old(f[j, i, k])
      {
        f[CellJ(d, wide, plane, r), CellI(d, wide, plane, r), m] := buf[start + m];
      }
    }

    /** A plane of a buffer into one field's halo. */
    method UnpackEntry(f: array3<real>, buf: array<real>, d: Dir, offset: nat, wide: bool)
      requires e.nyl >= 1 && e.nxl >= 1 && f.Length0 == e.nyl + 2 && f.Length1 == e.nxl + 2
      requires offset + PlaneCount(e, f.Length2, d, wide) <= buf.Length
      modifies f
      ensures HeldIn(f, Unpack(old(Snap3(f, 0.0)), e, f.Length2, d, wide,
                               buf[offset..offset + PlaneCount(e, f.Length2, d, wide)]))
    {
      hide Unpack, OnPlane, RowOf, CellJ, CellI, RecvPlane;
      var rows, layers := RowCells(e, d, wide), f.Length2;
      ghost var f0, data := Snap3(f, 0.0), buf[offset..offset + PlaneCount(e, layers, d, wide)];
      forall j, i | OnPlane(e, d, wide, j, i) ensures 0 <= RowOf(d, wide, j, i) < rows { RowFits(e, d, wide, j, i); }
      for r := 0 to rows
        invariant forall j, i, k {:trigger f[j, i, k]} ::
          0 <= j < f.Length0 && 0 <= i < f.Length1 && 0 <= k < layers ==>
          f[j, i, k] == if OnPlane(e, d, wide, j, i) && RowOf(d, wide, j, i) < r
            then Unpack(f0, e, layers, d, wide, data)(j, i, k)
                        else old(f[j, i, k])
      {
        MulMono(r + 1, rows, layers);
        assert (r + 1) * layers == r * layers + layers;
        label Row:
        UnpackRow(f, buf, d, offset + r * layers, wide, r);
        forall j, i, k | 0 <= j < f.Length0 && 0 <= i < f.Length1 && 0 <= k < layers
          ensures f[j, i, k] == if OnPlane(e, d, wide, j, i) && RowOf(d, wide, j, i) < r + 1
                  then Unpack(f0, e, layers, d, wide, data)(j, i, k)
                                else old(f[j, i, k])
        {
          assert f[j, i, k] == if OnPlane(e, d, wide, j, i) && RowOf(d, wide, j, i) == r
            then buf[offset + r * layers + k] else old@Row(f[j, i, k]);
          if OnPlane(e, d, wide, j, i) && RowOf(d, wide, j, i) == r { UnpackAt(f0, e, layers, d, wide, data, j, i, k); }
        }
      }
      forall j, i, k | 0 <= j < f.Length0 && 0 <= i < f.Length1 && 0 <= k < layers
        ensures f[j, i, k] == Unpack(f0, e, layers, d, wide, data)(j, i, k)
      {
        if OnPlane(e, d, wide, j, i) {
          UnpackAt(f0, e, layers, d, wide, data, j, i, k);
        } else {
          OffPlane(f0, e, layers, d, wide, data, j, i, k);
        }
      }
    }

    /** One field's share of message `data`, which holds up to the offset already. */
    method PackShare(f: array3<real>, buf: array<real>, d: Dir, offset: nat, wide: bool, ghost data: seq<real>)
      returns (next: nat)
      requires e.nyl >= 1 && e.nxl >= 1 && f.Length0 == e.nyl + 2 && f.Length1 == e.nxl + 2
      requires offset + PlaneCount(e, f.Length2, d, wide) <= |data| <= buf.Length
      requires data[offset..offset + PlaneCount(e, f.Length2, d, wide)] == Pack(Snap3(f, 0.0), e, f.Length2, d, wide)
      requires buf[..offset] == data[..offset]
      modifies buf
      ensures next == offset + PlaneCount(e, f.Length2, d, wide)
      ensures buf[..next] == data[..next] && buf[next..] == old(buf[next..])
    {
      hide Pack, PlaneCount;
      next := offset + PlaneCount(e, f.Length2, d, wide);
      ghost var before := buf[..];
      PackEntry(f, buf, d, offset, wide);
      RowAdded(before, buf[..], 0, offset, next, |data|, data);
    }

    /** One field's share of a message, for a field that holds v. */
    method UnpackShare(f: array3<real>, buf: array<real>, d: Dir, offset: nat, wide: bool, ghost v: Field<real>)
      returns (next: nat)
      requires e.nyl >= 1 && e.nxl >= 1 && f.Length0 == e.nyl + 2 && f.Length1 == e.nxl + 2
      requires offset + PlaneCount(e, f.Length2, d, wide) <= buf.Length && HeldIn(f, v)
      modifies f
      ensures next == offset + PlaneCount(e, f.Length2, d, wide)
      ensures HeldIn(f, Unpack(v, e, f.Length2, d, wide, buf[offset..next]))
    {
      hide Unpack, PlaneCount, HeldIn;
      next := offset + PlaneCount(e, f.Length2, d, wide);
      ghost var now := Snap3(f, 0.0);
      SameContents(f, now, v);
      UnpackEntry(f, buf, d, offset, wide);
      UnpackSame(f, now, v, e, d, wide, buf[offset..next]);
    }

    lemma MessageFits(sel: seq<nat>, d: Dir, wide: bool)
      requires Valid() && Selects(sel, |fields|) && Carried(Layers(), sel, |sel|) <= Registered(Layers())
      ensures d in sendBuf && d in recvBuf && Offset(Layers(), sel, |sel|, e, d, wide) <= sendBuf[d].Length
              == recvBuf[d].Length
    {
      FitsIff(Layers(), sel, e);
      assert Roomy(d);
      hide Offset, Needed, Carried, Registered;
    }

    lemma ShapeOf(q: nat)
      requires Valid() && q < |fields|
      ensures e.nyl >= 1 && e.nxl >= 1 && fields[q].Length0 == e.nyl + 2 && fields[q].Length1 == e.nxl + 2
    {
      assert Shaped(fields[q], true) || Shaped(fields[q], false);
    }

    /** The packing loop of an exchange toward d: one message of all selected fields, each at its
        running offset. */
    method PackSelected(sel: seq<nat>, d: Dir, wide: bool) returns (count: nat)
      requires Valid() && Selects(sel, |fields|) && Carried(Layers(), sel, |sel|) <= Registered(Layers())
      modifies sendBuf[d]
      ensures count == Offset(Layers(), sel, |sel|, e, d, wide) <= sendBuf[d].Length
      ensures sendBuf[d][..count] == PackAll(FieldsNow(), Layers(), sel, e, d, wide)
      ensures sendBuf[d][count..] == old(sendBuf[d][..])[count..]
    {
      hide *;
      MessageFits(sel, d, wide);
      var buf := sendBuf[d];
      ghost var layers, data := Layers(), PackAll(FieldsNow(), Layers(), sel, e, d, wide);
      OffsetEnds(layers, sel, 0, e, d, wide);
      count := 0;
      for n := 0 to |sel|
        invariant count == Offset(layers, sel, n, e, d, wide) <= |data|
        invariant buf[..count] == data[..count] && buf[count..] == old(buf[count..])
      {
        OffsetGrows(layers, sel, n + 1, |sel|, e, d, wide);
        SliceIsPack(FieldsNow(), layers, sel, n, e, d, wide);
        OffsetEnds(layers, sel, n, e, d, wide);
        SelectedOne(sel, |fields|, n);
        var f := fields[sel[n]];
        ShapeOf(sel[n]);
        count := PackShare(f, buf, d, count, wide, data);
      }
    }

    /** The fields hold these contents. */
    ghost predicate Holds(v: seq<Field<real>>)
      reads this`fields, fields
    {
      |v| == |fields| && forall m {:trigger fields[m]} :: 0 <= m < |fields| ==> HeldIn(fields[m], v[m])
    }

    lemma SnapsHeld()
      ensures Holds(FieldsNow())
    {
      forall m | 0 <= m < |fields| ensures HeldIn(fields[m], FieldsNow()[m]) { SnapHeld(fields[m]); }
    }

    /** One selected field's share, the other fields' arrays untouched. */
    method UnpackField(q: nat, d: Dir, offset: nat, wide: bool, ghost v: seq<Field<real>>) returns (next: nat)
      requires q < |fields| && d in recvBuf && Holds(v)
      requires e.nyl >= 1 && e.nxl >= 1 && fields[q].Length0 == e.nyl + 2 && fields[q].Length1 == e.nxl + 2
      requires offset + PlaneCount(e, fields[q].Length2, d, wide) <= recvBuf[d].Length
      requires forall m :: 0 <= m < |fields| && m != q ==> fields[m] != fields[q]
      modifies fields[q]
      ensures next == offset + PlaneCount(e, fields[q].Length2, d, wide)
      ensures Holds(v[q := Unpack(v[q], e, fields[q].Length2, d, wide, recvBuf[d][offset..next])])
    {
      hide Unpack, PlaneCount, HeldIn;
      next := UnpackShare(fields[q], recvBuf[d], d, offset, wide, v[q]);
      ghost var w := v[q := Unpack(v[q], e, fields[q].Length2, d, wide, recvBuf[d][offset..next])];
      forall m | 0 <= m < |fields| ensures HeldIn(fields[m], w[m]) {
        assert old(HeldIn(fields[m], v[m]));
      }
    }

    /** The unpacking loop of an exchange from d: every selected field takes its share of the
        message.  No view is registered under two names. */
    method UnpackSelected(sel: seq<nat>, d: Dir, wide: bool)
      requires Valid() && Selects(sel, |fields|) && Carried(Layers(), sel, |sel|) <= Registered(Layers())
      requires forall n, m :: 0 <= n < m < |fields| ==> fields[n] != fields[m]
      modifies fields
      ensures Offset(Layers(), sel, |sel|, e, d, wide) <= recvBuf[d].Length
      ensures Holds(UnpackTo(old(FieldsNow()), Layers(), sel, |sel|, e, d, wide,
                             recvBuf[d][..Offset(Layers(), sel, |sel|, e, d, wide)]))
    {
      hide *;
      MessageFits(sel, d, wide);
      ghost var layers, f0, data := Layers(), FieldsNow(), recvBuf[d][..Offset(Layers(), sel, |sel|, e, d, wide)];
      SnapsHeld();
      OffsetEnds(layers, sel, 0, e, d, wide);
      UnpackEnds(f0, layers, sel, 0, e, d, wide, data);
      var count := 0;
      for n := 0 to |sel|
        invariant count == Offset(layers, sel, n, e, d, wide) <= |data|
        invariant Holds(UnpackTo(f0, layers, sel, n, e, d, wide, data))
      {
        OffsetGrows(layers, sel, n + 1, |sel|, e, d, wide);
        OffsetEnds(layers, sel, n, e, d, wide);
        UnpackEnds(f0, layers, sel, n, e, d, wide, data);
        SelectedOne(sel, |fields|, n);
        var q := sel[n];
        ShapeOf(q);
        ghost var before := UnpackTo(f0, layers, sel, n, e, d, wide, data);
        var next := UnpackField(q, d, count, wide, before);
        PrefixSlice(recvBuf[d][..], |data|, count, next);
        count := next;
      }
    }
  }

  lemma PrefixSlice<T>(s: seq<T>, n: nat, a: nat, b: nat)
    requires a <= b <= n <= |s|
    ensures s[..n][a..b] == s[a..b]
  {
  }

  lemma SelectedOne(sel: seq<nat>, count: nat, n: nat)
    requires Selects(sel, count) && n < |sel|
    ensures sel[n] < count
  {
  }

  lemma OffsetEnds(layers: seq<nat>, sel: seq<nat>, n: nat, e: Extent, d: Dir, wide: bool)
    requires n <= |sel| && Selects(sel, |layers|)
    ensures Offset(layers, sel, 0, e, d, wide) == 0
    ensures n < |sel| ==> Offset(layers, sel, n + 1, e, d, wide) == Offset(layers, sel, n, e, d, wide)
                          + PlaneCount(e, layers[sel[n]], d, wide)
  {
    hide PlaneCount;
  }

  lemma UnpackEnds<V>(f: seq<Field<V>>, layers: seq<nat>, sel: seq<nat>, n: nat, e: Extent, d: Dir, wide: bool,
                      data: seq<V>)
    requires |f| == |layers| && Selects(sel, |f|) && n <= |sel| && |data| == Offset(layers, sel, |sel|, e, d, wide)
    ensures UnpackTo(f, layers, sel, 0, e, d, wide, data) == f
    ensures n < |sel| ==>
      var a, b := Offset(layers, sel, n, e, d, wide), Offset(layers, sel, n + 1, e, d, wide);
      var v, q := UnpackTo(f, layers, sel, n, e, d, wide, data), sel[n];
      && a <= b <= |data| && |data[a..b]| == PlaneCount(e, layers[q], d, wide)
      && UnpackTo(f, layers, sel, n + 1, e, d, wide, data) == v[q := Unpack(v[q], e, layers[q], d, wide, data[a..b])]
  {
    hide PlaneCount, Unpack;
    if n < |sel| { OffsetGrows(layers, sel, n + 1, |sel|, e, d, wide); }
  }

  /** Array f holds the contents v. */
  ghost predicate HeldIn(f: array3<real>, v: Field<real>)
    reads f
  {
    forall j, i, k {:trigger f[j, i, k]} :: 0 <= j < f.Length0 && 0 <= i < f.Length1 && 0 <= k < f.Length2 ==>
        f[j, i, k] == v(j, i, k)
  }

  lemma SnapHeld(f: array3<real>)
    ensures HeldIn(f, Snap3(f, 0.0))
  {
  }

  /** Contents that agree inside f. */
  ghost predicate AgreeIn(f: array3<real>, v: Field<real>, w: Field<real>) {
    forall j, i, k {:trigger v(j, i, k)} {:trigger w(j, i, k)} ::
      0 <= j < f.Length0 && 0 <= i < f.Length1 && 0 <= k < f.Length2 ==>
      v(j, i, k) == w(j, i, k)
  }

  lemma SameContents(f: array3<real>, v: Field<real>, w: Field<real>)
    requires v == Snap3(f, 0.0) && HeldIn(f, w)
    ensures AgreeIn(f, v, w)
  {
  }

  lemma UnpackSame(f: array3<real>, v: Field<real>, w: Field<real>, e: Extent, d: Dir, wide: bool, data: seq<real>)
    requires AgreeIn(f, v, w) && |data| == PlaneCount(e, f.Length2, d, wide)
             && HeldIn(f, Unpack(v, e, f.Length2, d, wide, data))
    ensures HeldIn(f, Unpack(w, e, f.Length2, d, wide, data))
  {
    hide OnPlane, Position, PlaneCount;
    forall j, i, k | 0 <= j < f.Length0 && 0 <= i < f.Length1 && 0 <= k < f.Length2
      ensures Unpack(v, e, f.Length2, d, wide, data)(j, i, k) == Unpack(w, e, f.Length2, d, wide, data)(j, i, k)
    {
      assert v(j, i, k) == w(j, i, k);
    }
  }

  lemma RowFits(e: Extent, d: Dir, wide: bool, j: int, i: int)
    requires OnPlane(e, d, wide, j, i)
    ensures 0 <= RowOf(d, wide, j, i) < RowCells(e, d, wide)
  {
  }

  lemma UnpackAt<V>(f: Field<V>, e: Extent, layers: nat, d: Dir, wide: bool, data: seq<V>, j: int, i: int, k: int)
    requires |data| == PlaneCount(e, layers, d, wide) && OnPlane(e, d, wide, j, i) && 0 <= k < layers
    ensures 0 <= RowOf(d, wide, j, i) < RowCells(e, d, wide) && 0 <= RowOf(d, wide, j, i) * layers + k < |data|
    ensures Unpack(f, e, layers, d, wide, data)(j, i, k) == data[RowOf(d, wide, j, i) * layers + k]
  {
    PositionFits(e, layers, d, wide, j, i, k);
  }

  /** The row position of a plane's cell. */
  function RowOf(d: Dir, wide: bool, j: int, i: int): int {
    if AlongX(d) then j - RowStart(d, wide) else i - RowStart(d, wide)
  }

  lemma RowEnds(r: nat, rows: nat, layers: nat)
    requires r < rows
    ensures r * layers + layers == (r + 1) * layers <= rows * layers
  {
    MulMono(r + 1, rows, layers);
  }

  /** A plane's row position r, all layers. */
  function PackedRow<V>(f: Field<V>, e: Extent, layers: nat, d: Dir, wide: bool, r: nat): seq<V> {
    seq(layers, k => f(CellJ(d, wide, SendPlane(e, d), r), CellI(d, wide, SendPlane(e, d), r), k))
  }

  lemma RowOfPack<V>(f: Field<V>, e: Extent, layers: nat, d: Dir, wide: bool, r: nat)
    requires r < RowCells(e, d, wide)
    ensures r * layers + layers <= |Pack(f, e, layers, d, wide)|
    ensures Pack(f, e, layers, d, wide)[r * layers..r * layers + layers] == PackedRow(f, e, layers, d, wide, r)
  {
    RowEnds(r, RowCells(e, d, wide), layers);
    forall k | 0 <= k < layers
      ensures Pack(f, e, layers, d, wide)[r * layers..r * layers + layers][k] == PackedRow(f, e, layers, d, wide, r)[k]
    {
      QuotientOf(r, layers, k);
    }
  }

  /** A buffer that holds a message up to `done` and takes its next stretch. */
  lemma RowAdded<V>(before: seq<V>, after: seq<V>, offset: nat, done: nat, next: nat, end: nat, data: seq<V>)
    requires done <= next <= |data| && offset + |data| == end <= |before| == |after|
    requires before[offset..offset + done] == data[..done] && after[offset + done..offset + next] == data[done..next]
    requires after[..offset + done] == before[..offset + done] && after[offset + next..] == before[offset + next..]
    ensures after[offset..offset + next] == data[..next] && after[..offset] == before[..offset]
            && after[end..] == before[end..]
  {
    assert after[offset..offset + next] == after[..offset + done][offset..] + after[offset + done..offset + next];
    assert data[..next] == data[..done] + data[done..next];
    assert after[..offset] == after[..offset + done][..offset];
    assert after[end..] == after[offset + next..][end - offset - next..];
  }
}
