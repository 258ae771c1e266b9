/** The two-dimensional block decomposition (src/core/Grid.cpp:23-145): block sizes and starts,
    neighbours, and the choice of the rank layout. */
module Decomposition {

  function Min(a: int, b: int): int { if a < b then a else b }
  function Max(a: int, b: int): int { if a < b then b else a }

  // ----- one axis

  function BlockSize(n: nat, parts: nat, p: nat): nat
    requires parts > 0
  {
    n / parts + (if p < n % parts then 1 else 0)
  }

  function BlockStart(n: nat, parts: nat, p: nat): nat
    requires parts > 0
  {
    p * (n / parts) + Min(p, n % parts)
  }

  /** Consecutive blocks abut, the first starts at 0 and the last ends at n. */
  lemma BlocksAbut(n: nat, parts: nat, p: nat)
    requires parts > 0
    ensures BlockStart(n, parts, 0) == 0
    ensures BlockStart(n, parts, p + 1) == BlockStart(n, parts, p) + BlockSize(n, parts, p)
    ensures BlockStart(n, parts, parts) == n
  {
    assert (p + 1) * (n / parts) == p * (n / parts) + n / parts;
  }

  lemma {:induction false} StartsGrow(n: nat, parts: nat, p: nat, q: nat)
    requires parts > 0 && p <= q
    ensures BlockStart(n, parts, p) <= BlockStart(n, parts, q)
    ensures p < q ==> BlockStart(n, parts, p) + BlockSize(n, parts, p) <= BlockStart(n, parts, q)
    decreases q - p
  {
    if p < q {
      BlocksAbut(n, parts, p);
      StartsGrow(n, parts, p + 1, q);
    }
  }

  ghost predicate Owns(n: nat, parts: nat, p: nat, g: nat)
    requires parts > 0
  {
    BlockStart(n, parts, p) <= g < BlockStart(n, parts, p) + BlockSize(n, parts, p)
  }

  /** Every cell has exactly one owner. */
  lemma OwnerIsUnique(n: nat, parts: nat, p: nat, q: nat, g: nat)
    requires parts > 0 && Owns(n, parts, p, g) && Owns(n, parts, q, g)
    ensures p == q
  {
    if p < q { StartsGrow(n, parts, p, q); } else if q < p { StartsGrow(n, parts, q, p); }
  }

  lemma {:induction false} OwnerExists(n: nat, parts: nat, g: nat, q: nat) returns (p: nat)
    requires parts > 0 && q <= parts && g < BlockStart(n, parts, q)
    ensures p < q && Owns(n, parts, p, g)
  {
    assert q > 0 by { BlocksAbut(n, parts, 0); }
    BlocksAbut(n, parts, q - 1);
    if g >= BlockStart(n, parts, q - 1) { p := q - 1; } else { p := OwnerExists(n, parts, g, q - 1); }
  }

  /** No block is empty exactly when there are no more parts than cells. */
  lemma NoEmptyBlockIff(n: nat, parts: nat)
    requires parts > 0
    ensures (forall p :: 0 <= p < parts ==> BlockSize(n, parts, p) >= 1) <==> parts <= n
  {
    if parts <= n {
      DivMod(n, parts);
      assert n / parts != 0;
    } else {
      assert n / parts == 0 && n % parts == n;
      assert BlockSize(n, parts, parts - 1) == 0;
    }
  }

  // ----- ranks

  datatype Dir = West | East | South | North

  function Opposite(d: Dir): Dir {
    match d
    case West => East
    case East => West
    case South => North
    case North => South
  }

  const NULL_RANK := -1

  datatype Layout = Layout(nx: nat, ny: nat, px: nat, py: nat) {
    ghost predicate Ok() { px > 0 && py > 0 && px <= nx && py <= ny }
    function Size(): nat { px * py }
    function Pi(r: nat): nat requires px > 0 { r % px }
    function Pj(r: nat): nat requires px > 0 { r / px }
    function RankAt(pi: nat, pj: nat): nat { pj * px + pi }
    function NxLocal(r: nat): nat requires px > 0 { BlockSize(nx, px, Pi(r)) }
    function NyLocal(r: nat): nat requires px > 0 && py > 0 { BlockSize(ny, py, Pj(r)) }
    function I0(r: nat): nat requires px > 0 { BlockStart(nx, px, Pi(r)) }
    function J0(r: nat): nat requires px > 0 && py > 0 { BlockStart(ny, py, Pj(r)) }

    /** The neighbour toward d, or NULL_RANK at the domain edge. */
    function Neighbor(r: nat, d: Dir): int
      requires px > 0
    {
      match d
      case West => if Pi(r) > 0 then r - 1 else NULL_RANK
      case East => if Pi(r) + 1 < px then r + 1 else NULL_RANK
      case South => if Pj(r) > 0 then r - px else NULL_RANK
      case North => if Pj(r) + 1 < py then r + px else NULL_RANK
    }
  }

  lemma RankParts(l: Layout, r: nat)
    requires l.px > 0 && r < l.Size()
    ensures l.Pi(r) < l.px && l.Pj(r) < l.py && l.RankAt(l.Pi(r), l.Pj(r)) == r
  {
    DivMod(r, l.px);
    if l.Pj(r) >= l.py { MulMono(l.py, l.Pj(r), l.px); }
  }

  lemma DivMod(r: nat, p: nat)
    requires p > 0
    ensures r == r / p * p + r % p && r % p < p
  {
  }

  lemma MulMono(a: nat, b: nat, p: nat)
    requires a <= b
    ensures a * p <= b * p
  {
  }

  lemma PartsOf(l: Layout, pi: nat, pj: nat)
    requires l.px > 0 && pi < l.px && pj < l.py
    ensures l.RankAt(pi, pj) < l.Size() && l.Pi(l.RankAt(pi, pj)) == pi && l.Pj(l.RankAt(pi, pj)) == pj
  {
    MulMono(pj + 1, l.py, l.px);
    assert (pj + 1) * l.px == pj * l.px + l.px;
    QuotientOf(pj, l.px, pi);
  }

  lemma QuotientOf(q: nat, p: nat, s: nat)
    requires p > 0 && s < p
    ensures (q * p + s) / p == q && (q * p + s) % p == s
  {
    var x := q * p + s;
    DivMod(x, p);
    if x / p < q { MulMono(x / p + 1, q, p); } else if x / p > q { MulMono(q + 1, x / p, p); }
  }

  /** A neighbour is missing exactly at the edge of the rank layout. */
  lemma MissingAtEdges(l: Layout, r: nat)
    requires l.Ok() && r < l.Size()
    ensures l.Neighbor(r, West) != NULL_RANK <==> l.Pi(r) > 0
    ensures l.Neighbor(r, East) != NULL_RANK <==> l.Pi(r) + 1 < l.px
    ensures l.Neighbor(r, South) != NULL_RANK <==> l.Pj(r) > 0
    ensures l.Neighbor(r, North) != NULL_RANK <==> l.Pj(r) + 1 < l.py
  {
    DivMod(r, l.px);
    if l.Pj(r) > 0 { MulMono(1, l.Pj(r), l.px); }
  }

  /** The neighbour's block lies right next to r's, and looks back at r. */
  lemma NeighborsMirror(l: Layout, r: nat, d: Dir)
    requires l.Ok() && r < l.Size() && l.Neighbor(r, d) != NULL_RANK
    ensures 0 <= l.Neighbor(r, d) < l.Size() && l.Neighbor(l.Neighbor(r, d), Opposite(d)) == r
    ensures var n: nat := l.Neighbor(r, d);
      match d
      case West => l.I0(n) + l.NxLocal(n) == l.I0(r) && l.Pj(n) == l.Pj(r) && l.Pi(n) + 1 == l.Pi(r)
      case East => l.I0(r) + l.NxLocal(r) == l.I0(n) && l.Pj(n) == l.Pj(r) && l.Pi(n) == l.Pi(r) + 1
      case South => l.J0(n) + l.NyLocal(n) == l.J0(r) && l.Pi(n) == l.Pi(r) && l.Pj(n) + 1 == l.Pj(r)
      case North => l.J0(r) + l.NyLocal(r) == l.J0(n) && l.Pi(n) == l.Pi(r) && l.Pj(n) == l.Pj(r) + 1
  {
    RankParts(l, r);
    hide Layout.Pi, Layout.Pj, BlockSize, BlockStart;
    var pi, pj := l.Pi(r), l.Pj(r);
    match d
    case West =>
      PartsOf(l, pi - 1, pj);
      BlocksAbut(l.nx, l.px, pi - 1);
    case East =>
      PartsOf(l, pi + 1, pj);
      BlocksAbut(l.nx, l.px, pi);
    case South =>
      RowAbove(l, pi, pj - 1);
      PartsOf(l, pi, pj - 1);
      BlocksAbut(l.ny, l.py, pj - 1);
    case North =>
      RowAbove(l, pi, pj);
      PartsOf(l, pi, pj + 1);
      BlocksAbut(l.ny, l.py, pj);
  }

  lemma RowAbove(l: Layout, pi: nat, pj: nat)
    ensures l.RankAt(pi, pj + 1) == l.RankAt(pi, pj) + l.px
  {
  }

  /** The blocks partition the domain. */
  lemma CellOwner(l: Layout, j: nat, i: nat) returns (r: nat)
    requires l.Ok() && j < l.ny && i < l.nx
    ensures r < l.Size() && l.J0(r) <= j < l.J0(r) + l.NyLocal(r) && l.I0(r) <= i < l.I0(r) + l.NxLocal(r)
    ensures forall q: nat ::
      q < l.Size() && l.J0(q) <= j < l.J0(q) + l.NyLocal(q) && l.I0(q) <= i < l.I0(q) + l.NxLocal(q) ==> q == r
  {
    BlocksAbut(l.nx, l.px, 0);
    BlocksAbut(l.ny, l.py, 0);
    var pi := OwnerExists(l.nx, l.px, i, l.px);
    var pj := OwnerExists(l.ny, l.py, j, l.py);
    PartsOf(l, pi, pj);
    r := l.RankAt(pi, pj);
    forall q: nat | q < l.Size() && l.J0(q) <= j < l.J0(q) + l.NyLocal(q) && l.I0(q) <= i < l.I0(q) + l.NxLocal(q)
      ensures q == r
    {
      RankParts(l, q);
      OwnerIsUnique(l.nx, l.px, l.Pi(q), pi, i);
      OwnerIsUnique(l.ny, l.py, l.Pj(q), pj, j);
    }
  }

  // ----- choosing the layout (src/core/Grid.cpp:79-145)

  datatype Result<T> = Ok(value: T) | Err(message: string)

  predicate Fits(nx: nat, ny: nat, size: nat, c: nat) { 1 <= c <= size && size % c == 0 && c <= nx && size / c <= ny }

  /** The smaller block extent of a layout with c columns of ranks. */
  function Score(nx: nat, ny: nat, size: nat, c: nat): nat {
    if 1 <= c <= size && size / c > 0 then Min(nx / c, ny / (size / c)) else 0
  }

  /** The fallback search: the first best-scoring factorization that fits, or 0. */
  method BestFit(nx: nat, ny: nat, size: nat) returns (best: nat)
    requires size > 0
    ensures best == 0 <==> forall c: nat :: !Fits(nx, ny, size, c)
    ensures best > 0 ==> Fits(nx, ny, size, best)
    ensures forall c: nat :: Fits(nx, ny, size, c) ==> Score(nx, ny, size, c) <= Score(nx, ny, size, best)
    ensures forall c: nat :: Fits(nx, ny, size, c) && c < best ==> Score(nx, ny, size, c) < Score(nx, ny, size, best)
  {
    hide Score;
    best := 0;
    var bestScore: int := -1;
    for candidate := 1 to size + 1
      invariant best == 0 <==> bestScore == -1
      invariant forall c: nat :: Fits(nx, ny, size, c) && c < candidate ==> Score(nx, ny, size, c) <= bestScore
      invariant best > 0 ==> Fits(nx, ny, size, best) && best < candidate && bestScore == Score(nx, ny, size, best)
      invariant forall c: nat :: Fits(nx, ny, size, c) && c < best ==> Score(nx, ny, size, c) < bestScore
      invariant bestScore >= -1
    {
      if size % candidate != 0 || candidate > nx || size / candidate > ny {
        assert !Fits(nx, ny, size, candidate);
        continue;
      }
      assert Fits(nx, ny, size, candidate);
      var score := Score(nx, ny, size, candidate);
      if score > bestScore {
        bestScore := score;
        best := candidate;
      }
    }
    assert forall c: nat :: Fits(nx, ny, size, c) ==> c < size + 1;
  }

  /** The layout for a request (0 meaning automatic) and MPI_Dims_create's balanced pair. */
  method ChooseDecomposition(nx: nat, ny: nat, size: nat, reqX: int, reqY: int, dims: (nat, nat))
    returns (r: Result<(nat, nat)>)
    requires nx > 0 && ny > 0 && size > 0 && dims.0 * dims.1 == size
    ensures r.Ok? ==> r.value.0 * r.value.1 == size && r.value.0 > 0 && r.value.1 > 0
    ensures r.Ok? && reqX > 0 ==> r.value.0 == reqX
    ensures r.Ok? && reqY > 0 ==> r.value.1 == reqY
    ensures reqX > 0 && reqY > 0 ==> (r.Ok? <==> reqX * reqY == size)
    ensures reqX > 0 && reqY <= 0 ==> (r.Ok? <==> size % reqX == 0)
    ensures reqX <= 0 && reqY > 0 ==> (r.Ok? <==> size % reqY == 0)
    ensures reqX <= 0 && reqY <= 0 ==>
      r.Ok? && ((r.value.0 <= nx && r.value.1 <= ny) <==> exists c: nat :: Fits(nx, ny, size, c))
  {
    if reqX > 0 && reqY > 0 {
      if reqX * reqY != size {
        return Err("decomposition does not match the rank count");
      }
      return Ok((reqX, reqY));
    }
    if reqX > 0 {
      if size % reqX != 0 {
        return Err("mpi_nx does not divide the rank count");
      }
      ExactQuotient(size, reqX);
      return Ok((reqX, size / reqX));
    }
    if reqY > 0 {
      if size % reqY != 0 {
        return Err("mpi_ny does not divide the rank count");
      }
      ExactQuotient(size, reqY);
      return Ok((size / reqY, reqY));
    }
    var large, small: nat := Max(dims.0, dims.1), Min(dims.0, dims.1);
    var px, py := if nx >= ny then large else small, if nx >= ny then small else large;
    assert px * py == size && px > 0 && py > 0 by { PositiveFactors(dims.0, dims.1, size); }
    if px > nx || py > ny {
      var best := BestFit(nx, ny, size);
      if best > 0 {
        ExactQuotient(size, best);
        return Ok((best, size / best));
      }
    } else {
      FactorDivides(px, py, size);
      assert Fits(nx, ny, size, px);
    }
    return Ok((px, py));
  }

  lemma PositiveFactors(a: nat, b: nat, size: nat)
    requires a * b == size && size > 0
    ensures a > 0 && b > 0 && b * a == size
  {
  }

  lemma ExactQuotient(size: nat, c: nat)
    requires size > 0 && c > 0 && size % c == 0
    ensures c * (size / c) == size && (size / c) * c == size && size / c > 0
  {
  }

  lemma {:induction false} FactorDivides(a: nat, b: nat, size: nat)
    requires a > 0 && b > 0 && a * b == size
    ensures size % a == 0 && size / a == b && 1 <= a <= size
  {
    QuotientOf(b, a, 0);
    assert b * a == size;
    MulMono(1, b, a);
  }
}
