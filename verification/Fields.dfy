/** Arrays as values: the contents of a field at one moment, and the sum of a quantity over a
    block's interior cells. */
module Fields {
  import opened Sums

  /** The contents of a; `pad` stands for positions outside the array. */
  function Snap3<T>(a: array3<T>, pad: T): (f: (int, int, int) -> T)
    reads a
    ensures forall j, i, k :: 0 <= j < a.Length0 && 0 <= i < a.Length1 && 0 <= k < a.Length2 ==>
              f(j, i, k) == a[j, i, k]
  {
    var s := seq(a.Length0, j requires 0 <= j < a.Length0 reads a =>
               seq(a.Length1, i requires 0 <= i < a.Length1 reads a =>
                 seq(a.Length2, k requires 0 <= k < a.Length2 reads a => a[j, i, k])));
    (j, i, k) =>
      if 0 <= j < |s| then
        if 0 <= i < |s[j]| then
          if 0 <= k < |s[j][i]| then s[j][i][k] else pad
        else pad
      else pad
  }

  function Snap2<T>(a: array2<T>, pad: T): (f: (int, int) -> T)
    reads a
    ensures forall j, i :: f(j, i) == if 0 <= j < a.Length0 && 0 <= i < a.Length1 then a[j, i] else pad
  {
    var s := seq(a.Length0, j requires 0 <= j < a.Length0 reads a =>
               seq(a.Length1, i requires 0 <= i < a.Length1 reads a => a[j, i]));
    (j, i) =>
      if 0 <= j < |s| then
        if 0 <= i < |s[j]| then s[j][i] else pad
      else pad
  }

  /** A reduction over the interior cells: the triple loop over rows, columns and layers. */
  method Reduce3(b: Box, f: Field3) returns (sum: real)
    ensures sum == Sum3(b, f)
  {
    sum := 0.0;
    ghost var cols := (j, i) => ColumnSum(b, f, j, i);
    for j := 1 to b.ny + 1
      invariant sum == Sum(1, j, j' => RowSum(b, cols, j'))
    {
      ghost var rows := sum;
      for i := 1 to b.nx + 1
        invariant sum == rows + Sum(1, i, i' => cols(j, i'))
      {
        ghost var before := sum;
        for k := 0 to b.nz
          invariant sum == before + Sum(0, k, k' => f(j, i, k'))
        {
          sum := sum + f(j, i, k);
        }
      }
    }
  }

  method Reduce2(b: Box, f: Field2) returns (sum: real)
    ensures sum == Sum2(b, f)
  {
    sum := 0.0;
    for j := 1 to b.ny + 1
      invariant sum == Sum(1, j, j' => RowSum(b, f, j'))
    {
      ghost var rows := sum;
      for i := 1 to b.nx + 1
        invariant sum == rows + Sum(1, i, i' => f(j, i'))
      {
        sum := sum + f(j, i);
      }
    }
  }
}
