/** The subsurface columns of the mesh (src/gw/TerrainMetric.cpp:160-290): partial cells at the bed
    under fixed interfaces, layers scaled between the bed and the box bottom, and the configured layers
    hung from the bed. */
module LayerMesh {

  const SLACK := 0.00001
  const QUARTER := 0.25

  /** The configured layers, top to bottom, under the box top. */
  datatype Profile = Profile(boxTop: real, dz: seq<real>) {
    ghost predicate Ok() { |dz| >= 1 && forall k :: 0 <= k < |dz| ==> dz[k] > 0.0 }
    function Layers(): nat { |dz| }

    /** The bottom of the first n layers. */
    function Interface(n: nat): real
      requires n <= |dz|
    {
      if n == 0 then boxTop else Interface(n - 1) - dz[n - 1]
    }
    function BoxBottom(): real { Interface(|dz|) }
  }

  lemma {:induction false} InterfacesFall(p: Profile, m: nat, n: nat)
    requires p.Ok() && m <= n <= p.Layers()
    ensures p.Interface(n) <= p.Interface(m) && (m < n ==> p.Interface(n) <= p.Interface(m) - p.dz[m])
    decreases n
  {
    if m < n { InterfacesFall(p, m, n - 1); }
  }

  // ----- what the bed does to a column

  /** Layer k reaches below the bed. */
  predicate Reaches(p: Profile, bed: real, k: nat)
    requires k < p.Layers()
  {
    p.Interface(k + 1) < bed - SLACK
  }

  /** The first such layer from k on, or the layer count. */
  function FirstReaching(p: Profile, bed: real, k: nat): (c: nat)
    requires k <= p.Layers()
    ensures k <= c <= p.Layers() && (c < p.Layers() ==> Reaches(p, bed, c))
    ensures forall m: nat :: k <= m < c ==> !Reaches(p, bed, m)
    decreases p.Layers() - k
  {
    if k == p.Layers() || Reaches(p, bed, k) then k else FirstReaching(p, bed, k + 1)
  }

  /** The bed crosses layer k. */
  predicate Crossed(p: Profile, bed: real, k: nat)
    requires k < p.Layers()
  {
    Reaches(p, bed, k) && bed - p.Interface(k + 1) <= p.dz[k]
  }
  predicate Thin(p: Profile, bed: real, k: nat)
    requires k < p.Layers()
  {
    bed - p.Interface(k + 1) < QUARTER * p.dz[k]
  }

  /** The crossed layer is too thin and has one below to merge into. */
  predicate Merged(p: Profile, bed: real, k: nat)
    requires k < p.Layers()
  {
    Crossed(p, bed, k) && Thin(p, bed, k) && k + 1 < p.Layers()
  }

  function Cut(p: Profile, bed: real): nat { FirstReaching(p, bed, 0) }
  function Ktop(p: Profile, bed: real): nat {
    if Cut(p, bed) < p.Layers() && Merged(p, bed, Cut(p, bed)) then Cut(p, bed) + 1 else Cut(p, bed)
  }

  /** A layer's thickness. */
  function Thickness(p: Profile, bed: real, k: nat): real
    requires k < p.Layers()
  {
    if Crossed(p, bed, k) && !Thin(p, bed, k) then bed - p.Interface(k + 1)
    else if k > 0 && Merged(p, bed, k - 1) then p.dz[k] + (bed - p.Interface(k))
    else p.dz[k]
  }

  /** A layer's bottom. */
  function LayerBottom(p: Profile, bed: real, k: nat): real
    requires k < p.Layers()
  {
    if !Reaches(p, bed, k) && p.Interface(k + 1) - bed < p.dz[k] then bed else p.Interface(k + 1)
  }

  /** Layers reach below the bed from the first one on, and only that one can be crossed. */
  lemma ReachingIsSuffix(p: Profile, bed: real)
    requires p.Ok()
    ensures forall k: nat :: k < p.Layers() ==> (Reaches(p, bed, k) <==> Cut(p, bed) <= k)
    ensures forall k: nat :: k < p.Layers() && Crossed(p, bed, k) ==> k == Cut(p, bed)
  {
    forall k: nat | k < p.Layers()
      ensures Reaches(p, bed, k) <==> Cut(p, bed) <= k
      ensures Crossed(p, bed, k) ==> k == Cut(p, bed)
    {
      var c := Cut(p, bed);
      if c <= k {
        InterfacesFall(p, c + 1, k + 1);
        assert p.Interface(k + 1) == p.Interface(k) - p.dz[k];
        if c < k { InterfacesFall(p, c + 1, k); }
      }
    }
  }

  // ----- one column, as the program builds it

  /** The nominal layers. */
  method Nominal(p: Profile, dz: array<real>, bot: array<real>)
    requires dz.Length == bot.Length == p.Layers() && dz != bot
    modifies dz, bot
    ensures forall m: nat :: m < p.Layers() ==> dz[m] == p.dz[m] && bot[m] == p.Interface(m + 1)
  {
    var level := p.boxTop;
    for k: nat := 0 to p.Layers()
      invariant level == p.Interface(k)
      invariant forall m: nat :: m < k ==> dz[m] == p.dz[m] && bot[m] == p.Interface(m + 1)
    {
      level := level - p.dz[k];
      bot[k] := level;
      dz[k] := p.dz[k];
    }
  }

  /** What a layer gains from a merge above. */
  function Gain(p: Profile, bed: real, k: nat): real
    requires k < p.Layers()
  {
    if k > 0 && Merged(p, bed, k - 1) then bed - p.Interface(k) else 0.0
  }

  predicate Stays(p: Profile, bed: real, k: nat)
    requires k < p.Layers()
  {
    Reaches(p, bed, k) && !Merged(p, bed, k)
  }

  /** Layers before k are done, layer k may have gained, the rest is nominal. */
  ghost predicate Progress(p: Profile, bed: real, dz: seq<real>, bot: seq<real>, active: seq<bool>, k: nat)
    requires p.Ok()
  {
    && |dz| == |bot| == |active| == p.Layers()
    && (forall m: nat :: m < k && m < p.Layers() ==> dz[m] == Thickness(p, bed, m) && bot[m] == LayerBottom(p, bed, m))
    && (forall m: nat :: m < k && m < p.Layers() ==> (active[m] <==> Stays(p, bed, m)))
    && (k < p.Layers() ==> dz[k] == p.dz[k] + Gain(p, bed, k))
    && (forall m: nat :: k < m < p.Layers() ==> dz[m] == p.dz[m])
    && (forall m: nat :: k <= m < p.Layers() ==> bot[m] == p.Interface(m + 1))
  }

  ghost function GainBelow(p: Profile, bed: real, dz: seq<real>, k: nat): seq<real>
    requires |dz| == p.Layers()
  {
    if k < p.Layers() then dz[k := p.dz[k] + Gain(p, bed, k)] else dz
  }

  lemma ProgressNext(p: Profile, bed: real, dz: seq<real>, bot: seq<real>, active: seq<bool>, k: nat)
    requires p.Ok() && k < p.Layers() && Progress(p, bed, dz, bot, active, k)
    ensures Progress(p, bed, GainBelow(p, bed, dz[k := Thickness(p, bed, k)], k + 1), bot[k := LayerBottom(p, bed, k)],
                     active[k := Stays(p, bed, k)], k + 1)
  {
    hide Profile.Interface, Thickness, LayerBottom, Stays, Gain;
  }

  /** One layer's turn in the bed-crossing pass; the result is whether it merged. */
  method CutLayer(p: Profile, bed: real, dz: array<real>, bot: array<real>, active: array<bool>, k: nat)
    returns (ghost merged: bool)
    requires p.Ok() && dz.Length == bot.Length == active.Length == p.Layers() && dz != bot && k < p.Layers()
    requires bot[k] == p.Interface(k + 1) && dz[k] == p.dz[k] + Gain(p, bed, k)
             && (k + 1 < p.Layers() ==> dz[k + 1] == p.dz[k + 1])
    modifies dz, bot, active
    ensures dz[..] == GainBelow(p, bed, old(dz[..])[k := Thickness(p, bed, k)], k + 1)
    ensures bot[..] == old(bot[..])[k := LayerBottom(p, bed, k)] && active[..] == old(active[..])[k := Stays(p, bed, k)]
    ensures merged <==> Merged(p, bed, k)
  {
    LayerCases(p, bed, k);
    NextGain(p, bed, k);
    hide Profile.Interface, Reaches, Crossed, Merged, Stays, Thickness, LayerBottom, Gain, Cut;
    merged := false;
    if bot[k] >= bed - SLACK {
      active[k] := false;
      if bot[k] - bed < p.dz[k] { bot[k] := bed; }
    } else {
      active[k] := true;
      if bed - bot[k] <= p.dz[k] {
        if bed - bot[k] >= QUARTER * p.dz[k] {
          dz[k] := bed - bot[k];
        } else if k + 1 < p.Layers() {
          active[k] := false;
          dz[k + 1] := dz[k + 1] + (bed - bot[k]);
          merged := true;
        }
      }
    }
  }

  lemma NextGain(p: Profile, bed: real, k: nat)
    requires p.Ok() && k < p.Layers()
    ensures k + 1 < p.Layers() ==> Gain(p, bed, k + 1) == if Merged(p, bed, k) then bed - p.Interface(k + 1) else 0.0
    ensures k == 0 ==> Gain(p, bed, k) == 0.0
  {
  }

  /** The column's layers in place: thicknesses, bottoms, activity, and the first active layer.
      How often the merge rule fired is counted on the side. */
  method RegularColumn(p: Profile, bed: real, dz: array<real>, bot: array<real>, active: array<bool>)
    returns (ktop: nat, ghost merges: nat)
    requires p.Ok() && dz.Length == bot.Length == active.Length == p.Layers() && dz != bot
    modifies dz, bot, active
    ensures forall k: nat :: k < p.Layers() ==> dz[k] == Thickness(p, bed, k) && bot[k] == LayerBottom(p, bed, k)
    ensures forall k: nat :: k < p.Layers() ==> (active[k] <==> ktop <= k)
    ensures ktop == Ktop(p, bed) && merges <= 1
  {
    var nz := p.Layers();
    Nominal(p, dz, bot);
    merges := 0;
    NextGain(p, bed, 0);
    assert Progress(p, bed, dz[..], bot[..], active[..], 0);
    hide *;
    for k: nat := 0 to nz
      invariant merges <= 1 && (merges == 1 ==> k > Cut(p, bed))
      invariant Progress(p, bed, dz[..], bot[..], active[..], k)
    {
      LayerCases(p, bed, k);
      ProgressAt(p, bed, dz[..], bot[..], active[..], k);
      ProgressNext(p, bed, dz[..], bot[..], active[..], k);
      ghost var merged := CutLayer(p, bed, dz, bot, active, k);
      if merged { merges := merges + 1; }
    }
    ProgressDone(p, bed, dz[..], bot[..], active[..]);
    ActiveIsSuffix(p, bed);
    ktop := FindTop(active);
    assert Ktop(p, bed) < nz ==> active[Ktop(p, bed)];
  }

  lemma ProgressAt(p: Profile, bed: real, dz: seq<real>, bot: seq<real>, active: seq<bool>, k: nat)
    requires p.Ok() && k < p.Layers() && Progress(p, bed, dz, bot, active, k)
    ensures |dz| == |bot| == |active| == p.Layers()
    ensures bot[k] == p.Interface(k + 1) && dz[k] == p.dz[k] + Gain(p, bed, k)
            && (k + 1 < p.Layers() ==> dz[k + 1] == p.dz[k + 1])
  {
  }

  lemma ProgressDone(p: Profile, bed: real, dz: seq<real>, bot: seq<real>, active: seq<bool>)
    requires p.Ok() && Progress(p, bed, dz, bot, active, p.Layers())
    ensures |dz| == |bot| == |active| == p.Layers()
    ensures forall k: nat :: k < p.Layers() ==> dz[k] == Thickness(p, bed, k) && bot[k] == LayerBottom(p, bed, k)
    ensures forall k: nat :: k < p.Layers() ==> (active[k] <==> Stays(p, bed, k))
  {
  }

  /** The first active layer, or the layer count. */
  method FindTop(active: array<bool>) returns (top: nat)
    ensures top <= active.Length && (top < active.Length ==> active[top]) && forall m: nat :: m < top ==> !active[m]
  {
    top := active.Length;
    for k: nat := 0 to active.Length
      invariant top == active.Length && forall m: nat :: m < k ==> !active[m]
    {
      if active[k] { top := k; break; }
    }
  }

  /** What the branches of the pass decide about layer k. */
  lemma LayerCases(p: Profile, bed: real, k: nat)
    requires p.Ok() && k < p.Layers()
    ensures Reaches(p, bed, k) <==> p.Interface(k + 1) < bed - SLACK
    ensures Crossed(p, bed, k) <==> Reaches(p, bed, k) && bed - p.Interface(k + 1) <= p.dz[k]
    ensures Crossed(p, bed, k) ==> k == Cut(p, bed)
    ensures Merged(p, bed, k) <==> Crossed(p, bed, k) && bed - p.Interface(k + 1) < QUARTER * p.dz[k]
                                   && k + 1 < p.Layers()
    ensures k > 0 && Merged(p, bed, k - 1) ==> !Crossed(p, bed, k)
    ensures Stays(p, bed, k) <==> Reaches(p, bed, k) && !Merged(p, bed, k)
    ensures Thickness(p, bed, k)
            == if Crossed(p, bed, k) && bed - p.Interface(k + 1) >= QUARTER * p.dz[k] then bed - p.Interface(k + 1)
               else p.dz[k] + Gain(p, bed, k)
    ensures LayerBottom(p, bed, k) == if !Reaches(p, bed, k) && p.Interface(k + 1) - bed < p.dz[k] then bed
            else p.Interface(k + 1)
  {
    ReachingIsSuffix(p, bed);
    hide FirstReaching;
  }

  lemma ActiveIsSuffix(p: Profile, bed: real)
    requires p.Ok()
    ensures Ktop(p, bed) <= p.Layers()
    ensures forall k: nat :: k < p.Layers() ==> (Stays(p, bed, k) <==> Ktop(p, bed) <= k)
  {
    ReachingIsSuffix(p, bed);
    hide FirstReaching;
  }

  // ----- how much soil a column holds

  /** The thickness of the layers from k down. */
  function Depth(p: Profile, bed: real, k: nat): real
    requires k <= p.Layers()
    decreases p.Layers() - k
  {
    if k == p.Layers() then 0.0 else Thickness(p, bed, k) + Depth(p, bed, k + 1)
  }

  /** The active layers' thickness. */
  ghost function ActiveDepth(p: Profile, bed: real): real
    requires p.Ok()
  {
    ActiveIsSuffix(p, bed);
    Depth(p, bed, Ktop(p, bed))
  }

  /** Below the cut and the layer it may have merged into, layers are nominal. */
  lemma {:induction false} NominalBelow(p: Profile, bed: real, k: nat)
    requires p.Ok() && k <= p.Layers() && k > Ktop(p, bed)
    ensures Depth(p, bed, k) == p.Interface(k) - p.BoxBottom()
    decreases p.Layers() - k
  {
    if k < p.Layers() {
      NominalBelow(p, bed, k + 1);
      LayerCases(p, bed, k);
      LayerCases(p, bed, k - 1);
      hide Crossed, Merged, Thickness, Cut;
    }
  }

  /** The bed lies in the slack or the lowest quarter of the last layer: too little soil to cut. */
  predicate Scant(p: Profile, bed: real)
    requires |p.dz| >= 1
  {
    SLACK < bed - p.BoxBottom() < QUARTER * p.dz[p.Layers() - 1]
  }

  /** The active depth is the top layer's thickness and the nominal layers under it. */
  lemma TopAndRest(p: Profile, bed: real)
    requires p.Ok() && Ktop(p, bed) < p.Layers()
    ensures ActiveDepth(p, bed) == Thickness(p, bed, Ktop(p, bed)) + p.Interface(Ktop(p, bed) + 1) - p.BoxBottom()
  {
    DepthStep(p, bed, Ktop(p, bed));
    NominalBelow(p, bed, Ktop(p, bed) + 1);
  }

  /** What the layer at the cut adds up to. */
  lemma CutCases(p: Profile, bed: real)
    requires p.Ok() && bed <= p.boxTop && Cut(p, bed) < p.Layers()
    ensures Ktop(p, bed) < p.Layers()
    ensures Merged(p, bed, Cut(p, bed)) ==> ActiveDepth(p, bed) == bed - p.BoxBottom()
    ensures Crossed(p, bed, Cut(p, bed)) && !Thin(p, bed, Cut(p, bed)) ==> ActiveDepth(p, bed) == bed - p.BoxBottom()
    ensures !Crossed(p, bed, Cut(p, bed)) ==> bed - SLACK - p.BoxBottom() <= ActiveDepth(p, bed) < bed - p.BoxBottom()
    ensures Crossed(p, bed, Cut(p, bed)) && Thin(p, bed, Cut(p, bed)) && Cut(p, bed) == p.Layers() - 1 ==>
      ActiveDepth(p, bed) == p.dz[p.Layers() - 1]
  {
    ReachingIsSuffix(p, bed);
    TopAndRest(p, bed);
    var c := Cut(p, bed);
    LayerCases(p, bed, c);
    LayerCases(p, bed, Ktop(p, bed));
    assert p.Interface(c + 1) == p.Interface(c) - p.dz[c];
    assert Ktop(p, bed) == c + 1 ==> p.Interface(c + 2) == p.Interface(c + 1) - p.dz[c + 1];
    if c > 0 {
      LayerCases(p, bed, c - 1);
      assert !Reaches(p, bed, c - 1);
    } else {
      assert p.Interface(0) == p.boxTop;
    }
    hide ActiveDepth, Thickness, FirstReaching, Reaches;
  }

  lemma DepthCases(p: Profile, bed: real)
    requires p.Ok() && bed <= p.boxTop
    ensures bed - p.BoxBottom() <= SLACK ==> ActiveDepth(p, bed) == 0.0
    ensures Scant(p, bed) ==> ActiveDepth(p, bed) == p.dz[p.Layers() - 1]
    ensures bed - p.BoxBottom() > SLACK && !Scant(p, bed) ==>
      bed - p.BoxBottom() - SLACK <= ActiveDepth(p, bed) <= bed - p.BoxBottom()
  {
    ReachingIsSuffix(p, bed);
    var last := p.Layers() - 1;
    assert p.Interface(last + 1) == p.Interface(last) - p.dz[last];
    assert Reaches(p, bed, last) <==> bed - p.BoxBottom() > SLACK;
    var c := Cut(p, bed);
    if c < p.Layers() {
      CutCases(p, bed);
      assert c > 0 ==> !Reaches(p, bed, c - 1);
      if c < last { InterfacesFall(p, c + 1, last); }
    } else {
      assert Ktop(p, bed) == p.Layers();
    }
  }

  lemma DepthStep(p: Profile, bed: real, k: nat)
    requires k < p.Layers()
    ensures Depth(p, bed, k) == Thickness(p, bed, k) + Depth(p, bed, k + 1)
  {
  }

  /** Main result: a column's active layers add up to the bed's height over the box bottom, to
      within the slack, exactly when the bed is not below the box and not within its scant last
      quarter layer. */
  lemma DepthIsBedHeightIff(p: Profile, bed: real)
    requires p.Ok() && bed <= p.boxTop
    ensures -SLACK <= ActiveDepth(p, bed) - (bed - p.BoxBottom()) <= SLACK <==>
              bed >= p.BoxBottom() - SLACK && !Scant(p, bed)
  {
    DepthCases(p, bed);
    hide ActiveDepth, Profile.Interface;
  }

  /** Active layers stack: each hangs from the bottom of the one above it. */
  lemma LayersStack(p: Profile, bed: real, k: nat)
    requires p.Ok() && Ktop(p, bed) < k < p.Layers()
    ensures LayerBottom(p, bed, k - 1) - LayerBottom(p, bed, k) == Thickness(p, bed, k)
  {
    ActiveIsSuffix(p, bed);
    LayerCases(p, bed, k - 1);
    LayerCases(p, bed, k);
    assert Stays(p, bed, k - 1) && Stays(p, bed, k);
    assert p.Interface(k + 1) == p.Interface(k) - p.dz[k];
    assert k > Cut(p, bed);
    hide Thickness, LayerBottom, FirstReaching;
  }

  // ----- layers that follow the bed

  /** The k-th power of the stretch, and the sum of the first n. */
  function Weight(stretch: real, k: nat): real { if k == 0 then 1.0 else Weight(stretch, k - 1) * stretch }
  function Weights(stretch: real, n: nat): real {
    if n == 0 then 0.0 else Weights(stretch, n - 1) + Weight(stretch, n - 1)
  }

  lemma {:induction false} WeightsPositive(stretch: real, n: nat)
    requires stretch > 0.0
    ensures Weight(stretch, n) > 0.0 && Weights(stretch, n) >= 0.0 && (n > 0 ==> Weights(stretch, n) > 0.0)
  {
    if n > 0 {
      WeightsPositive(stretch, n - 1);
      Positive(Weight(stretch, n - 1), stretch);
    }
  }

  lemma Positive(x: real, y: real)
    requires x > 0.0 && y > 0.0
    ensures x * y > 0.0
  {
  }

  function Scaled(x: real, y: real): real { x * y }

  function Total(dz: seq<real>): real { if dz == [] then 0.0 else Total(dz[..|dz| - 1]) + dz[|dz| - 1] }

  /** Layer k is the first layer scaled by the k-th weight, its bottom all weights to k + 1 down. */
  ghost predicate Geometric(d: real, b: real, bed: real, first: real, stretch: real, k: nat) {
    d == Scaled(first, Weight(stretch, k)) && b == bed - Scaled(first, Weights(stretch, k + 1))
  }

  /** A scaled column: the layers fill the height from the bed to the box bottom, hang from the bed
      one under the other, and grow by the stretch. */
  ghost predicate Fills(dz: seq<real>, bot: seq<real>, bed: real, boxBottom: real, stretch: real)
    requires |dz| == |bot| >= 1
  {
    && Total(dz) == bed - boxBottom && bot[|bot| - 1] == boxBottom
    && (forall k: nat :: k < |dz| ==> bot[k] == bed - Total(dz[..k + 1]))
    && (forall k: nat, m: nat :: m == k + 1 && m < |dz| ==> dz[m] == Scaled(dz[k], stretch))
    && (bed > boxBottom ==> forall k: nat :: k < |dz| ==> dz[k] > 0.0)
  }

  /** A scaled column; true for a bed that leaves no room above the box bottom. */
  method ScaledColumn(bed: real, boxBottom: real, stretch: real, dz: array<real>, bot: array<real>)
    returns (shallow: bool)
    requires dz.Length == bot.Length >= 1 && dz != bot && stretch > 0.0
    modifies dz, bot
    ensures shallow <==> bed <= boxBottom
    ensures Fills(dz[..], bot[..], bed, boxBottom, stretch)
  {
    shallow := bed <= boxBottom;
    ghost var first := FillScaled(bed, boxBottom, stretch, dz, bot);
    hide *;
    GeometricFills(dz[..], bot[..], bed, boxBottom, first, stretch);
  }

  lemma GeometricFills(dz: seq<real>, bot: seq<real>, bed: real, boxBottom: real, first: real, stretch: real)
    requires |dz| == |bot| >= 1 && stretch > 0.0 && forall k: nat :: k < |dz| ==>
               Geometric(dz[k], bot[k], bed, first, stretch, k)
    requires Scaled(first, Weights(stretch, |dz|)) == bed - boxBottom && (bed > boxBottom ==> first > 0.0)
    ensures Fills(dz, bot, bed, boxBottom, stretch)
  {
    hide Scaled, Weight, Weights, Total;
    assert forall k: nat :: k < |dz| ==> Geometric(dz[k], bot[k], bed, first, stretch, k)
                                         && dz[k] == Scaled(first, Weight(stretch, k));
    forall k: nat | k < |dz| ensures bot[k] == bed - Total(dz[..k + 1]) { ScaledTotals(dz, first, stretch, k + 1); }
    assert dz[..|dz|] == dz && Geometric(dz[|dz| - 1], bot[|dz| - 1], bed, first, stretch, |dz| - 1);
    ScaledTotals(dz, first, stretch, |dz|);
    LayersScale(dz, first, stretch);
  }

  lemma LayersScale(dz: seq<real>, first: real, stretch: real)
    requires stretch > 0.0 && forall k: nat :: k < |dz| ==> dz[k] == Scaled(first, Weight(stretch, k))
    ensures forall k: nat, m: nat :: m == k + 1 && m < |dz| ==> dz[m] == Scaled(dz[k], stretch)
    ensures first > 0.0 ==> forall k: nat :: k < |dz| ==> dz[k] > 0.0
  {
    hide Scaled, Weight;
    forall k: nat, m: nat | m == k + 1 && m < |dz|
      ensures dz[m] == Scaled(dz[k], stretch)
    {
      NextWeight(first, stretch, k);
    }
    if first > 0.0 {
      forall k: nat | k < |dz| ensures dz[k] > 0.0 {
        WeightsPositive(stretch, k);
        ScaledPositive(first, Weight(stretch, k));
      }
    }
  }

  /** The layer loop, downward from the bed. */
  method FillScaled(bed: real, boxBottom: real, stretch: real, dz: array<real>, bot: array<real>)
    returns (ghost first: real)
    requires dz.Length == bot.Length >= 1 && dz != bot && stretch > 0.0
    modifies dz, bot
    ensures Scaled(first, Weights(stretch, dz.Length)) == bed - boxBottom && (bed > boxBottom ==> first > 0.0)
    ensures forall k: nat :: k < dz.Length ==> Geometric(dz[k], bot[k], bed, first, stretch, k)
  {
    var increSum := SumOfWeights(stretch, dz.Length);
    WeightsPositive(stretch, dz.Length);
    var d, b := FirstLayer(bed - boxBottom, increSum), bed;
    first := d;
    FirstSign(bed - boxBottom, increSum);
    NoWeight(stretch);
    hide FirstLayer, Scaled, Weight, Weights;
    for k: nat := 0 to dz.Length
      invariant d == Scaled(first, Weight(stretch, k)) && b == bed - Scaled(first, Weights(stretch, k))
      invariant forall m: nat :: m < k ==> Geometric(dz[m], bot[m], bed, first, stretch, m)
    {
      NextWeight(first, stretch, k);
      b := b - d;
      dz[k] := d;
      bot[k] := b;
      d := Scaled(d, stretch);
    }
  }

  method SumOfWeights(stretch: real, nz: nat) returns (increSum: real)
    ensures increSum == Weights(stretch, nz)
  {
    increSum := 0.0;
    var weight := 1.0;
    for k: nat := 0 to nz
      invariant increSum == Weights(stretch, k) && weight == Weight(stretch, k)
    {
      increSum := increSum + weight;
      weight := weight * stretch;
    }
  }

  lemma {:induction false} ScaledTotals(dz: seq<real>, first: real, stretch: real, n: nat)
    requires n <= |dz| && forall k: nat :: k < |dz| ==> dz[k] == Scaled(first, Weight(stretch, k))
    ensures Total(dz[..n]) == Scaled(first, Weights(stretch, n))
  {
    if n > 0 {
      ScaledTotals(dz, first, stretch, n - 1);
      assert dz[..n][..n - 1] == dz[..n - 1];
      NextWeight(first, stretch, n - 1);
      hide Scaled, Weight, Weights;
    } else {
      assert Scaled(first, 0.0) == 0.0;
    }
  }

  lemma ScaledPositive(x: real, y: real)
    requires x > 0.0 && y > 0.0
    ensures Scaled(x, y) > 0.0
  {
  }

  function FirstLayer(height: real, sum: real): real
    requires sum > 0.0
  {
    height / sum
  }

  lemma FirstSign(height: real, sum: real)
    requires sum > 0.0
    ensures var first := FirstLayer(height, sum);
      Scaled(first, sum) == height && (height > 0.0 ==> first > 0.0) && Scaled(first, 1.0) == first
        && Scaled(first, 0.0) == 0.0
  {
  }

  lemma NoWeight(stretch: real)
    ensures Weight(stretch, 0) == 1.0 && Weights(stretch, 0) == 0.0
  {
  }

  lemma NextWeight(x: real, stretch: real, k: nat)
    ensures Scaled(x, Weights(stretch, k + 1)) == Scaled(x, Weights(stretch, k)) + Scaled(x, Weight(stretch, k))
    ensures Scaled(x, Weight(stretch, k + 1)) == Scaled(Scaled(x, Weight(stretch, k)), stretch)
  {
    ScaledSum(x, Weights(stretch, k), Weight(stretch, k), stretch);
  }

  lemma ScaledSum(x: real, sum: real, weight: real, stretch: real)
    ensures Scaled(x, sum + weight) == Scaled(x, sum) + Scaled(x, weight)
    ensures Scaled(x, weight * stretch) == Scaled(Scaled(x, weight), stretch)
  {
  }

  // ----- uniform layers, hung from the bed

  /** The interface under n layers lies their total thickness under the box top. */
  lemma {:induction false} InterfaceIsTotal(p: Profile, n: nat)
    requires n <= p.Layers()
    ensures p.Interface(n) == p.boxTop - Total(p.dz[..n])
  {
    if n > 0 {
      InterfaceIsTotal(p, n - 1);
      assert p.dz[..n][..n - 1] == p.dz[..n - 1];
    }
  }

  /** A uniform column: the configured layers, every interface as far below the bed as the box has it
      below its top. */
  ghost predicate Parallel(p: Profile, bed: real, dz: seq<real>, bot: seq<real>) {
    && dz == p.dz && |bot| == |dz| && forall k: nat :: k < |dz| ==> bed - bot[k] == p.boxTop - p.Interface(k + 1)
  }

  method UniformColumn(p: Profile, bed: real, dz: array<real>, bot: array<real>)
    requires dz.Length == bot.Length == p.Layers() && dz != bot
    modifies dz, bot
    ensures Parallel(p, bed, dz[..], bot[..])
  {
    var b := bed;
    for k: nat := 0 to dz.Length
      invariant b == bed - (p.boxTop - p.Interface(k))
      invariant forall m: nat :: m < k ==> dz[m] == p.dz[m] && bed - bot[m] == p.boxTop - p.Interface(m + 1)
    {
      b := b - p.dz[k];
      dz[k] := p.dz[k];
      bot[k] := b;
    }
  }

  /** Over any bed a uniform column holds the box's whole depth, its layers hang from the bed one under
      the other, and two columns' interfaces are parallel: they differ by what the beds do. */
  lemma UniformHangs(p: Profile, bed: real, dz: seq<real>, bot: seq<real>, bed': real, dz': seq<real>, bot': seq<real>)
    requires p.Ok() && Parallel(p, bed, dz, bot) && Parallel(p, bed', dz', bot')
    ensures Total(dz) == p.boxTop - p.BoxBottom() > 0.0 && bot[|bot| - 1] == bed - (p.boxTop - p.BoxBottom())
    ensures forall k: nat :: k < |dz| ==> bot[k] == bed - Total(dz[..k + 1]) && bot[k] - bot'[k] == bed - bed'
  {
    InterfacesFall(p, 0, p.Layers());
    InterfaceIsTotal(p, p.Layers());
    assert p.dz[..|p.dz|] == p.dz;
    forall k: nat | k < |dz| ensures bot[k] == bed - Total(dz[..k + 1]) && bot[k] - bot'[k] == bed - bed' {
      InterfaceIsTotal(p, k + 1);
    }
  }

  /** One column of a mesh that follows the terrain; false, the mesh being refused, for a scaled column
      without room above the box bottom. */
  method TerrainColumn(p: Profile, uniform: bool, stretch: real, bed: real, dz: array<real>, bot: array<real>)
    returns (ok: bool)
    requires p.Ok() && dz.Length == bot.Length == p.Layers() && dz != bot && stretch > 0.0
    modifies dz, bot
    ensures ok <==> uniform || bed > p.BoxBottom()
    ensures if uniform then Parallel(p, bed, dz[..], bot[..]) else Fills(dz[..], bot[..], bed, p.BoxBottom(), stretch)
  {
    ok := true;
    if uniform {
      UniformColumn(p, bed, dz, bot);
    } else {
      var shallow := ScaledColumn(bed, p.BoxBottom(), stretch, dz, bot);
      ok := !shallow;
    }
  }
}
