/** The first phase of the post-allocation step (src/gw/Reallocate.cpp:115-301): the
    six-direction gradient split, and what becomes of one cell. */
module Surplus {

  import opened Retention

  // ----- the gradient split

  /** Head gradients toward x+, x-, y+, y-, the cell below and the cell above. */
  datatype Gradients = Gradients(xp: real, xm: real, yp: real, ym: real, zp: real, zm: real)

  /** The fractions of a surplus sent up and down; the lateral rest is dropped. */
  datatype Split = Split(up: real, down: real)

  /** The net gradient of an opposite pair, zero when the two disagree in sign. */
  function Net(p: real, m: real): real { if p * m >= 0.0 then 0.5 * (p + m) else 0.0 }

  /** The weight of the pair in the total gradient. */
  function Weight(p: real, m: real): real {
    if p * m >= 0.0 then Abs(0.5 * (p + m)) else Abs(p) + Abs(m)
  }

  function Total(g: Gradients): real { Weight(g.xp, g.xm) + Weight(g.yp, g.ym) + Weight(g.zp, g.zm) }

  function SplitBy(total: real, gradz: real, zp: real, zm: real): Split {
    if total > 0.0 then
      if gradz > 0.0 then Split(gradz / total, 0.0)
      else if gradz < 0.0 then Split(0.0, -gradz / total)
      else Split(Abs(zm) / total, Abs(zp) / total)
    else Split(0.0, 0.0)
  }

  function GradientSplit(g: Gradients): Split { SplitBy(Total(g), Net(g.zp, g.zm), g.zp, g.zm) }

  lemma QuotientBounds(a: real, b: real)
    requires 0.0 <= a <= b && b > 0.0
    ensures 0.0 <= a / b <= 1.0
    ensures a == b ==> a / b == 1.0
  {
  }

  /** The weight of a pair is what its fractions are made of. */
  lemma PairWeight(p: real, m: real)
    ensures Weight(p, m) == if Net(p, m) != 0.0 then Abs(Net(p, m)) else Abs(p) + Abs(m)
    ensures Weight(p, m) >= 0.0
    ensures Weight(p, m) == 0.0 <==> p == 0.0 && m == 0.0
  {
    if p < 0.0 < m { Opposite(p, m); } else if m < 0.0 < p { Opposite(m, p); }
  }

  lemma Opposite(a: real, b: real)
    requires a < 0.0 < b
    ensures a * b < 0.0 && b * a < 0.0
  {
  }

  /** The two fractions never exceed the whole, for any head field; with no lateral gradient
      the whole surplus stays in the column, unless there is no gradient at all. */
  lemma SplitBounds(g: Gradients)
    ensures var s := GradientSplit(g); s.up >= 0.0 && s.down >= 0.0 && s.up + s.down <= 1.0
    ensures g.xp == g.xm == g.yp == g.ym == 0.0 ==>
      GradientSplit(g).up + GradientSplit(g).down == if g.zp == 0.0 && g.zm == 0.0 then 0.0 else 1.0
  {
    PairWeight(g.xp, g.xm);
    PairWeight(g.yp, g.ym);
    PairWeight(g.zp, g.zm);
    SplitByBounds(Total(g), Weight(g.zp, g.zm), Net(g.zp, g.zm), g.zp, g.zm);
  }

  lemma SplitByBounds(total: real, vertical: real, gradz: real, zp: real, zm: real)
    requires 0.0 <= vertical <= total
    requires vertical == if gradz != 0.0 then Abs(gradz) else Abs(zp) + Abs(zm)
    ensures var s := SplitBy(total, gradz, zp, zm); s.up >= 0.0 && s.down >= 0.0 && s.up + s.down <= 1.0
    ensures total == vertical ==> SplitBy(total, gradz, zp, zm).up + SplitBy(total, gradz, zp, zm).down == if vertical
                                  == 0.0 then 0.0 else 1.0
  {
    if total > 0.0 {
      QuotientBounds(vertical, total);
      if gradz == 0.0 {
        QuotientBounds(Abs(zm), total);
        QuotientBounds(Abs(zp), total);
        QuotientSum(Abs(zm), Abs(zp), total);
      }
    }
  }

  lemma QuotientSum(a: real, b: real, c: real)
    requires c > 0.0
    ensures a / c + b / c == (a + b) / c
  {
  }

  // ----- one cell

  /** A cell after the phase: its content, head and pore room, the volumes it sends, and its
      shares of the adjustment and of the discarded volume. */
  datatype Outcome = Outcome(wc: real, h: real, room: real, up: real, down: real, adjusted: real, discarded: real)

  /** The volume between two contents of a cell, and the share of a volume. */
  function Excess(high: real, low: real, vol: real): real { (high - low) * vol }
  function Share(v: real, fraction: real): real { v * fraction }

  /** The split of `surplus`, what is not sent being dropped and booked. */
  function Shed(wc: real, h: real, room: real, surplus: real, split: Split): Outcome {
    var up, down := Share(surplus, split.up), Share(surplus, split.down);
    Outcome(wc, h, room, up, down, -(surplus - up - down), surplus - up - down)
  }

  /** The over-saturated, isolated and saturated-contact cases of the phase. */
  function CellOutcome(pow: Power, soil: VgSoil, vol: real, before: real, h: real, adjSat: bool, split: Split,
                       redistribute: bool): Outcome
    requires soil.vgn != 0.0 && soil.vgn != 1.0 && soil.vga != 0.0
  {
    if before >= soil.thetaS then
      Shed(soil.thetaS, h, 0.0, Excess(before, soil.thetaS, vol), split)
    else if !adjSat then
      Outcome(before, if before < 0.9999 * soil.thetaS then HeadFromWaterContent(pow, soil, before) else h,
              Excess(soil.thetaS, before, vol), 0.0, 0.0, 0.0, 0.0)
    else
      var after := WaterContentFromHead(pow, soil, h);
      var room := Excess(soil.thetaS, after, vol);
      if redistribute && after < before then Shed(after, h, room, Excess(before, after, vol), split)
      else Outcome(after, h, room, 0.0, 0.0, Excess(after, before, vol),
                   if after < before then Excess(before, after, vol) else 0.0)
  }

  /** Whatever the neighbours look like, the cell's water and its outgoing volumes balance
      against the booked adjustment, its room is exactly what is missing to saturation, and
      what it books as discarded is the loss part of the adjustment. */
  lemma OutcomeBalance(pow: Power, soil: VgSoil, vol: real, before: real, h: real, adjSat: bool, g: Gradients,
                       redistribute: bool)
    requires soil.vgn != 0.0 && soil.vgn != 1.0 && soil.vga != 0.0
    requires soil.thetaR <= soil.thetaS && vol > 0.0
    ensures Balanced(soil, vol, before, CellOutcome(pow, soil, vol, before, h, adjSat, GradientSplit(g), redistribute))
  {
    SplitBounds(g);
    hide GradientSplit, WaterContentFromHead, HeadFromWaterContent;
    if before >= soil.thetaS {
      ShedBalance(soil, vol, before, soil.thetaS, h, 0.0, GradientSplit(g));
    } else if adjSat {
      var after := WaterContentFromHead(pow, soil, h);
      if redistribute && after < before {
        ShedBalance(soil, vol, before, after, h, Excess(soil.thetaS, after, vol), GradientSplit(g));
      } else {
        KeptBalance(soil, vol, before, after, h);
      }
    } else {
      KeptBalance(soil, vol, before, before,
                  if before < 0.9999 * soil.thetaS then HeadFromWaterContent(pow, soil, before) else h);
      assert Excess(before, before, vol) == 0.0;
    }
    hide *;
  }

  /** A cell that sends nothing: its content changes by what it books. */
  lemma KeptBalance(soil: VgSoil, vol: real, before: real, after: real, h: real)
    requires vol > 0.0 && after <= soil.thetaS && (soil.thetaR <= before ==> soil.thetaR <= after)
    ensures Balanced(soil, vol, before, Outcome(after, h, Excess(soil.thetaS, after, vol), 0.0, 0.0,
                                                Excess(after, before, vol),
                                                if after < before then Excess(before, after, vol) else 0.0))
  {
    Times(soil.thetaS - after, vol);
    if after < before { Times(before - after, vol); }
    assert Excess(after, before, vol) == -Excess(before, after, vol);
  }

  ghost predicate Balanced(soil: VgSoil, vol: real, before: real, o: Outcome) {
    && o.wc * vol + o.up + o.down == before * vol + o.adjusted
    && o.room == (soil.thetaS - o.wc) * vol && o.wc <= soil.thetaS && o.room >= 0.0
    && o.up >= 0.0 && o.down >= 0.0 && o.discarded >= 0.0
    && o.adjusted == (if o.wc > before then (o.wc - before) * vol else -o.discarded)
    && (soil.thetaR <= before ==> soil.thetaR <= o.wc)
  }

  lemma ShedBalance(soil: VgSoil, vol: real, before: real, after: real, h: real, room: real, s: Split)
    requires vol > 0.0 && after <= before && after <= soil.thetaS && room == Excess(soil.thetaS, after, vol)
    requires soil.thetaR <= before ==> soil.thetaR <= after
    requires s.up >= 0.0 && s.down >= 0.0 && s.up + s.down <= 1.0
    ensures Balanced(soil, vol, before, Shed(after, h, room, Excess(before, after, vol), s))
  {
    Times(before - after, vol);
    Times(soil.thetaS - after, vol);
    Shares((before - after) * vol, s.up, s.down);
  }

  lemma Times(a: real, b: real)
    requires a >= 0.0 && b > 0.0
    ensures a * b >= 0.0
  {
  }

  lemma Shares(v: real, a: real, b: real)
    requires v >= 0.0 && a >= 0.0 && b >= 0.0 && a + b <= 1.0
    ensures v * a >= 0.0 && v * b >= 0.0 && v - v * a - v * b >= 0.0
  {
    assert v - v * a - v * b == v * (1.0 - a - b);
  }
}
