/** The pointwise soil closures (src/gw/VanGenuchten.hpp:31-105) over an uninterpreted power
    function. */
module Retention {

  /** One cell's soil parameters. */
  datatype VgSoil = VgSoil(vga: real, vgn: real, thetaS: real, thetaR: real, aev: real)

  /** The power function of the closures; nothing about its values is used. */
  type Power = (real, real) -> real

  function Abs(x: real): real { if x < 0.0 then -x else x }

  /** The dimensionless head of the closures. */
  function Suction(vga: real, h: real): real { Abs(vga * h) }

  /** theta(h), clamped to the residual and saturated contents. */
  function WaterContentFromHead(pow: Power, soil: VgSoil, h: real): (wc: real)
    requires soil.vgn != 0.0
    ensures wc <= soil.thetaS || wc == soil.thetaR
    ensures soil.thetaR <= soil.thetaS ==> soil.thetaR <= wc <= soil.thetaS
  {
    var m := 1.0 - 1.0 / soil.vgn;
    var wc :=
      if h > soil.aev then soil.thetaS
      else soil.thetaR + (soil.thetaS - soil.thetaR) * pow(1.0 + pow(Suction(soil.vga, h), soil.vgn), -m);
    if wc > soil.thetaS then soil.thetaS else if wc < soil.thetaR then soil.thetaR else wc
  }

  /** h(theta): zero at and above saturation, theta floored just above the residual content. */
  function HeadFromWaterContent(pow: Power, soil: VgSoil, wc: real): real
    requires soil.vgn != 0.0 && soil.vgn != 1.0 && soil.vga != 0.0
  {
    var m := 1.0 - 1.0 / soil.vgn;
    var w := if wc - soil.thetaR < 0.0000001 then soil.thetaR + 0.0000001 else wc;
    if w < soil.thetaS then
      var ratio := (soil.thetaS - soil.thetaR) / (w - soil.thetaR);
      -(1.0 / soil.vga) * pow(pow(ratio, 1.0 / m) - 1.0, 1.0 / soil.vgn)
    else 0.0
  }

  /** K(h), capped at the saturated conductivity ks. */
  function ConductivityFromHead(pow: Power, soil: VgSoil, h: real, ks: real): (k: real)
    requires soil.vgn != 0.0 && soil.vgn != 1.0
    ensures k <= ks
  {
    var m := 1.0 - 1.0 / soil.vgn;
    var s := pow(1.0 + pow(Suction(soil.vga, h), soil.vgn), -m);
    var bracket := 1.0 - pow(1.0 - pow(s, 1.0 / m), m);
    var keff := ks * pow(s, 0.5) * bracket * bracket;
    if h > 0.0 || keff > ks then ks else keff
  }

  ghost predicate NonnegativePower(pow: Power) { forall x, y :: pow(x, y) >= 0.0 }

  lemma ConductivityNonneg(pow: Power, soil: VgSoil, h: real, ks: real)
    requires soil.vgn != 0.0 && soil.vgn != 1.0 && ks >= 0.0 && NonnegativePower(pow)
    ensures ConductivityFromHead(pow, soil, h, ks) >= 0.0
  {
    var m := 1.0 - 1.0 / soil.vgn;
    var s := pow(1.0 + pow(Suction(soil.vga, h), soil.vgn), -m);
    var bracket := 1.0 - pow(1.0 - pow(s, 1.0 / m), m);
    Product(ks, pow(s, 0.5));
    Square(bracket);
    Product(ks * pow(s, 0.5), bracket * bracket);
    assert ks * pow(s, 0.5) * bracket * bracket == ks * pow(s, 0.5) * (bracket * bracket);
  }

  lemma Product(a: real, b: real)
    requires a >= 0.0 && b >= 0.0
    ensures a * b >= 0.0
  {
  }

  lemma Square(a: real)
    ensures a * a >= 0.0
  {
  }

  function Slope(vga: real, vgn: real, m: real, range: real, p: real, deno: real): real {
    if deno == 0.0 then 0.0 else vga * vgn * m * range * p / deno
  }

  /** C(h) = d theta / d h, zero above zero head. */
  function CapacityFromHead(pow: Power, soil: VgSoil, h: real): real
    requires soil.vgn != 0.0
  {
    if h > 0.0 then 0.0
    else
      var m := 1.0 - 1.0 / soil.vgn;
      var ah := Suction(soil.vga, h);
      var deno := pow(1.0 + pow(ah, soil.vgn), m + 1.0);
      Slope(soil.vga, soil.vgn, m, soil.thetaS - soil.thetaR, pow(ah, soil.vgn - 1.0), deno)
  }

  /** The capacity is never negative for a physical soil. */
  lemma CapacityNonneg(pow: Power, soil: VgSoil, h: real)
    requires soil.vga >= 0.0 && soil.vgn > 1.0 && soil.thetaR <= soil.thetaS && NonnegativePower(pow)
    ensures CapacityFromHead(pow, soil, h) >= 0.0
  {
    hide Slope, Suction, NonnegativePower;
    var m, ah := 1.0 - 1.0 / soil.vgn, Suction(soil.vga, h);
    PowerAt(pow, ah, soil.vgn - 1.0);
    PowerAt(pow, 1.0 + pow(ah, soil.vgn), m + 1.0);
    OverOne(soil.vgn);
    SlopeNonneg(soil.vga, soil.vgn, m, soil.thetaS - soil.thetaR, pow(ah, soil.vgn - 1.0),
                pow(1.0 + pow(ah, soil.vgn), m + 1.0));
  }

  lemma PowerAt(pow: Power, x: real, y: real)
    requires NonnegativePower(pow)
    ensures pow(x, y) >= 0.0
  {
  }

  lemma OverOne(n: real)
    requires n > 1.0
    ensures 1.0 - 1.0 / n >= 0.0
  {
  }

  lemma SlopeNonneg(a: real, n: real, m: real, d: real, p: real, deno: real)
    requires a >= 0.0 && n >= 0.0 && m >= 0.0 && d >= 0.0 && p >= 0.0 && deno >= 0.0
    ensures Slope(a, n, m, d, p, deno) >= 0.0
  {
    Product(a, n);
    Product(a * n, m);
    Product(a * n * m, d);
    Product(a * n * m * d, p);
    if deno > 0.0 { Quotient(a * n * m * d * p, deno); }
  }

  lemma Quotient(a: real, b: real)
    requires a >= 0.0 && b > 0.0
    ensures a / b >= 0.0
  {
  }
}
