/** The corrector's Darcy fluxes (src/gw/Corrector.cpp:117-385), one face at a time.  Flux
    carries the face area; it points to smaller indices in x and y and upward in z. */
module FaceFlux {
  import opened Retention
  import opened TopExchange

  /** What a lateral face reads of one flanking cell; `inDomain` is false for a ghost. */
  datatype Flank = Flank(h: real, wc: real, soil: VgSoil, ks: real, bottom: real, active: bool, inDomain: bool)

  /** The geometry of a lateral face, and its edge condition where it lies on a domain edge. */
  datatype Lateral = Lateral(area: real, spacing: real, sine: real, cosine: real, visc: real,
                             lowEdge: bool, highEdge: bool, code: BcCode, value: real)

  predicate SoilOk(s: VgSoil) { s.vgn != 0.0 && s.vgn != 1.0 && s.vga != 0.0 }

  function Unsaturated(c: Flank): bool { c.active && c.wc < c.soil.thetaS }

  /** The conductivity of an interior or upper-edge face: the minus cell's saturated value enters
      both flanks, the edge is one-sided, and a face next to an inactive cell is sealed. */
  function LateralConductivity(pow: Power, f: Lateral, minus: Flank, plus: Flank): real
    requires SoilOk(minus.soil) && SoilOk(plus.soil)
  {
    var kc := ConductivityFromHead(pow, minus.soil, minus.h, minus.ks);
    if f.highEdge then kc
    else if minus.inDomain && plus.inDomain && (!minus.active || !plus.active) then 0.0
    else 0.5 * (kc + ConductivityFromHead(pow, plus.soil, plus.h, minus.ks))
  }

  function LateralDarcy(pow: Power, full3d: bool, f: Lateral, minus: Flank, plus: Flank): real
    requires SoilOk(minus.soil) && SoilOk(plus.soil) && f.spacing > 0.0
  {
    if f.lowEdge then
      var kface := ConductivityFromHead(pow, plus.soil, plus.h, plus.ks);
      f.area * kface * f.visc * f.cosine * (plus.h - minus.h) / (0.5 * f.spacing)
    else if !full3d && (Unsaturated(minus) || Unsaturated(plus)) then 0.0
    else
      var kface := LateralConductivity(pow, f, minus, plus);
      var delta := if f.highEdge then 0.5 * f.spacing else f.spacing;
      var sign := if plus.bottom > minus.bottom then 1.0 else -1.0;
      f.area * (kface * f.visc * f.cosine * (plus.h - minus.h) / delta + sign * kface * f.sine)
  }

  /** The flux with the edge overrides: sealed, prescribed (positive into the domain), or Darcy. */
  function LateralFlux(pow: Power, full3d: bool, f: Lateral, minus: Flank, plus: Flank): real
    requires SoilOk(minus.soil) && SoilOk(plus.soil) && f.spacing > 0.0
  {
    if f.lowEdge && f.code == NoFlux then 0.0
    else if f.lowEdge && f.code == Flux then -f.value * f.area
    else if !f.lowEdge && f.highEdge && f.code == NoFlux then 0.0
    else if !f.lowEdge && f.highEdge && f.code == Flux then f.value * f.area
    else LateralDarcy(pow, full3d, f, minus, plus)
  }

  /** No lateral flux passes between an active and an inactive cell of the domain. */
  lemma LateralSealed(pow: Power, full3d: bool, f: Lateral, minus: Flank, plus: Flank)
    requires SoilOk(minus.soil) && SoilOk(plus.soil) && f.spacing > 0.0
    requires !f.lowEdge && !f.highEdge && minus.inDomain && plus.inDomain && (!minus.active || !plus.active)
    ensures LateralFlux(pow, full3d, f, minus, plus) == 0.0
  {
    var g := f.visc * f.cosine * (plus.h - minus.h) / f.spacing;
    assert 0.0 * f.visc * f.cosine * (plus.h - minus.h) / f.spacing == 0.0;
  }

  /** A vertical face reads its flanks' heads, soils and thicknesses. */
  datatype Layer = Layer(h: real, soil: VgSoil, ksz: real, dz: real)

  /** Interior faces: the lower cell's saturated conductivity enters both flanks. */
  function VerticalFlux(pow: Power, az: real, visc: real, rho: real, above: Layer, below: Layer): real
    requires SoilOk(above.soil) && SoilOk(below.soil) && above.dz > 0.0 && below.dz > 0.0
  {
    var kface := 0.5 * (ConductivityFromHead(pow, above.soil, above.h, below.ksz)
                        + ConductivityFromHead(pow, below.soil, below.h, below.ksz));
    az * kface * visc * ((below.h - above.h) / (0.5 * (above.dz + below.dz)) - rho)
  }

  /** The bottom boundary face. */
  function BottomFlux(pow: Power, az: real, visc: real, rho: real, code: BcCode, value: real, above: Layer): real
    requires SoilOk(above.soil) && above.dz > 0.0
  {
    var kface := ConductivityFromHead(pow, above.soil, above.h, above.ksz);
    match code
    case Flux => value * az
    case Gravity => -kface * visc * rho * az
    case Head => az * kface * visc * ((value - above.h) / (0.5 * above.dz) - rho)
    case _ => 0.0
  }

  /** The top face of a groundwater-only column. */
  function UncoupledTopFlux(az: real, visc: real, rho: real, code: BcCode, value: real, below: Layer): real
    requires below.dz > 0.0
  {
    match code
    case Flux => value * az
    case Head => az * below.ksz * visc * ((below.h - value) / (0.5 * below.dz) - rho)
    case _ => 0.0
  }
}
