/** The layer records the structure builder constructs. Each variant holds the
    constructor arguments of the corresponding Kotlin layer class; the optics
    behind them (permittivity, refractive index) are not modelled. */
module Layers {
  import opened Results

  /** The complex literal type `Complex_(real, imaginary)`. */
  datatype Complex = Complex(re: real, im: real)

  /** The background dielectric-function parametrization of a semiconductor layer. */
  datatype EpsType = Adachi | Gauss | GaussWithZeroImPermittivityBelowE0

  datatype Layer =
    | GaAs(d: real, epsType: EpsType)
    | AlGaAs(d: real, k: real, x: real, epsType: EpsType)
    | ConstRefractiveIndexLayer(d: real, n: Complex)
    | GaAsExcitonic(d: real, w0: real, gamma0: real, gamma: real, epsType: EpsType)
    | AlGaAsExcitonic(d: real, k: real, x: real, w0: real, gamma0: real, gamma: real, epsType: EpsType)
    | ConstRefractiveIndexLayerExcitonic(d: real, n: Complex, w0: real, gamma0: real, gamma: real)
    | EffectiveMediumForDrudeMetalClustersInAlGaAs(
        d: real, k: real, x: real, wPlasma: real, gammaPlasma: real, f: real, epsInf: real, epsType: EpsType)
    | PerssonModelForDrudeMetalClustersInAlGaAs(
        d: real, k: real, x: real, latticeFactor: real, wPlasma: real, gammaPlasma: real, epsInf: real, epsType: EpsType)
    | PerssonModelForSbClustersInAlGaAs(d: real, k: real, x: real, latticeFactor: real, epsType: EpsType)

  /** One constructor argument: a real number or a complex one. */
  datatype Param = Real(r: real) | Cplx(z: Complex)

  /** The background parametrization of a layer, for the families that have one. */
  function EpsTypeOf(l: Layer): Option<EpsType> {
    if l.ConstRefractiveIndexLayer? || l.ConstRefractiveIndexLayerExcitonic? then None
    else Some(l.epsType)
  }

  /** The layer's numeric constructor arguments in the order of the positional
      parameters of its type code. */
  function Fields(l: Layer): seq<Param> {
    match l
    case GaAs(d, _) => [Real(d)]
    case AlGaAs(d, k, x, _) => [Real(d), Real(k), Real(x)]
    case ConstRefractiveIndexLayer(d, n) => [Real(d), Cplx(n)]
    case GaAsExcitonic(d, w0, gamma0, gamma, _) => [Real(d), Real(w0), Real(gamma0), Real(gamma)]
    case AlGaAsExcitonic(d, k, x, w0, gamma0, gamma, _) =>
      [Real(d), Real(k), Real(x), Real(w0), Real(gamma0), Real(gamma)]
    case ConstRefractiveIndexLayerExcitonic(d, n, w0, gamma0, gamma) =>
      [Real(d), Cplx(n), Real(w0), Real(gamma0), Real(gamma)]
    case EffectiveMediumForDrudeMetalClustersInAlGaAs(d, k, x, wPlasma, gammaPlasma, f, epsInf, _) =>
      [Real(d), Real(k), Real(x), Real(wPlasma), Real(gammaPlasma), Real(f), Real(epsInf)]
    case PerssonModelForDrudeMetalClustersInAlGaAs(d, k, x, latticeFactor, wPlasma, gammaPlasma, epsInf, _) =>
      [Real(d), Real(k), Real(x), Real(latticeFactor), Real(wPlasma), Real(gammaPlasma), Real(epsInf)]
    case PerssonModelForSbClustersInAlGaAs(d, k, x, latticeFactor, _) =>
      [Real(d), Real(k), Real(x), Real(latticeFactor)]
  }

  /** The family digit of the type code naming the layer's class. */
  function FamilyDigit(l: Layer): char {
    match l
    case GaAs(_, _) => '1'
    case AlGaAs(_, _, _, _) => '2'
    case ConstRefractiveIndexLayer(_, _) => '3'
    case GaAsExcitonic(_, _, _, _, _) => '4'
    case AlGaAsExcitonic(_, _, _, _, _, _, _) => '5'
    case ConstRefractiveIndexLayerExcitonic(_, _, _, _, _) => '6'
    case EffectiveMediumForDrudeMetalClustersInAlGaAs(_, _, _, _, _, _, _, _) => '7'
    case PerssonModelForDrudeMetalClustersInAlGaAs(_, _, _, _, _, _, _, _) => '8'
    case PerssonModelForSbClustersInAlGaAs(_, _, _, _, _) => '9'
  }

  /** The variant digit after the `-` of a type code. */
  function SuffixDigit(e: EpsType): char {
    match e
    case Adachi => '1'
    case Gauss => '2'
    case GaussWithZeroImPermittivityBelowE0 => '3'
  }

  /** The parametrization a variant digit selects. */
  function EpsTypeOfSuffix(c: char): (e: Option<EpsType>)
    ensures e.Some? <==> c in "123"
    ensures e.Some? ==> SuffixDigit(e.value) == c
  {
    match c
    case '1' => Some(Adachi)
    case '2' => Some(Gauss)
    case '3' => Some(GaussWithZeroImPermittivityBelowE0)
    case _ => None
  }

  /** The type code that describes a layer: its family digit, followed for the
      semiconductor-based families by `-` and the variant digit. */
  function TypeCode(l: Layer): string {
    match EpsTypeOf(l)
    case None => [FamilyDigit(l)]
    case Some(e) => [FamilyDigit(l), '-', SuffixDigit(e)]
  }

  /** Reading a layer's type code back gives its parametrization. */
  lemma TypeCodeDeterminesEpsType(l: Layer)
    ensures |TypeCode(l)| == 3 <==> EpsTypeOf(l).Some?
    ensures |TypeCode(l)| == 3 ==> EpsTypeOfSuffix(TypeCode(l)[2]) == EpsTypeOf(l)
  {
  }

  /** A layer is determined by its type code and its fields. */
  lemma FieldsAndCodeDetermineLayer(l1: Layer, l2: Layer)
    requires TypeCode(l1) == TypeCode(l2) && Fields(l1) == Fields(l2)
    ensures l1 == l2
  {
    TypeCodeDeterminesEpsType(l1);
    TypeCodeDeterminesEpsType(l2);
    assert FamilyDigit(l1) == TypeCode(l1)[0] == FamilyDigit(l2);
    var f1, f2 := Fields(l1), Fields(l2);
    assert forall i :: 0 <= i < |f1| ==> f1[i] == f2[i];
  }
}
