/** The structure builder: from the textual description of a stack (blocks of
    layers, each layer a type code and positional parameter strings) to the
    typed `Structure`. The exceptions the Kotlin code throws are `Err` values;
    the first one thrown, in Kotlin's evaluation order, is the one returned. */
module StructureBuilder {
  import opened Results
  import opened Text
  import opened Numbers
  import opened Layers

  /** A layer as the editor describes it: a type code such as `"2-1"` and its
      parameters as strings. */
  datatype LayerDescription = LayerDescription(layerType: string, description: seq<string>)

  datatype BlockDescription = BlockDescription(repeat: string, layerDescriptions: seq<LayerDescription>)

  datatype StructureDescription = StructureDescription(blockDescriptions: seq<BlockDescription>)

  /** `repeat` periods of the sequence `layers`. */
  datatype Block = Block(repeat: int, layers: seq<Layer>)

  datatype Structure = Structure(blocks: seq<Block>)

  /** The exceptions that can escape the builder. */
  datatype Fault =
    | IllegalState                            // unknown type code
    | IndexOutOfBounds(index: int, size: int)  // a list read past its end
    | NumberFormat(input: string)             // `toInt` or `toDouble` rejects its input

  /** `s.toDouble()`. */
  function ToDouble(s: string): (r: Result<real, Fault>)
    ensures r.Ok? <==> ParseDouble(s).Some?
    ensures r.Ok? ==> ParseDouble(s) == Some(r.value)
    ensures r.Err? ==> r.error == NumberFormat(s)
  {
    match ParseDouble(s)
    case None => Err(NumberFormat(s))
    case Some(v) => Ok(v)
  }

  /** `s.toInt()`. */
  function ToInt(s: string): (r: Result<int, Fault>)
    ensures r.Ok? ==> IntMin <= r.value <= IntMax && ParseInt(s) == Some(r.value)
    ensures r.Err? ==> ParseInt(s).None? && r.error == NumberFormat(s)
  {
    match ParseInt(s)
    case None => Err(NumberFormat(s))
    case Some(n) => Ok(n)
  }

  /** `this[i].toDouble()`: reads element `i` of the parameter list and nothing else. */
  function ParseAt(description: seq<string>, i: nat): (r: Result<real, Fault>)
    ensures r.Ok? <==> i < |description| && ParseDouble(description[i]).Some?
    ensures r.Ok? ==> ParseDouble(description[i]) == Some(r.value)
    ensures r.Err? && i < |description| ==> r.error == NumberFormat(description[i])
    ensures i >= |description| ==> r == Err(IndexOutOfBounds(i, |description|))
  {
    if i < |description| then ToDouble(description[i])
    else Err(IndexOutOfBounds(i, |description|))
  }

  /** The `;`-separated pieces of a complex literal once its parentheses are gone. */
  function Pieces(s: string): (parts: seq<string>)
    ensures |parts| >= 1
  {
    Split(RemoveParens(s), ';')
  }

  /** `s.toComplex()`: every parenthesis removed, the rest split on `;`, every
      piece converted by `toDouble` and the first two destructured into the real
      and imaginary part (`ToComplexMeaning`). */
  function ToComplex(s: string): (r: Result<Complex, Fault>)
    ensures r.Err? ==> r.error.NumberFormat? || r.error == IndexOutOfBounds(1, 1)
  {
    var parts := Pieces(s);
    MapAllMeaning(parts, ToDouble);
    var values :- MapAll(parts, ToDouble);
    if |values| < 2 then Err(IndexOutOfBounds(1, |values|))
    else Ok(Complex(values[0], values[1]))
  }

  /** A complex literal is read when there are at least two pieces and every
      piece, the ones after the second included, is a decimal literal; the
      first two are the real and imaginary parts. */
  lemma ToComplexMeaning(s: string)
    ensures ToComplex(s).Ok? <==>
      |Pieces(s)| >= 2 && forall i :: 0 <= i < |Pieces(s)| ==> ParseDouble(Pieces(s)[i]).Some?
    ensures ToComplex(s).Ok? ==>
      ParseDouble(Pieces(s)[0]) == Some(ToComplex(s).value.re) && ParseDouble(Pieces(s)[1]) == Some(ToComplex(s).value.im)
  {
    MapAllMeaning(Pieces(s), ToDouble);
  }

  /** A complex literal that is not read fails on its first piece that is not
      a decimal literal, or, when every piece is one, on the missing imaginary
      part. */
  lemma ToComplexFault(s: string)
    requires ToComplex(s).Err?
    ensures || (exists i :: 0 <= i < |Pieces(s)| && FirstFailure(Pieces(s), ToDouble, i)
                 && ToComplex(s).error == NumberFormat(Pieces(s)[i]))
            || (|Pieces(s)| == 1 && ParseDouble(Pieces(s)[0]).Some? && ToComplex(s).error == IndexOutOfBounds(1, 1))
  {
    var parts := Pieces(s);
    MapAllMeaning(parts, ToDouble);
    var values := MapAll(parts, ToDouble);
    if values.Ok? {
      assert ToDouble(parts[0]) == Ok(values.value[0]);
    }
  }

  /** A piece of a complex literal: no parenthesis and no `;`. */
  ghost predicate PlainPiece(a: string) {
    forall i :: 0 <= i < |a| ==> !IsParen(a[i]) && a[i] != ';'
  }

  /** The editor's writing `(re;im)` of a complex number reads back as its two
      parts. */
  lemma ComplexLiteralRoundTrip(a: string, b: string)
    requires PlainPiece(a) && PlainPiece(b)
    requires ParseDouble(a).Some? && ParseDouble(b).Some?
    ensures ToComplex("(" + a + ";" + b + ")") == Ok(Complex(ParseDouble(a).value, ParseDouble(b).value))
  {
    var s := "(" + a + ";" + b + ")";
    PiecesOfLiteral(a, b);
    ToComplexMeaning(s);
  }

  /** Two decimal literals written as `(re;im)` read back as their values. */
  lemma ComplexOfDecimals(x: DecimalLiteral, y: DecimalLiteral)
    requires x.Valid() && y.Valid()
    ensures ToComplex("(" + x.Render() + ";" + y.Render() + ")") == Ok(Complex(x.Value(), y.Value()))
  {
    DecimalPlain(x);
    DecimalPlain(y);
    DecimalRoundTrip(x);
    DecimalRoundTrip(y);
    ComplexLiteralRoundTrip(x.Render(), y.Render());
  }

  lemma DecimalPlain(x: DecimalLiteral)
    requires x.Valid()
    ensures PlainPiece(x.Render())
  {
    RenderAlphabet(x);
  }

  lemma PiecesOfLiteral(a: string, b: string)
    requires PlainPiece(a) && PlainPiece(b)
    ensures Pieces("(" + a + ";" + b + ")") == [a, b]
  {
    RemoveParensOfLiteral(a, b);
    SplitPair(a, b);
  }

  /** Only the outer parentheses of `(a;b)` are removed. */
  lemma RemoveParensOfLiteral(a: string, b: string)
    requires PlainPiece(a) && PlainPiece(b)
    ensures RemoveParens("(" + a + ";" + b + ")") == a + ";" + b
  {
    assert "(" + a + ";" + b + ")" == "(" + (a + ";" + b) + ")";
    RemoveOuterParens(a + ";" + b);
    RemoveParensAroundSemicolon(a, b);
    RemoveParensOfPlain(a);
    RemoveParensOfPlain(b);
  }

  lemma RemoveOuterParens(x: string)
    ensures RemoveParens("(" + x + ")") == RemoveParens(x)
  {
    RemoveParensAppend("(", x);
    RemoveParensAppend("(" + x, ")");
  }

  lemma RemoveParensAroundSemicolon(a: string, b: string)
    ensures RemoveParens(a + ";" + b) == RemoveParens(a) + ";" + RemoveParens(b)
  {
    RemoveParensAppend(a, ";");
    RemoveParensAppend(a + ";", b);
  }

  lemma RemoveParensOfPlain(a: string)
    requires PlainPiece(a)
    ensures RemoveParens(a) == a
  {
    RemoveParensMeaning(a);
  }

  /** `a;b` splits into `a` and `b` when neither holds a `;`. */
  lemma SplitPair(a: string, b: string)
    requires PlainPiece(a) && PlainPiece(b)
    ensures Split(a + ";" + b, ';') == [a, b]
  {
    var parts := [a, b];
    assert Join(parts, ';') == a + ";" + b by {
      assert parts[1..] == [b];
    }
    forall i | 0 <= i < |parts| ensures ';' !in parts[i] {
      assert PlainPiece(parts[i]);
    }
    SplitJoin(parts, ';');
  }

  /** `this[i].toComplex()`. */
  function ParseComplexAt(description: seq<string>, i: nat): (r: Result<Complex, Fault>)
    ensures i < |description| ==> r == ToComplex(description[i])
    ensures r.Err? ==> !r.error.IllegalState?
    ensures i >= |description| ==> r == Err(IndexOutOfBounds(i, |description|))
  {
    if i < |description| then ToComplex(description[i])
    else Err(IndexOutOfBounds(i, |description|))
  }

  /** The receiver scope `with(description)` of the dispatch table: the table
      reads the parameter list through these two functions and no other way. */
  datatype Scope = Scope(parseAt: nat -> Result<real, Fault>, parseComplexAt: nat -> Result<Complex, Fault>)

  function With(description: seq<string>): Scope {
    Scope((i: nat) => ParseAt(description, i), (i: nat) => ParseComplexAt(description, i))
  }

  // One constructor call per family; the named arguments are evaluated in the
  // order they are written, so the first parameter that fails is the fault.

  function GaAsAt(scope: Scope, epsType: EpsType): Result<Layer, Fault> {
    var d :- scope.parseAt(0);
    Ok(GaAs(d, epsType))
  }

  function AlGaAsAt(scope: Scope, epsType: EpsType): Result<Layer, Fault> {
    var d :- scope.parseAt(0);
    var k :- scope.parseAt(1);
    var x :- scope.parseAt(2);
    Ok(AlGaAs(d, k, x, epsType))
  }

  function ConstRefractiveIndexLayerAt(scope: Scope): Result<Layer, Fault> {
    var d :- scope.parseAt(0);
    var n :- scope.parseComplexAt(1);
    Ok(ConstRefractiveIndexLayer(d, n))
  }

  function GaAsExcitonicAt(scope: Scope, epsType: EpsType): Result<Layer, Fault> {
    var d :- scope.parseAt(0);
    var w0 :- scope.parseAt(1);
    var gamma0 :- scope.parseAt(2);
    var gamma :- scope.parseAt(3);
    Ok(GaAsExcitonic(d, w0, gamma0, gamma, epsType))
  }

  function AlGaAsExcitonicAt(scope: Scope, epsType: EpsType): Result<Layer, Fault> {
    var d :- scope.parseAt(0);
    var k :- scope.parseAt(1);
    var x :- scope.parseAt(2);
    var w0 :- scope.parseAt(3);
    var gamma0 :- scope.parseAt(4);
    var gamma :- scope.parseAt(5);
    Ok(AlGaAsExcitonic(d, k, x, w0, gamma0, gamma, epsType))
  }

  function ConstRefractiveIndexLayerExcitonicAt(scope: Scope): Result<Layer, Fault> {
    var d :- scope.parseAt(0);
    var n :- scope.parseComplexAt(1);
    var w0 :- scope.parseAt(2);
    var gamma0 :- scope.parseAt(3);
    var gamma :- scope.parseAt(4);
    Ok(ConstRefractiveIndexLayerExcitonic(d, n, w0, gamma0, gamma))
  }

  function EffectiveMediumDrudeAt(scope: Scope, epsType: EpsType): Result<Layer, Fault> {
    var d :- scope.parseAt(0);
    var k :- scope.parseAt(1);
    var x :- scope.parseAt(2);
    var wPlasma :- scope.parseAt(3);
    var gammaPlasma :- scope.parseAt(4);
    var f :- scope.parseAt(5);
    var epsInf :- scope.parseAt(6);
    Ok(EffectiveMediumForDrudeMetalClustersInAlGaAs(d, k, x, wPlasma, gammaPlasma, f, epsInf, epsType))
  }

  function PerssonDrudeAt(scope: Scope, epsType: EpsType): Result<Layer, Fault> {
    var d :- scope.parseAt(0);
    var k :- scope.parseAt(1);
    var x :- scope.parseAt(2);
    var latticeFactor :- scope.parseAt(3);
    var wPlasma :- scope.parseAt(4);
    var gammaPlasma :- scope.parseAt(5);
    var epsInf :- scope.parseAt(6);
    Ok(PerssonModelForDrudeMetalClustersInAlGaAs(d, k, x, latticeFactor, wPlasma, gammaPlasma, epsInf, epsType))
  }

  function PerssonSbAt(scope: Scope, epsType: EpsType): Result<Layer, Fault> {
    var d :- scope.parseAt(0);
    var k :- scope.parseAt(1);
    var x :- scope.parseAt(2);
    var latticeFactor :- scope.parseAt(3);
    Ok(PerssonModelForSbClustersInAlGaAs(d, k, x, latticeFactor, epsType))
  }

  /** The body of `layer(type, description)`: the type-code dispatch table,
      evaluated inside `with(description)`. */
  function Dispatch(layerType: string, scope: Scope): Result<Layer, Fault> {
    match layerType
    case "1-1" => GaAsAt(scope, Adachi)
    case "1-2" => GaAsAt(scope, Gauss)
    case "1-3" => GaAsAt(scope, GaussWithZeroImPermittivityBelowE0)
    case "2-1" => AlGaAsAt(scope, Adachi)
    case "2-2" => AlGaAsAt(scope, Gauss)
    case "2-3" => AlGaAsAt(scope, GaussWithZeroImPermittivityBelowE0)
    case "3" => ConstRefractiveIndexLayerAt(scope)
    case "4-1" => GaAsExcitonicAt(scope, Adachi)
    case "4-2" => GaAsExcitonicAt(scope, Gauss)
    case "4-3" => GaAsExcitonicAt(scope, GaussWithZeroImPermittivityBelowE0)
    case "5-1" => AlGaAsExcitonicAt(scope, Adachi)
    case "5-2" => AlGaAsExcitonicAt(scope, Gauss)
    case "5-3" => AlGaAsExcitonicAt(scope, GaussWithZeroImPermittivityBelowE0)
    case "6" => ConstRefractiveIndexLayerExcitonicAt(scope)
    case "7-1" => EffectiveMediumDrudeAt(scope, Adachi)
    case "7-2" => EffectiveMediumDrudeAt(scope, Gauss)
    case "7-3" => EffectiveMediumDrudeAt(scope, GaussWithZeroImPermittivityBelowE0)
    case "8-1" => PerssonDrudeAt(scope, Adachi)
    case "8-2" => PerssonDrudeAt(scope, Gauss)
    case "8-3" => PerssonDrudeAt(scope, GaussWithZeroImPermittivityBelowE0)
    case "9-1" => PerssonSbAt(scope, Adachi)
    case "9-2" => PerssonSbAt(scope, Gauss)
    case "9-3" => PerssonSbAt(scope, GaussWithZeroImPermittivityBelowE0)
    case _ => Err(IllegalState)
  }

  /** `layer(type, description)`. */
  function LayerOf(layerType: string, description: seq<string>): Result<Layer, Fault> {
    Dispatch(layerType, With(description))
  }

  /** The layer a description stands for. */
  function DescribedLayer(ld: LayerDescription): Result<Layer, Fault> {
    LayerOf(ld.layerType, ld.description)
  }

  /** One block: the repeat string through `toInt` first, then the layers, one
      to one and in order. The period is not expanded. */
  function BuildBlock(bd: BlockDescription): (r: Result<Block, Fault>)
    ensures ParseInt(bd.repeat).None? ==> r == Err(NumberFormat(bd.repeat))
    ensures r.Ok? <==> (ParseInt(bd.repeat).Some?
      && forall j :: 0 <= j < |bd.layerDescriptions| ==> DescribedLayer(bd.layerDescriptions[j]).Ok?)
    ensures r.Ok? ==> (ParseInt(bd.repeat) == Some(r.value.repeat)
      && |r.value.layers| == |bd.layerDescriptions|
      && forall j :: 0 <= j < |bd.layerDescriptions| ==> DescribedLayer(bd.layerDescriptions[j]) == Ok(r.value.layers[j]))
    ensures r.Err? && ParseInt(bd.repeat).Some? ==>
      (exists j :: 0 <= j < |bd.layerDescriptions| && FirstFailure(bd.layerDescriptions, DescribedLayer, j)
        && DescribedLayer(bd.layerDescriptions[j]) == Err(r.error))
  {
    var repeat :- ToInt(bd.repeat);
    MapAllMeaning(bd.layerDescriptions, DescribedLayer);
    var layers :- MapAll(bd.layerDescriptions, DescribedLayer);
    Ok(Block(repeat, layers))
  }

  /** `StructureBuilder.build`: the blocks one to one and in order. */
  function Build(structureDescription: StructureDescription): (r: Result<Structure, Fault>)
    ensures var bds := structureDescription.blockDescriptions;
      && (r.Ok? <==> forall i :: 0 <= i < |bds| ==> BuildBlock(bds[i]).Ok?)
      && (r.Ok? ==> |r.value.blocks| == |bds| && forall i :: 0 <= i < |bds| ==> BuildBlock(bds[i]) == Ok(r.value.blocks[i]))
      && (r.Err? ==> exists i :: 0 <= i < |bds| && FirstFailure(bds, BuildBlock, i) && BuildBlock(bds[i]) == Err(r.error))
  {
    MapAllMeaning(structureDescription.blockDescriptions, BuildBlock);
    var blocks :- MapAll(structureDescription.blockDescriptions, BuildBlock);
    Ok(Structure(blocks))
  }

  /** What a built structure holds, block by block and layer by layer: the
      parsed repeat count, and as many layers as were described, each the
      dispatch of its own description. */
  lemma BuildContents(sd: StructureDescription, i: int, j: int)
    requires Build(sd).Ok?
    requires 0 <= i < |sd.blockDescriptions|
    requires 0 <= j < |sd.blockDescriptions[i].layerDescriptions|
    ensures var block := Build(sd).value.blocks[i];
      var bd := sd.blockDescriptions[i];
      && ParseInt(bd.repeat) == Some(block.repeat)
      && |block.layers| == |bd.layerDescriptions|
      && LayerOf(bd.layerDescriptions[j].layerType, bd.layerDescriptions[j].description) == Ok(block.layers[j])
  {
  }
}
