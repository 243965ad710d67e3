/** Layers written the way the structure editor shows them, read through
    the general lemmas. */
module Scenarios {
  import opened Results
  import opened Numbers
  import opened Layers
  import opened StructureBuilder
  import opened LayerTable

  /** A layer of code `3` as the editor writes it. */
  lemma ConstRefractiveIndexExample()
    ensures LayerOf("3", ["10", "(3.5;0.01)"]) == Ok(ConstRefractiveIndexLayer(10.0, Complex(3.5, 0.01)))
  {
    TenExample();
    ComplexExample();
    ConstRefractiveIndexParameters(["10", "(3.5;0.01)"]);
  }

  lemma TenExample()
    ensures ParseDouble("10") == Some(10.0)
  {
    NatAsDouble(10);
    assert NatToString(10) == "10";
  }

  lemma ComplexExample()
    ensures ToComplex("(3.5;0.01)") == Ok(Complex(3.5, 0.01))
  {
    RealPartExample();
    ImaginaryPartExample();
    PlainExample();
    ComplexLiteralRoundTrip("3.5", "0.01");
    assert "(" + "3.5" + ";" + "0.01" + ")" == "(3.5;0.01)";
  }

  lemma PlainExample()
    ensures PlainPiece("3.5") && PlainPiece("0.01")
  {
  }

  lemma RealPartExample()
    ensures ParseDouble("3.5") == Some(3.5)
  {
    var re := DecimalLiteral(false, "3", "5");
    assert re.Render() == "3.5";
    DecimalRoundTrip(re);
  }

  lemma ImaginaryPartExample()
    ensures ParseDouble("0.01") == Some(0.01)
  {
    var im := DecimalLiteral(false, "0", "01");
    assert im.Render() == "0.01";
    assert AllDigits("01") by {
      assert "01"[..1] == "0";
    }
    DecimalRoundTrip(im);
  }

  /** An `AlGaAs` layer given two of its three parameters fails on the missing third. */
  lemma MissingParameterExample()
    ensures LayerOf("2-1", ["10", "0"]) == Err(IndexOutOfBounds(2, 2))
  {
    var ps := ["10", "0"];
    NatAsDouble(10);
    NatAsDouble(0);
    assert NatToString(10) == "10" && NatToString(0) == "0";
    MissingParameter("2-1", ps);
  }

  /** `1-4` names no parametrization: the builder gives up. */
  lemma UnknownCodeExample()
    ensures LayerOf("1-4", ["10"]) == Err(IllegalState)
  {
    UnknownCodeIsFatal("1-4", ["10"]);
  }
}
