/** An independent statement of the type-code table: for every code, which
    parameter positions it reads and whether each is a real or a complex
    literal. The lemmas here prove that the dispatch of `StructureBuilder`
    reads exactly those positions, in that order, into the layer's fields. */
module LayerTable {
  import opened Results
  import opened Numbers
  import opened Layers
  import opened StructureBuilder

  datatype SlotKind = Number | ComplexNumber

  /** For every code of the table, the kinds of its positional parameters;
      `None` for every other string. */
  function Signature(code: string): Option<seq<SlotKind>> {
    match code
    case "1-1" => Some([Number])
    case "1-2" => Some([Number])
    case "1-3" => Some([Number])
    case "2-1" => Some([Number, Number, Number])
    case "2-2" => Some([Number, Number, Number])
    case "2-3" => Some([Number, Number, Number])
    case "3" => Some([Number, ComplexNumber])
    case "4-1" => Some([Number, Number, Number, Number])
    case "4-2" => Some([Number, Number, Number, Number])
    case "4-3" => Some([Number, Number, Number, Number])
    case "5-1" => Some([Number, Number, Number, Number, Number, Number])
    case "5-2" => Some([Number, Number, Number, Number, Number, Number])
    case "5-3" => Some([Number, Number, Number, Number, Number, Number])
    case "6" => Some([Number, ComplexNumber, Number, Number, Number])
    case "7-1" => Some([Number, Number, Number, Number, Number, Number, Number])
    case "7-2" => Some([Number, Number, Number, Number, Number, Number, Number])
    case "7-3" => Some([Number, Number, Number, Number, Number, Number, Number])
    case "8-1" => Some([Number, Number, Number, Number, Number, Number, Number])
    case "8-2" => Some([Number, Number, Number, Number, Number, Number, Number])
    case "8-3" => Some([Number, Number, Number, Number, Number, Number, Number])
    case "9-1" => Some([Number, Number, Number, Number])
    case "9-2" => Some([Number, Number, Number, Number])
    case "9-3" => Some([Number, Number, Number, Number])
    case _ => None
  }

  /** Reading parameter `i` as a literal of the given kind. */
  function ReadSlot(scope: Scope, i: nat, kind: SlotKind): Result<Param, Fault> {
    match kind
    case Number => (var v :- scope.parseAt(i); Ok(Real(v)))
    case ComplexNumber => (var z :- scope.parseComplexAt(i); Ok(Cplx(z)))
  }

  /** Reading the slots `kinds[from..]` in order, as positions `from`,
      `from + 1`, ... of the parameter list. */
  function ReadSlots(scope: Scope, kinds: seq<SlotKind>, from: nat): Result<seq<Param>, Fault>
    requires from <= |kinds|
    decreases |kinds| - from
  {
    if from == |kinds| then Ok([])
    else
      var p :- ReadSlot(scope, from, kinds[from]);
      var rest :- ReadSlots(scope, kinds, from + 1);
      Ok([p] + rest)
  }

  /** `ReadSlots` gives the values of all the slots, or else the fault of the
      first slot that cannot be read. */
  lemma {:induction false} ReadSlotsMeaning(scope: Scope, kinds: seq<SlotKind>, from: nat)
    requires from <= |kinds|
    ensures var r := ReadSlots(scope, kinds, from);
      && (r.Ok? <==> forall i :: from <= i < |kinds| ==> ReadSlot(scope, i, kinds[i]).Ok?)
      && (r.Ok? ==> (|r.value| == |kinds| - from
          && forall i :: from <= i < |kinds| ==> ReadSlot(scope, i, kinds[i]) == Ok(r.value[i - from])))
      && (r.Err? ==>
            exists i :: (from <= i < |kinds|
              && (forall j :: from <= j < i ==> ReadSlot(scope, j, kinds[j]).Ok?)
              && ReadSlot(scope, i, kinds[i]) == Err(r.error)))
    decreases |kinds| - from
  {
    if from < |kinds| {
      ReadSlotsMeaning(scope, kinds, from + 1);
      var first := ReadSlot(scope, from, kinds[from]);
      var rest := ReadSlots(scope, kinds, from + 1);
      if first.Ok? && rest.Ok? {
        var r := ReadSlots(scope, kinds, from);
        assert r == Ok([first.value] + rest.value);
      }
    }
  }

  /** A build result and a slot reading agree: both succeed or both fail, with
      the layer's fields as the values read, or with the same fault. */
  ghost predicate Follows(r: Result<Layer, Fault>, rs: Result<seq<Param>, Fault>) {
    && (r.Ok? <==> rs.Ok?)
    && (r.Ok? ==> Fields(r.value) == rs.value)
    && (r.Err? ==> r.error == rs.error)
  }

  // One lemma per family: the constructor call reads the family's slots.
  // The bindings `rN := ReadSlots(scope, K, N)`, from the last slot back to
  // the first, make the verifier unfold the reads one slot at a time.

  lemma GaAsSlots(scope: Scope, e: EpsType)
    ensures Follows(GaAsAt(scope, e), ReadSlots(scope, [Number], 0))
    ensures GaAsAt(scope, e).Ok? ==> TypeCode(GaAsAt(scope, e).value) == ['1', '-', SuffixDigit(e)]
  {
    var K := [Number];
    var r1 := ReadSlots(scope, K, 1);
    var r0 := ReadSlots(scope, K, 0);
  }

  lemma AlGaAsSlots(scope: Scope, e: EpsType)
    ensures Follows(AlGaAsAt(scope, e), ReadSlots(scope, [Number, Number, Number], 0))
    ensures AlGaAsAt(scope, e).Ok? ==> TypeCode(AlGaAsAt(scope, e).value) == ['2', '-', SuffixDigit(e)]
  {
    var K := [Number, Number, Number];
    var r3 := ReadSlots(scope, K, 3);
    var r2 := ReadSlots(scope, K, 2);
    var r1 := ReadSlots(scope, K, 1);
    var r0 := ReadSlots(scope, K, 0);
  }

  lemma ConstRefractiveIndexLayerSlots(scope: Scope)
    ensures Follows(ConstRefractiveIndexLayerAt(scope), ReadSlots(scope, [Number, ComplexNumber], 0))
    ensures ConstRefractiveIndexLayerAt(scope).Ok? ==> TypeCode(ConstRefractiveIndexLayerAt(scope).value) == "3"
  {
    var K := [Number, ComplexNumber];
    var r2 := ReadSlots(scope, K, 2);
    var r1 := ReadSlots(scope, K, 1);
    var r0 := ReadSlots(scope, K, 0);
  }

  lemma GaAsExcitonicSlots(scope: Scope, e: EpsType)
    ensures Follows(GaAsExcitonicAt(scope, e), ReadSlots(scope, [Number, Number, Number, Number], 0))
    ensures GaAsExcitonicAt(scope, e).Ok? ==> TypeCode(GaAsExcitonicAt(scope, e).value) == ['4', '-', SuffixDigit(e)]
  {
    var K := [Number, Number, Number, Number];
    var r4 := ReadSlots(scope, K, 4);
    var r3 := ReadSlots(scope, K, 3);
    var r2 := ReadSlots(scope, K, 2);
    var r1 := ReadSlots(scope, K, 1);
    var r0 := ReadSlots(scope, K, 0);
  }

  lemma AlGaAsExcitonicSlots(scope: Scope, e: EpsType)
    ensures Follows(AlGaAsExcitonicAt(scope, e), ReadSlots(scope, [Number, Number, Number, Number, Number, Number], 0))
    ensures AlGaAsExcitonicAt(scope, e).Ok? ==> TypeCode(AlGaAsExcitonicAt(scope, e).value) == ['5', '-', SuffixDigit(e)]
  {
    var K := [Number, Number, Number, Number, Number, Number];
    var r6 := ReadSlots(scope, K, 6);
    var r5 := ReadSlots(scope, K, 5);
    var r4 := ReadSlots(scope, K, 4);
    var r3 := ReadSlots(scope, K, 3);
    var r2 := ReadSlots(scope, K, 2);
    var r1 := ReadSlots(scope, K, 1);
    var r0 := ReadSlots(scope, K, 0);
  }

  lemma ConstRefractiveIndexLayerExcitonicSlots(scope: Scope)
    ensures Follows(ConstRefractiveIndexLayerExcitonicAt(scope), ReadSlots(scope, [Number, ComplexNumber, Number, Number, Number], 0))
    ensures ConstRefractiveIndexLayerExcitonicAt(scope).Ok? ==>
      TypeCode(ConstRefractiveIndexLayerExcitonicAt(scope).value) == "6"
  {
    var K := [Number, ComplexNumber, Number, Number, Number];
    var r5 := ReadSlots(scope, K, 5);
    var r4 := ReadSlots(scope, K, 4);
    var r3 := ReadSlots(scope, K, 3);
    var r2 := ReadSlots(scope, K, 2);
    var r1 := ReadSlots(scope, K, 1);
    var r0 := ReadSlots(scope, K, 0);
  }

  lemma EffectiveMediumDrudeSlots(scope: Scope, e: EpsType)
    ensures Follows(EffectiveMediumDrudeAt(scope, e), ReadSlots(scope, [Number, Number, Number, Number, Number, Number, Number], 0))
    ensures EffectiveMediumDrudeAt(scope, e).Ok? ==> TypeCode(EffectiveMediumDrudeAt(scope, e).value) == ['7', '-', SuffixDigit(e)]
  {
    var K := [Number, Number, Number, Number, Number, Number, Number];
    var r7 := ReadSlots(scope, K, 7);
    var r6 := ReadSlots(scope, K, 6);
    var r5 := ReadSlots(scope, K, 5);
    var r4 := ReadSlots(scope, K, 4);
    var r3 := ReadSlots(scope, K, 3);
    var r2 := ReadSlots(scope, K, 2);
    var r1 := ReadSlots(scope, K, 1);
    var r0 := ReadSlots(scope, K, 0);
  }

  lemma PerssonDrudeSlots(scope: Scope, e: EpsType)
    ensures Follows(PerssonDrudeAt(scope, e), ReadSlots(scope, [Number, Number, Number, Number, Number, Number, Number], 0))
    ensures PerssonDrudeAt(scope, e).Ok? ==> TypeCode(PerssonDrudeAt(scope, e).value) == ['8', '-', SuffixDigit(e)]
  {
    var K := [Number, Number, Number, Number, Number, Number, Number];
    var r7 := ReadSlots(scope, K, 7);
    var r6 := ReadSlots(scope, K, 6);
    var r5 := ReadSlots(scope, K, 5);
    var r4 := ReadSlots(scope, K, 4);
    var r3 := ReadSlots(scope, K, 3);
    var r2 := ReadSlots(scope, K, 2);
    var r1 := ReadSlots(scope, K, 1);
    var r0 := ReadSlots(scope, K, 0);
  }

  lemma PerssonSbSlots(scope: Scope, e: EpsType)
    ensures Follows(PerssonSbAt(scope, e), ReadSlots(scope, [Number, Number, Number, Number], 0))
    ensures PerssonSbAt(scope, e).Ok? ==> TypeCode(PerssonSbAt(scope, e).value) == ['9', '-', SuffixDigit(e)]
  {
    var K := [Number, Number, Number, Number];
    var r4 := ReadSlots(scope, K, 4);
    var r3 := ReadSlots(scope, K, 3);
    var r2 := ReadSlots(scope, K, 2);
    var r1 := ReadSlots(scope, K, 1);
    var r0 := ReadSlots(scope, K, 0);
  }

  /** The dispatch reads, for every code of the table, exactly the slots of its
      signature; every other code is the `IllegalStateException`. A built layer
      carries the code it was built from. */
  lemma DispatchFollowsSignature(code: string, scope: Scope)
    ensures Signature(code).None? ==> Dispatch(code, scope) == Err(IllegalState)
    ensures Signature(code).Some? ==> Follows(Dispatch(code, scope), ReadSlots(scope, Signature(code).value, 0))
    ensures Dispatch(code, scope).Ok? ==> TypeCode(Dispatch(code, scope).value) == code
  {
    match code
    case "1-1" => GaAsSlots(scope, Adachi);
    case "1-2" => GaAsSlots(scope, Gauss);
    case "1-3" => GaAsSlots(scope, GaussWithZeroImPermittivityBelowE0);
    case "2-1" => AlGaAsSlots(scope, Adachi);
    case "2-2" => AlGaAsSlots(scope, Gauss);
    case "2-3" => AlGaAsSlots(scope, GaussWithZeroImPermittivityBelowE0);
    case "3" => ConstRefractiveIndexLayerSlots(scope);
    case "4-1" => GaAsExcitonicSlots(scope, Adachi);
    case "4-2" => GaAsExcitonicSlots(scope, Gauss);
    case "4-3" => GaAsExcitonicSlots(scope, GaussWithZeroImPermittivityBelowE0);
    case "5-1" => AlGaAsExcitonicSlots(scope, Adachi);
    case "5-2" => AlGaAsExcitonicSlots(scope, Gauss);
    case "5-3" => AlGaAsExcitonicSlots(scope, GaussWithZeroImPermittivityBelowE0);
    case "6" => ConstRefractiveIndexLayerExcitonicSlots(scope);
    case "7-1" => EffectiveMediumDrudeSlots(scope, Adachi);
    case "7-2" => EffectiveMediumDrudeSlots(scope, Gauss);
    case "7-3" => EffectiveMediumDrudeSlots(scope, GaussWithZeroImPermittivityBelowE0);
    case "8-1" => PerssonDrudeSlots(scope, Adachi);
    case "8-2" => PerssonDrudeSlots(scope, Gauss);
    case "8-3" => PerssonDrudeSlots(scope, GaussWithZeroImPermittivityBelowE0);
    case "9-1" => PerssonSbSlots(scope, Adachi);
    case "9-2" => PerssonSbSlots(scope, Gauss);
    case "9-3" => PerssonSbSlots(scope, GaussWithZeroImPermittivityBelowE0);
    case _ =>
  }

  /** For a code of the table, on any scope: the layer is built exactly when
      every slot of the signature reads, its fields are the values read, slot
      by slot, and otherwise the fault is that of the first slot that fails. */
  lemma DispatchReadsSlots(code: string, scope: Scope)
    requires Signature(code).Some?
    ensures var K := Signature(code).value;
      var r := Dispatch(code, scope);
      && (r.Ok? <==> forall i :: 0 <= i < |K| ==> ReadSlot(scope, i, K[i]).Ok?)
      && (r.Ok? ==> (|Fields(r.value)| == |K|
          && forall i :: 0 <= i < |K| ==> ReadSlot(scope, i, K[i]) == Ok(Fields(r.value)[i])))
      && (r.Err? ==>
            exists i :: (0 <= i < |K|
              && (forall j :: 0 <= j < i ==> ReadSlot(scope, j, K[j]).Ok?)
              && ReadSlot(scope, i, K[i]) == Err(r.error)))
  {
    DispatchFollowsSignature(code, scope);
    FollowsMeaning(scope, Signature(code).value, Dispatch(code, scope));
  }

  /** A result that follows the slot reads is built exactly when every slot
      reads, holds the values read, and otherwise fails as the first slot does. */
  lemma FollowsMeaning(scope: Scope, K: seq<SlotKind>, r: Result<Layer, Fault>)
    requires Follows(r, ReadSlots(scope, K, 0))
    ensures && (r.Ok? <==> forall i :: 0 <= i < |K| ==> ReadSlot(scope, i, K[i]).Ok?)
      && (r.Ok? ==> (|Fields(r.value)| == |K|
          && forall i :: 0 <= i < |K| ==> ReadSlot(scope, i, K[i]) == Ok(Fields(r.value)[i])))
      && (r.Err? ==>
            exists i :: (0 <= i < |K|
              && (forall j :: 0 <= j < i ==> ReadSlot(scope, j, K[j]).Ok?)
              && ReadSlot(scope, i, K[i]) == Err(r.error)))
  {
    ReadSlotsMeaning(scope, K, 0);
    var rs := ReadSlots(scope, K, 0);
    if r.Ok? {
      assert Fields(r.value) == rs.value;
    } else {
      var i :| 0 <= i < |K| && (forall j :: 0 <= j < i ==> ReadSlot(scope, j, K[j]).Ok?)
        && ReadSlot(scope, i, K[i]) == Err(rs.error);
      assert r.error == rs.error;
    }
  }

  /** A parameter string read as a literal of the given kind. */
  function ParamOf(s: string, kind: SlotKind): Result<Param, Fault> {
    match kind
    case Number => (var v :- ToDouble(s); Ok(Real(v)))
    case ComplexNumber => (var z :- ToComplex(s); Ok(Cplx(z)))
  }

  lemma ReadSlotOfWith(ps: seq<string>, i: nat, kind: SlotKind)
    ensures ReadSlot(With(ps), i, kind) == if i < |ps| then ParamOf(ps[i], kind) else Err(IndexOutOfBounds(i, |ps|))
  {
  }

  lemma ReadsOfWith(ps: seq<string>, K: seq<SlotKind>)
    ensures forall i :: 0 <= i < |K| ==>
      ReadSlot(With(ps), i, K[i]) == if i < |ps| then ParamOf(ps[i], K[i]) else Err(IndexOutOfBounds(i, |ps|))
  {
    forall i | 0 <= i < |K|
      ensures ReadSlot(With(ps), i, K[i]) == if i < |ps| then ParamOf(ps[i], K[i]) else Err(IndexOutOfBounds(i, |ps|))
    {
      ReadSlotOfWith(ps, i, K[i]);
    }
  }

  /** Every slot reads exactly when the list is long enough and every string reads. */
  lemma AllReadsOk(ps: seq<string>, K: seq<SlotKind>)
    ensures (forall i :: 0 <= i < |K| ==> ReadSlot(With(ps), i, K[i]).Ok?) <==>
      (|ps| >= |K| && forall i :: 0 <= i < |K| ==> ParamOf(ps[i], K[i]).Ok?)
  {
    ReadsOfWith(ps, K);
    if |K| > 0 && forall i :: 0 <= i < |K| ==> ReadSlot(With(ps), i, K[i]).Ok? {
      assert ReadSlot(With(ps), |K| - 1, K[|K| - 1]).Ok?;
    }
  }

  /** For a code of the table: the layer is built exactly when every parameter
      of its signature is present and reads as a literal of its kind, and its
      fields are those literals, position by position. */
  lemma LayerParameters(code: string, ps: seq<string>)
    requires Signature(code).Some?
    ensures var K := Signature(code).value;
      var r := LayerOf(code, ps);
      && (r.Ok? <==> |ps| >= |K| && forall i :: 0 <= i < |K| ==> ParamOf(ps[i], K[i]).Ok?)
      && (r.Ok? ==> (|Fields(r.value)| == |K|
          && forall i :: 0 <= i < |K| ==> ParamOf(ps[i], K[i]) == Ok(Fields(r.value)[i])))
  {
    var K := Signature(code).value;
    DispatchReadsSlots(code, With(ps));
    ReadsOfWith(ps, K);
    AllReadsOk(ps, K);
  }

  /** For a code of the table, a layer that is not built fails on the first
      slot that cannot be read: an `IndexOutOfBoundsException` when the list
      ends before it, else the fault of its literal. */
  lemma LayerFault(code: string, ps: seq<string>)
    requires Signature(code).Some?
    requires LayerOf(code, ps).Err?
    ensures var K := Signature(code).value;
      exists i :: (0 <= i < |K|
        && (forall j :: 0 <= j < i ==> j < |ps| && ParamOf(ps[j], K[j]).Ok?)
        && (if i < |ps| then ParamOf(ps[i], K[i]) == Err(LayerOf(code, ps).error)
            else LayerOf(code, ps).error == IndexOutOfBounds(i, |ps|)))
  {
    var K := Signature(code).value;
    DispatchReadsSlots(code, With(ps));
    var i :| 0 <= i < |K|
      && (forall j :: 0 <= j < i ==> ReadSlot(With(ps), j, K[j]).Ok?)
      && ReadSlot(With(ps), i, K[i]) == Err(LayerOf(code, ps).error);
    ReadsOfWith(ps, K);
    if i > 0 {
      assert ReadSlot(With(ps), i - 1, K[i - 1]).Ok?;
    }
  }

  /** Reading stops at the first slot that fails. */
  lemma {:induction false} ReadSlotsStopsAt(scope: Scope, K: seq<SlotKind>, from: nat, n: nat, e: Fault)
    requires from <= n < |K|
    requires forall i :: from <= i < n ==> ReadSlot(scope, i, K[i]).Ok?
    requires ReadSlot(scope, n, K[n]) == Err(e)
    ensures ReadSlots(scope, K, from) == Err(e)
    decreases n - from
  {
    if from < n {
      ReadSlotsStopsAt(scope, K, from + 1, n, e);
    }
  }

  /** A list that stops short of the signature, with every parameter it does
      hold well formed, fails on the first missing position. */
  lemma MissingParameter(code: string, ps: seq<string>)
    requires Signature(code).Some?
    requires |ps| < |Signature(code).value|
    requires forall i :: 0 <= i < |ps| ==> ParamOf(ps[i], Signature(code).value[i]).Ok?
    ensures LayerOf(code, ps) == Err(IndexOutOfBounds(|ps|, |ps|))
  {
    var K := Signature(code).value;
    ReadsOfWith(ps, K);
    ReadSlotsStopsAt(With(ps), K, 0, |ps|, IndexOutOfBounds(|ps|, |ps|));
    DispatchFollowsSignature(code, With(ps));
  }

  /** Two scopes that read the same values for the slots read the same slot sequence. */
  lemma {:induction false} ReadSlotsAgree(a: Scope, b: Scope, K: seq<SlotKind>, from: nat)
    requires from <= |K|
    requires forall i :: from <= i < |K| ==> ReadSlot(a, i, K[i]) == ReadSlot(b, i, K[i])
    ensures ReadSlots(a, K, from) == ReadSlots(b, K, from)
    decreases |K| - from
  {
    if from < |K| {
      ReadSlotsAgree(a, b, K, from + 1);
    }
  }

  /** The dispatch depends on nothing but the slots of the code's signature. */
  lemma DispatchReadsOnlySignature(code: string, a: Scope, b: Scope)
    requires Signature(code).Some? ==>
      forall i :: 0 <= i < |Signature(code).value| ==>
        ReadSlot(a, i, Signature(code).value[i]) == ReadSlot(b, i, Signature(code).value[i])
    ensures Dispatch(code, a) == Dispatch(code, b)
  {
    DispatchFollowsSignature(code, a);
    DispatchFollowsSignature(code, b);
    if Signature(code).Some? {
      ReadSlotsAgree(a, b, Signature(code).value, 0);
      if Dispatch(code, a).Ok? {
        FieldsAndCodeDetermineLayer(Dispatch(code, a).value, Dispatch(code, b).value);
      }
    }
  }

  /** Parameters past those of the signature are never looked at. */
  lemma ExtraParametersIgnored(code: string, ps: seq<string>, extra: seq<string>)
    requires Signature(code).Some? ==> |ps| >= |Signature(code).value|
    ensures LayerOf(code, ps + extra) == LayerOf(code, ps)
  {
    if Signature(code).Some? {
      var K := Signature(code).value;
      forall i | 0 <= i < |K|
        ensures ReadSlot(With(ps + extra), i, K[i]) == ReadSlot(With(ps), i, K[i])
      {
        assert (ps + extra)[i] == ps[i];
      }
    }
    DispatchReadsOnlySignature(code, With(ps + extra), With(ps));
  }

  /** The `IllegalStateException` is raised for exactly the codes outside the table. */
  lemma UnknownCodeIsFatal(code: string, ps: seq<string>)
    ensures LayerOf(code, ps) == Err(IllegalState) <==> Signature(code).None?
  {
    DispatchFollowsSignature(code, With(ps));
    if Signature(code).Some? && LayerOf(code, ps).Err? {
      var K := Signature(code).value;
      DispatchReadsSlots(code, With(ps));
      var i :| 0 <= i < |K| && ReadSlot(With(ps), i, K[i]) == Err(LayerOf(code, ps).error);
      ReadSlotOfWith(ps, i, K[i]);
    }
  }

  /** The number of positional parameters of each family. */
  function Arity(family: char): nat {
    match family
    case '1' => 1
    case '2' => 3
    case '3' => 2
    case '4' => 4
    case '5' => 6
    case '6' => 5
    case '7' => 7
    case '8' => 7
    case '9' => 4
    case _ => 0
  }

  /** The codes of the table: `3` and `6`, and `F-V` for the other families
      `F` and the variants `V` in 1..3; the number of parameters depends on
      the family alone. */
  lemma TableCodes(code: string)
    ensures Signature(code).Some? <==>
      (|code| == 1 && code[0] in "36") || (|code| == 3 && code[0] in "1245789" && code[1] == '-' && code[2] in "123")
    ensures Signature(code).Some? ==> |Signature(code).value| == Arity(code[0])
  {
    if |code| == 3 && code[0] in "1245789" && code[1] == '-' && code[2] in "123" {
      assert code == [code[0], code[1], code[2]];
    } else if |code| == 1 && code[0] in "36" {
      assert code == [code[0]];
    }
  }

  /** A built layer belongs to the family of the code's first character, and
      its parametrization is the one the code's variant digit selects. */
  lemma CodeSelectsFamilyAndEpsType(code: string, ps: seq<string>)
    requires LayerOf(code, ps).Ok?
    ensures var l := LayerOf(code, ps).value;
      && FamilyDigit(l) == code[0]
      && (|code| == 1 <==> EpsTypeOf(l).None?)
      && (|code| == 3 ==> EpsTypeOf(l) == EpsTypeOfSuffix(code[2]))
  {
    DispatchFollowsSignature(code, With(ps));
    TypeCodeDeterminesEpsType(LayerOf(code, ps).value);
  }

  /** A real slot reads from a parameter exactly when the parameter is there
      and is a decimal literal. */
  lemma NumberSlot(ps: seq<string>, i: nat)
    ensures ReadSlot(With(ps), i, Number).Ok? <==> i < |ps| && ParseDouble(ps[i]).Some?
    ensures ReadSlot(With(ps), i, Number).Ok? ==> ReadSlot(With(ps), i, Number) == Ok(Real(ParseDouble(ps[i]).value))
  {
    var r := ParseAt(ps, i);
    assert With(ps).parseAt(i) == r;
  }

  /** A complex slot reads from a parameter exactly when the parameter is there
      and is a complex literal. */
  lemma ComplexSlot(ps: seq<string>, i: nat)
    ensures ReadSlot(With(ps), i, ComplexNumber).Ok? <==> i < |ps| && ToComplex(ps[i]).Ok?
    ensures ReadSlot(With(ps), i, ComplexNumber).Ok? ==> ReadSlot(With(ps), i, ComplexNumber) == Ok(Cplx(ToComplex(ps[i]).value))
  {
    var r := ParseComplexAt(ps, i);
    assert With(ps).parseComplexAt(i) == r;
  }

  lemma ConstRefractiveIndexReads(scope: Scope)
    ensures var r := Dispatch("3", scope);
      && (r.Ok? <==> ReadSlot(scope, 0, Number).Ok? && ReadSlot(scope, 1, ComplexNumber).Ok?)
      && (r.Ok? ==> Fields(r.value) == [ReadSlot(scope, 0, Number).value, ReadSlot(scope, 1, ComplexNumber).value])
      && (r.Ok? ==> r.value.ConstRefractiveIndexLayer?)
  {
    DispatchReadsSlots("3", scope);
    DispatchFollowsSignature("3", scope);
    var r := Dispatch("3", scope);
    if r.Ok? {
      assert ReadSlot(scope, 0, Number) == Ok(Fields(r.value)[0]);
      assert ReadSlot(scope, 1, ComplexNumber) == Ok(Fields(r.value)[1]);
    }
  }

  /** Code `3`: the thickness from parameter 0 and the refractive index from
      the complex literal of parameter 1. */
  lemma ConstRefractiveIndexParameters(ps: seq<string>)
    ensures LayerOf("3", ps).Ok? <==> |ps| >= 2 && ParseDouble(ps[0]).Some? && ToComplex(ps[1]).Ok?
    ensures LayerOf("3", ps).Ok? ==>
      LayerOf("3", ps).value == ConstRefractiveIndexLayer(ParseDouble(ps[0]).value, ToComplex(ps[1]).value)
  {
    ConstRefractiveIndexReads(With(ps));
    NumberSlot(ps, 0);
    ComplexSlot(ps, 1);
  }

  lemma DrudeSignature(code: string)
    requires |code| == 3 && code[0] in "78" && code[1] == '-' && code[2] in "123"
    ensures Signature(code) == Some([Number, Number, Number, Number, Number, Number, Number])
  {
    assert code == [code[0], code[1], code[2]];
  }

  /** The two Drude-metal families read their plasma parameters from
      different positions: the effective medium as `wPlasma, gammaPlasma, f,
      epsInf` at 3..6, the Persson model as `latticeFactor, wPlasma,
      gammaPlasma, epsInf` at 3..6. */
  lemma DrudeParameterPositions(code: string, ps: seq<string>)
    requires |code| == 3 && code[0] in "78" && code[1] == '-'
    requires LayerOf(code, ps).Ok?
    ensures |ps| >= 7
    ensures match LayerOf(code, ps).value
      case EffectiveMediumForDrudeMetalClustersInAlGaAs(d, k, x, wPlasma, gammaPlasma, f, epsInf, _) =>
        && code[0] == '7'
        && ParseDouble(ps[0]) == Some(d) && ParseDouble(ps[1]) == Some(k) && ParseDouble(ps[2]) == Some(x)
        && ParseDouble(ps[3]) == Some(wPlasma) && ParseDouble(ps[4]) == Some(gammaPlasma)
        && ParseDouble(ps[5]) == Some(f) && ParseDouble(ps[6]) == Some(epsInf)
      case PerssonModelForDrudeMetalClustersInAlGaAs(d, k, x, latticeFactor, wPlasma, gammaPlasma, epsInf, _) =>
        && code[0] == '8'
        && ParseDouble(ps[0]) == Some(d) && ParseDouble(ps[1]) == Some(k) && ParseDouble(ps[2]) == Some(x)
        && ParseDouble(ps[3]) == Some(latticeFactor) && ParseDouble(ps[4]) == Some(wPlasma)
        && ParseDouble(ps[5]) == Some(gammaPlasma) && ParseDouble(ps[6]) == Some(epsInf)
      case _ => false
  {
    var l := LayerOf(code, ps).value;
    CodeSelectsFamilyAndEpsType(code, ps);
    UnknownCodeIsFatal(code, ps);
    TableCodes(code);
    DrudeSignature(code);
    LayerParameters(code, ps);
    var f := Fields(l);
    forall i | 0 <= i < 7 ensures ParseDouble(ps[i]) == Some(f[i].r) {
      NumberParam(ps[i], f[i]);
    }
    DrudeFields(l, ps, ParseDouble);
  }

  lemma DrudeFields<T>(l: Layer, ps: seq<T>, parse: T -> Option<real>)
    requires l.EffectiveMediumForDrudeMetalClustersInAlGaAs? || l.PerssonModelForDrudeMetalClustersInAlGaAs?
    requires |ps| >= 7 && forall i :: 0 <= i < 7 ==> parse(ps[i]) == Some(Fields(l)[i].r)
    ensures match l
      case EffectiveMediumForDrudeMetalClustersInAlGaAs(d, k, x, wPlasma, gammaPlasma, f, epsInf, _) =>
        && parse(ps[0]) == Some(d) && parse(ps[1]) == Some(k) && parse(ps[2]) == Some(x)
        && parse(ps[3]) == Some(wPlasma) && parse(ps[4]) == Some(gammaPlasma)
        && parse(ps[5]) == Some(f) && parse(ps[6]) == Some(epsInf)
      case PerssonModelForDrudeMetalClustersInAlGaAs(d, k, x, latticeFactor, wPlasma, gammaPlasma, epsInf, _) =>
        && parse(ps[0]) == Some(d) && parse(ps[1]) == Some(k) && parse(ps[2]) == Some(x)
        && parse(ps[3]) == Some(latticeFactor) && parse(ps[4]) == Some(wPlasma)
        && parse(ps[5]) == Some(gammaPlasma) && parse(ps[6]) == Some(epsInf)
      case _ => false
  {
    var f := Fields(l);
    assert parse(ps[0]) == Some(f[0].r) && parse(ps[1]) == Some(f[1].r);
    assert parse(ps[2]) == Some(f[2].r) && parse(ps[3]) == Some(f[3].r);
    assert parse(ps[4]) == Some(f[4].r) && parse(ps[5]) == Some(f[5].r);
    assert parse(ps[6]) == Some(f[6].r);
  }

  /** A real slot's parameter is the decimal literal of the value read. */
  lemma NumberParam(s: string, p: Param)
    requires ParamOf(s, Number) == Ok(p)
    ensures p.Real? && ParseDouble(s) == Some(p.r)
  {
  }
}
