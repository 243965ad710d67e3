# Plasmirror structure builder in Dafny

This project models `StructureBuilder`, the structure builder of Plasmirror's
optics core. It turns the textual description of a layered stack into typed
values. The description is a list of blocks. Each block is a repeat-count
string and a list of layer descriptions, and each layer description is a type
code and its positional parameter strings. The builder produces
a `Structure`, a list of `Block`s of typed layers.

The source is pure: a nested `map`, a `when` table keyed on the type code, and
the string operations `toDouble`, `toInt`, `replace`, `split`. The model is
therefore written with datatypes, functions and lemmas. There are no classes
and no loops.

Modules, one per concern:

- `Results` (`results.dfy`): `Option` and `Result`. `Result` is used
  wherever the Kotlin code can throw. It also models Kotlin's `map` with a
  transform that may throw: the first exception, in list order, ends the map
  (`MapAll`).
- `Text` (`text.dfy`) models `indexOf`, Kotlin's `split` on one character
  (empty pieces are kept, trailing ones included), Java's `trim`, and
  `replace(Regex("[()]"), "")`. Each comes with a lemma stating
  its meaning and an inverse or idempotence lemma.
- `Numbers` (`numbers.dfy`):
  - `toInt` is `Integer.parseInt`: an optional sign, ASCII digits, and the
    32-bit range.
  - `toDouble` is Java's trim followed by a plain decimal literal, read as
    an exact real.
  - The printing functions `IntToString` and `DecimalLiteral.Render` are
    right inverses of these parsers: what they print parses back. Several
    strings parse to the same value (`"+007"` is 7 but prints as `"7"`).
- `Layers` (`layers.dfy`) holds one variant per layer class, with its named
  constructor arguments, and the `EpsType` parametrization. `TypeCode`
  computes the table code that selects a layer.
- `StructureBuilder` (`structure.dfy`) follows `structure.kt`:
  - the description and result types;
  - `parseAt`, `parseComplexAt` and `toComplex`;
  - one function per layer family, reading its parameters in the order the
    named arguments are written;
  - the 23-entry dispatch `Dispatch`;
  - `layer` as `LayerOf`;
  - `build` as `Build`, with `BuildBlock` for one block.

  Kotlin's `with(description)` receiver is a `Scope`: a record of the two
  reading functions. The dispatch sees the parameter list only through it.
- `LayerTable` (`dispatch.dfy`) restates the type-code table independently
  as `Signature`. `Signature` is, for each code, the kinds of the positional
  parameters it reads. The lemmas in this module prove what the dispatch does
  with those parameters:
  - it reads exactly those positions, in order, into the layer's fields;
  - it fails on the first one that cannot be read;
  - it ignores extra parameters;
  - it reaches the `IllegalStateException` for exactly the codes outside the
    table.
- `Scenarios` (`scenarios.dfy`) has concrete layer descriptions, read back by
  the general lemmas.

The exceptions are the `Fault` values `IllegalState`, `IndexOutOfBounds(index,
size)` and `NumberFormat(input)`. Each function returns the fault that the JVM
raises first. Named arguments are evaluated in the order they are written.
`map` runs left to right. A block's repeat string is converted before its
layers.

Where the description of the program and the code differ, the model follows
the code:

- A block's repeat count is stored exactly as `toInt` returns it. Nothing
  checks that it is at least 1.
- Parameters beyond a code's arity are ignored (`ExtraParametersIgnored`).
  They are not rejected.
- `toComplex` converts every `;`-separated piece before it takes the first
  two. A third piece that is not a number therefore still raises
  `NumberFormatException` (`ToComplexMeaning`).

## Model

| member | source | states |
|---|---|---|
| Results.MapAll | Plasmirror_Kotlin/src/main/kotlin/core/structure.kt:33-34 | `map` with a transform that may throw; its meaning is stated by `MapAllMeaning` |
| StructureBuilder.DescribedLayer | Plasmirror_Kotlin/src/main/kotlin/core/structure.kt:34 | `layer(ld.type, ld.description)` of one layer description; stated through `BuildBlock` and `BuildContents` |
| StructureBuilder.LayerOf | Plasmirror_Kotlin/src/main/kotlin/core/structure.kt:37-109 | `layer(type, description)`: the dispatch inside `with(description)`; stated by `LayerParameters`, `LayerFault`, `UnknownCodeIsFatal` and `ExtraParametersIgnored` |
| StructureBuilder.With | Plasmirror_Kotlin/src/main/kotlin/core/structure.kt:37 | the receiver `with(description)`: its two readers are `parseAt` and `parseComplexAt` of the list; stated by `ReadsOfWith`, `NumberSlot` and `ComplexSlot` |
| StructureBuilder.Dispatch | Plasmirror_Kotlin/src/main/kotlin/core/structure.kt:38-108 | the `when` table on the type code, on any receiver; stated by `DispatchFollowsSignature` and `DispatchReadsSlots` |
| StructureBuilder.GaAsAt | Plasmirror_Kotlin/src/main/kotlin/core/structure.kt:39-41 | the `GaAs` constructor call; stated by `GaAsSlots` |
| StructureBuilder.AlGaAsAt | Plasmirror_Kotlin/src/main/kotlin/core/structure.kt:45-47 | the `AlGaAs` constructor call; stated by `AlGaAsSlots` |
| StructureBuilder.ConstRefractiveIndexLayerAt | Plasmirror_Kotlin/src/main/kotlin/core/structure.kt:52 | the `ConstRefractiveIndexLayer` constructor call; stated by `ConstRefractiveIndexLayerSlots` |
| StructureBuilder.GaAsExcitonicAt | Plasmirror_Kotlin/src/main/kotlin/core/structure.kt:54-59 | the `GaAsExcitonic` constructor call; stated by `GaAsExcitonicSlots` |
| StructureBuilder.AlGaAsExcitonicAt | Plasmirror_Kotlin/src/main/kotlin/core/structure.kt:64-69 | the `AlGaAsExcitonic` constructor call; stated by `AlGaAsExcitonicSlots` |
| StructureBuilder.ConstRefractiveIndexLayerExcitonicAt | Plasmirror_Kotlin/src/main/kotlin/core/structure.kt:73-74 | the `ConstRefractiveIndexLayerExcitonic` constructor call; stated by `ConstRefractiveIndexLayerExcitonicSlots` |
| StructureBuilder.EffectiveMediumDrudeAt | Plasmirror_Kotlin/src/main/kotlin/core/structure.kt:77-82 | the `EffectiveMediumForDrudeMetalClustersInAlGaAs` constructor call; stated by `EffectiveMediumDrudeSlots` |
| StructureBuilder.PerssonDrudeAt | Plasmirror_Kotlin/src/main/kotlin/core/structure.kt:87-94 | the `PerssonModelForDrudeMetalClustersInAlGaAs` constructor call; stated by `PerssonDrudeSlots` |
| StructureBuilder.PerssonSbAt | Plasmirror_Kotlin/src/main/kotlin/core/structure.kt:98-103 | the `PerssonModelForSbClustersInAlGaAs` constructor call; stated by `PerssonSbSlots` |
| StructureBuilder.ToDouble | Plasmirror_Kotlin/src/main/kotlin/core/structure.kt:112 | `toDouble` succeeds exactly when the string is a decimal literal, with its value, and otherwise raises `NumberFormatException` with that string |
| Numbers.ParseDouble | Plasmirror_Kotlin/src/main/kotlin/core/structure.kt:112 | Java's trim, then an optionally signed decimal literal; stated by `DecimalRoundTrip`, `TrimmedDouble` and `NatAsDouble` |
| StructureBuilder.Pieces | Plasmirror_Kotlin/src/main/kotlin/core/structure.kt:117 | the pieces `replace(Regex("[()]"), "").split(";")`: always at least one; stated by `PiecesOfLiteral` |
| Text.Split | Plasmirror_Kotlin/src/main/kotlin/core/structure.kt:117 | Kotlin's `split` always gives at least one piece; stated by `SplitPieces`, `JoinSplit` and `SplitJoin` |
| Text.RemoveParens | Plasmirror_Kotlin/src/main/kotlin/core/structure.kt:117 | removing parentheses never lengthens a string; stated by `RemoveParensMeaning`, `RemoveParensAppend` and `RemoveParensIdempotent` |
| Results.MapAllMeaning | Plasmirror_Kotlin/src/main/kotlin/core/structure.kt:33-34 | `map` with a throwing transform succeeds exactly when the transform succeeds on every element; then it holds the results one to one and in order; otherwise its exception is that of the first element that fails |
| StructureBuilder.Build | Plasmirror_Kotlin/src/main/kotlin/core/structure.kt:33-35 | `build` succeeds exactly when every block builds; the structure has as many blocks as descriptions, the i-th built from the i-th; otherwise the fault is that of the first failing block |
| StructureBuilder.BuildBlock | Plasmirror_Kotlin/src/main/kotlin/core/structure.kt:34 | a block's repeat is `toInt` of its string, a bad string being `NumberFormatException` before any layer is read; the layers are mapped one to one and in order; otherwise the first failing layer's fault |
| StructureBuilder.BuildContents | Plasmirror_Kotlin/src/main/kotlin/core/structure.kt:23-35 | in a built structure, block i keeps the parsed repeat; layers are not expanded (as many layers as described); layer j is `layer(type, description)` of its own description |
| StructureBuilder.ToInt | Plasmirror_Kotlin/src/main/kotlin/core/structure.kt:34 | `toInt` returns a 32-bit integer, the parse of the string, or raises `NumberFormatException` with that string |
| StructureBuilder.ParseAt | Plasmirror_Kotlin/src/main/kotlin/core/structure.kt:112 | `parseAt(i)` succeeds exactly when i is inside the list and element i is a decimal literal, and then gives its value; past the end it is `IndexOutOfBoundsException(i, size)`; otherwise `NumberFormatException` of element i |
| StructureBuilder.ParseComplexAt | Plasmirror_Kotlin/src/main/kotlin/core/structure.kt:114 | inside the list, `parseComplexAt(i)` is `toComplex` of element i, whatever its outcome; past the end it is `IndexOutOfBoundsException(i, size)`; it is never `IllegalStateException` |
| StructureBuilder.ToComplex | Plasmirror_Kotlin/src/main/kotlin/core/structure.kt:116-119 | `toComplex` can fail only with `NumberFormatException` or the destructuring's `IndexOutOfBoundsException(1, 1)` |
| StructureBuilder.ToComplexMeaning | Plasmirror_Kotlin/src/main/kotlin/core/structure.kt:116-119 | a complex literal is read exactly when, after removing parentheses and splitting on `;`, there are at least two pieces and every piece is a decimal literal; the real and imaginary parts are pieces 0 and 1 |
| StructureBuilder.ToComplexFault | Plasmirror_Kotlin/src/main/kotlin/core/structure.kt:117-118 | a failing `toComplex` fails on its first piece that is not a number, or, when the single piece is a number, on the missing imaginary part |
| StructureBuilder.ComplexLiteralRoundTrip | Plasmirror_Kotlin/src/main/kotlin/core/structure.kt:116-119 | `"(" + a + ";" + b + ")"` reads back as the complex number with real part a and imaginary part b, for pieces without parentheses or `;` |
| StructureBuilder.PiecesOfLiteral | Plasmirror_Kotlin/src/main/kotlin/core/structure.kt:117 | removing the parentheses of `(a;b)` and splitting on `;` gives exactly `[a, b]` |
| StructureBuilder.ComplexOfDecimals | Plasmirror_Kotlin/src/main/kotlin/core/structure.kt:116-119 | two decimal literals written as `(re;im)` read back as their exact values |
| LayerTable.GaAsSlots | Plasmirror_Kotlin/src/main/kotlin/core/structure.kt:39-41 | codes `1-x` read `d` from position 0 and carry code `1-x` |
| LayerTable.AlGaAsSlots | Plasmirror_Kotlin/src/main/kotlin/core/structure.kt:45-47 | codes `2-x` read `d, k, x` from positions 0..2, in that order |
| LayerTable.ConstRefractiveIndexLayerSlots | Plasmirror_Kotlin/src/main/kotlin/core/structure.kt:52 | code `3` reads the real `d` at 0 and the complex `n` at 1 |
| LayerTable.GaAsExcitonicSlots | Plasmirror_Kotlin/src/main/kotlin/core/structure.kt:54-59 | codes `4-x` read `d, w0, gamma0, gamma` from positions 0..3 |
| LayerTable.AlGaAsExcitonicSlots | Plasmirror_Kotlin/src/main/kotlin/core/structure.kt:64-69 | codes `5-x` read `d, k, x, w0, gamma0, gamma` from positions 0..5 |
| LayerTable.ConstRefractiveIndexLayerExcitonicSlots | Plasmirror_Kotlin/src/main/kotlin/core/structure.kt:73-74 | code `6` reads `d` at 0, the complex `n` at 1 and `w0, gamma0, gamma` at 2..4 |
| LayerTable.EffectiveMediumDrudeSlots | Plasmirror_Kotlin/src/main/kotlin/core/structure.kt:77-82 | codes `7-x` read their seven real parameters from positions 0..6 in argument order |
| LayerTable.PerssonDrudeSlots | Plasmirror_Kotlin/src/main/kotlin/core/structure.kt:87-94 | codes `8-x` read their seven real parameters from positions 0..6 in argument order |
| LayerTable.PerssonSbSlots | Plasmirror_Kotlin/src/main/kotlin/core/structure.kt:98-103 | codes `9-x` read `d, k, x, latticeFactor` from positions 0..3 |
| LayerTable.DispatchFollowsSignature | Plasmirror_Kotlin/src/main/kotlin/core/structure.kt:37-109 | for every code of the table, the layer is the reading of that code's signature slots; every other string is `IllegalStateException`; a built layer's type code is the code it was built from |
| LayerTable.DispatchReadsSlots | Plasmirror_Kotlin/src/main/kotlin/core/structure.kt:37-109 | on any receiver, a table code builds exactly when every signature slot reads; the fields are the slot values, position by position; otherwise the fault is that of the first slot that fails |
| LayerTable.ReadSlotsMeaning | Plasmirror_Kotlin/src/main/kotlin/core/structure.kt:39-103 | reading the slots left to right gives every value, in order, or the fault of the first slot that fails |
| LayerTable.FollowsMeaning | Plasmirror_Kotlin/src/main/kotlin/core/structure.kt:39-103 | a constructor call whose arguments are the slot reads builds exactly when all slots read, and fails as the first failing slot |
| LayerTable.LayerParameters | Plasmirror_Kotlin/src/main/kotlin/core/structure.kt:37-112 | `layer(code, ps)` for a table code succeeds exactly when `ps` has at least the code's arity and every parameter reads as a literal of its kind; then the fields are those literals, in position order |
| LayerTable.LayerFault | Plasmirror_Kotlin/src/main/kotlin/core/structure.kt:37-112 | a failing table code fails on its first unreadable parameter: `IndexOutOfBoundsException(i, size)` when the list ends before position i, else that parameter's literal fault |
| LayerTable.AllReadsOk | Plasmirror_Kotlin/src/main/kotlin/core/structure.kt:112-114 | every slot reads exactly when the list is long enough and every string reads |
| LayerTable.ReadsOfWith | Plasmirror_Kotlin/src/main/kotlin/core/structure.kt:112-114 | inside `with(description)`, slot i reads element i, or raises `IndexOutOfBoundsException(i, size)` past the end |
| LayerTable.MissingParameter | Plasmirror_Kotlin/src/main/kotlin/core/structure.kt:39-112 | a list shorter than the code's arity, whose present parameters all read, fails with `IndexOutOfBoundsException(size, size)` |
| LayerTable.ReadSlotsStopsAt | Plasmirror_Kotlin/src/main/kotlin/core/structure.kt:39-103 | reading stops at the first slot that fails, with that slot's fault |
| LayerTable.ReadSlotsAgree | Plasmirror_Kotlin/src/main/kotlin/core/structure.kt:39-103 | two receivers that agree on the slots read the same values |
| LayerTable.DispatchReadsOnlySignature | Plasmirror_Kotlin/src/main/kotlin/core/structure.kt:37-109 | the dispatch depends on nothing but the parameters at the positions of the code's signature |
| LayerTable.ExtraParametersIgnored | Plasmirror_Kotlin/src/main/kotlin/core/structure.kt:37-112 | parameters after a code's arity are never looked at: appending any list leaves the result unchanged |
| LayerTable.UnknownCodeIsFatal | Plasmirror_Kotlin/src/main/kotlin/core/structure.kt:107-108 | `IllegalStateException` is the result exactly for the strings outside the table; the commented-out `GAUSS_ADACHI` rows are not in the table |
| LayerTable.TableCodes | Plasmirror_Kotlin/src/main/kotlin/core/structure.kt:38-103 | the table's codes are exactly `3`, `6` and `F-V` for F in 1,2,4,5,7,8,9 and V in 1..3; the arity depends only on the family digit: 1, 3, 2, 4, 6, 5, 7, 7, 4 |
| LayerTable.CodeSelectsFamilyAndEpsType | Plasmirror_Kotlin/src/main/kotlin/core/structure.kt:39-103 | a built layer belongs to the family of the code's first character; a one-character code gives a layer without parametrization, and a suffix `-1`, `-2`, `-3` gives `ADACHI`, `GAUSS`, `GAUSS_WITH_ZERO_IM_PERMITTIVITY_BELOW_E0` |
| LayerTable.NumberSlot | Plasmirror_Kotlin/src/main/kotlin/core/structure.kt:112 | a real slot reads exactly when the parameter is present and is a decimal literal, giving its value |
| LayerTable.ComplexSlot | Plasmirror_Kotlin/src/main/kotlin/core/structure.kt:114 | a complex slot reads exactly when the parameter is present and is a complex literal, giving its value |
| LayerTable.ConstRefractiveIndexReads | Plasmirror_Kotlin/src/main/kotlin/core/structure.kt:52 | on any receiver, code `3` builds exactly when slot 0 reads as a number and slot 1 as a complex number, and has those two as fields |
| LayerTable.ConstRefractiveIndexParameters | Plasmirror_Kotlin/src/main/kotlin/core/structure.kt:52 | code `3` gives `ConstRefractiveIndexLayer(d, n)`, with `d` parameter 0 and `n` the complex reading of parameter 1, exactly when both read |
| LayerTable.DrudeSignature | Plasmirror_Kotlin/src/main/kotlin/core/structure.kt:77-94 | both Drude families read seven real parameters |
| LayerTable.DrudeParameterPositions | Plasmirror_Kotlin/src/main/kotlin/core/structure.kt:77-94 | `7-x` takes `wPlasma, gammaPlasma, f, epsInf` from positions 3..6; `8-x` takes `latticeFactor, wPlasma, gammaPlasma, epsInf` from 3..6; both take `d, k, x` from 0..2 |
| LayerTable.DrudeFields | Plasmirror_Kotlin/src/main/kotlin/core/structure.kt:77-94 | the seven fields of the Drude layers, by name, in constructor order |
| LayerTable.NumberParam | Plasmirror_Kotlin/src/main/kotlin/core/structure.kt:112 | a real slot's value is the decimal reading of its string |
| Layers.EpsTypeOfSuffix | Plasmirror_Kotlin/src/main/kotlin/core/structure.kt:39-103 | the variant digits are exactly `1`, `2`, `3`, and each names one parametrization whose digit is that one |
| Layers.TypeCodeDeterminesEpsType | Plasmirror_Kotlin/src/main/kotlin/core/structure.kt:39-103 | a layer's type code has a variant digit exactly when the layer has a parametrization, and that digit reads back as it |
| Layers.FieldsAndCodeDetermineLayer | Plasmirror_Kotlin/src/main/kotlin/core/structure.kt:39-103 | each code builds one family with one parametrization: a layer is determined by its type code and its positional fields |
| Numbers.ParseInt | Plasmirror_Kotlin/src/main/kotlin/core/structure.kt:34 | `toInt` gives only 32-bit values, and only for strings holding a digit |
| Numbers.IntToStringRoundTrip | Plasmirror_Kotlin/src/main/kotlin/core/structure.kt:34 | `toInt` reads back the decimal writing of exactly the integers in the 32-bit range |
| Numbers.NatToStringRoundTrip | Plasmirror_Kotlin/src/main/kotlin/core/structure.kt:34 | the digits of a natural number have that number as their value |
| Numbers.DecimalRoundTrip | Plasmirror_Kotlin/src/main/kotlin/core/structure.kt:112 | `toDouble` reads back the exact value of every decimal literal: sign, integer digits, optional point and fraction |
| Numbers.UnsignedRoundTrip | Plasmirror_Kotlin/src/main/kotlin/core/structure.kt:112 | an unsigned literal reads as its integer part plus its fraction |
| Numbers.DecimalOfRender | Plasmirror_Kotlin/src/main/kotlin/core/structure.kt:112 | a literal without surrounding blanks reads as its signed value |
| Numbers.NegativeDecimal | Plasmirror_Kotlin/src/main/kotlin/core/structure.kt:112 | a leading `-` negates the unsigned reading, and fails exactly when it fails |
| Numbers.NatAsDouble | Plasmirror_Kotlin/src/main/kotlin/core/structure.kt:112 | a natural number's digits read as that number |
| Numbers.RenderAlphabet | Plasmirror_Kotlin/src/main/kotlin/core/structure.kt:116-117 | a decimal literal uses only digits, `-` and `.`, so it contains no parenthesis and no `;` |
| Numbers.RenderShape | Plasmirror_Kotlin/src/main/kotlin/core/structure.kt:112 | a literal starts with `-` or a digit and ends with a digit, so `trim` leaves it alone |
| Numbers.FractionValue | Plasmirror_Kotlin/src/main/kotlin/core/structure.kt:112 | the digits after the point weigh less than one |
| Numbers.ParseUnsignedDecimal | Plasmirror_Kotlin/src/main/kotlin/core/structure.kt:112 | an unsigned decimal literal has a non-negative value |
| Numbers.AllDigitsAt | Plasmirror_Kotlin/src/main/kotlin/core/structure.kt:112 | every character of an all-digit string is a digit |
| Text.IndexOfMeaning | Plasmirror_Kotlin/src/main/kotlin/core/structure.kt:117 | `indexOf` is a position holding the character with none before it, or the length when there is none |
| Text.IndexOfUnique | Plasmirror_Kotlin/src/main/kotlin/core/structure.kt:117 | that position is unique |
| Text.SplitPieces | Plasmirror_Kotlin/src/main/kotlin/core/structure.kt:117 | no piece of `split(";")` holds a `;` |
| Text.JoinSplit | Plasmirror_Kotlin/src/main/kotlin/core/structure.kt:117 | the pieces of `split` glued back with the delimiter give the string |
| Text.SplitJoin | Plasmirror_Kotlin/src/main/kotlin/core/structure.kt:117 | splitting pieces glued with the delimiter gives the pieces back, empty ones included |
| Text.RemoveParensMeaning | Plasmirror_Kotlin/src/main/kotlin/core/structure.kt:117 | `replace(Regex("[()]"), "")` leaves no parenthesis and leaves a string without one unchanged |
| Text.RemoveParensAppend | Plasmirror_Kotlin/src/main/kotlin/core/structure.kt:117 | removing parentheses works piece by piece over a concatenation |
| Text.RemoveParensIdempotent | Plasmirror_Kotlin/src/main/kotlin/core/structure.kt:117 | removing parentheses twice is removing them once |
| Text.TrimStartMeaning | Plasmirror_Kotlin/src/main/kotlin/core/structure.kt:112 | the leading part of `trim` drops only characters up to U+0020 and keeps a suffix that does not start with one |
| Text.TrimEndMeaning | Plasmirror_Kotlin/src/main/kotlin/core/structure.kt:112 | the trailing part of `trim` drops only characters up to U+0020 and keeps a prefix that does not end with one |
| Text.TrimNoop | Plasmirror_Kotlin/src/main/kotlin/core/structure.kt:112 | a string with no blank at either end is its own trim |
| Text.TrimIdempotent | Plasmirror_Kotlin/src/main/kotlin/core/structure.kt:112 | trimming twice is trimming once |
| Scenarios.ConstRefractiveIndexExample | Plasmirror_Kotlin/src/main/kotlin/core/structure.kt:52 | `layer("3", ["10", "(3.5;0.01)"])` is `ConstRefractiveIndexLayer(10, 3.5 + 0.01i)` |
| Scenarios.ComplexExample | Plasmirror_Kotlin/src/main/kotlin/core/structure.kt:116-119 | `"(3.5;0.01)".toComplex()` is `Complex_(3.5, 0.01)` |
| Scenarios.MissingParameterExample | Plasmirror_Kotlin/src/main/kotlin/core/structure.kt:45 | `layer("2-1", ["10", "0"])` raises `IndexOutOfBoundsException(2, 2)` on the missing `x` |
| Scenarios.UnknownCodeExample | Plasmirror_Kotlin/src/main/kotlin/core/structure.kt:107-108 | `layer("1-4", …)` raises `IllegalStateException` |

## Left out

- The physics behind the layers is not modelled. The layer constructors are treated as record construction. The permittivity models (Adachi, Gauss, Drude, effective medium, Persson) and refractive indices are not modelled, nor is the transfer-matrix computation. `core.layers` and `core.optics` are not part of this model.
- The validators that the comment at the fatal branch relies on are not part of this model. The dispatch is modelled on every input, unknown codes included.
- Kotlin's exceptions are modelled by their kind and their index or input string. The message text and the stack unwinding are left out.
- `Block` and `Structure` are modelled as values. `MutableList` and `var blocks` are never updated by the builder, so reference identity is left out.
- `EpsType` has only the three values the table uses. The enum's declaration is not part of this model. `GAUSS_ADACHI` appears only in commented-out rows.
- Numbers.ParseDouble: `toDouble` is modelled on plain decimal literals only, read as exact real numbers. The following are left out, because they need floating-point semantics and the builder's inputs are plain literals:
  - exponents;
  - `NaN` and `Infinity`;
  - hexadecimal literals;
  - the `d`/`f` type suffixes;
  - binary rounding.
- Numbers.ParseInt: only ASCII digits are modelled. `Integer.parseInt` also accepts other Unicode decimal digits; they are left out.
- The repeat expansion of a block into periods happens later, in the computation, which is not part of this model. The builder stores the count unexpanded (`BuildContents`).
