/** The fixed-order field protocol of the converter: `writeSentiment` and
    `writeParser` put the parameter maps of a model onto an object stream in
    portable form, one unit per field in a fixed order, and `readSentiment`
    and `readParser` read the same units in the same order and rebuild the
    model. */
module ConvertModels {
  import opened Results
  import opened Orders
  import opened Matrices
  import opened KeyedMaps

  // ---------------------------------------------------------------------------
  // The models

  /** The sentiment model's RNNOptions, passed through unconverted. */
  type RNNOptions(==)
  /** The options a LexicalizedParser returns from getOp(). */
  type ParserOptions(==)
  /** Everything else a LexicalizedParser holds (grammars, lexicon, ...). */
  type ParserGrammar(==)
  /** A parser reranker of another kind than DVModelReranker. */
  type ForeignReranker(==)

  type MatrixMap = JavaMap<Key, Matrix>
  type MatrixMap2D = JavaMap<(Key, Key), Matrix>
  type TensorMap2D = JavaMap<(Key, Key), SimpleTensor>

  /** The parameter fields of a SentimentModel, and its options. */
  datatype SentimentModel = SentimentModel(
    binaryTransform: MatrixMap2D,
    binaryTensors: TensorMap2D,
    binaryClassification: MatrixMap2D,
    unaryClassification: MatrixMap,
    wordVectors: MatrixMap,
    op: RNNOptions)

  /** The parameter fields of a DVModel, and its options. */
  datatype DVModel = DVModel(
    binaryTransform: MatrixMap2D,
    unaryTransform: MatrixMap,
    binaryScore: MatrixMap2D,
    unaryScore: MatrixMap,
    wordVectors: MatrixMap,
    op: ParserOptions)

  datatype DVModelReranker = DVModelReranker(model: DVModel)

  /** What a LexicalizedParser's reranker field can hold. */
  datatype Reranker = DVReranker(dv: DVModelReranker) | OtherReranker(other: ForeignReranker)

  /** A LexicalizedParser: its grammar, its options and its reranker field
      (None for null). */
  datatype LexicalizedParser = LexicalizedParser(grammar: ParserGrammar, op: ParserOptions, reranker: Option<Reranker>)

  /** One object on the stream. Each kind of field has its own tag, so a unit
      of the wrong kind is detected when it is read. */
  datatype Unit =
    | MatrixMap2DUnit(matrices2D: JavaMap<(Key, Key), MatrixLists>)
    | TensorMap2DUnit(tensors2D: JavaMap<(Key, Key), TensorLists>)
    | MatrixMapUnit(matrices: JavaMap<Key, MatrixLists>)
    | OptionsUnit(options: RNNOptions)
    | ParserUnit(parser: LexicalizedParser)

  /** The number of units each schema writes and reads. */
  const SentimentFieldCount := 6
  const ParserFieldCount := 6

  // ---------------------------------------------------------------------------
  // Converting one field

  /** transform2DMap(m, x -> fromMatrix(x)). */
  function MatrixMap2DToLists(m: MatrixMap2D): (p: JavaMap<(Key, Key), MatrixLists>)
    ensures Transform2DMap(m, Total(MatrixToLists)) == Ok(p)
    ensures IsTreeMap(PairLess, p) && p.entries.Keys == m.entries.Keys
    ensures forall k :: k in m.entries ==> p.entries[k] == MatrixToLists(m.entries[k])
  {
    PairOrder();
    TransformTotal(PairLess, m, MatrixToLists);
    Transform2DMap(m, Total(MatrixToLists)).value
  }

  /** transform2DMap(m, x -> fromTensor(x)). */
  function TensorMap2DToLists(m: TensorMap2D): (p: JavaMap<(Key, Key), TensorLists>)
    ensures Transform2DMap(m, Total(TensorToLists)) == Ok(p)
    ensures IsTreeMap(PairLess, p) && p.entries.Keys == m.entries.Keys
    ensures forall k :: k in m.entries ==> p.entries[k] == TensorToLists(m.entries[k])
  {
    PairOrder();
    TransformTotal(PairLess, m, TensorToLists);
    Transform2DMap(m, Total(TensorToLists)).value
  }

  /** transformMap(m, x -> fromMatrix(x)). */
  function MatrixMapToLists(m: MatrixMap): (p: JavaMap<Key, MatrixLists>)
    ensures TransformedMap(m, Total(MatrixToLists)) == Ok(p)
    ensures IsTreeMap(StringLess, p) && p.entries.Keys == m.entries.Keys
    ensures forall k :: k in m.entries ==> p.entries[k] == MatrixToLists(m.entries[k])
  {
    StringOrder();
    TransformTotal(StringLess, m, MatrixToLists);
    TransformedMap(m, Total(MatrixToLists)).value
  }

  /** The next unit of the stream, if there is one. */
  function UnitAt(units: seq<Unit>, i: nat): (r: Result<Unit>)
    ensures r.Ok? <==> i < |units|
    ensures r.Ok? ==> r.value == units[i]
    ensures r.Err? ==> r.error == EndOfStream
  {
    if i < |units| then Ok(units[i]) else Err(EndOfStream)
  }

  /** A unit cast to a 2-D map of lists, then transform2DMap(map, x -> toMatrix(x)). */
  function MatrixMap2DOf(u: Unit): Result<MatrixMap2D> {
    if u.MatrixMap2DUnit? then Transform2DMap(u.matrices2D, ListsToMatrix) else Err(ClassCast)
  }

  /** A unit cast to a 2-D map of tensor lists, then transform2DMap(map, x -> toTensor(x)). */
  function TensorMap2DOf(u: Unit): Result<TensorMap2D> {
    if u.TensorMap2DUnit? then Transform2DMap(u.tensors2D, ListsToTensor) else Err(ClassCast)
  }

  /** A unit cast to a map of lists, then transformMap(map, x -> toMatrix(x)). */
  function MatrixMapOf(u: Unit): Result<MatrixMap> {
    if u.MatrixMapUnit? then TransformedMap(u.matrices, ListsToMatrix) else Err(ClassCast)
  }

  /** A unit cast to RNNOptions. */
  function OptionsOf(u: Unit): Result<RNNOptions> {
    if u.OptionsUnit? then Ok(u.options) else Err(ClassCast)
  }

  /** A unit cast to LexicalizedParser. */
  function ParserOf(u: Unit): Result<LexicalizedParser> {
    if u.ParserUnit? then Ok(u.parser) else Err(ClassCast)
  }

  /** Reading the unit at index i and converting it: the end of the stream,
      or the conversion's result. */
  function FieldAt<T>(units: seq<Unit>, i: nat, convert: Unit -> Result<T>): Result<T> {
    var u :- UnitAt(units, i);
    convert(u)
  }

  // ---------------------------------------------------------------------------
  // Writing and reading one field
  //
  // An output stream is the sequence of units written to it so far; an input
  // stream is the sequence of units it holds and the position of the next one.

  /** out.writeObject(transform2DMap(m, x -> fromMatrix(x))). */
  method WriteMatrixMap2D(m: MatrixMap2D, out: seq<Unit>) returns (written: seq<Unit>)
    ensures written == out + [MatrixMap2DUnit(MatrixMap2DToLists(m))]
  {
    var converted := Transform2DMap(m, Total(MatrixToLists));
    assert converted == Ok(MatrixMap2DToLists(m));
    written := out + [MatrixMap2DUnit(converted.value)];
  }

  /** out.writeObject(transform2DMap(m, x -> fromTensor(x))). */
  method WriteTensorMap2D(m: TensorMap2D, out: seq<Unit>) returns (written: seq<Unit>)
    ensures written == out + [TensorMap2DUnit(TensorMap2DToLists(m))]
  {
    var converted := Transform2DMap(m, Total(TensorToLists));
    assert converted == Ok(TensorMap2DToLists(m));
    written := out + [TensorMap2DUnit(converted.value)];
  }

  /** out.writeObject(transformMap(m, x -> fromMatrix(x))). */
  method WriteMatrixMap(m: MatrixMap, out: seq<Unit>) returns (written: seq<Unit>)
    ensures written == out + [MatrixMapUnit(MatrixMapToLists(m))]
  {
    var converted := TransformMap(m, Total(MatrixToLists));
    assert converted == Ok(MatrixMapToLists(m));
    written := out + [MatrixMapUnit(converted.value)];
  }

  /** transform2DMap(uncheckedCast(in.readObject()), x -> toMatrix(x)). */
  method ReadMatrixMap2D(source: seq<Unit>, position: nat) returns (r: Result<MatrixMap2D>, next: nat)
    ensures r == FieldAt(source, position, MatrixMap2DOf)
    ensures r.Ok? ==> next == position + 1
  {
    if position >= |source| { return Err(EndOfStream), position; }
    var u := source[position];
    if !u.MatrixMap2DUnit? { return Err(ClassCast), position + 1; }
    r := Transform2DMap(u.matrices2D, ListsToMatrix);
    next := position + 1;
  }

  /** transform2DMap(uncheckedCast(in.readObject()), x -> toTensor(x)). */
  method ReadTensorMap2D(source: seq<Unit>, position: nat) returns (r: Result<TensorMap2D>, next: nat)
    ensures r == FieldAt(source, position, TensorMap2DOf)
    ensures r.Ok? ==> next == position + 1
  {
    if position >= |source| { return Err(EndOfStream), position; }
    var u := source[position];
    if !u.TensorMap2DUnit? { return Err(ClassCast), position + 1; }
    r := Transform2DMap(u.tensors2D, ListsToTensor);
    next := position + 1;
  }

  /** transformMap(uncheckedCast(in.readObject()), x -> toMatrix(x)). */
  method ReadMatrixMap(source: seq<Unit>, position: nat) returns (r: Result<MatrixMap>, next: nat)
    ensures r == FieldAt(source, position, MatrixMapOf)
    ensures r.Ok? ==> next == position + 1
  {
    if position >= |source| { return Err(EndOfStream), position; }
    var u := source[position];
    if !u.MatrixMapUnit? { return Err(ClassCast), position + 1; }
    r := TransformMap(u.matrices, ListsToMatrix);
    next := position + 1;
  }

  /** (RNNOptions) in.readObject(). */
  method ReadOptions(source: seq<Unit>, position: nat) returns (r: Result<RNNOptions>, next: nat)
    ensures r == FieldAt(source, position, OptionsOf)
    ensures r.Ok? ==> next == position + 1
  {
    if position >= |source| { return Err(EndOfStream), position; }
    var u := source[position];
    if !u.OptionsUnit? { return Err(ClassCast), position + 1; }
    return Ok(u.options), position + 1;
  }

  /** (LexicalizedParser) in.readObject(). */
  method ReadParserObject(source: seq<Unit>, position: nat) returns (r: Result<LexicalizedParser>, next: nat)
    ensures r == FieldAt(source, position, ParserOf)
    ensures r.Ok? ==> next == position + 1
  {
    if position >= |source| { return Err(EndOfStream), position; }
    var u := source[position];
    if !u.ParserUnit? { return Err(ClassCast), position + 1; }
    return Ok(u.parser), position + 1;
  }

  // ---------------------------------------------------------------------------
  // The sentiment schema

  /** The units writeSentiment emits, in order. */
  function SentimentUnits(model: SentimentModel): seq<Unit> {
    [ MatrixMap2DUnit(MatrixMap2DToLists(model.binaryTransform)),
      TensorMap2DUnit(TensorMap2DToLists(model.binaryTensors)),
      MatrixMap2DUnit(MatrixMap2DToLists(model.binaryClassification)),
      MatrixMapUnit(MatrixMapToLists(model.unaryClassification)),
      MatrixMapUnit(MatrixMapToLists(model.wordVectors)),
      OptionsUnit(model.op) ]
  }

  /** What readSentiment returns or throws when the stream holds `units`:
      it reads and converts each unit before it reads the next one. */
  function ReadSentimentUnits(units: seq<Unit>): Result<SentimentModel> {
    var binaryTransform :- FieldAt(units, 0, MatrixMap2DOf);
    var binaryTensors :- FieldAt(units, 1, TensorMap2DOf);
    var binaryClassification :- FieldAt(units, 2, MatrixMap2DOf);
    var unaryClassification :- FieldAt(units, 3, MatrixMapOf);
    var wordVectors :- FieldAt(units, 4, MatrixMapOf);
    var op :- FieldAt(units, 5, OptionsOf);
    Ok(SentimentModel(binaryTransform, binaryTensors, binaryClassification, unaryClassification, wordVectors, op))
  }

  /** writeSentiment: the five parameter maps in portable form, then the
      options. */
  method WriteSentiment(model: SentimentModel, out: seq<Unit>) returns (written: seq<Unit>)
    ensures written == out + SentimentUnits(model)
  {
    written := WriteMatrixMap2D(model.binaryTransform, out);
    written := WriteTensorMap2D(model.binaryTensors, written);
    written := WriteMatrixMap2D(model.binaryClassification, written);
    written := WriteMatrixMap(model.unaryClassification, written);
    written := WriteMatrixMap(model.wordVectors, written);
    written := written + [OptionsUnit(model.op)];
  }

  /** readSentiment: the six units in writeSentiment's order, each converted
      back; the first missing unit, unit of the wrong kind or matrix of a
      bad shape aborts it. `consumed` counts the units read. */
  method ReadSentiment(source: seq<Unit>) returns (r: Result<SentimentModel>, consumed: nat)
    ensures r == ReadSentimentUnits(source)
    ensures r.Ok? ==> consumed == SentimentFieldCount
  {
    consumed := 0;
    var binaryTransform, p1 :- ReadMatrixMap2D(source, 0);
    var binaryTensors, p2 :- ReadTensorMap2D(source, p1);
    var binaryClassification, p3 :- ReadMatrixMap2D(source, p2);
    var unaryClassification, p4 :- ReadMatrixMap(source, p3);
    var wordVectors, p5 :- ReadMatrixMap(source, p4);
    var op, p6 :- ReadOptions(source, p5);
    r := Ok(SentimentModel(binaryTransform, binaryTensors, binaryClassification,
                           unaryClassification, wordVectors, op));
    consumed := p6;
  }

  // ---------------------------------------------------------------------------
  // The parser schema

  /** The units writeParser emits, in order: the parser itself, then the
      parameter maps of the reranker's DVModel. */
  function ParserUnits(model: LexicalizedParser, reranker: DVModelReranker): seq<Unit> {
    var dv := reranker.model;
    [ ParserUnit(model),
      MatrixMap2DUnit(MatrixMap2DToLists(dv.binaryTransform)),
      MatrixMapUnit(MatrixMapToLists(dv.unaryTransform)),
      MatrixMap2DUnit(MatrixMap2DToLists(dv.binaryScore)),
      MatrixMapUnit(MatrixMapToLists(dv.unaryScore)),
      MatrixMapUnit(MatrixMapToLists(dv.wordVectors)) ]
  }

  /** What readParser returns or throws when the stream holds `units`: the
      parser, with a new DVModelReranker attached whose DVModel is built from
      the maps read and the parser's own options. */
  function ReadParserUnits(units: seq<Unit>): Result<LexicalizedParser> {
    var model :- FieldAt(units, 0, ParserOf);
    var binaryTransform :- FieldAt(units, 1, MatrixMap2DOf);
    var unaryTransform :- FieldAt(units, 2, MatrixMapOf);
    var binaryScore :- FieldAt(units, 3, MatrixMap2DOf);
    var unaryScore :- FieldAt(units, 4, MatrixMapOf);
    var wordVectors :- FieldAt(units, 5, MatrixMapOf);
    var dvModel := DVModel(binaryTransform, unaryTransform, binaryScore, unaryScore, wordVectors, model.op);
    Ok(model.(reranker := Some(DVReranker(DVModelReranker(dvModel)))))
  }

  /** writeParser: the parser, then the reranker's five parameter maps in
      portable form. */
  method WriteParser(model: LexicalizedParser, reranker: DVModelReranker, out: seq<Unit>)
    returns (written: seq<Unit>)
    ensures written == out + ParserUnits(model, reranker)
  {
    written := out + [ParserUnit(model)];
    var dvmodel := reranker.model;
    written := WriteMatrixMap2D(dvmodel.binaryTransform, written);
    written := WriteMatrixMap(dvmodel.unaryTransform, written);
    written := WriteMatrixMap2D(dvmodel.binaryScore, written);
    written := WriteMatrixMap(dvmodel.unaryScore, written);
    written := WriteMatrixMap(dvmodel.wordVectors, written);
  }

  /** readParser: the parser, then the five maps in writeParser's order; a
      new DVModel of those maps and the parser's options becomes the parser's
      reranker. `consumed` counts the units read. */
  method ReadParser(source: seq<Unit>) returns (r: Result<LexicalizedParser>, consumed: nat)
    ensures r == ReadParserUnits(source)
    ensures r.Ok? ==> consumed == ParserFieldCount
  {
    consumed := 0;
    var model, p1 :- ReadParserObject(source, 0);
    var binaryTransform, p2 :- ReadMatrixMap2D(source, p1);
    var unaryTransform, p3 :- ReadMatrixMap(source, p2);
    var binaryScore, p4 :- ReadMatrixMap2D(source, p3);
    var unaryScore, p5 :- ReadMatrixMap(source, p4);
    var wordVectors, p6 :- ReadMatrixMap(source, p5);
    var dvModel := DVModel(binaryTransform, unaryTransform, binaryScore, unaryScore, wordVectors, model.op);
    var reranker := DVModelReranker(dvModel);
    r := Ok(model.(reranker := Some(DVReranker(reranker))));
    consumed := p6;
  }

  // ---------------------------------------------------------------------------
  // Round trips, one field at a time

  /** Every matrix of a map survives the trip through the portable form. */
  predicate MatricesRoundTrip<K(!new)>(m: JavaMap<K, Matrix>) {
    forall k :: k in m.entries ==> RoundTrips(m.entries[k])
  }

  /** A 2-D matrix map read back after it was written: it is accepted exactly
      when every matrix has a row and a column, and then it has the same
      entries, iterates as a tree map, and is the map itself when that was
      already a tree map. */
  lemma MatrixMap2DRoundTrip(m: MatrixMap2D)
    ensures MatrixMap2DOf(MatrixMap2DUnit(MatrixMap2DToLists(m))).Ok? <==> MatricesRoundTrip(m)
    ensures MatricesRoundTrip(m) ==> MatrixMap2DOf(MatrixMap2DUnit(MatrixMap2DToLists(m))).value.entries == m.entries
    ensures MatricesRoundTrip(m) && IsTreeMap(PairLess, m) ==>
              MatrixMap2DOf(MatrixMap2DUnit(MatrixMap2DToLists(m))) == Ok(m)
  {
    var p := MatrixMap2DToLists(m);
    forall k | k in m.entries
      ensures ListsToMatrix(p.entries[k]).Ok? <==> RoundTrips(m.entries[k])
      ensures ListsToMatrix(p.entries[k]).Ok? ==> ListsToMatrix(p.entries[k]).value == m.entries[k]
    {
      MatrixRoundTrip(m.entries[k]);
    }
    PairOrder();
    TransformBack(PairLess, m, p, ListsToMatrix);
  }

  /** The same for a 2-D tensor map: accepted exactly when every slice of
      every tensor has a row and a column. */
  lemma TensorMap2DRoundTrip(m: TensorMap2D)
    ensures TensorMap2DOf(TensorMap2DUnit(TensorMap2DToLists(m))).Ok? <==>
            forall k :: k in m.entries ==> TensorRoundTrips(m.entries[k])
    ensures (forall k :: k in m.entries ==> TensorRoundTrips(m.entries[k])) ==>
              TensorMap2DOf(TensorMap2DUnit(TensorMap2DToLists(m))).value.entries == m.entries
    ensures (forall k :: k in m.entries ==> TensorRoundTrips(m.entries[k])) && IsTreeMap(PairLess, m) ==>
              TensorMap2DOf(TensorMap2DUnit(TensorMap2DToLists(m))) == Ok(m)
  {
    var p := TensorMap2DToLists(m);
    forall k | k in m.entries
      ensures ListsToTensor(p.entries[k]).Ok? <==> TensorRoundTrips(m.entries[k])
      ensures ListsToTensor(p.entries[k]).Ok? ==> ListsToTensor(p.entries[k]).value == m.entries[k]
    {
      TensorRoundTrip(m.entries[k]);
    }
    PairOrder();
    TransformBack(PairLess, m, p, ListsToTensor);
  }

  /** The same for a map keyed by one string. */
  lemma MatrixMapRoundTrip(m: MatrixMap)
    ensures MatrixMapOf(MatrixMapUnit(MatrixMapToLists(m))).Ok? <==> MatricesRoundTrip(m)
    ensures MatricesRoundTrip(m) ==> MatrixMapOf(MatrixMapUnit(MatrixMapToLists(m))).value.entries == m.entries
    ensures MatricesRoundTrip(m) && IsTreeMap(StringLess, m) ==>
              MatrixMapOf(MatrixMapUnit(MatrixMapToLists(m))) == Ok(m)
  {
    var p := MatrixMapToLists(m);
    forall k | k in m.entries
      ensures ListsToMatrix(p.entries[k]).Ok? <==> RoundTrips(m.entries[k])
      ensures ListsToMatrix(p.entries[k]).Ok? ==> ListsToMatrix(p.entries[k]).value == m.entries[k]
    {
      MatrixRoundTrip(m.entries[k]);
    }
    StringOrder();
    TransformBack(StringLess, m, p, ListsToMatrix);
  }

  // ---------------------------------------------------------------------------
  // Round trips of whole models

  /** A unit written ahead of others is read back at its own index, whatever
      was written after it. */
  lemma FieldAtPrefix<T>(units: seq<Unit>, rest: seq<Unit>, i: nat, convert: Unit -> Result<T>)
    requires i < |units|
    ensures FieldAt(units + rest, i, convert) == convert(units[i])
  {
  }

  /** readSentiment succeeds exactly when each of its six reads does, and then
      builds the model from the six values read, in stream order. */
  lemma ReadSentimentFields(units: seq<Unit>, r0: Result<MatrixMap2D>, r1: Result<TensorMap2D>,
                            r2: Result<MatrixMap2D>, r3: Result<MatrixMap>, r4: Result<MatrixMap>,
                            r5: Result<RNNOptions>)
    requires FieldAt(units, 0, MatrixMap2DOf) == r0 && FieldAt(units, 1, TensorMap2DOf) == r1
    requires FieldAt(units, 2, MatrixMap2DOf) == r2 && FieldAt(units, 3, MatrixMapOf) == r3
    requires FieldAt(units, 4, MatrixMapOf) == r4 && FieldAt(units, 5, OptionsOf) == r5
    ensures ReadSentimentUnits(units).Ok? <==> r0.Ok? && r1.Ok? && r2.Ok? && r3.Ok? && r4.Ok? && r5.Ok?
    ensures ReadSentimentUnits(units).Ok? ==>
              ReadSentimentUnits(units).value == SentimentModel(r0.value, r1.value, r2.value, r3.value, r4.value, r5.value)
  {
  }

  /** readParser succeeds exactly when each of its six reads does, and then
      attaches a DVModel built from the five maps read and the parser's
      options. */
  lemma ReadParserFields(units: seq<Unit>, r0: Result<LexicalizedParser>, r1: Result<MatrixMap2D>,
                         r2: Result<MatrixMap>, r3: Result<MatrixMap2D>, r4: Result<MatrixMap>,
                         r5: Result<MatrixMap>)
    requires FieldAt(units, 0, ParserOf) == r0 && FieldAt(units, 1, MatrixMap2DOf) == r1
    requires FieldAt(units, 2, MatrixMapOf) == r2 && FieldAt(units, 3, MatrixMap2DOf) == r3
    requires FieldAt(units, 4, MatrixMapOf) == r4 && FieldAt(units, 5, MatrixMapOf) == r5
    ensures ReadParserUnits(units).Ok? <==> r0.Ok? && r1.Ok? && r2.Ok? && r3.Ok? && r4.Ok? && r5.Ok?
    ensures ReadParserUnits(units).Ok? ==>
              ReadParserUnits(units).value ==
              r0.value.(reranker := Some(DVReranker(DVModelReranker(
                DVModel(r1.value, r2.value, r3.value, r4.value, r5.value, r0.value.op)))))
  {
  }

  /** Every matrix of a sentiment model survives the trip. */
  predicate SentimentRoundTrips(model: SentimentModel) {
    && MatricesRoundTrip(model.binaryTransform)
    && (forall k :: k in model.binaryTensors.entries ==> TensorRoundTrips(model.binaryTensors.entries[k]))
    && MatricesRoundTrip(model.binaryClassification)
    && MatricesRoundTrip(model.unaryClassification)
    && MatricesRoundTrip(model.wordVectors)
  }

  /** Every parameter map of a sentiment model iterates in tree-map order. */
  ghost predicate SentimentTreeMaps(model: SentimentModel) {
    && IsTreeMap(PairLess, model.binaryTransform)
    && IsTreeMap(PairLess, model.binaryTensors)
    && IsTreeMap(PairLess, model.binaryClassification)
    && IsTreeMap(StringLess, model.unaryClassification)
    && IsTreeMap(StringLess, model.wordVectors)
  }

  /** Two sentiment models with the same parameters and options; only the
      iteration order of their maps may differ. */
  predicate SameSentiment(a: SentimentModel, b: SentimentModel) {
    && a.binaryTransform.entries == b.binaryTransform.entries
    && a.binaryTensors.entries == b.binaryTensors.entries
    && a.binaryClassification.entries == b.binaryClassification.entries
    && a.unaryClassification.entries == b.unaryClassification.entries
    && a.wordVectors.entries == b.wordVectors.entries
    && a.op == b.op
  }

  /** readSentiment after writeSentiment, whatever follows on the stream:
      it succeeds exactly when every matrix has a row and a column, and then
      gives back the same parameters and options; a model whose maps are tree
      maps comes back exactly. */
  lemma SentimentRoundTrip(model: SentimentModel, rest: seq<Unit>)
    ensures ReadSentimentUnits(SentimentUnits(model) + rest).Ok? <==> SentimentRoundTrips(model)
    ensures SentimentRoundTrips(model) ==> SameSentiment(ReadSentimentUnits(SentimentUnits(model) + rest).value, model)
    ensures SentimentRoundTrips(model) && SentimentTreeMaps(model) ==>
              ReadSentimentUnits(SentimentUnits(model) + rest) == Ok(model)
  {
    var written := SentimentUnits(model);
    FieldAtPrefix(written, rest, 0, MatrixMap2DOf);
    FieldAtPrefix(written, rest, 1, TensorMap2DOf);
    FieldAtPrefix(written, rest, 2, MatrixMap2DOf);
    FieldAtPrefix(written, rest, 3, MatrixMapOf);
    FieldAtPrefix(written, rest, 4, MatrixMapOf);
    FieldAtPrefix(written, rest, 5, OptionsOf);
    ReadSentimentFields(written + rest, MatrixMap2DOf(written[0]), TensorMap2DOf(written[1]),
                        MatrixMap2DOf(written[2]), MatrixMapOf(written[3]), MatrixMapOf(written[4]),
                        OptionsOf(written[5]));
    MatrixMap2DRoundTrip(model.binaryTransform);
    TensorMap2DRoundTrip(model.binaryTensors);
    MatrixMap2DRoundTrip(model.binaryClassification);
    MatrixMapRoundTrip(model.unaryClassification);
    MatrixMapRoundTrip(model.wordVectors);
  }

  /** Every matrix of a DVModel survives the trip. */
  predicate DVModelRoundTrips(dv: DVModel) {
    && MatricesRoundTrip(dv.binaryTransform)
    && MatricesRoundTrip(dv.unaryTransform)
    && MatricesRoundTrip(dv.binaryScore)
    && MatricesRoundTrip(dv.unaryScore)
    && MatricesRoundTrip(dv.wordVectors)
  }

  /** Every parameter map of a DVModel iterates in tree-map order. */
  ghost predicate DVModelTreeMaps(dv: DVModel) {
    && IsTreeMap(PairLess, dv.binaryTransform)
    && IsTreeMap(StringLess, dv.unaryTransform)
    && IsTreeMap(PairLess, dv.binaryScore)
    && IsTreeMap(StringLess, dv.unaryScore)
    && IsTreeMap(StringLess, dv.wordVectors)
  }

  /** Two DVModels with the same parameters; their options may differ. */
  predicate SameParameters(a: DVModel, b: DVModel) {
    && a.binaryTransform.entries == b.binaryTransform.entries
    && a.unaryTransform.entries == b.unaryTransform.entries
    && a.binaryScore.entries == b.binaryScore.entries
    && a.unaryScore.entries == b.unaryScore.entries
    && a.wordVectors.entries == b.wordVectors.entries
  }

  /** readParser after writeParser: it succeeds exactly when every matrix of
      the reranker has a row and a column, and then gives back the parser
      with a DVModelReranker attached whose DVModel has the reranker's
      parameters and the parser's options; with tree maps, and a DVModel
      that shares the parser's options, that is the original reranker. */
  lemma ParserRoundTrip(model: LexicalizedParser, reranker: DVModelReranker, rest: seq<Unit>)
    ensures ReadParserUnits(ParserUnits(model, reranker) + rest).Ok? <==> DVModelRoundTrips(reranker.model)
    ensures DVModelRoundTrips(reranker.model) ==>
              var parser := ReadParserUnits(ParserUnits(model, reranker) + rest).value;
              && parser.grammar == model.grammar && parser.op == model.op
              && parser.reranker.Some? && parser.reranker.value.DVReranker?
              && SameParameters(parser.reranker.value.dv.model, reranker.model)
              && parser.reranker.value.dv.model.op == model.op
    ensures DVModelRoundTrips(reranker.model) && DVModelTreeMaps(reranker.model) && reranker.model.op == model.op ==>
              ReadParserUnits(ParserUnits(model, reranker) + rest) == Ok(model.(reranker := Some(DVReranker(reranker))))
  {
    var written := ParserUnits(model, reranker);
    FieldAtPrefix(written, rest, 0, ParserOf);
    FieldAtPrefix(written, rest, 1, MatrixMap2DOf);
    FieldAtPrefix(written, rest, 2, MatrixMapOf);
    FieldAtPrefix(written, rest, 3, MatrixMap2DOf);
    FieldAtPrefix(written, rest, 4, MatrixMapOf);
    FieldAtPrefix(written, rest, 5, MatrixMapOf);
    ReadParserFields(written + rest, ParserOf(written[0]), MatrixMap2DOf(written[1]), MatrixMapOf(written[2]),
                     MatrixMap2DOf(written[3]), MatrixMapOf(written[4]), MatrixMapOf(written[5]));
    var dv := reranker.model;
    MatrixMap2DRoundTrip(dv.binaryTransform);
    MatrixMapRoundTrip(dv.unaryTransform);
    MatrixMap2DRoundTrip(dv.binaryScore);
    MatrixMapRoundTrip(dv.unaryScore);
    MatrixMapRoundTrip(dv.wordVectors);
  }

  /** The portable form of a 2-D matrix map depends on its entries only, not
      on the order in which it iterates. */
  lemma MatrixMap2DToListsDeterministic(a: MatrixMap2D, b: MatrixMap2D)
    requires a.entries == b.entries
    ensures MatrixMap2DToLists(a) == MatrixMap2DToLists(b)
  {
    PairOrder();
    TransformedDeterministic(PairLess, a, b, Total(MatrixToLists));
  }

  /** The same for a 2-D tensor map. */
  lemma TensorMap2DToListsDeterministic(a: TensorMap2D, b: TensorMap2D)
    requires a.entries == b.entries
    ensures TensorMap2DToLists(a) == TensorMap2DToLists(b)
  {
    PairOrder();
    TransformedDeterministic(PairLess, a, b, Total(TensorToLists));
  }

  /** The same for a map keyed by one string. */
  lemma MatrixMapToListsDeterministic(a: MatrixMap, b: MatrixMap)
    requires a.entries == b.entries
    ensures MatrixMapToLists(a) == MatrixMapToLists(b)
  {
    StringOrder();
    TransformedDeterministic(StringLess, a, b, Total(MatrixToLists));
  }

  /** writeSentiment emits the same units for two models with the same
      parameters and options, however their maps iterate. */
  lemma SentimentUnitsDeterministic(a: SentimentModel, b: SentimentModel)
    requires SameSentiment(a, b)
    ensures SentimentUnits(a) == SentimentUnits(b)
  {
    MatrixMap2DToListsDeterministic(a.binaryTransform, b.binaryTransform);
    TensorMap2DToListsDeterministic(a.binaryTensors, b.binaryTensors);
    MatrixMap2DToListsDeterministic(a.binaryClassification, b.binaryClassification);
    MatrixMapToListsDeterministic(a.unaryClassification, b.unaryClassification);
    MatrixMapToListsDeterministic(a.wordVectors, b.wordVectors);
  }

  // ---------------------------------------------------------------------------
  // The driver's decision for a parser in the old format

  /** What main does with a loaded parser when converting it to the portable
      form: nothing when it has no reranker, a failed cast when its reranker
      is not a DVModelReranker, and otherwise it detaches the reranker and
      writes the parser without it, followed by the reranker's maps. */
  datatype ParserExport = NothingToDo | Export(units: seq<Unit>)

  function ExportParser(model: LexicalizedParser): (r: Result<ParserExport>)
    ensures r == Ok(NothingToDo) <==> model.reranker.None?
    ensures r.Err? <==> model.reranker.Some? && model.reranker.value.OtherReranker?
    ensures r.Ok? && r.value.Export? ==>
              model.reranker.Some? && model.reranker.value.DVReranker? &&
              r.value.units == ParserUnits(model.(reranker := None), model.reranker.value.dv)
  {
    match model.reranker
    case None => Ok(NothingToDo)
    case Some(OtherReranker(_)) => Err(ClassCast)
    case Some(DVReranker(reranker)) => Ok(Export(ParserUnits(model.(reranker := None), reranker)))
  }

  /** Converting a parser to the portable form and back: the units read back
      give the parser together with its DVModelReranker's parameters exactly
      when every matrix of the reranker has a row and a column; with tree
      maps, and a DVModel that shares the parser's options, the parser comes
      back as it was loaded. */
  lemma ExportRoundTrip(model: LexicalizedParser, rest: seq<Unit>)
    ensures ExportParser(model).Ok? && ExportParser(model).value.Export? ==>
              var dv := model.reranker.value.dv.model;
              (ReadParserUnits(ExportParser(model).value.units + rest).Ok? <==> DVModelRoundTrips(dv))
    ensures ExportParser(model).Ok? && ExportParser(model).value.Export? ==>
              var dv := model.reranker.value.dv.model;
              DVModelRoundTrips(dv) && DVModelTreeMaps(dv) && dv.op == model.op ==>
              ReadParserUnits(ExportParser(model).value.units + rest) == Ok(model)
  {
    if model.reranker.Some? && model.reranker.value.DVReranker? {
      var detached := model.(reranker := None);
      ParserRoundTrip(detached, model.reranker.value.dv, rest);
      assert detached.(reranker := Some(DVReranker(model.reranker.value.dv))) == model;
    }
  }
}
