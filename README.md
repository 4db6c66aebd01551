# ConvertModels: the portable model format of CoreNLP's neural models

This project models the converter in `ConvertModels.java`. It moves the
parameters of two kinds of trained model between the native form and a
portable form:

- the sentiment model `SentimentModel`;
- the DV parser, a `LexicalizedParser` with a `DVModelReranker` attached.

In the native form, parameters are EJML `SimpleMatrix` values and
`SimpleTensor` stacks of them. In the portable form they are nested lists of
doubles. The model has three layers, one module each, plus two support
modules.

- `Matrices` is the matrix and tensor codec:
  - `fromMatrix` writes one list per row, in column order;
  - `toMatrix` rejects a list with no rows, a first row with no columns and
    ragged rows, each with its own `IllegalArgumentException` message;
    otherwise it fills a fresh matrix row by row;
  - `fromTensor` and `toTensor` apply the matrix codec slice by slice.

  Each is a loop method proved against a specification function. The
  round-trip lemmas show that a matrix comes back exactly when it has at
  least one row and one column. A matrix without rows or columns converts to
  lists that `toMatrix` rejects.
- `KeyedMaps` holds `transformMap` and `transform2DMap`. Each builds a fresh
  tree map that holds the converted value under every key, or key pair, of
  its input. A `java.util.Map` is modelled as its entries together with the
  order in which its key set iterates. A `TreeMap` is such a map whose order
  is sorted by `String.compareTo`, which compares UTF-16 code units. A `TwoDimensionalMap.treeMap()` is sorted
  by first key, then second key. The lemmas cover:
  - key preservation;
  - preserved tree order;
  - the fact that the output depends on the input's entries and not on its
    iteration order;
  - transforming back with the inverse conversion.
- `ConvertModels` holds the fixed-order field protocol:
  - `writeSentiment` writes five parameter maps in portable form, then the
    `RNNOptions`;
  - `writeParser` writes the parser, then the five maps of its DVModel;
  - `readSentiment` and `readParser` read the same units in the same order
    and convert each map back.

  It also models the decision `main` makes for an old-format parser:
  - with no reranker there is nothing to do;
  - a reranker of another class fails the cast;
  - a `DVModelReranker` is detached and written after the parser.

  The lemmas prove that reading after writing gives back the same parameters
  and options, exactly when every matrix has a row and a column. With tree
  maps it gives back the original model.
- `Orders` proves that the two key orders are strict total orders, and that
  a key set has one sorted enumeration only.
- `Results` holds the `Result` and `Option` types. Thrown exceptions
  (`IllegalArgumentException`, `ClassCastException`, end of stream) become
  `Err` values.

An object stream is modelled as a sequence of tagged units, one per
`writeObject`:
- an output stream is the sequence written so far, and writing appends;
- an input stream is a sequence together with the position of the next
  unit;
- a unit of the wrong kind fails as a `ClassCast` when it is read.

readParser builds the new DVModel with the options of the parser that was
read (`model.getOp()`, line 198), not with the options of the DVModel that
was written. The parser round trip therefore gives back the original
reranker only when its DVModel shares the parser's options, and the lemmas
say so.

## Model

| member | source | states |
|---|---|---|
| Matrices.MatrixToLists | src/edu/stanford/nlp/neural/ConvertModels.java:50-61 | the portable form has one list per row, and each list has one cell per column |
| Matrices.FromMatrix | src/edu/stanford/nlp/neural/ConvertModels.java:50-61 | the loop produces one list per row; cell (i, j) of the lists is cell (i, j) of the matrix; the result is MatrixToLists |
| Matrices.ListsToMatrix | src/edu/stanford/nlp/neural/ConvertModels.java:73-95 | succeeds exactly on rectangular input with a row and a column; the result has as many rows as the input and as many columns as its first row |
| Matrices.ListsToMatrixErrors | src/edu/stanford/nlp/neural/ConvertModels.java:74-83 | no rows, no columns in the first row, and uneven rows each fail with their own message, checked in that order |
| Matrices.ListsToMatrixCells | src/edu/stanford/nlp/neural/ConvertModels.java:86-92 | an accepted input is copied cell for cell |
| Matrices.SetRow | src/edu/stanford/nlp/neural/ConvertModels.java:88-91 | the inner loop of toMatrix writes the row at its offset of the row-major storage and leaves the cells before and after it unchanged |
| Matrices.ToMatrix | src/edu/stanford/nlp/neural/ConvertModels.java:73-95 | the loop method equals ListsToMatrix: the three errors, the shape on success, and every cell copied |
| Matrices.MatrixToListsCell | src/edu/stanford/nlp/neural/ConvertModels.java:53-57 | row i, column j of the portable form holds get(i, j) |
| Matrices.FlattenMatrixToLists | src/edu/stanford/nlp/neural/ConvertModels.java:50-61 | laying the rows of the portable form end to end gives the matrix's row-major storage |
| Matrices.MatrixToListsFlatten | src/edu/stanford/nlp/neural/ConvertModels.java:86-92 | even rows laid end to end and split again give the same rows |
| Matrices.MatrixRoundTrip | src/edu/stanford/nlp/neural/ConvertModels.java:50-95 | toMatrix(fromMatrix(m)) gives m exactly when m has a row and a column, and fails otherwise |
| Matrices.ListsRoundTrip | src/edu/stanford/nlp/neural/ConvertModels.java:50-95 | fromMatrix(toMatrix(p)) gives p back whenever toMatrix accepts p |
| Matrices.ListsToSlices | src/edu/stanford/nlp/neural/ConvertModels.java:97-104 | succeeds exactly when every slice converts, keeps the slice order, and otherwise fails with the error of the first slice that fails |
| Matrices.FromTensor | src/edu/stanford/nlp/neural/ConvertModels.java:63-71 | one portable matrix per slice, in slice order; the result is TensorToLists |
| Matrices.ToTensor | src/edu/stanford/nlp/neural/ConvertModels.java:97-104 | the loop over the slice array equals ListsToTensor: it fails exactly when some slice fails, with the first such error; otherwise slice i is toMatrix of list i |
| Matrices.TensorRoundTrip | src/edu/stanford/nlp/neural/ConvertModels.java:63-104 | toTensor(fromTensor(t)) gives t exactly when every slice has a row and a column, and fails otherwise |
| Orders.CodeUnits | src/edu/stanford/nlp/neural/ConvertModels.java:107 | a character is one UTF-16 code unit below U+10000, and otherwise a high and a low surrogate |
| Orders.Utf16Injective | src/edu/stanford/nlp/neural/ConvertModels.java:107 | different keys have different UTF-16 code units, so String.compareTo tells every two different keys apart |
| Orders.SupplementaryBeforeHighBmp | src/edu/stanford/nlp/neural/ConvertModels.java:107 | String.compareTo puts every key starting with a supplementary character before every key starting with U+E000..U+FFFF, whatever follows, as their first code units decide, although code-point order is the reverse |
| Orders.SurrogatesBeforeHighBmp | src/edu/stanford/nlp/neural/ConvertModels.java:107 | an instance of that: U+1F600 sorts before U+FFFD and not after it |
| Orders.StringOrder | src/edu/stanford/nlp/neural/ConvertModels.java:107 | String.compareTo, comparing UTF-16 code units, is irreflexive, transitive and total |
| Orders.PairOrder | src/edu/stanford/nlp/neural/ConvertModels.java:45 | the first-key-then-second-key order is a strict total order |
| Orders.SortedUnique | src/edu/stanford/nlp/neural/ConvertModels.java:45-46 | a key set has only one sorted enumeration, so a tree map's iteration order depends on its keys alone |
| KeyedMaps.EmptyTreeMap | src/edu/stanford/nlp/neural/ConvertModels.java:107 | a new tree map has no keys |
| KeyedMaps.InsertSortedSorted | src/edu/stanford/nlp/neural/ConvertModels.java:109 | putting a key into a tree map keeps its keys sorted and adds that key only |
| KeyedMaps.Put | src/edu/stanford/nlp/neural/ConvertModels.java:109 | put maps the key to the value, keeps every other entry, and keeps the tree order |
| KeyedMaps.PutAll | src/edu/stanford/nlp/neural/ConvertModels.java:108-110 | putting converted values key by key succeeds exactly when every conversion does; the result is a tree map with the old and the new keys and the converted values; otherwise it fails with the error of the first key, in iteration order, whose conversion fails |
| KeyedMaps.Transformed | src/edu/stanford/nlp/neural/ConvertModels.java:106-112 | the transformed map has the same keys and f of every value, in tree order, or the first error in the input's iteration order |
| KeyedMaps.Transform2DMap | src/edu/stanford/nlp/neural/ConvertModels.java:41-48 | transform2DMap keeps the key pairs and converts every value; the result iterates by first key, then second key |
| KeyedMaps.TransformedMap | src/edu/stanford/nlp/neural/ConvertModels.java:106-112 | transformMap keeps the keys and converts every value; the result iterates in String.compareTo order |
| KeyedMaps.PutKey | src/edu/stanford/nlp/neural/ConvertModels.java:109 | TreeMap<String, _>.put keeps the tree order and updates that one entry |
| KeyedMaps.PutAllKeysStep | src/edu/stanford/nlp/neural/ConvertModels.java:108-110 | one loop step: the first key's conversion either fails the whole transform or is put before the remaining keys are processed |
| KeyedMaps.PutAllKeysStart | src/edu/stanford/nlp/neural/ConvertModels.java:107-108 | putting every key of the input, in iteration order, into a new tree map is the map transformMap builds |
| KeyedMaps.PutAllKeysDone | src/edu/stanford/nlp/neural/ConvertModels.java:111 | once no keys are left, the map built so far is the result |
| KeyedMaps.TransformMap | src/edu/stanford/nlp/neural/ConvertModels.java:106-112 | the loop over the key set equals TransformedMap: the keys kept, every value converted, in String.compareTo order, or the first error in iteration order |
| KeyedMaps.TransformedDeterministic | src/edu/stanford/nlp/neural/ConvertModels.java:106-112 | maps with the same entries transform to the same tree map, key order included, whatever their own iteration order |
| KeyedMaps.TransformKeepsTreeOrder | src/edu/stanford/nlp/neural/ConvertModels.java:106-112 | transforming a tree map keeps its key order |
| KeyedMaps.TransformTwice | src/edu/stanford/nlp/neural/ConvertModels.java:106-112 | transforming twice keeps the key set, and keeps the key order of the first transform and of a tree-map input |
| KeyedMaps.TransformBack | src/edu/stanford/nlp/neural/ConvertModels.java:106-112 | transforming back with a conversion that fails or restores the value succeeds exactly when no conversion fails, and restores the entries, and the map itself when it was a tree map |
| KeyedMaps.TransformTotal | src/edu/stanford/nlp/neural/ConvertModels.java:118-125 | a conversion that cannot fail never fails the transform and gives g of every value |
| ConvertModels.MatrixMap2DToLists | src/edu/stanford/nlp/neural/ConvertModels.java:120 | the portable form of a 2-D matrix map keeps the key pairs and holds fromMatrix of every matrix, in pair order |
| ConvertModels.TensorMap2DToLists | src/edu/stanford/nlp/neural/ConvertModels.java:121 | the portable form of a 2-D tensor map keeps the key pairs and holds fromTensor of every tensor, in pair order |
| ConvertModels.MatrixMapToLists | src/edu/stanford/nlp/neural/ConvertModels.java:124-125 | the portable form of a string-keyed matrix map keeps the keys and holds fromMatrix of every matrix, in key order |
| ConvertModels.UnitAt | src/edu/stanford/nlp/neural/ConvertModels.java:136 | readObject gives the next unit, or fails at the end of the stream |
| ConvertModels.WriteMatrixMap2D | src/edu/stanford/nlp/neural/ConvertModels.java:120 | appends one unit: the portable form of the 2-D matrix map |
| ConvertModels.WriteTensorMap2D | src/edu/stanford/nlp/neural/ConvertModels.java:121 | appends one unit: the portable form of the 2-D tensor map |
| ConvertModels.WriteMatrixMap | src/edu/stanford/nlp/neural/ConvertModels.java:124 | appends one unit: the portable form of the matrix map |
| ConvertModels.ReadMatrixMap2D | src/edu/stanford/nlp/neural/ConvertModels.java:135-137 | reads one unit and equals MatrixMap2DOf of it: the end of the stream, a cast failure for a unit of another kind, or transform2DMap with toMatrix; on success the position advances by one |
| ConvertModels.ReadTensorMap2D | src/edu/stanford/nlp/neural/ConvertModels.java:139-142 | reads one unit and equals TensorMap2DOf of it: the end of the stream, a cast failure, or transform2DMap with toTensor |
| ConvertModels.ReadMatrixMap | src/edu/stanford/nlp/neural/ConvertModels.java:147-148 | reads one unit and equals MatrixMapOf of it: the end of the stream, a cast failure, or the transformMap loop with toMatrix |
| ConvertModels.ReadOptions | src/edu/stanford/nlp/neural/ConvertModels.java:153 | reads one unit and equals OptionsOf of it: the end of the stream, a cast failure, or the options unchanged |
| ConvertModels.ReadParserObject | src/edu/stanford/nlp/neural/ConvertModels.java:177 | reads one unit and equals ParserOf of it: the end of the stream, a cast failure, or the parser unchanged |
| ConvertModels.WriteSentiment | src/edu/stanford/nlp/neural/ConvertModels.java:115-128 | appends exactly SentimentUnits: the portable binaryTransform, binaryTensors, binaryClassification, unaryClassification and wordVectors, then the options |
| ConvertModels.ReadSentiment | src/edu/stanford/nlp/neural/ConvertModels.java:130-157 | equals ReadSentimentUnits, the six reads in write order, each converted before the next, failing at the first failure; consumes six units on success |
| ConvertModels.WriteParser | src/edu/stanford/nlp/neural/ConvertModels.java:159-172 | appends exactly ParserUnits: the parser, then the portable binaryTransform, unaryTransform, binaryScore, unaryScore and wordVectors of the DVModel |
| ConvertModels.ReadParser | src/edu/stanford/nlp/neural/ConvertModels.java:174-202 | equals ReadParserUnits, the six reads in write order, failing at the first failure, with a new DVModelReranker attached; consumes six units on success |
| ConvertModels.ReadSentimentFields | src/edu/stanford/nlp/neural/ConvertModels.java:130-157 | ReadSentimentUnits succeeds exactly when all six reads do, and builds the model from the six values in stream order |
| ConvertModels.ReadParserFields | src/edu/stanford/nlp/neural/ConvertModels.java:174-202 | ReadParserUnits succeeds exactly when all six reads do, and attaches a DVModel made of the five maps and the parser's own options |
| ConvertModels.FieldAtPrefix | src/edu/stanford/nlp/neural/ConvertModels.java:130-157 | a unit is read back at the index it was written at, whatever follows it |
| ConvertModels.MatrixMap2DRoundTrip | src/edu/stanford/nlp/neural/ConvertModels.java:120-137 | a written 2-D matrix map reads back exactly when all its matrices have a row and a column, with the same entries, and as itself when it is a tree map |
| ConvertModels.TensorMap2DRoundTrip | src/edu/stanford/nlp/neural/ConvertModels.java:121-142 | the same for a 2-D tensor map, slice by slice |
| ConvertModels.MatrixMapRoundTrip | src/edu/stanford/nlp/neural/ConvertModels.java:124-151 | the same for a string-keyed matrix map |
| ConvertModels.SentimentRoundTrip | src/edu/stanford/nlp/neural/ConvertModels.java:115-157 | readSentiment after writeSentiment succeeds exactly when all the model's matrices have a row and a column; it then gives the same five maps' entries and the same options, and the model itself when its maps are tree maps |
| ConvertModels.ParserRoundTrip | src/edu/stanford/nlp/neural/ConvertModels.java:159-202 | readParser after writeParser succeeds exactly when the DVModel's matrices have a row and a column; it then gives the parser with a DVModelReranker that has the same five maps' entries and the parser's options, and the original reranker when its maps are tree maps and its options are the parser's |
| ConvertModels.MatrixMap2DToListsDeterministic | src/edu/stanford/nlp/neural/ConvertModels.java:41-48 | 2-D maps with the same entries, inserted in any order, have the same portable form |
| ConvertModels.TensorMap2DToListsDeterministic | src/edu/stanford/nlp/neural/ConvertModels.java:41-48 | the same for 2-D tensor maps |
| ConvertModels.MatrixMapToListsDeterministic | src/edu/stanford/nlp/neural/ConvertModels.java:106-112 | the same for string-keyed maps |
| ConvertModels.SentimentUnitsDeterministic | src/edu/stanford/nlp/neural/ConvertModels.java:115-128 | sentiment models with the same parameters and options are written as the same units |
| ConvertModels.ExportParser | src/edu/stanford/nlp/neural/ConvertModels.java:240-252 | with no reranker there is nothing to do; a reranker that is not a DVModelReranker fails the cast; otherwise the parser without its reranker is written, followed by that reranker |
| ConvertModels.ExportRoundTrip | src/edu/stanford/nlp/neural/ConvertModels.java:240-255 | what an old-format parser is exported to reads back exactly when the reranker's matrices have a row and a column, and gives back the loaded parser when its maps are tree maps and its DVModel shares the parser's options |

## Left out

- Command-line handling (lines 204-227) is not modelled: parsing `-stage`, `-model`, `-input` and `-output`, and the errors for missing or unknown values.
- The sentiment branch of `main` is not modelled, nor the new-stage parser branch: each only composes a load or save with a modelled reader or writer.
- The "Nothing to do" message is not modelled.
- Loading and saving in the native form are external calls and are not modelled: `SentimentModel.loadSerialized` and `saveSerialized`, and `LexicalizedParser.loadModel` and `saveParserToSerialized`.
- File streams and Java serialization are not modelled. A stream is a sequence of tagged units, and each unit holds the logical value written. Byte encoding and I/O errors are not modelled.
- `ErasureUtils.uncheckedCast` is not modelled as such. Its result is assigned to a variable of type `TwoDimensionalMap`, `Map`, `RNNOptions` or `LexicalizedParser` (lines 135-136, 147, 153, 177), so Java casts there. An object of another class fails at once, in the model as in Java.
- MatrixMap2DOf, TensorMap2DOf: the model detects a 2-D map of the wrong value type as a cast failure at the read. Java does not. A 2-D map of tensor lists read where matrix lists are expected, or the reverse, passes the cast at lines 135-136 and 139-140, because both are a `TwoDimensionalMap`. Java fails only later, inside `toMatrix` or `toTensor`, with a `ClassCastException` or an `IllegalArgumentException`, and an empty map of the wrong value type is accepted.
- Readers do not check what follows their six units: the code reads exactly six objects and ignores the rest of the stream. A shorter stream fails at its end.
- `RNNOptions`, the parser's grammar and options, and rerankers of other classes are opaque, compared only for equality.
- Scalars are modelled as mathematical reals. The codec only copies doubles and never computes with them, so NaN, signed zeros and rounding do not enter.
- `SimpleTensor`'s constructor is not part of this model, so any checks it makes are absent: an empty slice list and slices of different shapes are both accepted.
- `TwoDimensionalMap` and `Generics.newTreeMap` are not part of this model. A two-key map is a map over key pairs, and `addAll` puts every pair into the tree map.
- `null` keys, values and `null` list entries are not modelled.
- String keys are Unicode scalar values. Lone surrogates, which a Java String can hold, are not modelled. Keys are compared by their UTF-16 code units, as `String.compareTo` compares them.
- `SentimentModel`, `DVModel` and `DVModelReranker` are not part of this model. Their constructors (lines 155-156, 197-199) become plain records that hold exactly the values passed, so any check they make or field they derive is absent. The round-trip lemmas give back the model itself only under this abstraction.
- `new SimpleMatrix(rows, cols)` (line 86) becomes zero-filled storage that is always allocated. The Java `int` product `rows * cols`, its overflow and a failed allocation are not modelled.
- `SimpleMatrix`, the maps and the models are values, so aliasing and in-place updates are not modelled. `readParser` sets the reranker of the parser it read in place (line 200); the model returns a copy of that parser with the reranker attached. The new `DVModel` shares the parser's `getOp()` object (line 198); the model stores an equal value, so a later change to one of them is not seen in the other.
- ExportParser: models the detach-and-write decision of lines 244-251 as a value. The mutation `model.reranker = null` becomes a copy of the parser without its reranker.
