# pencode, modelled in Dafny

pencode is a drawing editor whose pictures are written in a small scene
language: statements such as `Rectangle(x: 10, width: 40) AS box SET Color('red')`
build scene objects, name them, clone them (`!box(...)`), attach them to
parents (`CHILD TO`) and change them with modifiers (`Color`, `Fill`,
`Flip`, `Mirror`, `Layer`).  This project models the core of the
application:

- the scene-language interpreter: its first-match lexer, the grammar rules
  with their embedded actions, the binding of a statement's arguments to the
  fields of its object (named, positional and numbered variadic arguments,
  with every refusal and its message), the naming and appending of objects,
  the two error policies (`execute` throws, `lint` collects) and `interpret`
  itself (`Interpreter`, `Binder`, `Interpretation`, `SceneLexer`,
  `Lexing`);
- the scene object classes as one Dafny class, `Scene.SceneObject`, whose
  fields are updated in place: construction with the per-type defaults,
  `getParams()` (`Params`), `flip` and `cloneAndReflect` (`Scene`, `Kinds`);
- the five modifiers, each a one-rule grammar over its own tokens
  (`Modifiers`, `ModifierLexer`, `Values` for `JSON.parse` of numbers and
  `parseFloat`);
- the editor's linter message formatting and `lint` (`Linter`);
- the editor's hover information and suggestions (`Autocomplete`,
  `Suggestions`);
- the two binary containers, `.pencode` projects and `.penbrush` brushes,
  with their XOR obfuscation and length-prefixed segments (`Bytes`,
  `FileFormat`, `BrushFormat`);
- the project list kept by the editor (`Projects.ProjectStore`) and the
  relative modification date shown for a project (`Dates`).

Stateful parts are imperative Dafny: the scene object and the parser are
classes whose methods change their fields and are each proved against a
function of the old state; the containers are written into a fixed-size
`array` and read with a running offset; the store's list is a `seq` field
the methods reassign.  Pure parts (lexers, message formatting, hover and
suggestion logic, the binder's specification) are functions with lemmas.

Where the code and its tests disagree, the model follows the code:
`src/services/instructions/test/linter.test.ts:31` expects the text
`is not a valid for a`, while the interpreter writes `is not valid for a`
(`src/services/instructions/interpreter.ts:137-139`); the skipped test at
`src/tests/file-format.spec.ts:91` expects a different message from the one
`decodePencodeFile` throws.

The decoders compare the first bytes of a file, decoded as UTF-8, with an
ASCII magic; the model states that comparison on the bytes themselves, which
agrees because a UTF-8 decoder yields an ASCII character only from the same
single byte.

## Model

| member | source | states |
|---|---|---|
| Bytes.Xor | src/lib/file-format.ts:13-20 | the output has the input's length and byte `i` is the input byte XOR the key byte at `i` modulo the key length |
| Bytes.XorInvolution | src/lib/file-format.ts:13-20 | XOR with the same key twice gives the input back |
| Bytes.ReadWrittenU32 | src/lib/file-format.ts:133 | a little-endian 32-bit length written by `setUint32` reads back as the same number with `getUint32` |
| Bytes.Subarray | src/lib/file-format.ts:134 | `subarray` is the slice when both ends are in range, and never longer than the input |
| Bytes.WriteBytes | src/lib/file-format.ts:103-110 | copying bytes into the buffer at an offset replaces exactly that stretch and leaves the rest |
| Bytes.WriteU32 | src/lib/file-format.ts:103 | a length write stores the four little-endian bytes of the length modulo 2^32 and leaves the rest |
| Bytes.StripBom | src/lib/file-format.ts:121 | a leading U+FEFF, and only that, is removed |
| Bytes.DecodeEncodedText | src/lib/file-format.ts:121-145 | text that does not start with U+FEFF survives encoding and decoding unchanged |
| FileFormat.MagicIsAscii | src/lib/file-format.ts:3 | the magic is the UTF-8 encoding of `PENCODE1` |
| FileFormat.KeyIsAscii | src/lib/file-format.ts:5 | the XOR key is the UTF-8 encoding of `pencode` |
| FileFormat.EncodeProject | src/lib/file-format.ts:60-113 | the fresh buffer holds the magic, then the metadata, code and image segments, each preceded by its length |
| FileFormat.EncodedSize | src/lib/file-format.ts:85-92 | the buffer size is 8 + three 4-byte lengths + the three segments |
| FileFormat.EncodedSegments | src/lib/file-format.ts:64-82 | metadata and code are XOR'd with the key, absent or empty code is an empty segment, the image is not XOR'd |
| FileFormat.EncodingIgnoresLocalState | src/lib/file-format.ts:64-71 | the unsaved-changes flag, the file path and the brushes never reach the file |
| FileFormat.SegmentOfWritten | src/lib/file-format.ts:133-146 | a written length-prefixed segment reads back as itself, and the next offset is just past it |
| FileFormat.DecodeBinaryV1 | src/lib/file-format.ts:120-160 | the offset-based reader returns exactly what the layout function says: version refusal, range errors, metadata syntax error, or the loaded project |
| FileFormat.DecodePencodeFile | src/lib/file-format.ts:167-184 | a `PENCODE` prefix selects the binary reader, anything else is parsed as legacy JSON |
| FileFormat.PencodePrefixIsAscii | src/lib/file-format.ts:170-172 | the seven bytes tested are the encoding of `PENCODE` |
| FileFormat.CodeRestored | src/lib/file-format.ts:140-146 | removing the XOR from the code segment gives the code back without a leading U+FEFF (which `TextDecoder` consumes); absent code reads as the empty text |
| FileFormat.LeadingBomDropped | src/lib/file-format.ts:121-145 | code `\uFEFFx` is read back as `x`, so the restored project's code differs from the saved one |
| FileFormat.ImageRestored | src/lib/file-format.ts:149-151 | the image segment reads back as the base64 image, or as absent when it was absent or empty |
| FileFormat.DecodeContainer | src/lib/file-format.ts:120-160 | a well-formed version-1 container decodes to its metadata, code text and image |
| FileFormat.ReadSegments | src/lib/file-format.ts:133-159 | three segments that read back as `m`, `c`, `i` decode to the project built from them |
| FileFormat.DecodeEncoded | src/lib/file-format.ts:60-184 | decoding an encoded project gives back its metadata, its code less a leading BOM, and its image, marked saved |
| FileFormat.NewerVersionRejected | src/lib/file-format.ts:126-130 | an encoded project whose version byte is `2` is refused with the version in the message |
| FileFormat.LegacyJson | src/lib/file-format.ts:177-182 | input without the prefix is accepted exactly when it parses as a project, otherwise it is refused with the invalid-format message |
| FileFormat.NewerVersionFirst | src/lib/file-format.ts:126-130 | a newer version digit is refused before any segment is read |
| BrushFormat.MagicIsAscii | src/lib/brush-format.ts:3 | the magic is the UTF-8 encoding of `PENBRSH1` |
| BrushFormat.KeyIsAscii | src/lib/brush-format.ts:4 | the key is the UTF-8 encoding of `pencode-brush` |
| BrushFormat.EncodePenbrush | src/lib/brush-format.ts:23-50 | the fresh buffer holds the magic, the data length and the XOR'd JSON of the brush |
| BrushFormat.EncodedSize | src/lib/brush-format.ts:31-34 | the buffer size is 8 + 4 + the data length |
| BrushFormat.DecodePenbrush | src/lib/brush-format.ts:57-77 | the offset-based reader returns exactly what the layout function says |
| BrushFormat.RejectsForeignMagic | src/lib/brush-format.ts:63-67 | the invalid-format error is thrown exactly for input whose first eight bytes are not the magic |
| BrushFormat.DecodeEncoded | src/lib/brush-format.ts:23-77 | decoding an encoded brush gives the same brush |
| Projects.FindIndex | src/mocks/projects.ts:61 | the first position with the id, or -1 exactly when no entry has it |
| Projects.FirstMatch | src/mocks/projects.ts:34 | a position holding the id with none before it is what `findIndex` finds |
| Projects.MergeNothing | src/mocks/projects.ts:65-66 | an empty update leaves the project unchanged |
| Projects.MergeProject | src/mocks/projects.ts:65-66 | merging a whole project takes all its properties, keeping only the optional ones it lacks |
| Projects.KeepBrushes | src/mocks/projects.ts:84-86 | the brushes kept are exactly those not marked discarded; a single brush is kept exactly when it is not discarded |
| Projects.KeepBrushesCounts | src/mocks/projects.ts:84-86 | each kept brush occurs as often as in the input, a discarded one never |
| Projects.KeepBrushesAppend | src/mocks/projects.ts:84-86 | filtering two lists in a row is filtering each, so the kept brushes keep their order |
| Projects.ToSaveMarksSaved | src/mocks/projects.ts:77-86 | the copy sent is marked saved, without unsaved changes, with the new modification time and the kept brushes, and otherwise unchanged |
| Projects.ProjectStore.constructor | src/mocks/project-store.ts:4-12 | the store starts empty, loading and not initialised |
| Projects.ProjectStore.InitProjects | src/mocks/projects.ts:10-26 | the first call installs the listed projects (or none when listing failed) and ends loading; later calls change nothing |
| Projects.ProjectStore.GetProject | src/mocks/projects.ts:33-35 | the first entry with the id, or none exactly when no entry has it |
| Projects.ProjectStore.AddProject | src/mocks/projects.ts:43-52 | the new draft, with the clock's decimal text as id and unsaved changes, is put in front and can be found |
| Projects.ProjectStore.UpdateProject | src/mocks/projects.ts:60-68 | an unknown id is an error and changes nothing; otherwise only that entry is replaced by the merge |
| Projects.ProjectStore.SaveProject | src/mocks/projects.ts:75-97 | the copy sent is `ToSave(project, now)`; an API error is rethrown and changes nothing; success merges the API's answer into the entry, or fails with the not-found error when the entry is gone |
| Projects.ProjectStore.DeleteProject | src/mocks/projects.ts:103-121 | an unknown id returns quietly without calling the API; otherwise the API gets the id and file path, its error is rethrown with the list kept, and success removes exactly that entry |
| Projects.ProjectStore.AddLoadedProject | src/mocks/projects.ts:132-147 | a loaded project replaces the entry with its id or goes in front, and can then be found |
| Projects.RemovedEntry | src/mocks/projects.ts:113-116 | deleting removes that one entry and keeps every other in order |
| Dates.AgoText | src/lib/date-utils.ts:25-35 | each count is its decimal text, a space, the unit, plural unless the count is 1, then `ago` |
| Dates.MissingDate | src/lib/date-utils.ts:6-8 | without a date the fallback `2 days ago` is shown |
| Dates.InvalidDate | src/lib/date-utils.ts:12-37 | an unparsable date shows `Just now`, since every comparison with NaN fails |
| Dates.WeekOrMore | src/lib/date-utils.ts:18-22 | seven or more whole days ago shows the calendar date, and nothing more recent does |
| Dates.DaysAgo | src/lib/date-utils.ts:25-27 | one to six whole days ago is counted in days |
| Dates.HoursAgo | src/lib/date-utils.ts:29-31 | under a day, one to 23 whole hours is counted in hours |
| Dates.MinutesAgo | src/lib/date-utils.ts:33-35 | under an hour, one to 59 whole minutes is counted in minutes |
| Dates.JustNow | src/lib/date-utils.ts:37 | under a minute, or in the future, shows `Just now` |
| Chars.LowerStr | src/services/autocomplete.ts:215 | lower-casing keeps the length and maps each character |
| Chars.UpperStr | src/services/autocomplete.ts:244 | upper-casing keeps the length and maps each character |
| Chars.NatToString | src/mocks/projects.ts:46 | `String(n)`: decimal digits without a leading zero whose value is `n` |
| Chars.NatToStringInjective | src/mocks/projects.ts:46 | different numbers print differently |
| Chars.Inner | src/services/instructions/interpreter.ts:542-547 | `slice(1, -1)` drops the first and last character, and gives the empty text for shorter input |
| Chars.LastIndexOf | src/services/autocomplete.ts:146-147 | the last position holding the character, or -1 exactly when there is none |
| Chars.IndexOf | src/services/autocomplete.ts:166 | the first position holding the character, or -1 exactly when there is none |
| Chars.Trim | src/services/autocomplete.ts:39 | the result has no leading or trailing space and is empty exactly when the input is all spaces; otherwise it is the stretch of the input right after its leading spaces, and everything after it is space |
| Kinds.FindFirst | src/services/instructions/interpreter.ts:457-462 | the first registered entry whose name equals the given one ignoring case, or none when no entry does |
| Kinds.LookupObjectKindSpec | src/services/instructions/interpreter.ts:457-469 | an object type is found exactly by its registry key in any case |
| Kinds.LookupModifierSpec | src/services/instructions/interpreter.ts:340-343 | a modifier is found exactly by its registry key in any case |
| Kinds.KindNamesDistinct | src/services/instructions/base-variables.ts:8 | the nine registry keys are distinct |
| Kinds.ModifierNamesDistinct | src/services/instructions/base-variables.ts:10 | the five modifier keys are distinct |
| Kinds.ColorFieldKinds | src/services/classes/modifers/color.ts:71-77 | the types Color can change are exactly those with a `color` field |
| Kinds.UnsupportedFillHasNoFill | src/services/classes/vectors/line.ts:14 | every type that refuses Fill (Line, Spline) starts with no fill |
| Params.SortByName | src/services/classes/vectors/vector-object.ts:152 | the sort is a stable sort by name: sorted, and the same entries |
| Params.ToParam | src/services/classes/vectors/vector-object.ts:127-131 | an `any`-prefixed field is exposed without its prefix and with type `any` |
| Params.GetParams | src/services/classes/vectors/vector-object.ts:96-153 | `getParams()` on a fresh instance returns the sorted exposed fields, which is the type's parameter table |
| Params.CollectParams | src/services/classes/vectors/vector-object.ts:101-152 | the loop with its `keysDone` set, then the sort, gives the sorted exposed fields |
| Params.DescriptionOf | src/services/classes/vectors/vector-object.ts:138-147 | a parameter's description is the one its name has in the type's table, if any |
| Params.SortedUnique | src/services/classes/vectors/vector-object.ts:152 | two lists sorted by name with the same entries and unique names are equal |
| Params.ExposedSkipAll | src/services/classes/vectors/vector-object.ts:112-117 | fields outside a non-empty whitelist are not exposed |
| Params.ExposedWithOrigin | src/services/classes/vectors/vector-object.ts:120-125 | a whitelist naming `x` and `y` but no other inherited field exposes those two first |
| Params.ExposedWithoutOrigin | src/services/classes/vectors/vector-object.ts:120-125 | a whitelist naming no inherited field exposes only the type's own fields |
| Params.TableStrictlySorted | src/services/classes/vectors/vector-object.ts:152 | every parameter table is in strictly ascending name order, so no name repeats |
| Params.ExposedAll | src/services/classes/vectors/vector-object.ts:103-147 | fields that all pass the filter under different names are all exposed, in order |
| Params.RectangleParams | src/services/classes/vectors/rectangle.ts:25 | sorting the exposed fields of a fresh instance gives the explicit table of `x`, `y`, `width`, `height`, `color` in name order |
| Params.CircleParams | src/services/classes/vectors/circle.ts:20 | sorting the exposed fields of a fresh instance gives the explicit table of `x`, `y`, `radius`, `color` in name order |
| Params.LineParams | src/services/classes/vectors/line.ts:30 | sorting the exposed fields of a fresh instance gives the explicit table of `x`, `y`, `x2`, `y2` in name order |
| Params.TriangleParams | src/services/classes/vectors/triangle.ts:28 | sorting the exposed fields of a fresh instance gives the explicit table of the three vertices and `color` in name order |
| Params.SplineParams | src/services/classes/vectors/spline.ts:40 | sorting the exposed fields of a fresh instance gives the explicit table of `color`, `weight`, `curvature` in name order |
| Params.CustomParams | src/services/classes/vectors/custom.ts:9 | Custom's `getParams()` exposes its `ANYdraw` field as `draw` of type `any` |
| Params.BrushParams | src/services/classes/vectors/brush.ts:14 | sorting the exposed fields of a fresh instance gives the explicit table of `type`, `color`, `size` in name order |
| Params.FieldParams | src/services/classes/vectors/field.ts:10 | Field exposes only `type` |
| Params.LayerObjectParams | src/services/classes/vectors/layer.ts:9 | sorting the exposed fields of a fresh instance gives the explicit table of `colorMode` in name order |
| Params.ParamTableIsGetParams | src/services/classes/vectors/vector-object.ts:96-153 | the explicit parameter tables are exactly what `getParams()` produces for each registered type |
| Scene.InitialFill | src/services/classes/vectors/rectangle.ts:23 | a fresh object has the default fill exactly when its type has one |
| Scene.ReflectTwice | src/services/classes/vectors/vector-object.ts:213-216 | reflecting a number twice about the same centre restores it |
| Scene.MinOf | src/services/classes/vectors/spline.ts:108-116 | `Math.min`: an entry that is no smaller than none, or NaN exactly when some entry is not a number |
| Scene.MaxOf | src/services/classes/vectors/spline.ts:108-116 | `Math.max`: an entry that is no larger than none, or NaN exactly when some entry is not a number |
| Scene.ReflectXs | src/services/classes/vectors/spline.ts:118-124 | every point's x is reflected, its y and pressure kept |
| Scene.ReflectYs | src/services/classes/vectors/spline.ts:118-124 | every point's y is reflected, its x and pressure kept |
| Scene.DefaultsHaveCoordinates | src/services/classes/vectors/vector-object.ts:18-19 | every type's defaults carry the coordinates flip and reflect read |
| Scene.FlipProps | src/services/classes/vectors/line.ts:46-57 | a flip keeps the set of fields |
| Scene.ReflectProps | src/services/classes/vectors/vector-object.ts:205-219 | a reflection keeps the set of fields |
| Scene.SceneObject.constructor | src/services/classes/vectors/vector-object.ts:18-25 | a new object has its type's defaults, no name, parent, layer or mirror, is cloneable and has its initial fill |
| Scene.SceneObject.Copy | src/services/classes/vectors/vector-object.ts:206-212 | a fresh object of the same type with every field value copied |
| Scene.SceneObject.Flip | src/services/classes/vectors/vector-object.ts:201-203 | the fields become `FlipProps` and the points `FlipPoints` of the old ones, nothing else changes |
| Scene.SceneObject.FlipLine | src/services/classes/vectors/line.ts:46-57 | Line's flip sets the fields to `FlipProps` of the old ones |
| Scene.SceneObject.FlipTriangle | src/services/classes/vectors/triangle.ts:103-127 | Triangle's flip sets the fields to `FlipProps` of the old ones |
| Scene.SceneObject.FlipSpline | src/services/classes/vectors/spline.ts:105-125 | Spline's flip sets the points to `FlipPoints` of the old ones |
| Scene.SceneObject.CloneAndReflect | src/services/classes/vectors/vector-object.ts:205-219 | a fresh object of the same type with this object's fields, coordinates reflected as `ReflectProps`/`ReflectPoints` say, this object unchanged |
| Scene.SceneObject.ReflectCopy | src/services/classes/vectors/line.ts:59-67 | the assignments to the copy are `ReflectProps`/`ReflectPoints` of its fields |
| Scene.FlipOfOtherKinds | src/services/classes/vectors/vector-object.ts:201-203 | every type but Line, Triangle and Spline keeps its fields and points on a flip |
| Scene.LineFlipSwaps | src/services/classes/vectors/line.ts:46-57 | a horizontal Line flip swaps `x` and `x2` (vertical: `y` and `y2`), keeps the others and the midpoint |
| Scene.LineFlipTwice | src/services/classes/vectors/line.ts:46-57 | flipping a Line twice the same way restores it |
| Scene.TriangleFlip | src/services/classes/vectors/triangle.ts:103-127 | a Triangle flip reflects three coordinates about the centroid, keeps the other three and the centroid, and is undone by a second flip |
| Scene.ReflectedRange | src/services/classes/vectors/spline.ts:108-124 | reflecting values about the centre of their range keeps the least and the greatest |
| Scene.SplineFlipKeeps | src/services/classes/vectors/spline.ts:118-124 | a Spline flip keeps the number and order of points, every pressure and the other coordinate |
| Scene.SplineFlipBox | src/services/classes/vectors/spline.ts:105-125 | with numeric coordinates the bounding box stays in place and a second flip restores the points |
| Scene.SplineFlipEmpty | src/services/classes/vectors/spline.ts:106 | a Spline without points is left as it is |
| Scene.ReflectPropsChanges | src/services/classes/vectors/vector-object.ts:213-216 | axis `vertical` changes only `x` (and a Line's `x2`), axis `horizontal` only `y` (and `y2`) |
| Scene.ReflectPointsEach | src/services/classes/vectors/spline.ts:127-137 | the clone's points are the source's, each reflected about the origin on the axis |
| Scene.ReflectTwiceRestores | src/services/classes/vectors/vector-object.ts:205-219 | reflecting the reflection again about the same origin restores coordinates and points, whenever the origin's coordinate on the axis and the coordinates the axis moves are numbers (other fields may hold anything) |
| Lexing.FirstMatch | src/services/instructions/interpreter.ts:39-54 | the first kind in the listed order whose pattern matches a non-empty prefix, and no earlier kind matches |
| Lexing.Resync | src/services/instructions/interpreter.ts:56 | the first offset from which some pattern matches again, or the end |
| Lexing.ScanLexes | src/services/instructions/interpreter.ts:56 | soundness: every token is the first match at its offset and not white space, tokens come in offset order, every error is a maximal run where nothing matches |
| Lexing.ScanCovers | src/services/instructions/interpreter.ts:56 | coverage: the tokens and errors come from one tiling of the text into kept matches, skipped matches and dropped runs, so nothing is lost between them |
| Lexing.CoversIff | src/services/instructions/interpreter.ts:56 | the lexer's result is the one and only result whose tokens and errors tile the text |
| Lexing.CoveredIsScan | src/services/instructions/interpreter.ts:56 | any result that tiles the text is the lexer's result |
| Lexing.TilingUnique | src/services/instructions/interpreter.ts:56 | the text has exactly one tiling by what the lexer does at each offset |
| Lexing.PieceUnique | src/services/instructions/interpreter.ts:39-56 | at one offset the lexer can do only one thing: keep a match, skip a match or drop a run |
| Lexing.CoverToken | src/services/instructions/interpreter.ts:56 | a kept first match in front of a tiled rest tiles, its token in front |
| Lexing.CoverPassed | src/services/instructions/interpreter.ts:11 | a skipped match in front of a tiled rest tiles with the same tokens and errors |
| Lexing.CoverDropped | src/services/instructions/interpreter.ts:56 | a dropped run in front of a tiled rest tiles, its error in front |
| Lexing.CoverEnd | src/services/instructions/interpreter.ts:56 | the end of the text is tiled by nothing |
| Lexing.ScanEmits | src/services/instructions/interpreter.ts:56 | a kept first match yields its token, then the lexing of what follows it |
| Lexing.ScanPasses | src/services/instructions/interpreter.ts:11 | a skipped first match yields nothing: the lexing goes on after it |
| Lexing.ScanDrops | src/services/instructions/interpreter.ts:56 | where nothing matches, one error up to the next matching offset, then the lexing from there |
| Lexing.ScanAtEnd | src/services/instructions/interpreter.ts:56 | nothing is lexed at the end of the text |
| Lexing.ScanEmitsTwo | src/services/instructions/interpreter.ts:56 | two kept first matches in a row lead the lexing as two tokens |
| Lexing.OneTokenToEnd | src/services/instructions/interpreter.ts:56 | a text that is one kept first match lexes as exactly that token and no error |
| Lexing.TwoTokensToEnd | src/services/instructions/interpreter.ts:56 | a text that is two kept first matches lexes as exactly those two tokens and no error |
| Lexing.RunToEnd | src/services/instructions/interpreter.ts:20 | a run over characters that all belong to the class reaches the end of the text |
| Lexing.DroppedRun | src/services/instructions/interpreter.ts:56 | the run dropped up to the next matching offset is reported as one error |
| Lexing.NoErrorsWhenAlwaysMatching | src/services/instructions/interpreter.ts:56 | text on which some pattern matches everywhere lexes without errors |
| Lexing.MatchedLength | src/services/instructions/interpreter.ts:56 | the length a first match reports is what its own pattern matches |
| SceneLexer.LexScene | src/services/instructions/interpreter.ts:8-56 | the scene lexer: no white-space token, every token the first match at its offset, in offset order, every error a maximal unmatched run |
| SceneLexer.LexSceneCovers | src/services/instructions/interpreter.ts:8-56 | the scene lexing is the one result whose tokens, skipped white space and errors tile the whole text |
| SceneLexer.IdentifierTokenAt | src/services/instructions/interpreter.ts:18-54 | at a letter or `_` where no keyword matches, the Identifier pattern decides the token |
| SceneLexer.TokenThenIdentifier | src/services/instructions/interpreter.ts:39-56 | a token directly followed by an identifier where no keyword starts lexes as those two tokens |
| SceneLexer.IdentifierToEnd | src/services/instructions/interpreter.ts:20 | letters up to the end of the text form one identifier |
| SceneLexer.KeywordWordSplits | src/services/instructions/interpreter.ts:39-56 | a one-word text made of a keyword match and an identifier lexes as exactly those two tokens |
| SceneLexer.AscendRest | src/services/instructions/interpreter.ts:17-23 | in `ascend`, no keyword starts at `cend`, so the Identifier pattern takes it |
| SceneLexer.AscendLexes | src/services/instructions/interpreter.ts:17-56 | `ascend` lexes as the keyword `As` (`as`) and the identifier `cend`, with no error |
| ModifierLexer.LexModifier | src/services/classes/modifers/modifer.ts:24-26 | every token is the first match at its offset, never white space, in offset order |
| SceneLexer.KeywordAsSplits | src/services/instructions/interpreter.ts:17-21 | at a word starting with `as` the keyword pattern `As` wins the first two characters (with `KeywordWordSplits`, `ascend` lexes as `as`, `cend`) |
| SceneLexer.KeywordSetSplits | src/services/instructions/interpreter.ts:25 | `SET` wins over Identifier at the start of a word |
| SceneLexer.KeywordToSplits | src/services/instructions/interpreter.ts:23 | `TO` wins over Identifier at the start of a word |
| SceneLexer.KeywordChildSplits | src/services/instructions/interpreter.ts:22 | `CHILD` wins over Identifier at the start of a word |
| SceneLexer.NumberTokenAt | src/services/instructions/interpreter.ts:27 | at a digit or minus sign the Number pattern decides the token |
| SceneLexer.IdentifierIsWord | src/services/instructions/interpreter.ts:18-21 | an identifier token holds only word characters |
| SceneLexer.LexedIdentifiersAreWords | src/services/instructions/interpreter.ts:18-21 | every identifier the lexer produces is made of word characters |
| ModifierLexer.RgbWins | src/services/classes/modifers/color.ts:22-26 | three bytes separated by commas lex as one RGB token |
| ModifierLexer.HsaWhenNotRgb | src/services/classes/modifers/color.ts:28-31 | digit triples that are not all bytes lex as HSA |
| ModifierLexer.GrayscaleWhenNoTriple | src/services/classes/modifers/color.ts:17-20 | a digit run without a comma triple after it is a grayscale value of one to three digits |
| ModifierLexer.ColorNoMatchAt | src/services/classes/modifers/color.ts:50 | at any character but a letter, digit, space, comma, `#` or `-` no Color pattern matches |
| Values.JsonNumberOfPlainToken | src/services/instructions/interpreter.ts:540-541 | `JSON.parse` of a Number token `-?digits` succeeds exactly without a leading zero, with the token's value |
| Values.JsonNumberOfJoinedToken | src/services/instructions/interpreter.ts:540-541 | `JSON.parse` of a Number token `-?D1 c D2` succeeds only for `.` or an exponent letter, with the decimal value |
| Values.ParseFloat | src/services/classes/modifers/Mirror.ts:31-32 | `parseFloat` reads the longest decimal literal after leading white space, or NaN |
| Values.ParseFloatOfNumberToken | src/services/classes/modifers/Fill.ts:42-45 | `parseFloat` reads a modifier Number token as its exact decimal value |
| Modifiers.Param | src/services/classes/modifers/Mirror.ts:23-40 | the `param` rule consumes exactly three tokens when it succeeds |
| Modifiers.MoreParams | src/services/classes/modifers/Fill.ts:54-57 | the separator loop keeps the pairs read before and stops inside the token list |
| Modifiers.ApplyColor | src/services/classes/modifers/color.ts:56-85 | a colour token sets `color` on a type that has one, a type without one throws, other input is a parse error; nothing else changes |
| Modifiers.ApplyFlip | src/services/classes/modifers/Flip.ts:25-40 | a direction token flips the target as `Flip` says; nothing else changes |
| Modifiers.ApplyLayer | src/services/classes/modifers/layer.ts:22-34 | a word sets the target's layer to that name |
| Modifiers.ApplyMirror | src/services/classes/modifers/Mirror.ts:42-64 | one or more params give the target a reflected, non-cloneable clone as its mirror; a bad axis throws |
| Modifiers.CarryOutMirror | src/services/classes/modifers/Mirror.ts:49-62 | the parsed params are carried out as the plan says |
| Modifiers.AttachReflection | src/services/classes/modifers/Mirror.ts:57-62 | the target's mirror is a fresh reflected clone marked not cloneable |
| Modifiers.ApplyFill | src/services/classes/modifers/Fill.ts:53-73 | the supplied entries replace those of a non-null fill; a null fill throws |
| Modifiers.ApplyModifier | src/services/instructions/interpreter.ts:360-361 | a modifier changes only the fields it is about: name, parent and cloneability stay, and only Mirror touches the mirror; `ModifierEffect` states the whole new state per modifier: Color sets `color` to the colour token (or throws when the class has no colour), Flip flips the coordinates and points, Layer sets the layer reference, Mirror makes a fresh non-cloneable reflected copy, Fill merges the fill or throws where the class has none, and a refused content leaves the object as it was |
| Modifiers.ColorBlue | src/services/instructions/test/interpreter.test.ts:146-151 | the content `'blue'` reaches Color's action as the single colour word `blue` |
| Modifiers.ColorBlueEffect | src/services/instructions/test/interpreter.test.ts:146-151 | `SET Color('blue')` on a class with a colour field sets `color` to the word `blue`, keeps everything else, and reports no error |
| Modifiers.LayerMyLayer | src/services/instructions/test/interpreter.test.ts:154-159 | the content `'myLayer'` reaches Layer's action as the name `myLayer` |
| Modifiers.LayerMyLayerEffect | src/services/instructions/test/interpreter.test.ts:154-159 | `SET Layer('myLayer')` sets the layer to the reference named `myLayer` and keeps everything else |
| Modifiers.UnquoteSpec | src/services/classes/modifers/modifer.ts:20-22 | one pair of surrounding quotes is stripped, and text without a leading quote is left alone |
| Modifiers.ColorTakesOneToken | src/services/classes/modifers/color.ts:56-64 | Color reaches its action exactly on a colour token first, cleanly exactly when it is the only token |
| Modifiers.ColorIgnoresStrayCharacter | src/services/classes/modifers/color.ts:12-15 | `red!` lexes to the single word `red`, which Color applies |
| Modifiers.DirectionTokenText | src/services/classes/modifers/Flip.ts:12-15 | a direction token lower-cases to `horizontal` or `vertical` |
| Modifiers.FlipNeverInvalid | src/services/classes/modifers/Flip.ts:28-34 | every Flip that reaches its action calls `flip` with a valid direction |
| Modifiers.MirrorNeedsAParam | src/services/classes/modifers/Mirror.ts:43-46 | Mirror without params is an early-exit error and leaves the target alone |
| Modifiers.FillWithoutParams | src/services/classes/modifers/Fill.ts:54-71 | Fill without params keeps the fill as it was |
| Modifiers.MirrorAxisDefault | src/services/classes/modifers/Mirror.ts:21 | the axis is vertical unless an `axis` pair says otherwise |
| Modifiers.MirrorBadAxisThrows | src/services/classes/modifers/Mirror.ts:33-39 | an axis value that is neither direction throws |
| Modifiers.MirrorOriginChoice | src/services/classes/modifers/Mirror.ts:49-55 | the origin is the given one exactly when both `x` and `y` were given, else the target's position |
| Modifiers.FillFoldLastWins | src/services/classes/modifers/Fill.ts:37-50 | the entry for a key is the last value supplied for it, or the old one |
| Modifiers.LastKey | src/services/classes/modifers/Fill.ts:37-50 | the last pair with the key, with none after it |
| Modifiers.MergeFillKeeps | src/services/classes/modifers/Fill.ts:64-71 | Fill changes exactly the entries it was given |
| Modifiers.ParamListLeftover | src/services/classes/modifers/modifer.ts:32-36 | a parameter list that stops before the end leaves tokens over, reported after the action |
| Binder.SchemaFits | src/services/instructions/interpreter.ts:88-89 | a type's parameters write only fields an object of that type has |
| Binder.FindParam | src/services/instructions/interpreter.ts:103-105 | the parameter with the name, or none exactly when no parameter has it |
| Binder.VariadicSplit | src/services/instructions/interpreter.ts:120-121 | the leftmost letters-then-digits match, as its two groups |
| Binder.VariadicSplitOfIdentifier | src/services/instructions/interpreter.ts:120-121 | on letters followed by digits the groups are exactly those parts |
| Binder.Step | src/services/instructions/interpreter.ts:97-163 | one argument binds without adding or removing fields |
| Binder.FirstPass | src/services/instructions/interpreter.ts:97-164 | the argument loop keeps the field set, and every name it marks used is a parameter |
| Binder.Members | src/services/instructions/interpreter.ts:172-178 | the arguments of a group, in the order written; the group has members exactly when its index occurs |
| Binder.AscendingSpec | src/services/instructions/interpreter.ts:180 | the group indices sorted ascending, each once |
| Binder.FirstGap | src/services/instructions/interpreter.ts:182-191 | the first position not holding its own rank, or none exactly when all do |
| Binder.GroupData | src/services/instructions/interpreter.ts:205-219 | an incomplete group's problem carries the group's token |
| Binder.GroupDataSpec | src/services/instructions/interpreter.ts:205-219 | a group is complete exactly when every required sub-parameter was given, and then holds each one's first value |
| Binder.Completed | src/services/instructions/interpreter.ts:205-221 | each group adds either its point or its problem |
| Binder.CheckGroups | src/services/instructions/interpreter.ts:170-226 | points are stored only for a type with a `storeIn` field |
| Binder.Bind | src/services/instructions/interpreter.ts:85-227 | binding never adds or removes fields of the object |
| Binder.BindArguments | src/services/instructions/interpreter.ts:97-164 | the loop over the arguments leaves the object as `FirstPass` says and its other state unchanged |
| Binder.FindGap | src/services/instructions/interpreter.ts:182-191 | the loop finds `FirstGap` of the sorted indices |
| Binder.CompleteGroups | src/services/instructions/interpreter.ts:205-221 | the loop gives `Completed` of the groups |
| Binder.GroupArguments | src/services/instructions/interpreter.ts:170-226 | the group checks give `CheckGroups` |
| Binder.AssignParameters | src/services/instructions/interpreter.ts:85-227 | the object's fields and points become what `Bind` says, its other state is unchanged, and the problems are `Bind`'s |
| Binder.ErrorIsFinal | src/services/instructions/interpreter.ts:97-98 | once an argument is refused no later argument is looked at |
| Binder.UsedIsKept | src/services/instructions/interpreter.ts:107-115 | a name marked used stays used and its field keeps its value |
| Binder.NamedArgumentBinds | src/services/instructions/interpreter.ts:114-115 | a named argument of a declared parameter sets that parameter's field |
| Binder.PositionalArgumentBinds | src/services/instructions/interpreter.ts:145-162 | the positional argument of rank `o` sets the field of the `o`-th parameter in name order |
| Binder.RefusedAt | src/services/instructions/interpreter.ts:166-167 | a first refusal at `j` keeps what the arguments before `j` bound and reports that problem alone |
| Binder.DuplicateNameRefused | src/services/instructions/interpreter.ts:107-112 | naming a parameter twice is refused with `already assigned` at the second name |
| Binder.PositionalConflictRefused | src/services/instructions/interpreter.ts:154-159 | a positional argument whose parameter was named is refused with its position |
| Binder.TooManyRefused | src/services/instructions/interpreter.ts:146-152 | a positional argument past the parameter list is refused with `Too many parameters` |
| Binder.UnknownNameRefused | src/services/instructions/interpreter.ts:136-141 | a name that is neither a parameter nor a group sub-parameter is refused as not valid |
| Binder.RectangleRefusesX1 | src/services/instructions/interpreter.ts:136-141 | `x1` is refused for a Rectangle with the text `Parameter "x1" is not valid for a Rectangle.` |
| Binder.FieldRefusesX | src/services/instructions/interpreter.ts:136-141 | a Field cannot be given its inherited `x` |
| Binder.SequentialIff | src/services/instructions/interpreter.ts:182-191 | the order check passes exactly when the group indices are 1, 2, ..., k |
| Binder.NoGroupsTooFew | src/services/instructions/interpreter.ts:194-200 | without group arguments a type with a minimum reports too few groups |
| Binder.SplineNeedsTwoPoints | src/services/classes/vectors/spline.ts:11-33 | a Spline without point arguments is refused with `At least 2 point(s) are required, but only 0 were provided.` |
| Interpreter.FromProblems | src/services/instructions/interpreter.ts:166-168 | the binder's problems become events with their messages and tokens, in order |
| Interpreter.Reported | src/services/instructions/interpreter.ts:71-75 | lint mode records exactly the events that carry a token |
| Interpreter.FirstThrown | src/services/instructions/interpreter.ts:77-83 | execute mode throws the first event, and only when there is one |
| Interpreter.FindEntry | src/services/instructions/interpreter.ts:399-401 | the first entry with the name, or none exactly when no entry has it |
| Interpreter.FindEntryAppend | src/services/instructions/interpreter.ts:399-401 | appending entries does not move the first match of an earlier name |
| Interpreter.StatementBase | src/services/instructions/interpreter.ts:252-267 | the `AS` name is used exactly when it is given and no entry has it yet |
| Interpreter.BaseTextInjective | src/services/instructions/interpreter.ts:252-267 | two different fallbacks, or a fallback and an identifier, never spell the same name |
| Interpreter.OriginTextInjective | src/services/instructions/interpreter.ts:270-281 | entry names of different origins differ |
| Interpreter.NewNames | src/services/instructions/interpreter.ts:252-281 | a statement's name and its companion's are both new |
| Interpreter.PushNames | src/services/instructions/interpreter.ts:268-281 | appending a statement's entries keeps every name distinct |
| Interpreter.TokenValue | src/services/instructions/interpreter.ts:540-547 | a Number token's value is `JSON.parse`'s, which throws exactly on a malformed number; other tokens give the text between the quotes |
| Interpreter.Expression | src/services/instructions/interpreter.ts:518-550 | a value token and its value, or a syntax error, or `JSON.parse`'s error |
| Interpreter.ParsedParameter | src/services/instructions/interpreter.ts:497-516 | an argument has a name exactly when an identifier comes first |
| Interpreter.ArgumentsNumbered | src/services/instructions/interpreter.ts:471-485 | the k-th positional argument gets rank k, named ones rank 0 |
| Interpreter.ClauseStart | src/services/instructions/interpreter.ts:317-320 | a clause starts with a type name or with `!` and a name |
| Interpreter.ParentEvents | src/services/instructions/interpreter.ts:238-250 | `Parent object ... is undefined.` exactly when a `CHILD TO` name has no entry |
| Interpreter.NameEvents | src/services/instructions/interpreter.ts:252-267 | `Name ... is already taken.` exactly when an `AS` name has an entry |
| Interpreter.ObjectParser.Reset | src/services/instructions/interpreter.ts:555-559 | the parser starts from the tokens and mode with no objects and no errors |
| Interpreter.ObjectParser.Consume | src/services/instructions/interpreter.ts:383-385 | the next token when it has the kind, else a mismatch at the cursor |
| Interpreter.ObjectParser.ThrowOrAdd | src/services/instructions/interpreter.ts:77-83 | execute mode throws the message, lint mode records it with its token |
| Interpreter.ObjectParser.ThrowProblems | src/services/instructions/interpreter.ts:166-168 | the binder's problems go through `throwOrAddError` in order |
| Interpreter.ObjectParser.ParameterExpression | src/services/instructions/interpreter.ts:518-550 | the method ends as `Expression` says |
| Interpreter.ObjectParser.ParameterClause | src/services/instructions/interpreter.ts:497-516 | the method ends as `ParsedParameter` says |
| Interpreter.ObjectParser.ArgumentList | src/services/instructions/interpreter.ts:471-486 | the parenthesised list ends as `Arguments` says |
| Interpreter.ObjectParser.BindArgs | src/services/instructions/interpreter.ts:488-492 | the object's fields become `Bind`'s and its problems are thrown or recorded |
| Interpreter.ObjectParser.ObjectClause | src/services/instructions/interpreter.ts:449-495 | a type found ignoring case is built with its defaults and its arguments bound; an unknown type is `Object type ... not found.` |
| Interpreter.ObjectParser.CloneOf | src/services/instructions/interpreter.ts:398-421 | no entry is `Cannot find named object`, a mirrored one is refused, else the clone is a copy with all fields |
| Interpreter.ObjectParser.CloneClause | src/services/instructions/interpreter.ts:389-447 | the clone's own arguments are bound on top of the copied fields |
| Interpreter.ObjectParser.ModifierAction | src/services/instructions/interpreter.ts:338-366 | an undefined or unsupported modifier is reported and leaves the object as it was; otherwise it parses the content between the quotes, the object changes as `ModifierEffect` says, and its errors are thrown or recorded |
| Interpreter.ObjectParser.RunModifier | src/services/instructions/interpreter.ts:359-361 | a supported modifier changes the object as `ModifierEffect` says and it stays an object still being built |
| Interpreter.ObjectParser.ReportModifier | src/services/instructions/interpreter.ts:360-364 | a modifier's failure is thrown (execute mode) or recorded at the modifier's name; success records nothing |
| Interpreter.ObjectParser.ModifierClause | src/services/instructions/interpreter.ts:333-366 | `name(content)` is consumed as `ModifierSyntax` says; a syntax error leaves the object as it was, otherwise the named modifier acts on it as `ModifierRan` says |
| Interpreter.ObjectParser.SetItems | src/services/instructions/interpreter.ts:331-369 | the modifiers after the first, one per following identifier, as `ModifiersSyntax` says; with no identifier next the object is untouched |
| Interpreter.ListOfOne | src/services/instructions/interpreter.ts:331-335 | a modifier list that ends four tokens on is exactly one modifier, with no identifier after it |
| Interpreter.ObjectParser.ModifierList | src/services/instructions/interpreter.ts:331-369 | the list after `SET`, as `ModifiersSyntax` says; a list of one modifier leaves the object as that modifier's action made it |
| Interpreter.ObjectParser.SetClause | src/services/instructions/interpreter.ts:329-371 | `SET` and at least one modifier, as `SetSyntax` says; a `SET` list of one modifier leaves the object as that modifier's action made it |
| Interpreter.ObjectParser.AnyClause | src/services/instructions/interpreter.ts:317-320 | a type name found ignoring case builds that type with its defaults and its arguments bound, an unknown one is `Object type ... not found.`; `!name` yields an object exactly when the entry exists and is cloneable, a copy of its fields with its own arguments bound on top; anything else is a syntax error |
| Interpreter.ObjectParser.SingleStatement | src/services/instructions/interpreter.ts:312-374 | the statement is consumed as `StatementSyntax` says; its object is new, of the type its clause names or the kind of the entry it clones (`Made`), and the `AS` and `CHILD TO` names, when present, are identifier tokens of the input |
| Interpreter.ObjectParser.NameAndChild | src/services/instructions/interpreter.ts:376-387 | the optional `AS name` and `CHILD TO name` are read as the grammar says |
| Interpreter.ObjectParser.AttachParent | src/services/instructions/interpreter.ts:238-250 | the parent is the first entry with the name, or the problem is thrown or recorded |
| Interpreter.ObjectParser.NameAndAppend | src/services/instructions/interpreter.ts:252-281 | the object and its companion are appended under distinct new names |
| Interpreter.ObjectParser.ProcessStatement | src/services/instructions/interpreter.ts:234-285 | a statement's parent and name problems are raised in order; execute mode stops at the first |
| Interpreter.ObjectParser.NextStatement | src/services/instructions/interpreter.ts:232-288 | a statement and its processing: when it made an object and did not stop, its entry and its Mirror companion's are appended under the name `StatementBase` gives for the current `order`, and `order` grows by one; a statement without an object appends nothing and leaves `order` as it was |
| Interpreter.ObjectParser.CommaStatement | src/services/instructions/interpreter.ts:290-294 | one turn of the `MANY`: the comma, then a statement, leaving the rest of the list as `MoreStatements` says |
| Interpreter.ObjectParser.RestStatements | src/services/instructions/interpreter.ts:290-294 | statements follow while a comma starts one, and the list ends as `MoreStatements` says |
| Interpreter.ObjectParser.Statements | src/services/instructions/interpreter.ts:287-294 | the first statement, then the rest, end as `StatementsEnd` says; when the first statement is malformed no entry is made |
| Interpreter.ObjectParser.Finish | src/services/instructions/interpreter.ts:296-307 | a trailing comma is thrown or recorded, and the first token left over ends the parse |
| Interpreter.ObjectParser.ObjectStatement | src/services/instructions/interpreter.ts:231-310 | the parse follows the grammar, keeps entry names distinct, and in lint mode stops exactly where the grammar does; a program whose first statement is malformed, the empty one included, has no entries |
| Interpreter.GrammarFinished | src/services/instructions/interpreter.ts:296-307 | a program that ends in a trailing comma is refused at the end |
| Interpreter.ReportedConcat | src/services/instructions/interpreter.ts:71-75 | reporting two runs of events reports each in turn |
| Interpretation.Outcome | src/services/instructions/interpreter.ts:577-608 | execute mode succeeds only without lexing errors or a halt; lint mode returns the collections and at most one parse error |
| Interpretation.Interpret | src/services/instructions/interpreter.ts:565-609 | each call resets the parser, lexes the text and parses it, and returns `Outcome` of the result |
| Interpretation.LintReports | src/services/instructions/interpreter.ts:598-608 | lint mode throws only `JSON.parse`'s error and reports at most the first parse error |
| Interpretation.TrailingCommaLast | src/services/instructions/interpreter.ts:296-307 | a program whose only flaw is a final trailing comma parses to the end |
| Linter.CharSearch | src/services/linter.ts:5 | the leftmost position where `unexpected character: ->(.)<-` matches |
| Linter.LexerMessageOfMatch | src/services/linter.ts:3-13 | the text depends only on the captured character: a space is the stray-space text, any other is quoted |
| Linter.LexerMessageGeneric | src/services/linter.ts:15 | the generic text is given exactly when the pattern matches nowhere |
| Linter.MismatchAt | src/services/linter.ts:26 | the two groups of the mismatch pattern at a position: a word, then text without quotes |
| Linter.BeforeArrow | src/services/linter.ts:39 | `split('-->')[0]`: the prefix before the first `-->` |
| Linter.MismatchGroups | src/services/linter.ts:25-27 | the groups at the leftmost match, only for a mismatch error |
| Linter.NoViableIsIncomplete | src/services/linter.ts:22-24 | an unviable alternative is reported as incomplete code |
| Linter.MismatchNamesBoth | src/services/linter.ts:25-31 | a mismatch message names the expected and the found token read at the leftmost match |
| Linter.OtherErrorMessage | src/services/linter.ts:34-44 | an error with a token keeps its message; one without keeps the trimmed text before `-->`, or the generic text when that is blank |
| Linter.LintText | src/services/linter.ts:48-58 | `lint` is exactly lint-mode `interpret`: the parser holds the lexed tokens and the result is `Outcome` of the grammar's halt, the objects and the recorded errors; so it throws only `JSON.parse`'s error and returns the lexer's errors and at most one parse error |
| Autocomplete.Slice | src/services/autocomplete.ts:27 | `slice` is the sub-sequence when the bounds are in range |
| Autocomplete.Split | src/services/autocomplete.ts:166 | `split` of a one-character separator is never empty, no piece holds the separator, a text without it is one piece, and joining the pieces with the separator gives the input back |
| Autocomplete.WordsAreRuns | src/services/autocomplete.ts:240 | every word is non-empty and space-free |
| Autocomplete.WordsNoneWhenBlank | src/services/autocomplete.ts:240 | there are no words exactly when the input is all spaces |
| Autocomplete.WordsOfRun | src/services/autocomplete.ts:240 | a non-empty run without spaces is one word, itself |
| Autocomplete.WordsDropSpace | src/services/autocomplete.ts:240 | a leading space separates nothing |
| Autocomplete.WordsAtSpace | src/services/autocomplete.ts:240 | cutting the text at any space gives the words before it followed by the words after it, so the words are the input's maximal space-free runs in order |
| Autocomplete.KeepPrefixed | src/services/autocomplete.ts:214-216 | keeps the entries that start with the prefix after folding, each as often as in the input, and a single entry exactly when it starts with the prefix |
| Autocomplete.KeepPrefixedAppend | src/services/autocomplete.ts:214-216 | filtering two lists in a row is filtering each, so the kept entries keep their order |
| Autocomplete.KeepPrefixedAll | src/services/autocomplete.ts:214-216 | when every entry starts with the prefix, the whole list is kept as it is |
| Autocomplete.WithPrefixIgnoringCase | src/services/autocomplete.ts:214-216 | keeps the entries that start with the prefix ignoring case, each as often as in the input, and a single entry exactly when it matches |
| Autocomplete.WithPrefixAppend | src/services/autocomplete.ts:214-216 | the case-insensitive filter keeps the order of its input |
| Autocomplete.TrailingWordStart | src/services/autocomplete.ts:27 | `search(/\w+$/)`: the start of the trailing word, or -1 exactly when the text does not end in a word character |
| Autocomplete.FirstNonWord | src/services/autocomplete.ts:28 | `search(/\W/)`: the first non-word character, or -1 |
| Autocomplete.VariadicMatch | src/services/autocomplete.ts:185-191 | none exactly when no position starts a letters-then-digits match; otherwise the groups are the letter run and the digit run at the leftmost such position |
| Autocomplete.LastCommaBelow | src/services/autocomplete.ts:125-138 | the largest top-level comma below a bound |
| Autocomplete.FindLastTopLevelComma | src/services/autocomplete.ts:125-138 | the backward depth-counting loop returns the largest comma outside parentheses, or -1 when there is none |
| Autocomplete.BlankIsTrimmedAway | src/services/autocomplete.ts:39 | a text is blank exactly when trimming empties it |
| Autocomplete.GetWordAtWord | src/services/autocomplete.ts:26-48 | on a word character the result is the whole word around it |
| Autocomplete.GetWordAtOther | src/services/autocomplete.ts:38-41 | on another character inside the text there is no word |
| Autocomplete.GetWordAtEnd | src/services/autocomplete.ts:30-36 | past the end the result is the trailing word, or the last character when the text does not end in one |
| Autocomplete.ObjectEntry | src/services/autocomplete.ts:61 | `objects[name]`: a registered type, an inherited `Object.prototype` member, or nothing |
| Autocomplete.PrototypeKeysNotRegistered | src/services/autocomplete.ts:5-24 | no registry key is an inherited member, so those names resolve to the prototype |
| Autocomplete.ObjectNamedSpec | src/services/autocomplete.ts:6-16 | the object table answers exactly the nine registry keys, each with its own type |
| Autocomplete.ModifierNamedSpec | src/services/autocomplete.ts:17-23 | the modifier table answers exactly the five registry keys |
| Autocomplete.EditorModifierKeys | src/services/autocomplete.ts:17-23 | the keys of the editor's modifier table, in its order |
| Autocomplete.EditorModifierKeysReordered | src/services/autocomplete.ts:17-23 | the editor lists the same five keys as the interpreter's registry, each once, but in another order (Color before Layer) |
| Autocomplete.ObjectNamedIsCaseSensitive | src/services/autocomplete.ts:61 | unlike the interpreter, hover lookup is case-sensitive: `rectangle` builds a Rectangle but has no hover entry |
| Autocomplete.ModifierParams | src/services/autocomplete.ts:72-77 | one entry per key of the modifier's parameter descriptions |
| Autocomplete.ParamNamed | src/services/autocomplete.ts:104-105 | the first parameter with the name, or none when none has it |
| Autocomplete.VariadicNamed | src/services/autocomplete.ts:100-102 | the first sub-parameter with the name, or none |
| Autocomplete.GetInfoInherited | src/services/autocomplete.ts:61-66 | an inherited member's name throws a TypeError |
| Autocomplete.GetInfoInheritedCall | src/services/autocomplete.ts:93-106 | inside a call named by an inherited member, looking up any other word throws |
| Autocomplete.GetInfoObject | src/services/autocomplete.ts:61-68 | a type's name shows its description and its `getParams()` list |
| Autocomplete.GetInfoModifier | src/services/autocomplete.ts:70-84 | a modifier's name, when no type has it, shows its description and parameter keys |
| Autocomplete.ModifierNotObject | src/services/autocomplete.ts:5-24 | apart from `Layer`, no modifier shares its name with an object type |
| Autocomplete.GetInfoLayer | src/services/autocomplete.ts:61-84 | `Layer` names a type and a modifier, and the type wins |
| Autocomplete.GetInfoNoWord | src/services/autocomplete.ts:53-59 | with no word given and none at the cursor there is nothing to show |
| Autocomplete.GetInfoVariadic | src/services/autocomplete.ts:86-114 | inside a call, a letters-then-digits word is looked up among the group's sub-parameters |
| Autocomplete.GetInfoParam | src/services/autocomplete.ts:103-114 | inside a call, another word is looked up among the type's parameters |
| Suggestions.ParamContext | src/services/autocomplete.ts:143-145 | none exactly when no `(` is preceded by a word and followed only by non-`)` text; otherwise, at the leftmost such `(`, the name is the word before it (spaces skipped) and the text is everything after it |
| Suggestions.ParamContextIsOpen | src/services/autocomplete.ts:146-149 | a match always ends an open argument list |
| Suggestions.Unused | src/services/autocomplete.ts:178-181 | a single name is kept exactly when it is not used, and the result is no longer than the table |
| Suggestions.UnusedCounts | src/services/autocomplete.ts:178-181 | each unused name occurs as often as in the table, a used one never |
| Suggestions.UnusedAppend | src/services/autocomplete.ts:178-181 | filtering two lists in a row is filtering each, so table order is kept |
| Suggestions.MaxIndex | src/services/autocomplete.ts:186-194 | the largest index any typed argument carries, or 0 |
| Suggestions.MaxTypedIndex | src/services/autocomplete.ts:188-194 | the loop finds `MaxIndex` |
| Suggestions.GroupNames | src/services/autocomplete.ts:196-197 | the names typed with the group's suffix, suffix removed |
| Suggestions.Missing | src/services/autocomplete.ts:206-208 | a single sub-parameter is kept exactly when its name is not in the group, and the result is no longer than the list |
| Suggestions.MissingCounts | src/services/autocomplete.ts:206-208 | each sub-parameter not in the group occurs as often as declared, the others never |
| Suggestions.MissingAppend | src/services/autocomplete.ts:206-208 | filtering two lists in a row is filtering each, so declaration order is kept |
| Suggestions.FirstGroupOffered | src/services/autocomplete.ts:184-211 | with no indexed argument typed every sub-parameter is offered with index 1 |
| Suggestions.NextGroupOffered | src/services/autocomplete.ts:184-211 | once the highest group is complete the next group is offered |
| Suggestions.MissingOffered | src/services/autocomplete.ts:184-211 | while the highest group is incomplete only its missing names are offered |
| Suggestions.ValueStopsSuggestions | src/services/autocomplete.ts:166-169 | once the current argument has a value after `:` nothing is offered |
| Suggestions.ColonStopsSuggestions | src/services/autocomplete.ts:170-172 | right after the `:` nothing is offered |
| Suggestions.UnusedOffered | src/services/autocomplete.ts:161-181 | right after a comma (or the `(`) the offer is exactly the unused standard names, in table order, so none is offered twice |
| Suggestions.PartialNarrows | src/services/autocomplete.ts:213-216 | a partial name narrows the offer to entries starting with it, ignoring case |
| Suggestions.WordEnd | src/services/autocomplete.ts:232 | the run of word characters from a position ends before the first character that is not one |
| Suggestions.SpacesEnd | src/services/autocomplete.ts:232 | the run of spaces from a position ends before the first character that is not a space |
| Suggestions.CloseFrom | src/services/autocomplete.ts:232 | the first `)` at or after a position, or the text's length when there is none |
| Suggestions.SpacesEndAt | src/services/autocomplete.ts:232 | a run of spaces that is not followed by a space is where `SpacesEnd` stops |
| Suggestions.WordEndAt | src/services/autocomplete.ts:232 | a run of word characters that is not followed by one is where `WordEnd` stops |
| Suggestions.CloseFromAt | src/services/autocomplete.ts:232 | the first `)` after a run without one is where `CloseFrom` stops |
| Suggestions.ObjectDefEnd | src/services/autocomplete.ts:232-236 | when some, the match ends at a `)` and holds no earlier `)` |
| Suggestions.ObjectDefEndOfRuns | src/services/autocomplete.ts:232-236 | spaces, a word, spaces, `(`, characters other than `)` and a `)` are matched, and the match ends right after that `)` |
| Suggestions.ObjectDefEndNone | src/services/autocomplete.ts:232-236 | there is no match exactly when no positions give the shape spaces, word, spaces, `(`, no `)`, `)`; a match has that shape with the runs the scans found |
| Suggestions.ObjectDefEndMatches | src/services/autocomplete.ts:232-236 | every text made of spaces, a word, spaces, `(`, text without `)`, `)` and anything else is matched, and the match ends right after that `)` |
| Suggestions.SetPartial | src/services/autocomplete.ts:250-252 | none exactly when no `SET` starting a word is followed by spaces and word characters to the end; otherwise the rest of the text after the leftmost such `SET` and the spaces following it, which is all word characters |
| Suggestions.NothingAfterAsOrTo | src/services/autocomplete.ts:243-246 | after `AS` or `TO` nothing is offered |
| Suggestions.KeywordsOffered | src/services/autocomplete.ts:261-281 | the keywords offered on request depend on which keywords were used |
| Suggestions.KeywordTyped | src/services/autocomplete.ts:274-278 | while a keyword is typed only the allowed ones it begins are offered |
| Suggestions.ModifiersAfterSet | src/services/autocomplete.ts:248-256 | in a `SET` clause the modifiers offered are the editor table's keys that start with what follows `SET`, ignoring case |
| Suggestions.AllModifiersAfterSet | src/services/autocomplete.ts:17-23 | right after `SET`, on request, the whole editor table is offered in its order: Color, Layer, Flip, Mirror, Fill |
| Suggestions.EditorKeysUnfiltered | src/services/autocomplete.ts:248-256 | the empty partial name keeps the five editor keys in table order |
| Suggestions.SetClauseEmpty | src/services/autocomplete.ts:240-252 | ` SET ` is the single word `SET` with an empty partial name after it |
| Suggestions.RectangleSetStatement | src/services/autocomplete.ts:146-259 | for `Rectangle() SET ` with the cursor at the end, the offer is the keyword offer for ` SET ` |
| Suggestions.SetClauseOffersAll | src/services/autocomplete.ts:246-252 | after `Rectangle()`, the text ` SET ` is offered Color, Layer, Flip, Mirror, Fill, in that order |
| Suggestions.SetOffersEditorOrder | src/services/autocomplete.ts:17-23 | `getSuggestions("Rectangle() SET ", 16, false)` lists Color, Layer, Flip, Mirror, Fill, in that order |
| Suggestions.OnlyModifiersAfterSet | src/services/autocomplete.ts:248-259 | in a `SET` clause nothing else is offered |
| Suggestions.CurrentWord | src/services/autocomplete.ts:285-287 | the word being typed ends the text, starts with a letter, `_` or `!` and is otherwise word characters; it is empty exactly when no such word ends the text, and no longer one does |
| Suggestions.Starters | src/services/autocomplete.ts:297-299 | the object type names followed by `!` |
| Suggestions.SuggestInCall | src/services/autocomplete.ts:149-220 | inside the open argument list of a known type the offer is the argument list's |
| Suggestions.SuggestInInheritedCall | src/services/autocomplete.ts:151-154 | inside a call named by an inherited member `getSuggestions` throws |
| Suggestions.SuggestOutsideCall | src/services/autocomplete.ts:141-149 | when the last `(` before the cursor is closed, the offer is that of the last top-level statement |
| Suggestions.StatementAfterDefinition | src/services/autocomplete.ts:232-239 | a statement that opens with an object definition and goes on is offered the keyword offer for the rest |
| Suggestions.SuggestAfterDefinition | src/services/autocomplete.ts:146-259 | outside an open call, a statement that is an object definition followed by more text is answered by the keyword offer for that text |
| Suggestions.CloneCandidates | src/services/autocomplete.ts:289-294 | only names without `(` that start with the partial name, every such object name, and a single object's name exactly when it qualifies |
| Suggestions.CloneCandidatesAppend | src/services/autocomplete.ts:289-294 | the candidates of two lists in a row are those of each, so definition order and repetitions are kept |
| Suggestions.GetSuggestions | src/services/autocomplete.ts:140-309 | the result is `Suggest`'s list, its TypeError, or, for a clone source, the lint-mode interpretation of the text before the cursor: its error or the clone candidates among its objects |

## Left out

- Interpreter.ObjectParser.SetClause: the effect on the object is stated for a
  `SET` list of one modifier only; for longer lists the contract keeps name,
  parent and the mirror's provenance, but does not compose the successive
  modifiers' effects; `ModifierRan` states each modifier's effect.
- Interpreter.ObjectParser.ModifierList: as for `SetClause`, the object is
  stated only for a list of one modifier; longer lists keep name, parent and
  the mirror's provenance without composing the effects.
- Interpreter.ObjectParser.SetItems: each further modifier is parsed as
  `ModifiersSyntax` says, but the effects of the modifiers it runs are not
  composed; only an empty rest (no identifier next) states the object unchanged.
- Interpreter.ObjectParser.ObjectStatement: the entries and the lint problems
  of a whole program are stated per statement only (`NextStatement`: what one
  statement appends and how it counts `order`); the loop over statements keeps
  the parser's invariants and the grammar's end but does not compose the
  appended entries into one list, except that a program whose first statement
  is malformed has none.
- Interpretation.Interpret: returns `Outcome` of the parser's final state, so
  its objects are described as for `ObjectStatement`, statement by statement.
- Drawing, canvas setup and the p5 library (`draw`, `create-vectors`,
  `canvasManager`): they paint pixels and change no model state.
- The HTTP/desktop API, `console` output and the browser's `localStorage`
  copy made by `addLoadedProject`: calls into code outside this model, given
  as parameters (the API's answer or error) or left out.
- The host's `TextEncoder`/`TextDecoder`, `JSON.stringify`/`JSON.parse` of
  projects and brushes, `btoa`/`atob`: parameters of the containers (`Host`);
  their behaviour is assumed only where a lemma says so (`Faithful`).
- FileFormat.DecodeBinaryV1: metadata JSON that parses but is not a project
  record is refused as a syntax error, whereas the source spreads whatever
  value was parsed into the result; extra metadata keys are not kept.
- FileFormat.EncodeProject: `atob` throws on a `canvasImage` that is not
  valid base64 (src/lib/file-format.ts:39-41, called at line 82), so the
  source's encoder can fail; the model's `fromBase64` is total and encoding
  always returns a buffer.
- FileFormat.DecodePencodeFile and FileFormat.LegacyJson: legacy input is
  returned as whatever `JSON.parse` gives, cast to a project without any
  check (src/lib/file-format.ts:179), so `42` or `[]` is returned as a
  "project"; the model's `parseProject` yields a project record or nothing,
  and JSON that parses to another value is refused as a syntax error.
- BrushFormat.DecodePenbrush: likewise, the source returns any parsed JSON
  value as the brush (src/lib/brush-format.ts:74); the model's `parse`
  yields a brush record or nothing.
- FileFormat.CodeRestored and FileFormat.DecodeEncoded: the code comes back
  without a leading U+FEFF, because `TextDecoder` consumes a byte order mark
  at the start of its input (`Bytes.TextCodec.Lossless` states this); other
  text, and the metadata and brush JSON, which start with `{`, come back
  unchanged.
- Dates.FormatLastModified: the host's date parser and `toISOString` are a
  parameter; times are whole milliseconds.
- Projects.ProjectStore.UpdateProject: an update that sets a key explicitly
  to `undefined` is not distinguished from one that omits it; optional brush
  fields beyond those the store reads are not modelled.
- Interpretation.Interpret: the parsing library's error recovery (the parser
  is built with recovery enabled) is not modelled; the model stops at the
  first recognition error, so after a syntax error in lint mode the source
  may go on to report more semantic errors and objects (and hence more clone
  suggestions), and its `objects` is empty when no tree was built. Recovery
  also applies in execute mode (src/services/instructions/interpreter.ts:66):
  the source goes on parsing past a syntax error, so a later action can
  throw first (for example `Object type "Foo" not found.` or a number parse
  error) instead of the syntax error, where the model returns
  `ParseFailure`.
- Interpreter.ObjectParser.Consume: recognition errors carry the token index
  only, not the library's message text.
- Interpreter.ObjectParser.Consume: for a mismatched token the source
  builds its message from `payload.A.name` and `payload.B.name` of the
  library's exception (src/services/instructions/interpreter.ts:590-592);
  if that exception has no `payload`, the source throws a `TypeError` there
  rather than the intended message. The model abstracts the message away,
  so it captures neither outcome.
- Chars.LowerStr and Chars.UpperStr: case mapping covers ASCII letters only,
  whereas `toLowerCase`/`toUpperCase` are full Unicode (for example `ſ`
  upper-cases to `S`, so the source offers `SET` for it and the model does
  not).
- Scene.ReflectProps: a field that is not a number reflects to NaN; a
  numeric string such as `"5"` would be coerced by JavaScript's arithmetic
  (and `+` would concatenate), which the model does not follow.
- Suggestions.MaxIndex: variadic indices are unbounded naturals; the
  source's `parseInt` yields a double, exact only up to 2^53 (about 16
  digits), and `String` switches to exponent form from 1e21, so for longer
  digit runs the source's group suffix differs from the model's.
- Binder.Step: the index of a variadic argument is `parseInt` of its digits
  (src/services/instructions/interpreter.ts:130), which rounds above 2^53;
  the model keeps the exact natural, so two indices that differ only beyond
  that precision are different here and equal in the source.
- Projects.ProjectStore.InitProjects and Projects.ProjectStore.SaveProject:
  both are `async` and wait for the API (src/mocks/projects.ts:16, 88);
  the model runs each call to completion with the API's answer as a
  parameter, so interleavings (a second `initProjects` passing the guard
  before the first finishes, or an update made between sending a save and
  merging its answer) are not modelled.
- SceneLexer.LexScene, ModifierLexer.LexModifier, Linter.LintText and
  Suggestions.GetSuggestions: text is a sequence of Unicode scalar values,
  whereas JavaScript strings are UTF-16 code units; a character outside the
  Basic Multilingual Plane counts once here and twice in the source. Where
  such a character sits inside a match that accepts any character, only
  positions after it move: in `Rectangle(color: '😀') AS r` the quoted
  text is one Any token in both, and every offset, column and
  `cursorPosition` after the emoji is one less in the model. Where a
  pattern's `.` meets it, tokens and messages differ too: `.` in the Number
  pattern (src/services/instructions/interpreter.ts:27) and `(.)` in the
  lexer-error message (src/services/linter.ts:5) take one code unit in the
  source but one scalar value here, so `1😀2` is the Number `1`, a dropped
  run of two code units and the Number `2` in the source, while the model
  takes one Number token `1😀2`, on which the number parse then throws; and
  for an unexpected emoji the source's message quotes a lone surrogate
  where the model quotes the emoji.
- Values.ParseFloat: numbers are exact reals, not IEEE doubles; rounding,
  infinities and `-0` are not modelled.
- The shared mutable `vectorsArray`/`unnamedVectors` globals and the
  static instance counter are not used by the modelled operations.
