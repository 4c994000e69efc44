# xGDSImport — a verified model of the GDS import pass

`xGDSImport.py` imports a GDSII layout into an open Xpedition PCB design. It
takes the library tree built by the python-gdsii reader, walks every element
of every structure, and draws each Boundary element as a filled polygon on a
user layer named `GDS_<layer>.<datatype>`. It creates that user layer when
the document does not have it yet. Path, Text, Node and Box elements are
reported as not implemented. The script also has a debug dump that renders
each record's payload (`showData`).

This project models that pass in Dafny:

- `decimal.dfy` (module `Decimal`): Python's decimal rendering of integers,
  which both the layer name and the payload dump use. It comes with a parser
  proved to invert it.
- `gds.dfy` (module `Gds`): the element tree (a library is a sequence of
  structures; a structure is a sequence of `Element` values: the five
  geometric element kinds and the structure and array references) and `showData`.
- `geometry.dfy` (module `Geometry`): the nanometre-to-micron scale, the
  closed X/Y/R points array built by `drawBoundry`, and the user layer name.
- `host.dfy` (module `Host`): the Xpedition application and document as a
  class `Xpedition`. Its user layers are a map from layer name to the
  graphics drawn on it. It keeps a record of layer-creation requests and the
  message-window transcript. Whether `PutUserLayer` succeeds for a name is
  fixed by the constant set `refused`.
- `import.dfy` (module `Import`): `setupUserLayer`, `drawBoundry` and the
  element loop of `main`. Each is given first as a function on `Snapshot`
  values (`SetupStep`, `DrawStep`, `ElementStep`, `ImportSpec`). The lemmas
  are proved about those functions. The methods `SetupUserLayer`,
  `DrawBoundary` and `ImportLibrary` drive an `Xpedition` object and are
  proved to follow them.

Coordinates are integers in nanometres. The `* 0.001` scale is exact `real`
arithmetic.

`drawBoundry` always appends a copy of the first vertex
(xGDSImport.py:533-536), even when the outline is already closed, so such an
outline gets a second copy of it. `ClosingClosedOutlineDuplicates` states
this.

## Model

| member | source | states |
|---|---|---|
| `Decimal.NatDecimal` | xGDSImport.py:541 | The rendering of a non-negative integer is non-empty, all digits, and starts with '0' only for zero. |
| `Decimal.IntDecimal` | xGDSImport.py:541 | Python's decimal rendering of any integer, as the layer name and the payload listing format it. Its properties are stated by `IntDecimalShape`, `IntDecimalRoundTrip`, `IntDecimalInjective` and `IntDecimalHasNoSeparator`. |
| `Decimal.IntDecimalShape` | xGDSImport.py:541 | The rendering of any integer is a well-formed integer literal. It starts with '-' exactly when the integer is negative. |
| `Decimal.NatDecimalRoundTrip` | xGDSImport.py:541 | Reading the digits of a non-negative integer's rendering gives back that integer. |
| `Decimal.IntDecimalRoundTrip` | xGDSImport.py:541 | Parsing the rendering of any integer gives back that integer. |
| `Decimal.IntDecimalInjective` | xGDSImport.py:541 | Two integers render alike exactly when they are equal. |
| `Decimal.IntDecimalHasNoSeparator` | xGDSImport.py:541 | A rendered integer contains no '.' and no ','. So the separators of layer names and payload listings can be found again. |
| `Gds.Joined` | xGDSImport.py:128 | The decimal renderings of an integer list joined by ", ". Its properties are stated by `JoinedShape`, `JoinedInjective` and `JoinedFieldCount`. |
| `Gds.ShowData` | xGDSImport.py:122-128 | An ASCII payload becomes its text between two double quotes, unescaped. A bit array becomes a decimal that parses back to its value. An integer list renders empty exactly when it has no values. |
| `Gds.JoinedShape` | xGDSImport.py:128 | A ", "-joined listing is empty exactly for no values. It contains a comma exactly when there are two or more values. |
| `Gds.JoinedInjective` | xGDSImport.py:128 | Two integer lists that give the same ", "-joined listing are equal, so the listing determines the values. |
| `Gds.JoinedFieldCount` | xGDSImport.py:128 | A listing of n ≥ 1 values contains exactly n − 1 commas. |
| `Geometry.ToMicrons` | xGDSImport.py:527-530 | Scaling by 0.001 is exact: the result times 1000 is the input coordinate. |
| `Geometry.MillimetreInMicrons` | xGDSImport.py:527-530 | A coordinate of 1,000,000 nm becomes exactly 1000.0 microns. |
| `Geometry.ClosedOutline` | xGDSImport.py:523-536 | For n ≥ 1 vertices, X, Y and R each have n + 1 entries. For i < n, X[i] and Y[i] are vertex i scaled by 0.001 and R[i] is 0.0. The last entry of each list equals its first. |
| `Geometry.BuildPointsArray` | xGDSImport.py:523-539 | The append loop followed by the closing appends builds exactly `ClosedOutline` of the vertices. |
| `Geometry.ClosingClosedOutlineDuplicates` | xGDSImport.py:533-536 | Closure is unconditional and not idempotent. An outline whose last vertex equals its first still gains an entry, so the last two entries both repeat the first vertex. |
| `Geometry.UserLayerName` | xGDSImport.py:541 | The user layer name "GDS_", decimal layer, ".", decimal datatype. Its properties are stated by `UserLayerNameParts` and `UserLayerNameInjective`. |
| `Geometry.UserLayerNameParts` | xGDSImport.py:541 | The layer name is "GDS_", then the decimal layer, then "." at the first dot, then the decimal datatype. |
| `Geometry.UserLayerNameInjective` | xGDSImport.py:541 | Two elements target the same user layer exactly when they have the same layer and the same datatype. |
| `Host.Message.Text` | xGDSImport.py:450-553 | The text of each transcript line the import writes: the "not implemented" warnings (450-462), the "Processed N records" note (484), the setup error and note (503, 507) and the "Boundary element skipped" error (553). Severity is given by `Host.Message.Severity`. |
| `Host.Xpedition.FindUserLayer` | xGDSImport.py:546 | Finds a user layer exactly when the document has one of that name. |
| `Host.Xpedition.PutUserLayer` | xGDSImport.py:498 | Records one creation request. It succeeds exactly when the name is not refused. A new layer starts with no graphics. No other layer and no message changes. |
| `Host.Xpedition.PutUserLayerGfx` | xGDSImport.py:555 | Appends exactly one graphic to the named layer and changes no other layer. |
| `Host.Xpedition.Transcript` | xGDSImport.py:133-143 | Appends exactly one line to the message window and changes nothing else. |
| `Import.Polygon` | xGDSImport.py:555 | The point count passed with the polygon is n + 1, the length of each of X, Y and R. The points array is closed. |
| `Import.SetupStep` | xGDSImport.py:492-509 | After setup the layer exists exactly when it existed before or creation was not refused. An existing layer triggers no creation request and no change to the layers. A missing layer triggers exactly one request, and a newly created layer is empty. No other layer changes. Exactly one line is logged: the "setup for GDS import" note when the layer now exists, the "Unabled to setup" error otherwise. |
| `Import.DrawStep` | xGDSImport.py:516-556 | If the layer is missing and creation is refused, the layers are unchanged and the "Unabled to setup" and "Boundary element skipped" errors are logged, in that order. Otherwise that layer ends with its old graphics plus this polygon. A request is made only when the layer was missing. The setup note is logged only when the layer was missing and is created; an existing layer logs nothing. |
| `Import.ElementStep` | xGDSImport.py:443-462 | One iteration of the element loop: a Boundary goes to `DrawStep`, a Path, Text, Node or Box logs its warning, a reference changes nothing. Its properties are stated by `ElementStepLayer`, `ElementStepRequests`, `StepWarnings`, `StepErrors` and `ReferenceChangesNothing`. |
| `Import.ImportSpec` | xGDSImport.py:434-464 | The element loop over all elements in stream order, one `ElementStep` each. Its properties are stated by `ImportedLayerContents`, `ImportWarnings`, `ImportErrors` and `ImportLayerRequests`, and `ImportLibrary` is proved to follow it. |
| `Import.SetupUserLayer` | xGDSImport.py:492-509 | Returns true exactly when the layer now exists. The application's new state is `SetupStep` of the old one. |
| `Import.DrawBoundary` | xGDSImport.py:516-556 | The application's new state is `DrawStep` of the old one for this element. |
| `Import.ImportLibrary` | xGDSImport.py:434-464 | The counter equals the number of elements over all structures. The final state is `ImportSpec` over all elements in stream order, followed by the "Processed N records" note. |
| `Import.FlattenLength` | xGDSImport.py:434-435 | Walking the structures in order visits as many elements as the structures hold in total. |
| `Import.ElementStepLayer` | xGDSImport.py:443-462 | One loop iteration changes a layer only if it draws a Boundary there. If so it appends exactly that polygon, unless the layer is missing and refused. |
| `Import.ImportedLayerContents` | xGDSImport.py:546-555 | After the import, every creatable or pre-existing layer holds its old graphics followed by the polygons of the Boundaries aimed at it, in stream order. It exists exactly when it existed before or received one. A missing refused layer stays absent. Untargeted layers are unchanged. |
| `Import.StepWarnings` | xGDSImport.py:443-462 | The lines of one iteration hold a "not implemented" warning for a Path, Text, Node or Box element, and no warning for a Boundary or a reference. |
| `Import.ImportWarnings` | xGDSImport.py:443-462 | The warnings of a whole import are exactly one "not implemented" warning per Path, Text, Node or Box element, in stream order. |
| `Import.StepErrors` | xGDSImport.py:546-553 | The lines of one iteration hold errors exactly for a Boundary whose layer is missing and refused: the setup error, then the skip error. |
| `Import.SkipLinesStable` | xGDSImport.py:546-553 | Whether a Boundary is skipped is the same at any point of a run as before it: a missing refused layer never appears, an existing layer never disappears. |
| `Import.ImportErrors` | xGDSImport.py:443-462 | The errors of a whole import are exactly the setup error and the skip error for each Boundary aimed at a layer that was missing and is refused, in stream order, repeated for every such Boundary. |
| `Import.ReferenceChangesNothing` | xGDSImport.py:443-464 | A structure or array reference matches no branch of the loop body: it is counted and changes no layer, request or message. |
| `Import.ImportLayerRequests` | xGDSImport.py:546-550 | Over an import, a layer that already existed is never requested. A creatable missing layer is requested exactly once if any Boundary targets it. A refused missing layer is requested once per Boundary aimed at it. |
| `Import.SetupTwiceCreatesNothing` | xGDSImport.py:493-498 | After a successful setup, a second setup of the same name makes no request and changes no layer. |
| `Import.SquareOnLayer5Datatype2` | xGDSImport.py:516-555 | A 1000 nm open square on layer 5, datatype 2, drawn into a document without user layers, creates layer "GDS_5.2" holding one filled five-point polygon. Its X list is 0, 1, 1, 0, 0, its Y list is 0, 0, 1, 1, 0 microns, and its R list is all 0. |

## Left out

- GDSII decoding (`Library.load`, `Record.iterate`) belongs to the python-gdsii library, which is not part of this model. The library tree is taken as input.
- Licensing (`GetLicensedDoc`), launching the application, lock-server and transaction calls are foreign COM calls. The open document is abstracted as the `Xpedition` class.
- The Tkinter GUI, command-line parsing, `usage` and `Version` are user interface.
- The console copy of transcript lines, and how a line is rendered with its severity title, are output formatting. The model keeps each line as a severity and a text.
- The model describes a run without `--progress`. With it, line 441 reads `elem.data_type`, which Text, Node and Box elements lack (and line 440 reads `elem.layer`, which references lack), so the run stops at the first such element.
- The model describes a run without `--transaction` and `--lockserver`. With them, the "Ending Transaction ..." and "Unlocking Server ..." notes (xGDSImport.py:466-476) come between the loop's lines and the "Processed N records" note, which `Import.ImportLibrary`'s messages clause does not include.
- The input-file existence check, the raw debug dump loop, and the start, end and elapsed time lines are file I/O and clock reads. The "Processed N records" note is kept.
- The debug print at the start of `drawBoundry` reads the module-level `debug`, which `main` never sets (it assigns a local), so it never prints.
- The `0.001` scale is exact real arithmetic here, not floating point.
- Four-byte and eight-byte real payloads in `showData` are left out, because they depend on Python's float formatting.
- `Gds.ShowData`: an ASCII payload is taken as text; the failure of decoding bytes that are not ASCII (xGDSImport.py:125) is not modelled.
- `Import.DrawBoundary`: a Boundary with no vertices makes the script fail with an index error. The model requires at least one vertex instead of modelling that failure, and so does `Import.ImportLibrary` for every Boundary.
- Whether the application agrees to create a layer is fixed per name by `refused`. The model does not cover a creation that fails at some times and succeeds at others.
