# scop: OBJ/MTL loading, the scene list and key input, in Dafny

This project models three parts of the scop viewer and proves properties
of each.

**`OBJParser`** (`src/OBJParser.cpp`, `include/OBJParser.h`) reads a
Wavefront OBJ file line by line:
- `v`, `vn` and `vt` lines append to the position, normal and uv pools, and
  each `v` widens the bounding box;
- `mtllib` lines load a material library, and `usemtl` lines select the
  active material;
- each `f` line's corner tokens are parsed, 1-based or negative indices are
  fixed up, and `(v, vt, vn)` keys are deduplicated into an output vertex
  array;
- each polygon is fanned into triangles.

The MTL reader:
- builds one record per `newmtl`;
- refines it with `Ka`, `Kd`, `Ks`, `Ns`, `d`, `Tr`, `illum` and `map_Kd`;
- stores it under its name when the next record starts or the file ends.

A `map_Kd` texture is decoded from an ASCII P3 image: tokens with `#`
comments, a header, then rescaled pixel triples. The active material is
resolved from the active name, falling back to the first name used.

**`Scene`** (`src/Scene.cpp`, `include/Scene.h`) hands out 32-bit object ids
from a counter, and keeps the objects in creation order.

**`Input`** (`src/Input.cpp`, `include/Input.h`) keeps:
- a table of pressed keys;
- a pending path to load;
- the OBJ paths given on the command line.

It reacts to Escape, R, Tab and every other key.

Modules, one file each:

| module | file | contents |
|---|---|---|
| `Maybe` | `maybe.dfy` | `Option` |
| `ObjTypes` | `obj_types.dfy` | vectors, pixels, vertices, materials, face keys, faults |
| `Formats` | `formats.dfy` | OBJ and MTL lines as tagged directives, PPM text, the file system |
| `Text` | `text.dfy` | `ltrim`, `find`, `directoryOf`, path joining, `std::stoi` |
| `Ppm` | `ppm.dfy` | the token reader and the P3 decoder, as functions and as methods |
| `Faces` | `faces.dfy` | face tokens, index fix-up, vertex deduplication, the triangle fan |
| `Mtl` | `mtl.dfy` | the MTL record loop and its per-record view |
| `ObjLoad` | `obj_load.dfy` | the OBJ line loop as a fold, the parser state and its invariant |
| `Parser` | `obj_parser.dfy` | the parser class, whose loaders update its fields in place |
| `Scenes` | `scene.dfy` | the scene class |
| `Keyboard` | `input.dfy` | the input class |

Modelling choices:
- **Files.** A file is a list of lines whose directive has already been
  recognised: `Formats.ObjLine` and `Formats.MtlLine`. A PPM file is its
  lines of whitespace-separated tokens. The file system is a map per kind
  of file, and a path missing from its map is a file that cannot be opened.
- **Numbers.** Floats are reals. `std::stoi` is modelled exactly by
  `Text.StoI`:
  - C whitespace is skipped, then an optional sign and the longest run of
    digits are read;
  - a result outside the 32-bit int range, or an input with no digits, is
    `None`, which stands for the exception.
- **Exceptions.** `std::stoi` throws inside `parseFaceToken` and inside
  `loadPPM`. The first leaves `loadFromFile` directly. The second leaves
  it through the MTL reader. Either way the model stops the line loop
  there and keeps what was already stored, with the outcome
  `Aborted(MalformedNumber)`.
- **Out-of-range faces.** The source reads `m_positions[idx.v]`,
  `m_normals[idx.vn]` or `m_uvs[idx.vt]` without checking the index.
  Such a file is meant to fail the whole load deterministically, so the
  model stops the load with `Aborted(IndexOutOfRange)`. It checks only
  the reads that happen: the position always, and the normal or uv only
  when its fixed index is not negative.
- **Outcomes.** `LoadObj` returns `Loaded`, `OpenFailed` or
  `Aborted(fault)`, together with the parser's state. The source's `bool`
  is `true` for `Loaded` and `false` for `OpenFailed`; an abort is the
  exception reaching the caller.
- **A failed texture.** The `else` branch at `src/OBJParser.cpp:214-217`
  logs the error and keeps the material, so a texture that cannot be
  loaded is meant to be non-fatal. Yet a non-numeric header or pixel
  token makes `std::stoi` throw inside `loadPPM`
  (`src/OBJParser.cpp:84-105`); the throw skips that branch, and nothing
  on the way to the caller catches it. The model follows the code:
  `Mtl.DiffuseMapEffect` states that the record fails exactly when the
  decoder throws. Only a missing file, a wrong tag, a non-positive header
  value or a short stream leave the material without a texture.

## Model

| member | source | states |
|---|---|---|
| ObjTypes.SameIndex | src/OBJParser.cpp:30-32 | two face keys are equal exactly when their v, vt and vn all agree |
| Text.DropLeadingSuffix | src/OBJParser.cpp:23-27 | dropping a leading set of characters leaves a suffix; every dropped character is in the set; the rest is empty or starts outside it |
| Text.Ltrim | src/OBJParser.cpp:23-27 | `ltrim` returns a suffix of its input; everything removed is space, tab, CR or LF; the result is empty or starts with another character |
| Text.FindFrom | src/OBJParser.cpp:266-267 | `find(c, from)` returns the first position at or after `from` holding c, or none when no such position exists |
| Text.FindLastSeparator | src/OBJParser.cpp:58 | `find_last_of("/\\")` returns the last '/' or '\\', with no separator after it, or none when there is none |
| Text.DirectoryOf | src/OBJParser.cpp:56-64 | a path with no separator gives "."; a last separator at position 0 gives "/"; otherwise the path before the last separator |
| Text.TexturePath | src/OBJParser.cpp:200-202 | a non-empty relative texture name is joined to the library's directory with '/'; an empty or absolute name is used as given |
| Text.StoI | src/OBJParser.cpp:84-88 | `std::stoi` yields a value only within the 32-bit int range |
| Text.StoIDecimal | src/OBJParser.cpp:271 | `std::stoi` reads back every int from its decimal text |
| Ppm.Visible | src/OBJParser.cpp:12-16 | the tokens of a line the reader sees are those before its first '#' token |
| Ppm.NextToken | src/OBJParser.cpp:8-21 | the token returned is never a comment, and it is the token just before the new cursor |
| Ppm.NextTokenFollowsStream | src/OBJParser.cpp:8-21 | the reader finds no token exactly when no visible token remains; otherwise it returns the first visible token, and the rest of the stream follows the new cursor |
| Ppm.ReadPpmToken | src/OBJParser.cpp:8-21 | the token loop returns what `NextToken` describes; it returns none exactly when the visible stream is empty; otherwise the stream is the token followed by the stream after it |
| Ppm.RescaleRange | src/OBJParser.cpp:108-113 | a channel between 0 and the maximum is rescaled into 0..255, and the maximum itself maps to 255 |
| Ppm.RescaleExample | src/OBJParser.cpp:108-113 | with maximum 100, the value 50 becomes 127 (truncating division), 100 becomes 255 and 0 stays 0 |
| Ppm.ReadHeader | src/OBJParser.cpp:74-93 | the header is accepted only as "P3" followed by three numbers, all positive |
| Ppm.DecodeTokens | src/OBJParser.cpp:66-120 | a decoded image has the width and height its header gives |
| Ppm.ReadOneOk | src/OBJParser.cpp:99-116 | a pixel is read exactly when three numeric tokens remain, and it is those three rescaled |
| Ppm.ReadPixelsOk | src/OBJParser.cpp:97-117 | n pixels are read exactly when the first 3n tokens are numbers; then there are exactly n, and the i-th comes from tokens 3i..3i+2 |
| Ppm.ReadPixelsOkIff | src/OBJParser.cpp:97-117 | the pixel loop succeeds exactly when the first 3n tokens are numbers |
| Ppm.ReadPixelsContents | src/OBJParser.cpp:114-116 | after a successful loop, pixel i is the rescaled triple at tokens 3i..3i+2 |
| Ppm.ReadPixelsStopped | src/OBJParser.cpp:100-105 | once a pixel cannot be read, reading more pixels does not change the outcome |
| Ppm.DecodedMeans | src/OBJParser.cpp:95-117 | a decoded image holds width times height pixels, each the rescaled triple at its position in the stream |
| Ppm.DecodedExactly | src/OBJParser.cpp:74-117 | decoding succeeds exactly when the header is valid and 3 times width times height numeric tokens follow it |
| Ppm.LoadPpm | src/OBJParser.cpp:66-120 | `loadPPM` returns the decoding of the file: missing file, bad tag or short stream fail, a bad number throws, otherwise the image |
| Ppm.LoadPpmHeader | src/OBJParser.cpp:73-93 | the header read agrees with `ReadHeader`, and on success the cursor stands after the four header tokens |
| Ppm.LoadPpmChannel | src/OBJParser.cpp:100-105 | one channel read: a missing token, a token that throws, or a number, and on success the cursor moves past it |
| Ppm.LoadPpmPixel | src/OBJParser.cpp:99-116 | one pixel read agrees with `ReadOne`, and on success the cursor moves past its three tokens |
| Ppm.LoadPpmPixels | src/OBJParser.cpp:95-117 | the pixel loop fills an array of width times height pixels and returns what `ReadPixels` describes |
| Faces.ParseBare | src/OBJParser.cpp:270-273 | a token without '/' gives the position alone |
| Faces.ParsePositionTexture | src/OBJParser.cpp:284-285 | "a/b" gives a position and a texture index |
| Faces.ParseFull | src/OBJParser.cpp:286-292 | "a/b/c" gives all three indices |
| Faces.ParsePositionNormal | src/OBJParser.cpp:288-291 | "a//c" gives a position and a normal and no texture index |
| Faces.ParseEmptyFieldThrows | src/OBJParser.cpp:276-285 | "a/" and "/a" make stoi throw on an empty field |
| Faces.ParseFormatRoundTrip | src/OBJParser.cpp:262-295 | every corner whose indices fit in an int, written as text, parses back to itself |
| Faces.FixIndex | src/OBJParser.cpp:253-259 | 0 becomes -1; a positive n becomes n-1; a negative n becomes size+n; the result is in range exactly when 1 <= n <= size or -size <= n <= -1 |
| Faces.FixIndexReaches | src/OBJParser.cpp:253-259 | every slot of an array is reachable both from a positive index and from a negative one |
| Faces.FixIndexExample | src/OBJParser.cpp:253-259 | with 10 elements, 1 gives 0, -1 gives 9 and 0 gives -1 |
| Faces.Resolve | src/OBJParser.cpp:399-401 | the position is always fixed up; an absent texture or normal stays -1; a present one is fixed up against its pool |
| Faces.ResolveAgreesWhenComplete | src/OBJParser.cpp:399-401 | when a token names both a texture and a normal, the corrected and the as-written fix-up agree |
| Faces.AbsentBecomesLast | src/OBJParser.cpp:399-401 | see Findings: as written, an absent texture or normal picks the last element of a non-empty pool |
| Faces.GatherStable | src/OBJParser.cpp:409-412 | the vertex a key gathers does not change when more attribute lines are appended |
| Faces.StableValid | src/OBJParser.cpp:403-417 | the key-to-vertex agreement survives new attribute lines |
| Faces.AddCornerValid | src/OBJParser.cpp:403-417 | a seen key returns its vertex and changes nothing; a new key is appended at the old vertex count; a corner fails exactly when its key is new and reads out of range; the agreement is kept |
| Faces.FaceCorners | src/OBJParser.cpp:396-420 | a face read without failure has one corner per token |
| Faces.FaceFaultStays | src/OBJParser.cpp:396-420 | after a failing corner no further token is read |
| Faces.FaceCornersValid | src/OBJParser.cpp:396-420 | reading a face keeps the agreement and every earlier entry; each corner is the vertex its token's key maps to |
| Faces.SameVertexIffSameKey | src/OBJParser.cpp:403-417 | two corners share an output vertex exactly when their resolved keys are equal |
| Faces.CornerVertex | src/OBJParser.cpp:409-416 | the vertex each corner points at holds that key's position, normal and uv |
| Faces.Fan | src/OBJParser.cpp:423-427 | a polygon of k corners gives 3(k-2) indices, and fewer than three corners give none |
| Faces.FanTriangle | src/OBJParser.cpp:423-427 | triangle i of the fan is (c0, ci, ci+1) |
| Faces.FanFromCorners | src/OBJParser.cpp:423-427 | every fan index is one of the polygon's corners |
| Faces.FanExample | src/OBJParser.cpp:423-427 | a pentagon gives three triangles sharing its first corner |
| Mtl.NewRecordDefaults | include/OBJParser.h:27-40 | a new record has its name, zero Ka and Ks, Kd 0.8, Ns 0, d 1, illum 0, and no texture |
| Mtl.DiffuseMapEffect | src/OBJParser.cpp:190-218 | `map_Kd` records the trimmed name and changes no colour; a decoded image sets the texture's width, height and pixels to the decoded ones; a failed decode leaves it; the record fails exactly when the decoder throws |
| Mtl.ThrownStays | src/OBJParser.cpp:138-219 | once a texture throws, no further line is read |
| Mtl.LastNewMtl | src/OBJParser.cpp:148-155 | finds the last `newmtl` line, with none after it, or none when there is no such line |
| Mtl.RefineAllKeepsName | src/OBJParser.cpp:160-218 | the directives after `newmtl` never change a record's name |
| Mtl.RunMtlRecords | src/OBJParser.cpp:138-222 | the line-by-line loop agrees with splitting the file into records and committing each in turn |
| Mtl.LoadMtlInstalls | src/OBJParser.cpp:123-225 | loading a library stores, in order, each record that has a name, with its directives applied, over the existing map |
| Mtl.InstallLookup | src/OBJParser.cpp:150-151 | after storing records, a name maps to its last record; a name no record has keeps its old entry; the empty name is never added |
| Mtl.RunMtlKeyed | src/OBJParser.cpp:150-151 | the loop stores every material under its own non-empty name |
| Mtl.LoadMtlKeyed | src/OBJParser.cpp:221-222 | a load keeps every material stored under its own non-empty name |
| Mtl.LeadingLinesIgnored | src/OBJParser.cpp:156-159 | directives before the first `newmtl` change nothing |
| Mtl.OpacityLastWins | src/OBJParser.cpp:176-185 | a record's opacity is set by its last `d` or `Tr` line, with `Tr t` counted as 1 - t |
| Mtl.OpacityExample | src/OBJParser.cpp:176-185 | `d 0.5` then `Tr 0.25` leaves opacity 0.75 |
| Mtl.MtlExample | src/OBJParser.cpp:148-159 | a re-declared record replaces the earlier one, and lines before the first `newmtl` are ignored |
| ObjLoad.Lower | src/OBJParser.cpp:361-363 | per axis, the new minimum is at most the old one and the point, and equals one of them |
| ObjLoad.Upper | src/OBJParser.cpp:364-366 | per axis, the new maximum is at least the old one and the point, and equals one of them |
| ObjLoad.AddPositionBounds | src/OBJParser.cpp:350-368 | each `v` line keeps the bounds tight: every position lies between them and each bound is reached by some position |
| ObjLoad.BoundsContain | src/OBJParser.cpp:350-368 | every position lies inside the bounding box |
| ObjLoad.BoundsExample | src/OBJParser.cpp:350-368 | three positions give the per-axis minimum and maximum |
| ObjLoad.UseMaterialEffect | src/OBJParser.cpp:387-391 | `usemtl n` makes n active and records it as first used only when none was recorded before; without a name nothing changes |
| ObjLoad.ResolveActive | src/OBJParser.cpp:241-250 | a material is found exactly when the chosen name is non-empty and stored, and it is the stored one |
| ObjLoad.ActiveDiffuse | src/OBJParser.cpp:228-239 | returns true with the resolved material's Kd exactly when one resolves; otherwise false with the caller's colour |
| ObjLoad.ResolveActiveNamed | src/OBJParser.cpp:241-250 | the resolved material carries the chosen name; an active name resolves exactly when stored; no name resolves nothing |
| ObjLoad.StoppedStays | src/OBJParser.cpp:331-429 | once the load has stopped, no further line is read |
| ObjLoad.ClearedValid | src/OBJParser.cpp:42-54 | the cleared state satisfies the output invariant |
| ObjLoad.StepFaceValid | src/OBJParser.cpp:392-428 | an `f` line keeps the invariant, whether it completes or fails, and only appends vertices |
| ObjLoad.StepMtlLibValid | src/OBJParser.cpp:380-386 | an `mtllib` line keeps the invariant |
| ObjLoad.StepLineValid | src/OBJParser.cpp:331-429 | every line keeps the invariant |
| ObjLoad.RunObjValid | src/OBJParser.cpp:331-429 | the line loop keeps the invariant |
| ObjLoad.LoadObjOutputOk | src/OBJParser.cpp:318-439 | after any load, the [output invariant](#the-output-invariant) holds |
| ObjLoad.LoadObjDedup | src/OBJParser.cpp:403-417 | after a load, the vertex map and the vertex array agree one to one |
| ObjLoad.StepLinePools | src/OBJParser.cpp:350-379 | only `v`, `vn` and `vt` lines add to the pools, one element each |
| ObjLoad.RunObjPools | src/OBJParser.cpp:331-379 | the pools are the `v`, `vn` and `vt` values of the lines read, in file order |
| ObjLoad.LoadedPools | src/OBJParser.cpp:350-379 | after a complete load, the pools are exactly the file's `v`, `vn` and `vt` values in order |
| Parser.ObjParser.constructor | include/OBJParser.h:62-79 | a new parser is the cleared state and satisfies the invariant |
| Parser.ObjParser.ResolvedActiveMaterial | src/OBJParser.cpp:241-250 | the record under the active name, or the first name used when none is active; none exactly when that name is empty or not stored |
| Parser.ObjParser.TryGetActiveDiffuse | src/OBJParser.cpp:228-239 | true with the resolved record's Kd exactly when a record resolves; otherwise false with the caller's colour untouched |
| Parser.ObjParser.Clear | src/OBJParser.cpp:42-54 | every container and name is emptied, both bounds are zeroed and hasUVs is false |
| Parser.ObjParser.LoadFromFile | src/OBJParser.cpp:318-439 | the fields and outcome after the loop are those of `LoadObj`, and the invariant holds |
| Parser.ObjParser.ReadLine | src/OBJParser.cpp:332-428 | one line changes the fields as `StepLine` describes |
| Parser.ObjParser.AddPosition | src/OBJParser.cpp:350-368 | the in-place bounds update agrees with `AddPosition` |
| Parser.ObjParser.AddFace | src/OBJParser.cpp:392-428 | an `f` line updates the vertices, indices and key map as `StepFace` describes |
| Parser.DedupCorners | src/OBJParser.cpp:396-420 | the corner loop returns what `FaceCorners` describes |
| Parser.ObjParser.AppendFan | src/OBJParser.cpp:423-427 | the fan loop appends `Fan(corners)` to the indices and changes nothing else |
| Parser.ObjParser.LoadMtlFromFile | src/OBJParser.cpp:123-225 | the material map and outcome are those of `LoadMtl`, and no other field changes |
| Parser.ApplyDirective | src/OBJParser.cpp:160-218 | one directive of an open record agrees with `Refine` |
| Scenes.FindFirst | src/Scene.cpp:34-52 | returns the first position holding the id, or none exactly when no object has it |
| Scenes.RemoveFirstExactly | src/Scene.cpp:16-27 | removal takes out exactly the first object with the id and keeps the others in order; without one the list is unchanged |
| Scenes.RemoveFirstOrdered | src/Scene.cpp:16-27 | removing an object keeps the ids increasing and below the counter |
| Scenes.OrderedUnique | src/Scene.cpp:34-52 | in a valid scene an id names at most one object |
| Scenes.Scene.constructor | src/Scene.cpp:3-7 | a new scene is empty, its counter is 1, and it is valid |
| Scenes.Scene.CreateObject | src/Scene.cpp:9-14 | returns the counter, advances it modulo 2^32 and appends the object; validity is kept while the counter has not wrapped |
| Scenes.Scene.DestroyObject | src/Scene.cpp:16-27 | reports whether an object had the id, removes the first such object, leaves the counter, and keeps validity |
| Scenes.Scene.Clear | src/Scene.cpp:29-32 | empties the list and keeps the counter, so no id is reused |
| Scenes.Scene.GetObject | src/Scene.cpp:34-52 | finds the first object with the id, or none exactly when there is none |
| Scenes.Scene.Size | src/Scene.cpp:54-57 | the number of objects |
| Keyboard.KeptMembers | src/Input.cpp:19-23 | a string is kept exactly when it is non-empty and given as an argument |
| Keyboard.KeptShorter | src/Input.cpp:19-23 | no more paths are kept than arguments are given |
| Keyboard.KeyDownIn | src/Input.cpp:32-37 | a key outside 0..KEY_LAST is never down; otherwise its table entry is returned |
| Keyboard.SetThenConsume | src/Input.cpp:44-50 | consuming returns the last path set and clears the pending flag and path; a second consume returns "" |
| Keyboard.OnKeyOk | src/Input.cpp:52-88 | a key event keeps the table in range and the argv paths unchanged |
| Keyboard.OnKeyTable | src/Input.cpp:81-87 | other keys are unaffected; Escape, R and Tab presses leave the table; a repeat, or a press of another key, marks it down; a release marks it up; any other action changes nothing |
| Keyboard.ReloadPending | src/Input.cpp:60-64 | R sets an empty pending path and touches nothing else |
| Keyboard.TabCycles | src/Input.cpp:66-79 | Tab takes the next argv path while any remain; otherwise it asks for a file and sets a non-empty answer |
| Keyboard.TabSequence | src/Input.cpp:66-79 | n Tab presses step through the argv paths in order |
| Keyboard.Input.constructor | src/Input.cpp:6-13 | all keys are up, with no pending path, no argv paths and index 0 |
| Keyboard.Input.SetObjPathsFromArgv | src/Input.cpp:15-25 | keeps the non-null, non-empty arguments after argv[0]; the index is 1 when any are kept and 0 otherwise |
| Keyboard.Input.ConsumePendingObjPath | src/Input.cpp:44-50 | returns the pending path and clears it, as `Consume` describes |
| Keyboard.Input.SetPendingObjPath | src/Input.cpp:106-110 | sets the pending path and flag |
| Keyboard.Input.OnKey | src/Input.cpp:52-88 | the new state and the window effects are those of `OnKeySpec`, and the table stays in range |

### The output invariant

`ObjLoad.LoadObjOutputOk` states the following after any load, whether it
completed, could not open the file, or stopped on a fault:
- the bounds are tight;
- the indices come in whole triangles, each below the vertex count;
- hasUVs holds exactly when there are uvs;
- the active name is empty exactly when the first-used name is;
- every material is stored under its own name.

## Findings

| source | as written | input that shows it | evidently intended | confidence | as-written member | corrected member |
|---|---|---|---|---|---|---|
| src/OBJParser.cpp:399-401 | The -1 that `parseFaceToken` leaves for an absent texture or normal index goes through `fixIndex`, which turns a negative index into `size + idx`. | `v 0 0 0`, `vt 0 0`, `vn 0 0 1`, then `f 1 1 1`: each corner's texture and normal index become 0, the last uv and the last normal, instead of "none". | An absent component stays -1, so that the vertex gets a zero normal and uv. | not executed | Faces.AbsentBecomesLast | Faces.Resolve |

`Faces.ResolveAsWritten` applies `fixIndex` to every component.
`Faces.AbsentBecomesLast` proves that an absent component picks the last
element of a non-empty pool. The rest of the model uses `Faces.Resolve`,
which fixes up only the components present. `Faces.ResolveAgreesWhenComplete`
proves the two agree whenever a token names all three indices.

## Left out

- The lexing of lines (`std::getline`, `iss >> type`, float extraction) is not modelled. The model starts from recognised directives carrying their values, so a failed float extraction is not modelled either.
- Floating-point rounding is not modelled: coordinates, colours, opacity and the bounds are reals.
- Ppm.Rescale: computes `value * 255 / max` on unbounded integers, so the model does not capture int overflow for very large channel values. The same holds for `width * height`.
- Vertex indices are unbounded naturals, so the `uint32_t` cast of the vertex count is not modelled.
- `getOrCreateVertex` (`src/OBJParser.cpp:298-315`) is never called by the loader, so it is not modelled. The loader's own map is.
- `ObjIndexHash` is not modelled: the hash does not affect which vertex a key maps to.
- Console output (`std::cout`, `std::cerr`) is not modelled.
- Opening files is modelled by the file-system maps: a path that is not in its map is a file that cannot be opened.
- The inline getters of `include/OBJParser.h` are not separate members: they return the fields.
- Parser.ObjParser.ResolvedActiveMaterial: returns a copy of the material rather than the address of the stored one.
- Parser.ObjParser.AddFace: the corner loop runs over a copy of the vertex array, which is stored back on every exit. The stored state is the same as with the source's in-place `push_back`.
- The OBJ stop on an out-of-range face index stands for undefined behaviour in the source (an unchecked vector read). The model does not say what the program does after such a read.
- Scenes.Scene.CreateObject: validity (increasing, fresh ids) is promised only while the counter is below 2^32 - 1. After the wrap the source can hand out an id that is still in use.
- Scenes.Scene.Clear: promises validity only when the scene was valid before.
- Scenes.Scene.GetObject: returns the object's position in the list instead of its address. The const and non-const overloads are one method.
- `math::Mat4` is an uninterpreted sequence of reals. The scene never looks inside it, and the default identity argument is left to the caller.
- The window is not modelled: `glfwSetWindowShouldClose` and the two `glfwSetInputMode` calls are returned as a list of effects.
- The zenity dialog is not modelled: its answer is the `picked` parameter, so the pipe and the trimming of the trailing newline are not modelled either.
- Keyboard.Input.SetObjPathsFromArgv: `argv` is a sequence of optional strings, where none is a null argument, and `argc` is its length.
- The `argvObjPaths` and `hasPendingObjPath` accessors are not separate members: they return the fields.
