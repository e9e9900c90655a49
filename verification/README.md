# my_scop in Dafny: the mesh parser and the Vulkan configuration policies

This project models the sequential, deterministic logic of `scop`, a Vulkan
viewer for OBJ-style meshes, and proves properties of it. It covers two
parts.

**Mesh ingestion** (`src/parser/`):
- the line tokeniser `parser::split`;
- `std::stoul` and `std::stof` as the face and coordinate fields use them;
- the `v`, `vt`, `vn` and `f` line objects, including face corners of the
  form `vertex[/texture][/normal]` and the rule that all corners of a face
  must agree;
- the first-token dispatch of `parser::parse`;
- `File::triangulate`, which rewrites every quad into two triangles.

**Vulkan configuration policies**: the decisions the renderer makes about
what the driver reports.
- Swap chain: the adequacy check, and the choice of surface format, present
  mode, extent, image count and sharing mode.
- Queue families: the family search and the set of unique families.
- Devices: the suitability score, the choice of physical device and the
  rotation of frame slots.
- Memory: the search for a memory type.
- Image layout transitions: the whitelist of allowed transitions.
- Swapchain resources: how they are tracked across cleanup and recreation.
- Instance and device: the extension lists, and the layer and extension
  support checks.
- Vertex input: the binding and attribute layout, and the built-in quad.
- Pipeline: the set of shader stages, the stage bits of each shader module,
  and the combined compile result and error counts.
- Textures: size and validity.
- Validation layer: how debug messages are named and which stream each one
  goes to.

Everything is pure. The model never performs a driver call, a window-system
call, a file read or an image decode. What those would report enters as
parameters: sequences of formats, present modes, queue-family records,
memory-type flag words, extension names and the lines of the file. Integer
widths are explicit where they matter:
- the device score is a `uint32_t` and wraps;
- the image count is a `uint32_t` and wraps;
- `stoul` values narrow to `uint32_t`;
- the texture size is 64-bit.

Modules, one file each:

| file | module | source it follows |
|---|---|---|
| wrappers.dfy | Wrappers | `Option` / `Result` used throughout |
| split.dfy | Split | `src/parser/utils.cpp` |
| numbers.dfy | Numbers | the `std::stoul` / `std::stof` calls of `src/parser/line_parser.cpp` |
| line_objects.dfy | LineObjects | `src/parser/line_parser.cpp`, `include/parser/line_objects.h` |
| obj_parser.dfy | ObjParser | `src/parser/parser.cpp` |
| swap_chain.dfy | SwapChain | `src/graphics/swap_chain.cpp` |
| queue_families.dfy | QueueFamilies | `src/graphics/queue_families.cpp` |
| graphics_utils.dfy | GraphicsUtils | `src/graphics/utils.cpp` |
| device_selection.dfy | DeviceSelection | `src/application.cpp` |
| vulkan_policies.dfy | VulkanPolicies | `src/graphics/vulkan.cpp` |
| pipeline.dfy | Pipeline | `src/graphics/pipeline.cpp` |
| textures.dfy | Textures | `src/graphics/textures.cpp` |
| debug.dfy | Debug | `src/graphics/debug.cpp` |

Decisions a reader should know:
- **Splitting.** `parse` splits every line on a single space, with no
  trimming. So a blank line is one empty token, and it is ignored because
  its first token selects nothing. A trailing space adds an empty argument,
  so `v 1 2 3 ` fails the arity check.
- **Indices are stored raw.** OBJ references are 1-based, and the parser
  stores them unchanged: it never subtracts 1.
- **How quads are cut.** The code cuts quad `[v0, v1, v2, v3]` into
  `triangle(v0, v1, v3)` and `triangle(v3, v1, v2)`. The `triangle` helper
  emits `(b, c, a)`, so the faces are `[v1, v3, v0]` and `[v1, v2, v3]`.
  The two faces share the diagonal from corner 1 to corner 3.
  `ObjParser.QuadSplit` and `ObjParser.QuadCover` state the corners the
  code produces.
- **Only the vertex table is reset.** `parse` clears only the vertex table
  of the global file. The texture, normal and face tables of an earlier
  parse survive, and so do their triangles. `ObjParser.ParseKeepsEarlierTables`
  states this.
- **The map is walked in an unknown order.** `Pipeline` keeps the shader
  stages in an `unordered_map`. The model gives the stages as a map plus a
  listing of its keys in an arbitrary order. The combined compile result and
  the error counts are proved independent of that order.
- **Devices are chosen first-fit.** `select_physical_device` keeps the
  first device with a non-zero score, not the best one, because the loop
  breaks after the first insertion.

## Model

| member | source | states |
|---|---|---|
| Split.Find | src/parser/utils.cpp:11 | `std::string::find`: the result is an occurrence of the delimiter at or after the start, no earlier position from the start holds one, and `None` means there is none at all |
| Split.Split | src/parser/utils.cpp:4-18 | the token list is never empty, joining it with the delimiter gives back the line exactly, and no token contains the delimiter |
| Split.SplitInto | src/parser/utils.cpp:4-18 | the loop as written (clear, find, cut, resume after the delimiter, push the rest) produces `Split(line, d)` whatever `args` held before |
| Split.SplitProperties | src/parser/utils.cpp:11-17 | the tokens cut from any start position form a leftmost split of the rest of the line, and none contains the delimiter |
| Split.LeftmostSplitUnique | src/parser/utils.cpp:11-17 | any token list that joins back to the line and cuts each token at the first delimiter occurrence is exactly what the loop produces |
| Split.SplitCharacterized | src/parser/utils.cpp:11-17 | a token list is the split of the line if and only if it is a leftmost split of it (both directions) |
| Split.SplitCount | src/parser/utils.cpp:11-17 | the number of tokens is one more than the number of non-overlapping delimiter occurrences, counted left to right |
| Split.SplitWithoutDelimiter | src/parser/utils.cpp:11-17 | a line that does not contain the delimiter splits into exactly `[line]` |
| Split.SplitJoin | src/parser/utils.cpp:11-17 | with a one-character delimiter, splitting the join of delimiter-free tokens gives the tokens back |
| Split.AdjacentDelimiters | src/parser/utils.cpp:12-14 | `"a  b"` split on a space is `["a", "", "b"]` |
| Split.BlankLine | src/parser/utils.cpp:17 | the empty line splits into one empty token |
| Split.EmptyDelimiterNeverAdvances | src/parser/utils.cpp:7-13 | with an empty delimiter `find` matches where the search starts, so `pos_start` never moves and the loop would not end |
| Numbers.ParseULong | src/parser/line_parser.cpp:54 | `std::stoul`: `invalid_argument` exactly when no digit follows the white space and optional sign; an accepted value is below 2^64 |
| Numbers.ParseULongDigits | src/parser/line_parser.cpp:54 | a plain digit string whose value fits 64 bits converts to its decimal value |
| Numbers.ParseIndex | src/parser/line_parser.cpp:54-58 | `static_cast<uint32_t>(std::stoul(s))` fails exactly when `stoul` does, and otherwise is its value reduced modulo 2^32 |
| Numbers.ParseIndexShowNat | src/parser/line_parser.cpp:54-58 | printing a 32-bit number in decimal and reading it back as an index gives the number (round trip) |
| Numbers.ShowNatValue | src/parser/line_parser.cpp:54 | the decimal digits printed for `n` have value `n` |
| Numbers.NarrowSmall | src/parser/line_parser.cpp:54-58 | narrowing to 32 bits keeps a converted value that already fits |
| Numbers.NegativeIndexWraps | src/parser/line_parser.cpp:54 | `"-1"` is accepted by `stoul` as 2^64-1 and becomes index 2^32-1 |
| Numbers.TrailingTextIgnored | src/parser/line_parser.cpp:54 | `stoul("12abc")` is 12: text after the digits is ignored |
| Numbers.EmptyRejected | src/parser/line_parser.cpp:54 | the empty string raises `invalid_argument` |
| Numbers.NonNumericRejected | src/parser/line_parser.cpp:54 | a string with no digits raises `invalid_argument` |
| Numbers.ParseFloat | src/parser/line_parser.cpp:17-19 | `std::stof` succeeds exactly when the text (after white space and a sign) starts with a digit, a point and a digit, or `inf`/`nan`; otherwise it raises `invalid_argument` |
| Numbers.NoDigitsNoFloat | src/parser/line_parser.cpp:17-19 | the empty string and `"x"` are not floats |
| LineObjects.Floats | src/parser/line_parser.cpp:17-19 | converting all arguments succeeds exactly when each one converts, and keeps them in order |
| LineObjects.ParseVertex | src/parser/line_parser.cpp:12-20 | a vertex needs exactly 3 arguments (else `invalid_argument` naming the count) and succeeds exactly when all three convert, keeping them as x, y, z |
| LineObjects.ParseNormal | src/parser/line_parser.cpp:23-31 | a normal needs exactly 3 arguments and succeeds exactly when all three convert, keeping them as i, j, k |
| LineObjects.ParseVertexTexture | src/parser/line_parser.cpp:34-41 | a texture coordinate needs exactly 2 arguments and succeeds exactly when both convert, keeping them as u, v |
| LineObjects.OptionalIndex | src/parser/line_parser.cpp:55-58 | an optional field is absent when it is not there or empty, and otherwise converted, failing exactly when the conversion fails |
| LineObjects.ParseIndices | src/parser/line_parser.cpp:44-59 | an empty corner or one starting with `/` lacks its vertex reference; a corner without `/` is a vertex reference alone, accepted exactly when it converts; accepted references fit 32 bits |
| LineObjects.ReadFields | src/parser/line_parser.cpp:47-58 | no first field is a missing vertex reference, more than three fields are too many; otherwise the corner is accepted exactly when the first field and every non-empty second or third field convert, the first field that does not convert gives its `stoul` error, and an accepted corner holds the converted fields, a texture (normal) exactly when the second (third) field is there and non-empty |
| LineObjects.ParseIndicesFields | src/parser/line_parser.cpp:44-59 | a corner is accepted exactly when its `/`-separated fields pass those checks and convert, and its vertex, texture and normal references are the converted first, second and third fields |
| LineObjects.TextureFieldRejected | src/parser/line_parser.cpp:55-56 | a `v/t` corner whose texture field does not convert is rejected with that conversion's error |
| LineObjects.BadTextureRejected | src/parser/line_parser.cpp:55-56 | `1/x` is rejected: `stoul("x")` raises `invalid_argument` |
| LineObjects.TextureWithoutNormal | src/parser/line_parser.cpp:54-58 | a `v/t/` corner has its texture reference and no normal |
| LineObjects.TrailingSlashCorner | src/parser/line_parser.cpp:54-58 | `1/2/` is vertex 1 with texture 2 and no normal |
| LineObjects.FormatParseIndices | src/parser/line_parser.cpp:44-59 | printing a corner as `v`, `v/t`, `v//n` or `v/t/n` and parsing it gives the corner back (round trip) |
| LineObjects.ParseFormatIndices | src/parser/line_parser.cpp:44-59 | parsing a corner, printing it and parsing again gives the same result |
| LineObjects.ReadFormattedFields | src/parser/line_parser.cpp:54-58 | the fields of a printed corner are read back into that corner |
| LineObjects.ParseFields | src/parser/line_parser.cpp:44-59 | any argument that splits on `/` into a corner's fields parses to that corner |
| LineObjects.ReadVertexOnly | src/parser/line_parser.cpp:54 | one field gives a vertex reference and neither texture nor normal |
| LineObjects.ReadVertexTexture | src/parser/line_parser.cpp:54-56 | two non-empty fields give a vertex and a texture reference and no normal |
| LineObjects.ReadWithNormal | src/parser/line_parser.cpp:54-58 | three fields with a non-empty last one give a normal; the texture is set only when the middle field is non-empty |
| LineObjects.VertexAndNormalOnly | src/parser/line_parser.cpp:55-58 | `"1//3"` has a normal and no texture |
| LineObjects.FourFieldsRejected | src/parser/line_parser.cpp:50-52 | a corner with more than three slash-fields is rejected |
| LineObjects.MissingVertexRejected | src/parser/line_parser.cpp:48-49 | a corner whose first field is empty is rejected |
| LineObjects.ParsedCorners | src/parser/line_parser.cpp:74-75 | every argument of a face is parsed as a corner, in order |
| LineObjects.FaceLoop | src/parser/line_parser.cpp:71-88 | the corner loop succeeds exactly when every corner parses and all corners have corner 0's texture and normal presence, and it then keeps the corners in argument order |
| LineObjects.ParseFace | src/parser/line_parser.cpp:67-89 | a face needs 3 or 4 arguments; it succeeds exactly when every corner parses and agrees with the first, and has one corner per argument in order |
| LineObjects.AllAccepted | src/parser/line_parser.cpp:71-88 | a loop that accepted every corner leaves all corners parsed and consistent |
| LineObjects.InconsistentCorner | src/parser/line_parser.cpp:85-87 | one corner that disagrees with corner 0 makes the face unacceptable |
| LineObjects.SecondCornerInconsistent | src/parser/line_parser.cpp:85-87 | a second corner that disagrees with the first makes the face fail on that corner |
| LineObjects.LoopStopsAtSecond | src/parser/line_parser.cpp:85-87 | the corner loop throws at the second corner when its presence differs from the first |
| LineObjects.Validate | src/parser/line_parser.cpp:62-64 | `Indices::validate` holds exactly when the corner's texture and normal presence is the required one |
| LineObjects.ConsistentFaceAccepted | src/parser/line_parser.cpp:67-89 | a triangle or quad whose corners all parse and carry the same references is accepted with those corners in order (the converse of `ParseFace`'s acceptance) |
| LineObjects.TriangleAccepted | src/parser/line_parser.cpp:67-89 | three corners that parse and agree make a face |
| LineObjects.QuadAccepted | src/parser/line_parser.cpp:67-89 | four corners that parse and agree make a face |
| LineObjects.DigitCorner | src/parser/line_parser.cpp:44-59 | a one-digit corner is that vertex reference with no texture and no normal |
| LineObjects.MixedFaceRejected | src/parser/line_parser.cpp:71-88 | `f 1/1 2 3` is rejected as inconsistent at `2` |
| ObjParser.Triangle | src/parser/parser.cpp:62-70 | the `triangle` helper emits its corners as `(b, c, a)` |
| ObjParser.TriangulateFace | src/parser/parser.cpp:75-104 | a face is accepted exactly when it has 3 or 4 corners; a triangle gives one face and a quad two, all with 3 corners; anything else is an error naming the corner count |
| ObjParser.Triangulate | src/parser/parser.cpp:44-113 | triangulation succeeds exactly when every face is a triangle or a quad, and then yields one face per triangle plus two per quad, all with 3 corners |
| ObjParser.TrianglePassesThrough | src/parser/parser.cpp:76-79 | a triangle face passes through unchanged |
| ObjParser.QuadSplit | src/parser/parser.cpp:101-104 | the quad `[a, b, c, d]` becomes `[b, d, a]` then `[b, c, d]` |
| ObjParser.QuadWinding | src/parser/parser.cpp:101-104 | both triangles of a quad list three of its corners in the quad's own cyclic order |
| ObjParser.QuadCover | src/parser/parser.cpp:101-104 | together the two triangles use every corner of the quad, and use corners 1 and 3 twice |
| ObjParser.TriangulateAppend | src/parser/parser.cpp:75-105 | triangulating a concatenation is triangulating each part in order |
| ObjParser.AcceptedPrefix | src/parser/parser.cpp:21-34 | the number of lines read before the first one whose constructor throws: every line before it is accepted and the line at it is not |
| ObjParser.Dispatch | src/parser/parser.cpp:26-33 | a line is accepted exactly when the constructor its first token selects (`v`, `vt`, `vn`, `f`, or none) accepts the arguments, fails with that constructor's error otherwise, and on success records exactly that line's entry |
| ObjParser.RecordedKind | src/parser/parser.cpp:26-33 | a `v`, `vt`, `vn` or `f` line appends its parsed object to its own table and to no other; any other first token records nothing |
| ObjParser.AddVertex | src/parser/parser.cpp:26-27 | `emplace_back` of a vertex: succeeds exactly when the arguments form a vertex, appends that vertex and leaves every other table as it was; otherwise fails with the vertex constructor's error |
| ObjParser.AddTexture | src/parser/parser.cpp:28-29 | the same for a texture coordinate and the texture table |
| ObjParser.AddNormal | src/parser/parser.cpp:30-31 | the same for a normal and the normal table |
| ObjParser.AddFace | src/parser/parser.cpp:32-33 | the same for a face, which then has 3 or 4 corners, and the face table |
| ObjParser.ParseLine | src/parser/parser.cpp:22-33 | a line is accepted exactly when `LineAccepted` holds (its first token and the arguments after it, split on single spaces), throws the error `LineError` names otherwise, and on success records what the line adds |
| ObjParser.ParseLines | src/parser/parser.cpp:21-34 | the read loop records exactly the lines before the first rejected line, stops with that line's error, and finishes without failure exactly when every line is accepted; faces keep 3 or 4 corners |
| ObjParser.Parse | src/parser/parser.cpp:11-42 | the tables hold what the lines before the first rejected one add (vertex table reset first); without failure exactly when every line is accepted and all faces are triangulable, and then the triangle list is the triangulation of all faces; on failure the previous triangle list stays |
| ObjParser.ParseAccepted | src/parser/parser.cpp:11-42 | a file of accepted lines that add only faces parses to those faces and their triangulation |
| ObjParser.FaceLineAppends | src/parser/parser.cpp:32-33 | an `f` line whose arguments form a face is accepted and appends that face to the face table, leaving the other tables alone |
| ObjParser.TwoFaceLines | src/parser/parser.cpp:21-34 | two accepted `f` lines append their faces in line order |
| ObjParser.TriangleThenQuad | src/parser/parser.cpp:11-42 | a triangle line then a quad line parse to both faces and to the triangle followed by the quad's two triangles |
| ObjParser.TriangleAndQuad | src/parser/parser.cpp:11-104 | `f 1 2 3` then `f 1 2 3 4` parses without failure to the faces `[1,2,3]` and `[1,2,3,4]` and the triangles `[1,2,3]`, `[2,4,1]`, `[2,3,4]` |
| ObjParser.ParseKeepsEarlierTables | src/parser/parser.cpp:17 | only the vertex table is reset: earlier texture coordinates, normals, faces and their triangles stay in front of the new ones |
| ObjParser.ReadLoopKeepsEarlierTables | src/parser/parser.cpp:17-34 | the read loop on a file whose vertex table was just reset records exactly what it records on an empty file, after the kept tables |
| ObjParser.TrailingSpaceRejected | src/parser/parser.cpp:22-27 | `v 1 2 3 ` has four arguments and is rejected |
| ObjParser.IgnoredLine | src/parser/parser.cpp:26-33 | a line whose first token is not `v`, `vt`, `vn` or `f` is accepted and changes nothing |
| ObjParser.IgnoredLines | src/parser/parser.cpp:22-33 | a blank line and a comment line change nothing |
| SwapChain.Adequate | src/graphics/swap_chain.cpp:30-32 | support is adequate exactly when at least one format and at least one present mode are offered |
| SwapChain.ChooseSurfaceFormat | src/graphics/swap_chain.cpp:34-41 | the preferred B8G8R8A8 sRGB format when offered, otherwise the first one offered |
| SwapChain.ChoosePresentMode | src/graphics/swap_chain.cpp:43-50 | mailbox exactly when it is offered, otherwise FIFO, listed or not |
| SwapChain.ToUInt32 | src/graphics/swap_chain.cpp:59-62 | `static_cast<uint32_t>` of an `int` is congruent modulo 2^32 and keeps values that fit |
| SwapChain.Clamp | src/graphics/swap_chain.cpp:64-65 | `std::clamp` returns the value or a bound, within the bounds when they are ordered |
| SwapChain.ClampNearest | src/graphics/swap_chain.cpp:64-65 | the clamped value is the point of the range nearest to the input |
| SwapChain.ChooseExtent | src/graphics/swap_chain.cpp:52-68 | the current extent unless its width is `UINT32_MAX`; otherwise each dimension lies within the allowed range when its bounds are ordered, and is the point of that range nearest to the framebuffer size converted to `uint32_t` |
| SwapChain.ExtentKeepsFittingSize | src/graphics/swap_chain.cpp:56-67 | a framebuffer size already within the bounds is used as it is |
| SwapChain.NegativeSizeClampsToMax | src/graphics/swap_chain.cpp:59-64 | a width of -1 becomes `UINT32_MAX` and is clamped to the maximum width |
| QueueFamilies.FamilySet | src/graphics/queue_families.cpp:12-22 | the set holds exactly the family indices that are present |
| QueueFamilies.FamilySetSize | src/graphics/queue_families.cpp:7-22 | complete indices (`operator bool`) give a set of one element when both families are the same and two otherwise; incomplete ones give at most one |
| QueueFamilies.LastDrawing | src/graphics/queue_families.cpp:36-37 | the graphics family is the last drawing family seen before the scan stops |
| QueueFamilies.LastPresenting | src/graphics/queue_families.cpp:39-42 | the present family is the last presenting family seen before the scan stops |
| QueueFamilies.ScanLength | src/graphics/queue_families.cpp:35-48 | the scan stops at the first prefix where both families have been seen, or at the end |
| QueueFamilies.FindQueueFamilies | src/graphics/queue_families.cpp:25-51 | the loop returns what the first complete prefix shows; a returned family can draw or present as named; the result is complete exactly when some family draws and some family presents |
| QueueFamilies.CompleteMeansBothExist | src/graphics/queue_families.cpp:7-9 | complete indices mean a drawing family and a presenting family exist |
| QueueFamilies.NoDrawingFamily | src/graphics/queue_families.cpp:35-50 | without a graphics-capable family the result is not complete |
| QueueFamilies.SharedFamilyFirst | src/graphics/queue_families.cpp:35-45 | a first family that both draws and presents is used for both, and the family set is `{0}` |
| QueueFamilies.StopsBeforeSharedFamily | src/graphics/queue_families.cpp:44-45 | the scan stops at the first complete prefix even when a later family could do both jobs |
| DeviceSelection.Start | src/application.cpp:23-34 | any argument count other than 2 or an unreadable file ends with status 1; with one readable file, start-up carries on exactly when every line is accepted, and the mesh then holds what the lines add and the triangulation of its faces, all triangles |
| DeviceSelection.StartsOnTriangleAndQuad | src/application.cpp:23-34 | a scene of one triangle and one quad starts the viewer with two faces and three triangles |
| DeviceSelection.Truncate | src/application.cpp:154 | the float-to-`uint32_t` cast truncates toward zero |
| DeviceSelection.Score | src/application.cpp:139-158 | 0 when a mandatory check fails; otherwise the discrete bonus plus the 2D limit plus the truncated anisotropy, modulo 2^32 |
| DeviceSelection.SelectPhysicalDevice | src/application.cpp:118-136 | the first device with a non-zero score, with every earlier device scoring 0; an error exactly when all devices score 0 |
| DeviceSelection.Mandatory | src/application.cpp:161-172 | a device passing the mandatory checks offers the swapchain extension, a format, a present mode, and both a graphics and a present family |
| DeviceSelection.MandatoryMeansUsable | src/application.cpp:161-172 | a device that passes the mandatory checks has a drawing family, a presenting family, a format, a present mode and the swapchain extension |
| DeviceSelection.DiscreteOutscores | src/application.cpp:148-155 | without wrap-around a discrete GPU scores exactly 1000 more than the same device of another type |
| DeviceSelection.ScoreCanWrapToZero | src/application.cpp:148-155 | a usable discrete GPU with a 2D limit of 2^32-1000 and anisotropy below 1 scores 0, like an unusable device |
| DeviceSelection.NextFrame | src/application.cpp:97 | the next frame slot is below the number of frames in flight |
| DeviceSelection.FrameSlot | src/application.cpp:88-97 | the slot of every frame is below the number of frames in flight |
| DeviceSelection.FramesCycle | src/application.cpp:88-97 | frame `k` uses slot `k mod N`: the slots cycle 0, 1, ..., N-1 |
| DeviceSelection.FrameStep | src/application.cpp:97 | from a valid slot the 32-bit increment never wraps |
| VulkanPolicies.FindMemoryType | src/graphics/vulkan.cpp:811-822 | the lowest memory type whose filter bit is set and whose flags include all requested ones; an error exactly when none matches |
| VulkanPolicies.EmptyFilterMatchesNothing | src/graphics/vulkan.cpp:816 | a type filter of 0 matches no memory type |
| VulkanPolicies.ImageCount | src/graphics/vulkan.cpp:213-215 | minimum plus one, capped at the maximum only when a maximum is given; the increment is a 32-bit addition, so a minimum of `UINT32_MAX` yields 0 whatever the maximum |
| VulkanPolicies.ImageCountWithinLimits | src/graphics/vulkan.cpp:213-215 | without wrap-around the count lies between the minimum and the maximum |
| VulkanPolicies.ImageCountWraps | src/graphics/vulkan.cpp:213 | a minimum of `UINT32_MAX` with no maximum gives an image count of 0 |
| VulkanPolicies.ChooseSharingMode | src/graphics/vulkan.cpp:228-239 | concurrent with both family indices exactly when the families differ, exclusive otherwise, and `bad_optional_access` when a family is missing |
| VulkanPolicies.SharingCoversFamilies | src/graphics/vulkan.cpp:228-239 | the families allowed to touch the images are exactly the unique family set, and sharing is concurrent exactly when that set has two elements |
| VulkanPolicies.BranchBarrier | src/graphics/vulkan.cpp:886-901 | only undefined-to-transfer-destination and transfer-destination-to-shader-read are accepted (`invalid_argument` otherwise); the first waits at top of pipe for transfer writes, the second makes transfer writes wait for fragment-shader transfer reads |
| VulkanPolicies.TransitionImageLayout | src/graphics/vulkan.cpp:870-918 | the same whitelist, layouts and stages, and both access masks end up 0 |
| VulkanPolicies.TransitionImageLayoutIntended | src/graphics/vulkan.cpp:886-903 | the same whitelist, layouts and stages; the first barrier has no source access and transfer-write destination access, the second transfer-write source access and shader-read destination access |
| VulkanPolicies.AsWrittenUploadUnordered | src/graphics/vulkan.cpp:904-905 | as written, the upload barriers neither make the copy's writes available nor make them visible to the fragment shader |
| VulkanPolicies.BranchMasksNotVisible | src/graphics/vulkan.cpp:897 | with only the branch masks kept, the writes are made available but the second barrier names transfer reads, so they are not made visible to fragment-shader reads |
| VulkanPolicies.IntendedUploadOrdered | src/graphics/vulkan.cpp:889-900 | with the intended masks the writes are made available and visible to fragment-shader reads; the accepted transitions and everything except the masks are as written |
| VulkanPolicies.CleanupSwapchain | src/graphics/vulkan.cpp:262-277 | the framebuffers, views and images are empty and the swapchain handle is null; format and extent are kept |
| VulkanPolicies.CleanupIdempotent | src/graphics/vulkan.cpp:262-277 | cleaning up twice is the same as once |
| VulkanPolicies.CreateSwapchain | src/graphics/vulkan.cpp:252-257 | the new handle, its images, format and extent are recorded, and views and framebuffers are untouched |
| VulkanPolicies.CreateImageViews | src/graphics/vulkan.cpp:299-312 | one view per image, view `i` on image `i` with the swapchain format, nothing else changed |
| VulkanPolicies.CreateFramebuffers | src/graphics/vulkan.cpp:329-355 | one framebuffer per view, framebuffer `i` attached to view `i` and sized to the swapchain extent, nothing else changed |
| VulkanPolicies.RecreateSwapchain | src/graphics/vulkan.cpp:280-296 | after cleanup and re-creation the resources are consistent (one view per image, one framebuffer per view) and record the new handle, images, format and extent |
| VulkanPolicies.RecreateConsistent | src/graphics/vulkan.cpp:280-296 | after a recreation there is one view per image and one framebuffer per view, built on the new swapchain's images |
| VulkanPolicies.RecreateForgetsOld | src/graphics/vulkan.cpp:280-296 | the result of a recreation does not depend on the earlier resources |
| VulkanPolicies.BuiltInQuad | src/graphics/vulkan.cpp:18-40 | 4 vertices and 6 indices, each a valid 16-bit vertex number; both triangles wind the same way, cover the unit square and share the diagonal 0-2 |
| GraphicsUtils.DeviceExtensions | src/graphics/utils.cpp:13-18 | the swapchain extension first, and the portability subset exactly on portability platforms |
| GraphicsUtils.RequiredExtensions | src/graphics/utils.cpp:20-35 | the window-system extensions first, then debug utils exactly when validation is on, then the two portability extensions on portability platforms |
| GraphicsUtils.CheckValidationLayerSupport | src/graphics/utils.cpp:38-58 | true exactly when every required layer occurs among the available ones |
| GraphicsUtils.CheckDeviceExtensionSupport | src/graphics/utils.cpp:61-73 | true exactly when every required extension occurs among the available ones |
| GraphicsUtils.SupportIgnoresExtras | src/graphics/utils.cpp:68-72 | extra available names never hurt, and duplicate required names change nothing |
| GraphicsUtils.BindingDesc | src/graphics/utils.cpp:75-82 | binding 0, per-vertex rate, stride the size of `VertexData` |
| GraphicsUtils.AttributeDescs | src/graphics/utils.cpp:84-103 | three attributes on binding 0 at locations 0, 1, 2, each at the offset of its field; position and texture coordinates are `R32G32_SFLOAT`, colour is `R32G32B32_SFLOAT` |
| GraphicsUtils.OffsetsIncrease | src/graphics/utils.cpp:84-103 | every field ends at or before the offset of any later field |
| GraphicsUtils.AttributesDisjoint | src/graphics/utils.cpp:84-103 | in a layout that fits, attributes do not overlap and all end within the stride |
| GraphicsUtils.VertexLayoutFits | src/graphics/utils.cpp:75-103 | the vertex layout fits: stride 36, offsets 0, 12 and 24 |
| Pipeline.NewPipeline | src/graphics/pipeline.cpp:11-14 | exactly the stages "vertex" and "fragment", holding the given shaders, with no module or stage yet |
| Pipeline.CompileShaders | src/graphics/pipeline.cpp:33-41 | every stage is compiled, with no short-circuit, and the result is true exactly when all stages compile |
| Pipeline.NumErrors | src/graphics/pipeline.cpp:43-55 | the total errors (warnings) are 0 exactly when every stage has none |
| Pipeline.TallySplit | src/graphics/pipeline.cpp:47-52 | the sum over two listings is the sum of the sums |
| Pipeline.TallyOrderIndependent | src/graphics/pipeline.cpp:47-52 | the sum does not depend on the order the stages are walked in |
| Pipeline.NumErrorsOrderIndependent | src/graphics/pipeline.cpp:43-55 | the error and warning totals do not depend on the iteration order of the map |
| Pipeline.NumErrorsOfNew | src/graphics/pipeline.cpp:43-55 | for a new pipeline, in any iteration order, the totals are the vertex shader's errors plus the fragment shader's, and likewise for warnings |
| Pipeline.StageBit | src/graphics/pipeline.cpp:93-99 | "vertex" maps to the vertex bit, "fragment" to the fragment bit, and no other name maps to anything |
| Pipeline.SetupShaderModules | src/graphics/pipeline.cpp:82-106 | succeeds exactly when every stage without a module has a known name; stages with a module are untouched, the others configured; on failure the message names an unknown stage |
| Pipeline.SetupIdempotent | src/graphics/pipeline.cpp:83-86 | a second `setup_shader_modules` changes nothing |
| Pipeline.NewPipelineSetsUp | src/graphics/pipeline.cpp:82-106 | on a new pipeline, setup succeeds and gives both stages a module and the stage bit of their name, with entry point "main" |
| Pipeline.DescriptorBindings | src/graphics/pipeline.cpp:167-182 | exactly two bindings, numbered 0 and 1; binding 0 is a uniform buffer for the vertex stage and binding 1 a combined image sampler for the fragment stage; every binding holds one descriptor |
| Textures.ToSize | src/graphics/textures.cpp:21-22 | `static_cast<size_t>` keeps values that fit 64 bits |
| Textures.DeviceSize | src/graphics/textures.cpp:26-28 | width times height times channels, in 64-bit arithmetic |
| Textures.Load | src/graphics/textures.cpp:7-24 | an empty path raises `invalid_argument`; a decode failure gives an invalid texture; a decoded image has 4 channels and the decoded size |
| Textures.LoadedTextureSize | src/graphics/textures.cpp:18-28 | a decoded image of positive size is valid and takes exactly 4 bytes per pixel |
| Textures.IsValid | src/graphics/textures.cpp:30-32 | a texture is valid exactly when it has pixels and its exact (unwrapped) width-height-channels product is positive |
| Textures.ValidIffNonEmpty | src/graphics/textures.cpp:26-32 | without overflow, a texture with pixels is valid exactly when its size is non-zero |
| Textures.SizeCanWrap | src/graphics/textures.cpp:26-28 | a valid 2^32 by 2^32 texture reports size 0 |
| Debug.SeverityName | src/graphics/debug.cpp:8-31 | the name is `[unk]` exactly for an unknown severity |
| Debug.SeverityNamesDistinct | src/graphics/debug.cpp:11-29 | distinct known severities get distinct names |
| Debug.TypeName | src/graphics/debug.cpp:34-54 | the name is "unknown type" exactly for a mask that is not one of the four type bits |
| Debug.TypeNamesDistinct | src/graphics/debug.cpp:37-52 | distinct known types get distinct names |
| Debug.Route | src/graphics/debug.cpp:70-78 | warnings, errors and the max-enum severity go to `std::cerr`; otherwise general and device-address messages go to `std::cout` and the rest to `std::clog` |
| Debug.DebugCallback | src/graphics/debug.cpp:57-81 | the message line goes to the routed stream, and the callback never aborts the call |
| Debug.Subscribed | src/graphics/debug.cpp:84-97 | the messenger delivers exactly the verbose, info, warning and error severities, none of which is named `[fatal]` or `[unk]` |
| Debug.SubscriptionsNamed | src/graphics/debug.cpp:84-97 | the messenger subscribes to exactly the four real severities, never to `[fatal]` or `[unk]`, and to every type bit |
| Debug.CombinedTypesUnnamed | src/graphics/debug.cpp:34-54 | a message with two type bits at once is "unknown type" and goes to `std::clog` unless it is a warning or worse |

## Left out

- File reading in `parser::parse` is abstracted: the lines of the file are a parameter, and an unreadable file is `None` in `DeviceSelection.Start`.
- `std::stof` values are abstracted. A coordinate keeps its accepted text, not a float.
- Numbers.ParseFloat: does not model `out_of_range`, which `std::stof` raises for values beyond the `float` range (such as `1e999`) and for underflow (such as `1e-50`). Only whether a conversion starts is modelled.
- LineObjects.ParseVertex, LineObjects.ParseNormal, LineObjects.ParseVertexTexture: hold the accepted text instead of the float value, for the reason above.
- Pipeline.NumErrors: the totals are unbounded sums. The `size_t` wrap-around of `get_num_errors` needs 2^64 errors and is not modelled.
- `MAX_FRAMES_IN_FLIGHT` is not defined in the visible code. It is a parameter `N` with `0 < N < 2^32`.
- The portability and validation-layer compile switches (`__APPLE__`, `VK_KHR_portability_enumeration`, `ENABLE_VALIDATION_LAYERS`) are boolean parameters.
- Driver and window-system queries are parameters or records: `vkGetPhysicalDevice*`, `vkEnumerate*`, surface support, `glfwGetFramebufferSize`, `stbi_load`.
- Vulkan object creation is left out, and so are its driver failures (`vkCreate*` returning an error) and destruction. Handles are abstract numbers.
- The wait loop in `recreate_swapchain` (`glfwWaitEvents` until the window has a size) and `vkDeviceWaitIdle` are left out. The model starts after the wait.
- Shader compilation (`src/graphics/shaders.cpp`) is abstracted. Each shader is a record with its outcome and its error and warning counts.
- `Pipeline::errors` (message text), `setup_render_pass`, `setup` and the destructor are left out. They fill Vulkan structures and do no checkable logic.
- The debug messenger is not created or destroyed here (`create_debug_utils_messenger_ext` / `destroy_debug_utils_messenger_ext`). Those are foreign calls.
- Maths, the renderer, `src/main.cpp` and `src/parser/exceptions.cpp` are not part of this model. They are float numerics, GPU-asynchronous frame submission and glue.
- The debug print of faces in `File::triangulate` and all logging to the standard streams are left out, except the stream choice of the debug callback.
- Vertex deduplication, texture-v flipping and index range checks do not exist in the code, so they are not modelled.
- `maxSamplerAnisotropy` is a real, not a single-precision float. The cast's truncation is modelled, not float rounding.

## Findings

| source | as written | input that shows it | evidently intended | confidence | as-written member | corrected member |
|---|---|---|---|---|---|---|
| src/graphics/vulkan.cpp:904-905 | after the branch that picks the access masks, both masks are reset to 0 | the texture upload: undefined to transfer destination, copy, then transfer destination to shader read | keep the masks each branch chose, so the copy's transfer write is made available before the layout change | medium, not executed | VulkanPolicies.AsWrittenUploadUnordered | VulkanPolicies.IntendedUploadOrdered |
| src/graphics/vulkan.cpp:897 | the transfer-destination-to-shader-read barrier uses `VK_ACCESS_TRANSFER_READ_BIT` as its destination access mask | the same upload: the fragment shader samples the texture after the second barrier | `VK_ACCESS_SHADER_READ_BIT`, so the written texels are made visible to fragment-shader reads | medium, not executed | VulkanPolicies.BranchMasksNotVisible | VulkanPolicies.IntendedUploadOrdered |
