# ViusaMetric evaluation core in Dafny

ViusaMetric renders a reference model and an optimised model side by side
from a schedule of camera views and measures how far apart they look. This
project models the CPU-side logic of that comparison and proves its
properties. The GPU only produces the buffers that the logic reads.

The project has these modules:

- `App` (`Application.dfy`) models `src/App/Application.cpp`: the per-model state machine.
  - It walks the sampled views once in each phase: PSNR, then silhouette, then normal.
  - It measures every rendered frame and adds the view error to an accumulator.
  - It saves each view once per phase, as a screenshot and a CSV row.
  - It reports the phase average when the views wrap around, then moves to the next phase and finally to FINISHED.
  - The class `Application` holds the same fields as the C++ class. Its methods `UpdateState`, `RenderPasses`, `SaveScreenshot` and `ProcessSingleModel` are proved against the functions `Tick`, `Render`, `SavedOf` and `Run`.
- `AppBuffers` models the small buffer loops of the application.
  - The vertical flip of the screenshot.
  - The grey→RGBA expansion for texture upload.
  - The grey→RGB expansion that feeds the silhouette heatmap.
- `Evaluator` models `src/Metrics/Evaluator.cpp`.
  - The PSNR, normal and silhouette metrics, with their sentinel values.
  - The heatmap generator and its colour ramp.
- `ImageUtils` models `src/Metrics/ImageUtils.cpp`: the silhouette extractor, the pixel index and depth linearisation.
- `SceneCamera` models `src/Scene/CameraSampler.cpp`: the Fibonacci hemisphere sampler with its jitter guard and pole guard.
- `CoreCamera` models the older sampler in `src/Core/CameraSampler.cpp`, which always draws jitter and has no pole guard.
- `Assets` is the importer's scene as both loaders see it.
  - An abstract node tree whose nodes refer to meshes.
  - Materials with texture paths per texture type.
  - What the two loaders share: the pre-order flattening, the face-index flattening, the path-keyed texture cache, and the bounding box with its normalisation.
- `SceneModel` models `src/Scene/Model.cpp`, and `CoreModel` models `src/Core/Model.cpp`. They are the two model loaders, each a class whose methods append to `meshes` and `texturesLoaded` and set the bounds.
- `Resources` models `src/Resources/ResourceManager.cpp`: the path-keyed model cache.
- `MathLib` holds the shared pieces:
  - vectors;
  - the `Float` type, where NaN and infinity are `NonFinite`;
  - the `Math` record, which carries `sqrt`, `sin`, `cos`, `asin` and `log10` as parameters;
  - clamping and byte conversion.

## Modelling choices

- **Numbers.** Floats and doubles are reals. A division by zero, and anything computed from it, is `NonFinite`. This covers the average over zero views, the mean over empty buffers and the scale for a flat box.
- **Maths functions.** The library functions are fields of the `Math` record. Lemmas that need facts about them state those facts as preconditions, for example `sqrt(0) = 0` or `sin² + cos² = 1`.
- **Random jitter.** It is a function `draw: nat -> real` that gives the k-th draw. The scene sampler uses draws 2i and 2i+1 only when the jitter strength is positive. The legacy sampler always uses them.
- **Timing and the window.**
  - The dwell timer (`currentTime - lastTime > delayTime`) is a boolean `elapsed` on each pass of the loop.
  - The window closing is the sequence of passes running out.
- **GPU reads.** A `Frame` carries what the renderer reads back for a view: colour bytes and floats, depth and normals of both models, and the window pixels.
- **Output.**
  - A saved screenshot is recorded as its directory, view index and flipped pixels.
  - A CSV row is recorded as the file it is appended to, the model name, the view and the error.
- **Asset loading.**
  - The importer is a function from a path to an optional scene.
  - The texture loader is an opaque function from (path, directory) to a texture id.
- **Resource manager.** The singleton `ResourceManager::GetInstance()` is an object passed to `ProcessSingleModel`.

## Behaviour worth noting

- **Heatmap background** (src/Metrics/Evaluator.cpp:147-159): a pixel is background when the reference pixel **or** the candidate pixel is all zero.
- **PSNR phase** (src/App/Application.cpp:386-394, 420-426): the value accumulated and written to the CSV file is `ComputePSNR(...).second`, the PSNR in dB.
- **Accumulation** (src/App/Application.cpp:394): the accumulator grows on every rendered frame. A view shown for several frames counts several times, while the average divides by the number of views (src/App/Application.cpp:250).
- **First view skipped** (src/App/Application.cpp:187-191, 241-243): the loop updates the state before it renders. When the dwell time has already elapsed on the first pass, the view index moves to 1 before anything is measured, so view 0 is never measured in the PSNR phase (`FirstPassSkipsViewZero`).
- **Settings** (src/App/Application.cpp:126, 241): `Application.cpp` reads both `config.render.display` and `config.render.delayTime`. Only `delayTime` matters to the model, and it is an input: whether it has elapsed is the boolean of each pass.
- **Material properties** (src/Scene/Model.cpp:148-156): the current loader reads the base colour (BASE_COLOR, then DIFFUSE), metallic and roughness, with defaults white, 0 and 0.5 (`SceneModel.PropsOf`); the legacy loader reads none.

## Model

| member | source | states |
|---|---|---|
| MathLib.Clamp | src/Scene/CameraSampler.cpp:35 | the result lies in [lo, hi] and is the input itself when the input is already in range |
| MathLib.ToByte | src/Metrics/Evaluator.cpp:131-133 | a channel value in [0, 256) converts to its integer part |
| Evaluator.Normalized | src/Metrics/Evaluator.cpp:24-25 | one value per byte, each in [0, 1] |
| Evaluator.Occupancy | src/Metrics/Evaluator.cpp:86-87 | one value per byte, each exactly 0 or 1 |
| Evaluator.SumSqDiffNonNegative | src/Metrics/Evaluator.cpp:19-29 | the sum of squared differences is never negative |
| Evaluator.SumSqDiffSymmetric | src/Metrics/Evaluator.cpp:19-29 | the sum of squared differences does not depend on the order of the two buffers |
| Evaluator.SumSqDiffZeroOfEqual | src/Metrics/Evaluator.cpp:19-29 | buffers equal on the first k positions have a zero sum there |
| Evaluator.SumSqDiffBounded | src/Metrics/Evaluator.cpp:19-31 | for values in [0, 1] the sum over k positions is at most k, so the MSE is at most 1 |
| Evaluator.OccupancyCountsMismatches | src/Metrics/Evaluator.cpp:84-91 | over occupancy values the sum of squared differences is the number of positions whose "> 0" status differs |
| Evaluator.ComputePSNR | src/Metrics/Evaluator.cpp:5-40 | the loop returns the (mse, psnr) pair: (0, 0) on a size mismatch, (0, 99.99) below an MSE of 1e-10, otherwise (mse, 10·log10(1/mse)) |
| Evaluator.PsnrOfIdentical | src/Metrics/Evaluator.cpp:34 | identical non-empty images give (0, 99.99) |
| Evaluator.PsnrSymmetric | src/Metrics/Evaluator.cpp:14-39 | the result does not depend on the order of the two images |
| Evaluator.PsnrMseInUnitRange | src/Metrics/Evaluator.cpp:19-37 | for equal non-empty sizes both results are finite, the MSE lies in [0, 1], and the pair is (0, 99.99) exactly when the mean squared difference is below 1e-10 |
| Evaluator.ComputeNormalError | src/Metrics/Evaluator.cpp:42-71 | the loop returns 0 on a size mismatch, otherwise the unclamped mean squared component difference |
| Evaluator.NormalErrorProperties | src/Metrics/Evaluator.cpp:52-70 | for equal non-empty sizes the normal error is finite, non-negative, symmetric, and 0 for identical inputs |
| Evaluator.ComputeSilhouetteError | src/Metrics/Evaluator.cpp:73-94 | the loop returns 0 on a size mismatch, otherwise the MSE of the occupancy values |
| Evaluator.SizeMismatchSentinels | src/Metrics/Evaluator.cpp:14-17 | buffers of different sizes give the sentinels (0, 0), 0 and 0 |
| Evaluator.SilhouetteErrorIsMismatchFraction | src/Metrics/Evaluator.cpp:82-93 | the silhouette error is the fraction of positions whose occupancy differs, hence in [0, 1] |
| Evaluator.SmoothPolyMonotone | src/Metrics/Evaluator.cpp:122-125 | the smoothstep polynomial is non-decreasing on [0, 1] |
| Evaluator.RedMonotone | src/Metrics/Evaluator.cpp:127 | the red channel smoothstep(0.5, 0.8, v) is non-decreasing in v |
| Evaluator.BlueAntitone | src/Metrics/Evaluator.cpp:129 | the blue channel smoothstep(0.5, 0.2, v) is non-increasing in v |
| Evaluator.RampMonotone | src/Metrics/Evaluator.cpp:97-133 | after clamping, the ramp's red is non-decreasing and its blue non-increasing in the value |
| Evaluator.RedEnds | src/Metrics/Evaluator.cpp:127 | red is 0 up to 0.5 and 255 from 0.8 |
| Evaluator.BlueEnds | src/Metrics/Evaluator.cpp:129 | blue is 255 up to 0.2 and 0 from 0.5 |
| Evaluator.RampEnds | src/Metrics/Evaluator.cpp:97-133 | the clamped ramp has the same end values |
| Evaluator.HeatmapUpTo | src/Metrics/Evaluator.cpp:144 | the heatmap of n pixels has 4·n bytes |
| Evaluator.HeatmapAt | src/Metrics/Evaluator.cpp:146-228 | bytes 4p..4p+3 of the heatmap are the colour of pixel p |
| Evaluator.PixelIsBackground | src/Metrics/Evaluator.cpp:147-159 | the background test: in mode 1 either float pixel is all zero, otherwise either byte pixel is all zero |
| Evaluator.PixelHeatValue | src/Metrics/Evaluator.cpp:170-219 | the heat value: 5× the colour distance in mode 0, 2·(1 − dot) of the decoded normals in mode 1, the red difference in mode 2, 0 otherwise |
| Evaluator.ComputePixel | src/Metrics/Evaluator.cpp:161-227 | the colour of a pixel is opaque black for background, otherwise the ramp of its heat value |
| Evaluator.StorePixel | src/Metrics/Evaluator.cpp:224-227 | writes the four bytes of one pixel after the bytes before it, which are unchanged, and leaves all other bytes unchanged |
| Evaluator.FillPixel | src/Metrics/Evaluator.cpp:146-228 | one more pixel extends the filled prefix of the heatmap |
| Evaluator.FillHeatmap | src/Metrics/Evaluator.cpp:146-228 | the loop fills the whole array with the heatmap of all pixels |
| Evaluator.GenerateHeatmap | src/Metrics/Evaluator.cpp:136-231 | returns the heatmap of width·height pixels for the given mode |
| Evaluator.PixelColorOpaque | src/Metrics/Evaluator.cpp:161-227 | every pixel has alpha 255, and a background pixel is (0, 0, 0, 255) |
| Evaluator.PixelOfIdenticalIsBlueOrBlack | src/Metrics/Evaluator.cpp:170-222 | in modes 0 and 2 a pixel of two identical images is black background or pure blue |
| ImageUtils.GetIdxInverse | src/Metrics/ImageUtils.cpp:6-8 | inside a w×h image the row-major index is in range and gives back the pixel's x and y |
| ImageUtils.Silhouette | src/Metrics/ImageUtils.cpp:17 | the mask has width·height entries |
| ImageUtils.SilhouetteAt | src/Metrics/ImageUtils.cpp:20-50 | the mask entry at GetIdx(x, y) is the edge value of pixel (x, y) |
| ImageUtils.SilhouetteIsBinary | src/Metrics/ImageUtils.cpp:46-50 | every mask entry is 0 or 255 |
| ImageUtils.SilhouetteBorderIsZero | src/Metrics/ImageUtils.cpp:17-21 | the pixels with x = 0, x = w−1, y = 0 or y = h−1 are 0 |
| ImageUtils.SmallImageIsBlank | src/Metrics/ImageUtils.cpp:17-21 | when w < 3 or h < 3 the whole mask is 0 |
| ImageUtils.EdgeIffGradient | src/Metrics/ImageUtils.cpp:25-50 | an interior pixel is 255 exactly when the depth gradient exceeds its threshold or the normal gradient exceeds its threshold |
| ImageUtils.EdgeDependsOnlyOnCross | src/Metrics/ImageUtils.cpp:25-43 | a pixel's value depends only on the depth and normals of its four cross neighbours |
| ImageUtils.FlatBuffersGiveBlankMask | src/Metrics/ImageUtils.cpp:30-46 | constant depth and normal buffers with non-negative thresholds give an all-zero mask |
| ImageUtils.ComputeEdge | src/Metrics/ImageUtils.cpp:22-50 | one interior pixel is computed as its edge value |
| ImageUtils.BorderRunIsZero | src/Metrics/ImageUtils.cpp:17-21 | a run of a border row or of the border columns is zero in the mask |
| ImageUtils.TailIsZero | src/Metrics/ImageUtils.cpp:17-20 | everything from the last row on is zero in the mask |
| ImageUtils.FillRow | src/Metrics/ImageUtils.cpp:21-51 | filling row y extends the computed prefix of the mask by one row, the rest staying 0 |
| ImageUtils.GenerateSilhouetteCPU | src/Metrics/ImageUtils.cpp:10-54 | the nested loops produce exactly the mask `Silhouette` |
| ImageUtils.LinearizeDepthEnds | src/Metrics/ImageUtils.cpp:56-60 | depth 0 maps to zNear and depth 1 maps to zFar |
| ImageUtils.LinearizeDepthInvertsProjection | src/Metrics/ImageUtils.cpp:56-60 | linearising the projected depth of a view-space distance z gives z back |
| SceneCamera.FovInsideModel | src/Scene/CameraSampler.cpp:6-7 | a camera at most the model radius away gets the 90° fallback |
| SceneCamera.FovFramesSphere | src/Scene/CameraSampler.cpp:8-9 | outside the radius, the sine of half the field of view is radius/distance |
| SceneCamera.FinalHeight | src/Scene/CameraSampler.cpp:35 | the jittered height is clamped into [0.01, 1] |
| SceneCamera.Samples | src/Scene/CameraSampler.cpp:12-61 | exactly n samples, sample i with index i, all sharing the one projection |
| SceneCamera.NextSample | src/Scene/CameraSampler.cpp:26-57 | one loop iteration builds sample i and advances the draw counter only when jitter is on |
| SceneCamera.GenerateSamples | src/Scene/CameraSampler.cpp:12-61 | the loop returns the sample schedule `Samples` |
| SceneCamera.BaseHeightRange | src/Scene/CameraSampler.cpp:28 | with n ≥ 2 the base height is defined, lies in [0, 1], and is 1 for the first and 0 for the last sample |
| SceneCamera.NoJitterHeightEnds | src/Scene/CameraSampler.cpp:28-35 | without jitter the first camera is at height 1 and the last at 0.01, not on the equator |
| SceneCamera.NoJitterIsDeterministic | src/Scene/CameraSampler.cpp:32-33 | with jitter strength ≤ 0 the schedule does not depend on the random draws |
| SceneCamera.SampleUsesOwnDraws | src/Scene/CameraSampler.cpp:32-33 | sample i depends only on draws 2i and 2i+1 |
| SceneCamera.UpGuard | src/Scene/CameraSampler.cpp:48-53 | the up vector is (0, 0, 1) exactly when the direction to the origin is defined and its y component exceeds 0.99 in absolute value |
| SceneCamera.RingPointIsUnit | src/Scene/CameraSampler.cpp:36-41 | the unscaled point (cos θ·r, h, sin θ·r) with r = √(1−h²) is a unit vector |
| SceneCamera.PositionOnSphere | src/Scene/CameraSampler.cpp:36-43 | every camera position is at distance sphereRadius from the origin |
| CoreCamera.FovAgreesWithScene | src/Core/CameraSampler.cpp:67-73 | the legacy field-of-view formula equals the current one |
| CoreCamera.Samples | src/Core/CameraSampler.cpp:10-65 | exactly n samples, sample i with id i, all sharing the one projection |
| CoreCamera.NextSample | src/Core/CameraSampler.cpp:29-62 | one iteration builds sample i from draws 2i and 2i+1, which are always taken |
| CoreCamera.GenerateSamples | src/Core/CameraSampler.cpp:10-65 | the loop returns the legacy schedule `Samples` |
| CoreCamera.ProjectionAgreesWithScene | src/Core/CameraSampler.cpp:26-27 | the legacy shared projection equals the current one |
| CoreCamera.ZeroJitterMatchesScene | src/Core/CameraSampler.cpp:40-58 | with zero draws a legacy sample has the current sampler's position, and the same view exactly when the current sampler keeps up (0, 1, 0) |
| CoreCamera.HeightClamped | src/Core/CameraSampler.cpp:44-53 | the legacy camera height lies between 0.01·radius and radius |
| Assets.ParentOfJoin | src/Scene/Model.cpp:40-41 | the directory of `dir/name` is `dir` |
| Assets.PreorderIsFlattening | src/Scene/Model.cpp:46-54 | the visit order has one entry per mesh reference in the tree and holds exactly the references that occur in it |
| Assets.ChildrenPreorderIsFlattening | src/Scene/Model.cpp:51-53 | the children's part of the visit order holds exactly the references of the first k children |
| Assets.ChildrenPreorderPrefix | src/Scene/Model.cpp:51-53 | visiting more children only extends the visit order |
| Assets.OwnMeshesFirst | src/Scene/Model.cpp:47-50 | a node's own meshes come first in its visit order |
| Assets.ChildRefsValid | src/Scene/Model.cpp:51-53 | the references of a child subtree are valid when the parent's are |
| Assets.FlattenAppend | src/Scene/Model.cpp:100-104 | flattening distributes over concatenated face lists |
| Assets.FlattenAt | src/Scene/Model.cpp:100-104 | index j of face f sits at its offset in the flattened list |
| Assets.CollectIndices | src/Scene/Model.cpp:100-104 | the nested loop produces the face index lists concatenated in face order |
| Assets.PathsOfConcat | src/Scene/Model.cpp:141-145 | the paths of appended texture lists are the appended paths |
| Assets.FirstWithPath | src/Scene/Model.cpp:168-173 | a found position is a position of the cache |
| Assets.FirstWithPathIsFirst | src/Scene/Model.cpp:168-173 | the search finds nothing exactly when the path is not cached, and otherwise finds the first entry with that path |
| Assets.FindLoaded | src/Scene/Model.cpp:168-173 | the scan with `break` returns the first cached entry with the path |
| Assets.FirstWithPathExtend | src/Scene/Model.cpp:168-173 | appending to the cache does not change where an already cached path is found |
| Assets.LoadOneSpec | src/Scene/Model.cpp:167-181 | a cached path reuses the cached texture and leaves the cache unchanged; a new path calls the loader once and appends the new texture |
| Assets.LoadTextures | src/Scene/Model.cpp:164-183 | one texture per slot |
| Assets.LoadTexturesPaths | src/Scene/Model.cpp:164-183 | the returned textures carry the slot paths in slot order |
| Assets.LoadTexturesGrows | src/Scene/Model.cpp:174-181 | the cache only grows, and each new entry is a loaded texture for a slot path that was not cached before |
| Assets.LoadTexturesCovers | src/Scene/Model.cpp:164-183 | afterwards every slot path is in the cache |
| Assets.LoadTexturesDistinct | src/Scene/Model.cpp:167-181 | a cache with distinct paths keeps distinct paths |
| Assets.LoadTexturesCache | src/Scene/Model.cpp:162-184 | all of the cache properties of `loadMaterialTextures` together |
| Assets.CacheHitReuses | src/Scene/Model.cpp:168-173 | a slot whose path was cached before gets the cached texture |
| Assets.ReloadIsCached | src/Scene/Model.cpp:168-173 | loading paths that are all cached leaves the cache unchanged |
| Assets.PathsOfPrefix | src/Scene/Model.cpp:180 | a path of a cache prefix is a path of the cache |
| Assets.CoversInSequence | src/Scene/Model.cpp:141-145 | three loads in sequence leave every returned path in the final cache |
| Assets.Positions | src/Scene/Model.cpp:240-241 | one position per vertex |
| Assets.BoxFromIsBoxOf | src/Scene/Model.cpp:239-248 | scanning further vertices gives the box of all positions seen |
| Assets.MeshesBoxIsBoxOf | src/Scene/Model.cpp:237-248 | the scan over all meshes gives the box of all vertex positions, starting from the ±1e9 sentinels |
| Assets.ScanBounds | src/Scene/Model.cpp:237-250 | the nested min/max loop computes that box |
| Assets.BoxContains | src/Scene/Model.cpp:239-250 | every position lies inside the box |
| Assets.BoxAttained | src/Scene/Model.cpp:237-250 | for positions within the sentinels every box coordinate is attained by some position |
| Assets.CoordInUnitRange | src/Scene/Model.cpp:251-257 | a coordinate between the bounds maps into [−1, 1] |
| Assets.NormalizedInUnitCube | src/Scene/Model.cpp:251-257 | when maxDim > 0 the scale is finite and (2/maxDim)·(p − center) lies in [−1, 1]³ for every position |
| SceneModel.VerticesOf | src/Scene/Model.cpp:63-97 | one vertex per source vertex |
| SceneModel.VerticesDefaults | src/Scene/Model.cpp:63-97 | positions are copied, a missing normal becomes (0, 1, 0) and missing texture coordinates become (0, 0) |
| SceneModel.BuildVertices | src/Scene/Model.cpp:63-97 | the vertex loop builds exactly those vertices |
| SceneModel.AlbedoTexturesCache | src/Scene/Model.cpp:114-138 | the albedo textures carry the paths of the first non-empty source among BASE_COLOR, DIFFUSE and EMISSIVE, and the cache properties hold |
| SceneModel.MeshTexturesPaths | src/Scene/Model.cpp:114-145 | a mesh's textures are the albedo paths, then the normal maps, then the UNKNOWN maps |
| SceneModel.MeshTexturesGrows | src/Scene/Model.cpp:114-145 | the cache only grows and keeps distinct paths |
| SceneModel.MeshTexturesCovers | src/Scene/Model.cpp:114-145 | every returned texture path is in the cache |
| SceneModel.MeshTexturesCache | src/Scene/Model.cpp:114-145 | the cache grows, stays distinct and covers every returned path |
| SceneModel.ProcessMeshesAppend | src/Scene/Model.cpp:46-54 | processing a concatenation of mesh references is processing one part after the other |
| SceneModel.ProcessMeshesShape | src/Scene/Model.cpp:46-54 | one mesh is appended per reference, earlier meshes and the cache are kept, and cache paths stay distinct |
| SceneModel.ProcessMeshesAt | src/Scene/Model.cpp:56-160 | the k-th appended mesh has the vertices, flattened faces, texture paths and material properties of the k-th referenced mesh |
| SceneModel.Model.constructor | src/Scene/Model.cpp:10-14 | a new model has the meshes, cache, directory, bounds and normalisation of loading the path and then computing the bounding box |
| SceneModel.Model.LoadModel | src/Scene/Model.cpp:25-44 | a failed import changes nothing; otherwise the directory is the path's parent and the meshes come from the pre-order walk of the root |
| SceneModel.Model.ProcessNode | src/Scene/Model.cpp:46-54 | processing a node appends the meshes of its subtree in pre-order |
| SceneModel.Model.ProcessChildren | src/Scene/Model.cpp:51-53 | the child loop appends the children's subtrees in order |
| SceneModel.Model.ProcessChild | src/Scene/Model.cpp:51-53 | one pass of the child loop appends child i's subtree after those of the children before it |
| SceneModel.Model.AppendMeshes | src/Scene/Model.cpp:47-50 | the own-mesh loop appends one processed mesh per reference |
| SceneModel.Model.AppendMeshAt | src/Scene/Model.cpp:47-50 | one pass of the own-mesh loop processes the i-th referenced mesh and appends it |
| SceneModel.Model.ProcessMesh | src/Scene/Model.cpp:56-160 | the built mesh and the updated cache are those of `MeshOf`; nothing else changes |
| SceneModel.Model.LoadMaterialTextures | src/Scene/Model.cpp:162-184 | the returned textures and the updated cache are those of the cache function `LoadTextures` |
| SceneModel.Model.ComputeBoundingBox | src/Scene/Model.cpp:235-259 | nothing changes without meshes; otherwise the bounds are the box of all vertices and the normalisation is built from it |
| SceneModel.ModelFitsUnitCube | src/Scene/Model.cpp:251-257 | every vertex of a loaded model lands in [−1, 1]³ when maxDim > 0 |
| CoreModel.VerticesOf | src/Core/Model.cpp:60-92 | one vertex per source vertex |
| CoreModel.VerticesDefaults | src/Core/Model.cpp:60-92 | positions are copied, and a vertex has a normal exactly when the mesh has normals, then the mesh's normal |
| CoreModel.VertexAgreesWithScene | src/Core/Model.cpp:67-72 | a legacy vertex equals the current loader's vertex exactly when the mesh has normals, and differs at most in the normal |
| CoreModel.BuildVertices | src/Core/Model.cpp:60-92 | the vertex loop builds exactly those vertices |
| CoreModel.MeshTexturesPaths | src/Core/Model.cpp:100-107 | textures are the DIFFUSE paths, then the normal maps, then the UNKNOWN maps |
| CoreModel.MeshTexturesGrows | src/Core/Model.cpp:102-107 | the cache only grows and keeps distinct paths |
| CoreModel.MeshTexturesCovers | src/Core/Model.cpp:102-107 | every returned texture path is in the cache |
| CoreModel.MeshTexturesAgreeWithScene | src/Core/Model.cpp:100-107 | without BASE_COLOR textures, and with DIFFUSE present or EMISSIVE absent, both loaders pick the same textures |
| CoreModel.ProcessMeshesAppend | src/Core/Model.cpp:45-53 | processing a concatenation of mesh references is processing one part after the other |
| CoreModel.ProcessMeshesShape | src/Core/Model.cpp:45-53 | one mesh is appended per reference, earlier meshes and the cache are kept, and cache paths stay distinct |
| CoreModel.ProcessMeshesAt | src/Core/Model.cpp:55-110 | the k-th appended mesh has the vertices, flattened faces and texture paths of the k-th referenced mesh |
| CoreModel.Model.constructor | src/Core/Model.cpp:11-14 | a new model has the meshes, cache, directory, bounds and normalisation of loading the path and then computing the bounding box |
| CoreModel.Model.LoadModel | src/Core/Model.cpp:25-43 | a failed import changes nothing; otherwise the directory is the path's parent and the meshes come from the pre-order walk of the root |
| CoreModel.Model.ProcessNode | src/Core/Model.cpp:45-53 | processing a node appends the meshes of its subtree in pre-order |
| CoreModel.Model.ProcessChildren | src/Core/Model.cpp:50-52 | the child loop appends the children's subtrees in order |
| CoreModel.Model.ProcessChild | src/Core/Model.cpp:50-52 | one pass of the child loop appends child i's subtree after those of the children before it |
| CoreModel.Model.AppendMeshes | src/Core/Model.cpp:46-49 | the own-mesh loop appends one processed mesh per reference |
| CoreModel.Model.AppendMeshAt | src/Core/Model.cpp:46-49 | one pass of the own-mesh loop processes the i-th referenced mesh and appends it |
| CoreModel.Model.ProcessMesh | src/Core/Model.cpp:55-110 | the built mesh and the updated cache are those of `MeshOf`; nothing else changes |
| CoreModel.Model.LoadMaterialTextures | src/Core/Model.cpp:112-134 | the returned textures and the updated cache are those of the cache function `LoadTextures` |
| CoreModel.Model.ComputeBoundingBox | src/Core/Model.cpp:192-216 | nothing changes without meshes; otherwise the bounds are the box of all vertices and the normalisation is built from it |
| CoreModel.ModelFitsUnitCube | src/Core/Model.cpp:207-214 | every vertex of a loaded model lands in [−1, 1]³ when maxDim > 0 |
| Resources.ResourceManager.constructor | src/Resources/ResourceManager.h:24-25 | the cache starts empty |
| Resources.ResourceManager.LoadModel | src/Resources/ResourceManager.cpp:4-15 | a hit returns the stored model and changes nothing; a miss constructs one fresh model from the path, stores it under the path and returns it; no other entry changes |
| Resources.ResourceManager.Clear | src/Resources/ResourceManager.cpp:17-19 | the cache is empty afterwards |
| AppBuffers.FlipRows | src/App/Application.cpp:53-58 | the flipped image has as many bytes as the original |
| AppBuffers.FlipRowsRow | src/App/Application.cpp:53-58 | row h−1−y of the flipped image is row y of the original |
| AppBuffers.FlipRowsConcat | src/App/Application.cpp:53-58 | flipping the rows of two stacked images stacks their flips in the reverse order |
| AppBuffers.FlipRowsTwice | src/App/Application.cpp:53-58 | flipping twice gives the original image back |
| AppBuffers.CopyRow | src/App/Application.cpp:56-57 | the `memcpy` writes one row at its destination and leaves every other byte unchanged |
| AppBuffers.FlipVertical | src/App/Application.cpp:52-58 | the row loop produces the flipped image |
| AppBuffers.FlipRow | src/App/Application.cpp:55-57 | one pass of the row loop puts source row y just above the rows already flipped |
| AppBuffers.FlipVerticalRows | src/App/Application.cpp:53-58 | for the window's w·3-byte rows, row y goes to row h−1−y and the flip undoes itself |
| AppBuffers.GreyRgba | src/App/Application.cpp:90-97 | the RGBA expansion has four bytes per pixel |
| AppBuffers.GreyRgb | src/App/Application.cpp:378-383 | the RGB expansion has three bytes per pixel |
| AppBuffers.GreyRgbaAt | src/App/Application.cpp:91-96 | pixel i of the expansion is (v, v, v, 255) for grey value v = data[i] |
| AppBuffers.GreyRgbAt | src/App/Application.cpp:378-383 | pixel i of the expansion is (v, v, v) for grey value v = sil[i] |
| AppBuffers.ExpandToRgba | src/App/Application.cpp:88-97 | the upload loop builds the RGBA expansion of the first w·h grey values |
| AppBuffers.ExpandToRgb | src/App/Application.cpp:378-383 | the loop builds the RGB expansion of the mask |
| App.NextPhase | src/App/Application.cpp:264-279 | a measuring phase advances exactly one step in enumerator order, and FINISHED stays FINISHED |
| App.PhaseMapsAreDistinct | src/App/Application.cpp:397-423 | the measuring phases have distinct heatmap modes, CSV files and output directories; each has a CSV file, and only the labels PSNR, Normal and Silhouette have one |
| App.TickSteps | src/App/Application.cpp:237-282 | a tick that is not elapsed, or comes after FINISHED, changes nothing. Otherwise the view index advances by one. On a wrap: the phase advances one step, the view and accumulator reset, and the save gate and output directory reset unless FINISHED is entered. The index stays in range. |
| App.RenderKeepsClock | src/App/Application.cpp:394-426 | a frame keeps the view, phase, output directory and index range, and a saved row goes to the phase's CSV file with the new view error |
| App.RepeatedFrameSavesOnce | src/App/Application.cpp:394-426 | two frames on one view both add their error to the accumulator, but only the first can save |
| App.PsnrPhaseAccumulatesDecibels | src/App/Application.cpp:386-394 | in the PSNR phase identical images add 99.99 dB to the accumulator, not an MSE of 0 |
| App.RunAfterFinished | src/App/Application.cpp:187 | passes after FINISHED change nothing and emit nothing |
| App.RoundOfTicks | src/App/Application.cpp:241-262 | from view 0 a phase shows views 0, 1, … for one period of ticks and then moves one phase on |
| App.FullRound | src/App/Application.cpp:241-279 | one whole period of ticks from view 0 advances the phase once and returns to view 0 |
| App.PartRound | src/App/Application.cpp:241-246 | fewer ticks than one period keep the phase |
| App.FinishesAfterThreeRounds | src/App/Application.cpp:237-282 | from the start state FINISHED is reached after exactly 3·max(n, 1) elapsed ticks, and not before |
| App.TicksStayFinished | src/App/Application.cpp:238 | ticks after FINISHED change nothing |
| App.RunFollowsTicks | src/App/Application.cpp:187-191 | frames do not move the clock: after k elapsed passes the loop's view and phase are those of k ticks |
| App.LoopFinishesAfterThreeRounds | src/App/Application.cpp:187-191 | when every pass is elapsed, the model's loop ends in FINISHED exactly when it ran at least 3·max(n, 1) passes |
| App.FirstPassSkipsViewZero | src/App/Application.cpp:241-243 | with at least two views and an elapsed first pass, the first measured and saved view is view 1 |
| App.MeasureView | src/App/Application.cpp:346-409 | the view error and the heatmap: normal MSE with mode 1, silhouette mismatch of two masks with thresholds 0.01 and 0.1 and mode 2, otherwise PSNR in dB with mode 0 |
| App.AppendToGlobalCSV | src/App/Application.cpp:27-44 | a row is appended exactly for the labels with a file, to `<outputRoot>/<file>`, carrying model, view and error |
| App.Application.constructor | src/App/Application.h:57-65 | the state starts at view 0, phase PSNR, zero errors, no saved view, no views and no models |
| App.Application.UpdateState | src/App/Application.cpp:237-282 | the new state is `Tick` of the old one and the printed result is the phase and its average on a wrap; views, model name and models are unchanged |
| App.Application.SaveScreenshot | src/App/Application.cpp:46-62 | the screenshot is the row-flipped window under the current output directory and view |
| App.Application.RenderPasses | src/App/Application.cpp:284-427 | nothing happens without views or after FINISHED; otherwise the new state is `Render` of the old one, the heatmap is `HeatmapOf` the frame, and what is saved is `SavedOf` the old state |
| App.Application.ResetForModel | src/App/Application.cpp:171-183 | the views are the jitter-free samples for the targets' aspect ratio; the state is view 0, PSNR, zero accumulator, no saved view and output `<root>/<model>/psnr` |
| App.Application.Pass | src/App/Application.cpp:187-191 | one pass is one `Step`: `UpdateState`, then `RenderPasses` |
| App.Application.RunPasses | src/App/Application.cpp:187-191 | the loop that stops at FINISHED or when the inputs run out yields the state, results and saves of `Run` over all inputs |
| App.Application.ProcessSingleModel | src/App/Application.cpp:146-200 | both models come from the cache; the views are the configured number of samples; state, printed results and saves are those of `Run` from the start state |

## Left out

- OpenGL, GLFW, the renderer, IBL baking and texture uploads. The buffers the renderer produces are inputs (`Frame`). Heatmap and grey-mask uploads are return values or not modelled.
- `ReadTextureFloat`, `ReadTextureByte`, `ReadTextureDepth` and `glReadPixels`: their results are the fields of `Frame`, with the sizes `FrameFits` states.
- `SetupOutputDirectories`, the file stream in `AppendToGlobalCSV`, `stbi_write_png` and console output. Rows, screenshots and printed phase results are returned as values instead.
- The screenshot file name `view_<index>.png`: a screenshot is identified by its directory and view index.
- `scene.Cleanup()` and the HDR environment lookup in `ProcessSingleModel`: GPU resource handling.
- Assimp's `ReadFile` and `TextureFromFile`, including embedded `*N` textures and the pink and white fallback textures: the importer is a parameter, and the texture loader an opaque id-returning function.
- Floating point: all arithmetic is on reals. NaN and infinity are the single value `NonFinite`. Float-to-byte conversion truncates in range and saturates outside it.
- `std::random_device` and `mt19937`: jitter values are the `draw` function.
- Wall-clock pacing: elapsed dwell time is a boolean per pass.
- `ValueToColor`'s jet branch: it is overwritten before use, so only the smoothstep/sine channels are modelled.
- `Draw` and `GetNormalizationMatrix` of both model classes: GPU drawing and a field getter.
- Evaluator.SumSqDiffZeroOfEqual: proves only that equal buffers give a zero sum; the converse, that a zero MSE means identical buffers, is not proved.
- Assets.ParentPath: `parent_path` is modelled as everything before the last `/`; root names, backslashes and trailing separators are not.
- Resources.ResourceManager.LoadModel: the singleton is an ordinary object handed to `ProcessSingleModel`, and shared pointers are object references.
- App.Application.ProcessSingleModel: requires a non-zero render target height, where the source would compute an infinite aspect ratio; when the two paths are equal only the optimised model's cache entry is stated.
- `src/Core/Application.cpp`, `src/main.cpp` and `src/App/BatchProcessor.cpp` are not part of this model.
