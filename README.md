# HackMatrix voxel world, modelled in Dafny

HackMatrix is a 3D desktop in which X11 apps are shown on surfaces inside a voxel world. This
project models the CPU side of that world and proves properties about it:

- the `World` voxel store and app-surface registry (`include/world.h`, `src/world.cpp`);
- the rule by which the `Renderer` mirrors the world into two fixed-size GPU instance buffers, as
  byte-level writes checked against the vertex-attribute layout the shader reads
  (`src/renderer.cpp`);
- the input state machine of `Controls`: debouncing, the cursor-focus flags, mouse-look offsets and
  the queue of deferred actions (`src/controls.cpp`);
- the non-I/O logic of the asset loader: the model directory, pre-order mesh collection,
  face-index flattening, vertex concatenation and the texture cache (`src/model.cpp`).

Modules:

- `Options` holds the optional value.
- `Bytes` holds bytes, C++ `int`, little-endian words and `glBufferSubData` as a splice.
- `Glm` holds `glm::vec3` as three binary32 bit patterns, plus the exact conversion of a small
  integer to a float.
- `InstanceLayout` holds the 16-byte instance records: the writers' offsets, the attribute
  layout, the capacities and the texture units.
- `VoxelWorld` holds the `World` and `Renderer` classes. They point at each other, so they share
  one module.
- `Controls` holds the input handling.
- `AssetModel` holds the loader.

The world is modelled as follows:

- The octree is a sparse map from cells to cubes. A cell that was never written holds the
  octree's default cube, of block type -1.
- Ghost history records every cube added by `addCube`, by order index, whether or not a
  renderer is attached (`added`, `addedAt`), and every app slot (`appSlots`).
- `World.Valid` ties the map, the counter and the history together with the bytes of the
  attached renderer's buffers.
- Every instance the GPU reads from such a record shows the cube that was written for it. This
  holds from the moment the renderer was attached.

## Model

| member | source | states |
|---|---|---|
| Bytes.U32RoundTrip | src/renderer.cpp:213-219 | the four little-endian bytes copied from a 32-bit word decode back to that word |
| Bytes.Int32RoundTrip | src/renderer.cpp:217-218 | the four bytes of an `int` block type (negative ones included, two's complement) decode to that `int` |
| Bytes.SubData | src/renderer.cpp:215-218 | `glBufferSubData` replaces exactly the bytes `offset .. offset+len`, keeps the length and all other bytes, and is a no-op when the range does not fit |
| Glm.Vec3RoundTrip | src/renderer.cpp:215-216 | the twelve bytes of a `glm::vec3` decode back to the same three floats |
| Glm.IntToFloat32RoundTrip | src/world.cpp:40 | converting a coordinate below 2^24 to `float` is exact: the float's value is exactly the coordinate, with no fractional mantissa bits |
| Glm.FractionIsNotInteger | src/world.cpp:40 | the value reading rejects a float with bits below the binary point (1 + 2^-23) and reads 1.0 as 1 |
| Glm.NormalizeRoundTrip | src/world.cpp:40 | shifting `n` left until its leading one reaches bit 23 gives a pattern that reads back as `n` |
| InstanceLayout.OffsetsMatchLayout | src/renderer.cpp:92-98 | the writers' offsets `(sizeof(vec3)+sizeof(int))*i` and `sizeof(vec3)*(i+1)+sizeof(int)*i` are the attribute layout's stride 16 times `i` plus offsets 0 and 12; the record size is 16 |
| InstanceLayout.WriteThenRead | src/renderer.cpp:213-219 | after writing record `i`, the GPU reads back instance `i` as exactly the position and tag written |
| InstanceLayout.WriteFrame | src/renderer.cpp:213-228 | a write to record `i` changes no byte outside bytes 16i .. 16i+15 |
| InstanceLayout.WriteKeepsOthers | src/renderer.cpp:213-228 | a write to record `i` leaves every other instance the GPU reads unchanged |
| InstanceLayout.WriteOutsideIsNoOp | src/renderer.cpp:132-134 | a record index beyond the buffer's capacity (or negative) writes nothing at all |
| InstanceLayout.AppTextureUnit | src/renderer.cpp:277 | app 0, 1 and 2 use texture units 31, 30 and 29 |
| InstanceLayout.AppTextureEnum | src/renderer.cpp:278 | the unit enum `GL_TEXTURE0 + 31 - index` stays within GL_TEXTURE0 .. GL_TEXTURE31 for indices 0 to 31 |
| VoxelWorld.CellPositionInjective | src/world.cpp:40 | two in-range cells with the same float position are the same cell |
| VoxelWorld.AddKeepsCubesInv | src/world.cpp:38-46 | storing a new cube with the next order index at any in-range cell, occupied or not, keeps the store consistent with the history |
| VoxelWorld.AddKeepsVoxelsShown | src/world.cpp:43-45 | writing cube number `count` to record `count` keeps every mirrored record showing its cube and adds the new one |
| VoxelWorld.AddKeepsAppsShown | src/world.cpp:48-54 | writing slot `size` with the position, for a new position or for one already present, keeps every mirrored app slot showing its position and number |
| VoxelWorld.World.constructor | include/world.h:39-47 | a new world has no renderer, count 0, no app, and every in-range cell holds block type -1, so `getVoxel` finds nothing anywhere |
| VoxelWorld.World.AttachRenderer | src/world.cpp:56-58 | the renderer is replaced; the world's cubes, counter and apps are unchanged |
| VoxelWorld.World.GetVoxel | src/world.cpp:60-66 | nothing exactly when the cell's block type is -1, otherwise the stored cube |
| VoxelWorld.World.VoxelIsLatestAddition | src/world.cpp:38-46 | a voxel found at a cell sits at that cell's float position and is the cube last added there, under its own order index |
| VoxelWorld.World.Size | src/world.cpp:68-70 | the size is the number of `addCube` calls, not the number of occupied cells |
| VoxelWorld.World.AddCube | src/world.cpp:38-46 | the cube gets the old count as order index; the counter rises by one; the cell holds (position, type, index); all other cells are unchanged; the attached renderer's record `index` gets the position and type; `getVoxel` then finds the cube unless the type is -1 |
| VoxelWorld.World.AddAppCube | src/world.cpp:48-54 | a new position gets slot = old map size, so slots stay dense; a known position keeps its slot; the renderer's slot `size` is written either way |
| VoxelWorld.World.ExpectedStep | src/world.cpp:20-23 | visiting a cell changes the result only in the slot of the voxel stored there |
| VoxelWorld.World.ExpectedRowEnd | src/world.cpp:17-19 | the end of a z-row is the start of the next row, and the end of a y-plane the start of the next plane |
| VoxelWorld.World.ExpectedBounds | src/world.cpp:16-27 | before the loops every slot is blank; after them every live cube is in place |
| VoxelWorld.World.GetCubes | src/world.cpp:15-28 | the result has the octree's size; each voxel sits at its order index; every slot not holding a live cube is a blank cube |
| VoxelWorld.World.GetAppCubes | src/world.cpp:30-36 | the result is the inverse of the map: slot `k` holds the position registered with slot `k`, for every position |
| VoxelWorld.TruncateToInt | src/world.cpp:83-85 | `(int)f` truncates toward zero, in both directions |
| VoxelWorld.StepSign | src/world.cpp:87-89 | step +1 exactly when the front component is positive, otherwise -1 (zero included) |
| VoxelWorld.RayCastSetup | src/world.cpp:80-93 | the start cell is the voxel-space position truncated per axis; each step is the sign rule of its front component |
| VoxelWorld.AppTexturesRegistered | src/renderer.cpp:154-168 | app0 to app2 exist as textures on unit 31 - index, and their samplers read the same unit |
| VoxelWorld.Renderer.constructor | src/renderer.cpp:126-168 | the voxel buffer holds 200000 records and the app buffer 20; the texture and sampler units are those of the constructor |
| VoxelWorld.Renderer.AddCube | src/renderer.cpp:213-219 | the voxel buffer becomes the old buffer with record `index` written with the cube's position and block type |
| VoxelWorld.Renderer.AddAppCube | src/renderer.cpp:221-228 | the app buffer becomes the old buffer with record `index` written with the position and the index itself as tag |
| VoxelWorld.Renderer.RegisterApp | src/renderer.cpp:276-289 | app `index` is bound through unit 31 - index, the unit of texture "app<index>" and of its sampler; one framebuffer is appended |
| VoxelWorld.Renderer.Render | src/renderer.cpp:253-258 | 36 vertices times `size()` voxel instances and 6 vertices times `getAppCubes().size()` app instances are drawn; each drawn instance written since attachment shows its cube or app |
| VoxelWorld.BufferSubData | src/renderer.cpp:215-218 | copying the data in place byte by byte produces the `glBufferSubData` splice |
| Controls.Debounce | src/controls.cpp:60-65 | the last time always becomes the current time; the call accepts exactly when the interval strictly exceeds 0.1 |
| Controls.DebounceTraceAt | src/controls.cpp:60-65 | in a series of calls, call `i` accepts exactly when more than 0.1 passed since call `i-1` (or since the start value) |
| Controls.DebounceBurst | src/controls.cpp:60-65 | calls each at most 0.1 after the previous one accept at most the first |
| Controls.ToggleFocus | src/controls.cpp:235-244 | an accepted F press flips the grab; grabbing also requests a mouse reset; releasing leaves the reset flag alone |
| Controls.ToggleFocusTwice | src/controls.cpp:231-246 | two accepted presses restore the grab state |
| Controls.PartitionSizes | src/controls.cpp:218-229 | every queued action is either kept or run, so the two counts add up to the queue length |
| Controls.KeepUndoneOrder | src/controls.cpp:218-229 | every action not done stays in the queue, in its original order among the kept ones |
| Controls.KeepUndoneOnlyUndone | src/controls.cpp:218-229 | every kept action was in the queue and not done |
| Controls.NothingDone | src/controls.cpp:218-229 | with no flag set, the queue is kept whole and nothing runs |
| Controls.RunTwice | src/controls.cpp:218-229 | running the queue again without flag changes keeps it and runs nothing |
| Controls.EraseStale | src/controls.cpp:226-228 | the erase loop as written: recorded positions erased one after another from a vector that shrinks each time |
| Controls.DoneIndices | src/controls.cpp:220-225 | the recorded positions are exactly those of the done actions, in increasing queue order |
| Controls.StaleEraseDropsPending | src/controls.cpp:218-229 | with two done actions ahead of a pending one, the erase loop as written drops the pending action, while the intended result keeps exactly it |
| Controls.Controls.MouseCallback | src/controls.cpp:19-33 | nothing happens unless the cursor is grabbed; then the offsets are (x - lastX, lastY - y), zero right after a reset, the reset flag is cleared and the last position becomes the cursor position |
| Controls.Controls.HandleClicks | src/controls.cpp:143-153 | left places and right removes a cube, each when pressed and debounced; both share the click timer, so a right press within 0.1 of the left press does not add a removal after a placement |
| Controls.Controls.HandleToggleFocus | src/controls.cpp:231-246 | only an F press touches the key timer; an accepted press toggles the focus flags and asks for capture with a normal cursor or passthrough with a disabled cursor accordingly |
| Controls.Controls.DoAfter | src/controls.cpp:211-216 | exactly one action is appended; earlier actions are unchanged |
| Controls.Controls.GoToApp | src/controls.cpp:180-199 | the cursor flag is released with a reset pending, input passes through with the GLFW cursor mode left unchanged, and one deferred focus of the app is queued behind the camera move's flag |
| Controls.Controls.HandleToggleApp | src/controls.cpp:201-209 | the key timer is consulted only with an app looked at and R pressed; an accepted press goes to that app, otherwise nothing changes |
| Controls.Controls.DoDeferedActions | src/controls.cpp:218-229 | the done actions run in queue order (grabbing the cursor) and exactly they leave the queue; the others remain in order |
| AssetModel.FindLastOf | src/model.cpp:38 | the position found holds the character and none follows it; none found means the character does not occur |
| AssetModel.DirectoryOf | src/model.cpp:38 | the directory is the prefix before the last '/', or the whole path when there is none |
| AssetModel.TextureFilename | src/model.cpp:190-191 | the texture file name is directory, '/', path |
| AssetModel.TextureFileInModelDirectory | src/model.cpp:38 | the directory of `directory + '/' + file` is `directory` when the file name has no '/' |
| AssetModel.ChannelFormat | src/model.cpp:203-208 | 1, 3 and 4 channels give GL_RED, GL_RGB and GL_RGBA; no other count gets a format |
| AssetModel.PreorderInRange | src/model.cpp:44-55 | every mesh index reached by the traversal names a mesh of the scene |
| AssetModel.PreorderMeshes | src/model.cpp:44-55 | the traversal visits every mesh index the node tree holds, each as often as the tree holds it, and no other (multiset equality) |
| AssetModel.PreorderListed | src/model.cpp:44-55 | a mesh index is visited exactly when some node of the tree lists it |
| AssetModel.PreorderOfLeaf | src/model.cpp:47-50 | a node without children contributes exactly its own meshes, in order |
| AssetModel.FlattenFacesLength | src/model.cpp:90-94 | the index list is as long as all faces' index counts together |
| AssetModel.FlattenTriangles | src/model.cpp:90-94 | for triangulated meshes face `k`'s three indices sit at positions 3k to 3k+2 |
| AssetModel.MeshVertex | src/model.cpp:62-85 | a vertex takes position and normal from the mesh, and texture coordinates from channel 0 or (0, 0) when there is none |
| AssetModel.FindPath | src/model.cpp:131-138 | the first cache entry with the path, or none when no entry has it |
| AssetModel.LoadTextures | src/model.cpp:123-151 | one texture per path; the cache only grows at its end, by one entry per new texture name used |
| AssetModel.FindPathAppend | src/model.cpp:143-147 | appending to the cache keeps every path's first match; a path seen for the first time matches the new entry |
| AssetModel.LoadOneFinds | src/model.cpp:131-147 | one iteration returns, for its path, a texture with that path that is the first cache entry with it, whether found or newly loaded |
| AssetModel.LoadOneKeeps | src/model.cpp:131-147 | one iteration keeps every earlier texture and every cached path's first match |
| AssetModel.LoadTexturesReuse | src/model.cpp:131-147 | the `i`-th texture returned has the `i`-th path and is the first cache entry with that path |
| AssetModel.LoadTexturesNames | src/model.cpp:141-147 | appended entries are new textures of the requested type, named in sequence |
| AssetModel.LoadTexturesDistinct | src/model.cpp:129-149 | a cache without duplicate paths never gains one |
| AssetModel.CachedPathsReused | src/model.cpp:131-138 | paths already cached are never loaded again |
| AssetModel.LoadTwiceReuses | src/model.cpp:129-149 | loading the same paths again returns the same textures and loads nothing |
| AssetModel.ProcessMeshSpec | src/model.cpp:58-107 | a mesh has one vertex per input vertex, the flattened face indices, and the diffuse textures followed by the specular ones |
| AssetModel.MeshStep | src/model.cpp:48-49 | one `push_back(processMesh(...))` appends one mesh and only appends to the cache |
| AssetModel.ProcessAll | src/model.cpp:44-55 | processing `n` mesh indices appends `n` meshes after the existing ones |
| AssetModel.ProcessAllSnoc | src/model.cpp:47-50 | one more index is one more mesh step |
| AssetModel.ProcessAllAppend | src/model.cpp:44-55 | processing two index lists in turn equals processing their concatenation |
| AssetModel.ChildStep | src/model.cpp:52-54 | the children from `k` on are child `k`'s subtree followed by the rest |
| AssetModel.ProcessAllMeshes | src/model.cpp:44-55 | the `i`-th collected mesh has the indices and vertex count of the `i`-th mesh of the order |
| AssetModel.ConcatVerticesLayout | src/model.cpp:109-120 | the concatenation's length is the total vertex count, and mesh `m`'s vertices follow those of the meshes before it |
| AssetModel.Model.constructor | src/model.cpp:237-241 | a model is loaded from an empty state |
| AssetModel.Model.LoadModel | src/model.cpp:27-41 | a failed or incomplete import, or one without a root, changes nothing; otherwise the directory is set and the root's meshes are processed in pre-order |
| AssetModel.Model.ProcessNode | src/model.cpp:44-55 | the meshes collected are those of the tree in depth-first pre-order, processed one after another |
| AssetModel.Model.ProcessNodeMeshes | src/model.cpp:47-50 | the first loop of `processNode` processes the node's mesh indices in order, one mesh appended per index |
| AssetModel.Model.ProcessMesh | src/model.cpp:58-107 | the loops build the vertices and flattened indices, then diffuse and specular textures are loaded through the cache |
| AssetModel.Model.TextureFromFile | src/model.cpp:188-235 | a fresh texture name, read from `directory + '/' + path` |
| AssetModel.Model.LoadMaterialTextures | src/model.cpp:123-151 | the loop returns the cached texture for a known path or loads and caches a new one, in path order |
| AssetModel.Model.GetAllVertices | src/model.cpp:109-120 | the meshes' vertices concatenated in mesh order, as many as their counts together |
| AssetModel.Positionable.Damage | src/model.cpp:262-265 | the object is marked damaged |
| AssetModel.Positionable.Update | src/model.cpp:244-259 | after an update the object is not damaged |

## Left out

- Floating-point arithmetic. The `float`s of positions are carried as IEEE 754 binary32 bit patterns and copied, never computed with; the `double` clock times of `debounce` are exact reals (see the `Controls.Debounce` line). The world only ever converts integer coordinates below 128 to floats, and that conversion is exact.
- `cameraToVoxelSpace`: its division by 0.1 is not modelled. The ray-cast setup takes the voxel-space position and the camera front as reals.
- `getBoundingSphere`, the `Positionable::update` matrices and the quaternion targeting in `goToApp`: all floating point.
- The `float` narrowing of the mouse offsets.
- Map keys: app surfaces are keyed by bit pattern. +0.0 and -0.0 are therefore distinct, while C++ `==` on a `glm::vec3` treats them as equal. A NaN position is found again by its bit pattern, while C++ `==` never matches NaN, so `appCubes.insert` adds a fresh entry for every NaN position.
- `getVoxel` takes float coordinates; the model takes the integer cell they address.
- The octree library. It is a map with a default. `World.GetCubes` takes the octree's `size()` as a parameter and requires every stored voxel's order index to be below it; the library's notion of size is not visible.
- `VoxelWorld.World.GetCubes`: when a live voxel's order index is not below the octree's `size()`, the source writes `rv[cube.order]` past the end of `rv`, which is undefined behaviour; the model requires this case away and does not capture it. The octree is built with edge 128; if the library's `size()` is that edge, any world whose live voxels include one added after the 128th `addCube` call reaches this case.
- `World` declarations without definitions: `removeCube`, `addApp`, `getIndexOfApp`, `getLookedAtCube`, `getLookedAtApp`, `action`, `refreshRenderer` and `getCube`. Also the fields `camera`, `apps` and `gotItCount`, which the modelled code does not use.
- `rayCast` returns an uninitialised `Position`, so only its start cell and steps are modelled.
- `VoxelWorld.TruncateToInt`, `VoxelWorld.RayCastSetup`: the truncation yields an unbounded integer for every real. In C++ `(int)` of a `float` that is NaN or outside the `int` range is undefined behaviour, and the model does not capture that case.
- `World::addAppCube` calls `renderer->addAppCube(index)` with a single argument. The renderer's definition takes `(index, pos)`, and the model passes the position.
- `VoxelWorld.World.AddCube`: requires `cubeCount < INT32_MAX`, since incrementing past it is signed overflow in C++. It does not model what happens at the limit.
- `VoxelWorld.World.AddAppCube`: requires the map size to be below `INT32_MAX`. The source narrows `size()` to `int`, and the renderer then computes `index+1` in `int`, which is signed overflow at `INT32_MAX`. It does not model what happens at the limit.
- `VoxelWorld.Renderer.AddCube`, `VoxelWorld.Renderer.AddAppCube`: require `index < INT32_MAX`, since the tag offset evaluates `index+1` in `int` before widening it. They do not model the overflow.
- `VoxelWorld.Renderer.RegisterApp`: requires `0 <= index < 3`. Only app0 to app2 have textures; any other index dereferences a null texture.
- Texture binding, framebuffer creation and blits are GL plumbing. Framebuffer names are a parameter.
- The contents of the instance buffers before any write are unspecified (`glBufferData` with no data). The mirror invariant therefore covers only records written since the renderer was attached. Cubes added before `attachRenderer` are counted by `render` but their records are not known.
- `render`'s selection highlight, shader uniforms and matrices, and the drawing itself. Only the instance counts and the mirrored record contents are modelled.
- GLFW key and button polling, window-manager calls and the clock. Times and key states are parameters; cursor-mode and window-manager requests are returned.
- All other `handle*` functions: escape (`handleEscape`, `handleModEscape`), camera translation (`handleControls`), the D menu (`handleDMenu`), screenshot, save, debug, meshing, wireframe, the selection and code-block actions, and the block logs. They call code that is not part of this model and share only the debounce rule modelled here.
- `world->action` is declared but not defined, so `HandleClicks` returns the requested actions.
- `Controls.Debounce`, `Controls.DebounceTraceAt`, `Controls.DebounceBurst`: the clock times, their difference and the 0.1 limit are exact reals, not IEEE doubles. At the boundary they disagree: calls at 0.3 and then 0.4 give a double difference of 0.10000000000000003, which exceeds the double 0.1 and fires, while the exact difference 0.1 does not. The model does not capture double rounding.
- The header `controls.h` is not part of this model. The `Controls` constructor assumes a released cursor, no pending reset, an empty queue and both timers at 0.
- The camera move behind `goToApp`: the completion flag it returns is a parameter.
- The only deferred function is the one `goToApp` queues.
- `Controls.Controls.DoDeferedActions`: models the intended removal of exactly the done actions. The as-written erase of stale iterators is undefined behaviour; `EraseStale` models it as a shrinking vector erased at the recorded positions, with an erase past the end doing nothing.
- The assimp importer (the scene is a parameter), stb image decoding and GL texture upload.
- `glGenTextures` names are modelled as a counter that hands out consecutive names. GL only promises unused names.
- `ChannelFormat` returns no format for channel counts other than 1, 3 and 4, where the source leaves `format` uninitialised. `TextureFromFile`'s success and failure paths differ only in GL calls and logging, so neither is modelled.
- Texture paths are compared as strings. `strcmp` compares up to the first NUL.
- `AssetModel.Model.LoadModel`, `AssetModel.Model.ProcessNode`: require a well-formed scene, in which every mesh index a node lists names a scene mesh. The source indexes `scene->mMeshes[node->mMeshes[i]]` unchecked and does not define what happens otherwise.
- `AssetModel.Model.ProcessMesh`: requires normals (and texture coordinates, when present) for every vertex and an existing material. The source indexes these arrays unchecked, and also tests `mMaterialIndex >= 0` on an unsigned value, which always holds.
- A `Positionable`'s pose, its constructors and `Model::Draw`.
- The SQLite persisters and `include/engine.h`, which only holds declarations.

## Findings

| source | as written | input that shows it | evidently intended | confidence | as-written member | corrected member |
|---|---|---|---|---|---|---|
| src/controls.cpp:218-229 | the iterators of all done actions are collected, then erased one by one; after the first erase the later iterators are stale, and with pointer-like vector iterators each one lands one element further on | a queue [done, done, pending]: positions 0 and 1 are erased in turn, leaving the second done action and dropping the pending one | remove exactly the done actions and keep the pending ones in order | medium (not executed; undefined behaviour in C++, shown for the usual pointer-like iterator) | Controls.EraseStale, Controls.StaleEraseDropsPending | Controls.Controls.DoDeferedActions |
