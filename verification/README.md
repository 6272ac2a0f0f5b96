# all-the-way-home: terrain collision core, in Dafny

This project models the sequential state logic under the game's pixel-accurate
terrain collision. The game is a Bevy game in which small actors ("yups") walk over
a deformable terrain that is drawn into textures. The model covers:

- **The ping-pong render-target pair.** `LevelRenderTargets` holds two images. The
  terrain material samples `source` and the level camera renders into `destination`.
  At the end of every fixed loop, `swap_textures` stores a linear-format snapshot of
  `destination` as the collision terrain, re-points the material and the camera, and
  exchanges the two handles. `prepare_level_images` seeds the pair from the loaded
  level, and the level's `init` and `init_compute_shader` set up the roles.
- **The collision pipeline's host-side logic.** `init` seeds the resources. The
  100-slot position buffer is written by `update_yup_locations`. The render-world
  control flow covers `prepare_bind_group` under its run condition, and the compute
  node's `update` and `run`, including the binding order and the dispatch count.
- **Actor rules.** The yup-yup contact filter and the per-obstacle speed reversal of
  `collision_handler`, and the `gravity` step.

ECS systems are pure functions over the resources and queries they touch. A
`Single` parameter that does not match exactly one entity turns the system into a
no-op. `r!` early returns are modelled as "nothing changes". Panics are modelled as
`Wrappers.Result.Panic`. Bevy's asset collections are `Assets.Store`, which hands
out a fresh handle on `add`. `Lifecycle` composes the systems: entering a level, and
a swap followed by the render world's collision pass.

## Model

| member | source | states |
|---|---|---|
| Collision.DefaultYupBuffer | src/physics/collision.rs:72-82 | The default position buffer has exactly `YUP_BUFFER_SIZE` = 100 slots, and every slot is the zero vector. |
| Assets.NewFill | src/physics/collision.rs:123-136 | `Image::new_fill` gives an image of the requested size in which byte i equals byte i mod 4 of the fill pixel. A fill pixel with zero alpha makes the whole image transparent. |
| Collision.Init | src/physics/collision.rs:95-149 | The results buffer is a new asset of 100 zero words and gains copy-source and storage usage. The position buffer is all zero. One new 2560x1440 image is held by `source`, `destination` and the collision terrain. That image is fully transparent, Rgba8Unorm, storage- and copy-source-capable, and kept in the render world only. Every previously stored asset is unchanged. The blank image and the results buffer are the only assets added. |
| Collision.UpdateYupLocations | src/physics/collision.rs:310-335 | Without a single `Level` entity or a single window, the system does not run: the buffer is unchanged and nothing panics. Otherwise it succeeds exactly when there are at most 100 actors, and more actors is an out-of-bounds panic. Slot i < n holds (tx + width, height - ty, entity index, 0) for the i-th actor's texture-space point. Slots at n and above keep their previous contents. |
| Collision.PrepareBindGroup | src/physics/collision.rs:161-196 | If the results buffer or the terrain image is not on the GPU, nothing changes. Otherwise the terrain's cached `texture_format` field becomes Rgba8Unorm and its view is unchanged. The new bind group binds the current positions, that view and the current results buffer, in the kinds the layout declares. It suits the layout's Rgba8Unorm storage texture exactly when the view itself is Rgba8Unorm. |
| Collision.CollisionsGroupFits | src/physics/collision.rs:207-219 | The (positions, terrain, results) group is of the kinds the layout declares. It suits the layout exactly when the terrain view's format is the declared Rgba8Unorm. |
| Collision.PrepareStage | src/physics/collision.rs:49-54 | Bind-group preparation runs only while no bind group exists. Once one exists, the render world is untouched. Without both GPU resources it is untouched too. |
| Collision.NodeUpdate | src/physics/collision.rs:275-307 | If a GPU resource is missing, the existing bind group is left as it was. Otherwise the group is rebuilt in layout order from the current positions, terrain view and results, and nothing else changes. That group suits the layout exactly when the view is Rgba8Unorm. Overwriting an absent group panics. |
| Collision.NodeRun | src/physics/collision.rs:240-273 | Without a bind group, nothing is dispatched. A dispatch happens exactly when a group exists and the pipeline is ready. It uses that group and `YUP_COUNT` x 1 x 1 workgroups. |
| Collision.RenderFrame | src/physics/collision.rs:49-62 | A frame runs the bind-group stage, then the graph node's update and run. It never panics. It dispatches exactly when the pipeline is ready and a bind group existed or both GPU resources are present, with the resulting group and 100 workgroups. It leaves the extracted resources and GPU buffers alone. |
| Collision.BindingOrderAgrees | src/physics/collision.rs:183-220 | The groups built by `prepare_bind_group` and by the node's update (lines 292-303) are both in the layout's order (positions, terrain, results). From the same render world they are the same group. |
| Collision.RenderFrameNeverPanics | src/physics/collision.rs:285-306 | Within a frame, the node's update never overwrites a missing bind group. If both GPU resources exist, the preparation stage earlier in the same frame has already made one. |
| Collision.FrameBindsCurrentState | src/physics/collision.rs:240-307 | With both GPU resources present, a frame binds this frame's positions, the terrain's current GPU view and the results buffer, in layout order. The group suits the layout exactly when that view is Rgba8Unorm. It dispatches 100 workgroups exactly when the pipeline is ready. |
| Collision.DegradedFrame | src/physics/collision.rs:251-255 | While a GPU resource is missing, a frame changes nothing. If an earlier frame made a bind group, that group is dispatched again. If none was ever made, nothing is dispatched. |
| Geometry.UnflipOffsetFlip | src/game/level.rs:160-166 | The window offset and y-flip lose only the z coordinate: the point can be recovered from the shader coordinates. |
| Geometry.OffsetFlipReversesY | src/physics/collision.rs:325-330 | A point higher in the world lands on an earlier image row. The x order is kept. |
| Resources.SwapInvolution | src/game/level.rs:196-199 | Exchanging `source` and `destination` twice restores the pair. |
| Resources.SwapKeepsDistinct | src/game/level.rs:196-199 | The exchange neither merges nor separates the two targets. |
| Level.ToCollisionTerrainIdempotent | src/game/level.rs:185-189 | Converting the snapshot again changes nothing. The conversion keeps pixels and size. It sets Rgba8Unorm, copy-source plus storage usage, and render-world-only asset usage. |
| Level.Init | src/game/level.rs:73-116 | Without a cursor position or a `source` image, nothing changes. Otherwise the system appends one level with a fresh material and one camera. That material is the only one added, and every other asset is unchanged. The material samples `source` and carries the cursor and mask. The level's mesh has the source image's size. The camera has order -1 and renders into `destination`. |
| Level.InitEstablishesRoles | src/game/level.rs:92-110 | After `init` on a scene with no level, exactly one material samples `source` and exactly one level camera renders into `destination`. |
| Level.InitComputeShader | src/game/level.rs:118-130 | Without a `destination` image, nothing changes. Otherwise the collision terrain is a new handle, not used by any existing asset. It holds the converted copy of `destination`, is the only image added, and only the image assets and the terrain change. |
| Level.InitComputeShaderHazardFree | src/game/level.rs:123-129 | With distinct existing targets, the new collision terrain is neither target. |
| Level.SwapTextures | src/game/level.rs:170-203 | If the level, its material, the destination image or the single level camera is missing, nothing changes. Otherwise the snapshot of the old `destination` is stored under the unchanged terrain handle, and no other image changes. The pair is exchanged. The material samples the new `source`, the camera renders into the new `destination`, and everything else about both is unchanged. |
| Level.SwapPreservesRoles | src/game/level.rs:192-199 | If the material samples `source` and the camera renders into `destination`, that still holds after a swap. |
| Level.SwapPreservesHazardFree | src/game/level.rs:184-199 | Distinct targets and a terrain separate from both remain so after a swap. |
| Level.SwapSnapshotMatchesMaterialAsset | src/game/level.rs:181-199 | After a swap, the collision terrain holds exactly the main-world bytes of the asset the material now references, in Rgba8Unorm. |
| Level.SwapTwiceRestoresRoles | src/game/level.rs:192-199 | Two swaps restore the pair, the material and the camera. |
| Level.TerrainStaysLinear | src/game/level.rs:118-199 | Whatever is stored under the collision-terrain handle stays Rgba8Unorm through `init`, `init_compute_shader` and `swap_textures`. The last two establish it whenever they fire. |
| Level.UpdateCursorPosition | src/game/level.rs:132-168 | Nothing changes unless the left button is held, there is one level, its material exists, there is a cursor and the cursor projects into the world. When all of that holds, the cursor position becomes (x + width, height - y) of the texture-space point. The textures and all other materials are unchanged. |
| Level.UpdateCursorPositionIdempotent | src/game/level.rs:139-166 | Repeating the update with the same button, cursor and transforms changes nothing further. |
| Intro.PrepareLevelImages | src/screens/intro.rs:52-74 | Without the level image, neither the assets nor the pair change. Otherwise `source` is the level handle and `destination` is a handle no asset had before, so the two differ. The level asset is overwritten with a copy that has copy-destination, texture-binding and render-attachment usage. The new asset is identical to it, and every other asset is unchanged. |
| Intro.PreparedTargetsAgree | src/screens/intro.rs:61-73 | Both targets carry the level's pixels and size, and both can be sampled and rendered into. |
| Yup.Retain | src/game/yup.rs:18-20 | A contact survives the filter exactly when it was present and at least one side is not a yup. |
| Yup.RetainAppend | src/game/yup.rs:20 | Filtering distributes over concatenation, so retained contacts keep their relative order. |
| Yup.RetainKeepsAll | src/game/yup.rs:20 | A list whose contacts all involve a non-yup is kept whole. |
| Yup.RetainIdempotent | src/game/yup.rs:20 | Filtering twice is filtering once. |
| Yup.BounceParity | src/game/yup.rs:22-27 | After the obstacle loop, a speed is negated exactly when the yup touched an odd number of obstacles. |
| Yup.CollisionHandler | src/game/yup.rs:13-29 | The retained list is the filtered contact list, in its original order and with its repetitions, so it contains exactly the contacts without two yups. Every yup keeps its entity. Its speed is negated if it touches an odd number of obstacles and kept otherwise. With no contact it stays the same, and its magnitude never changes. |
| Physics.Gravity | src/physics.rs:16-23 | Each matched `Falling` body drops by exactly 0.5 in y with x and z unchanged. Bodies without `Gravity`, a state or a transform, and bodies not `Falling`, are unchanged. No state changes. |
| Physics.StepsDisplacement | src/physics.rs:16-21 | Over n steps, a falling body drops by exactly n * 0.5 and keeps x and z. Any other body is unchanged. |
| Lifecycle.EnterLevelEstablishesInvariants | src/game/level.rs:73-130 | After loading, the intro's preparation, `init` and `init_compute_shader`, the material samples `source` and the camera renders into `destination`. The two targets differ, and the collision terrain is a third image with the level's pixels in Rgba8Unorm. |
| Lifecycle.EnterLevel | src/screens/intro.rs:19 | Entering a level means loading, the intro's `prepare_level_images`, then `init` chained with `init_compute_shader` (level.rs:25). The targets differ, and the terrain is a third image. All three hold the level's bytes and the terrain is Rgba8Unorm. Without a cursor, no level or level camera is spawned. |
| Lifecycle.LevelBytesForever | src/game/level.rs:184-199 | After entering a level and any number of swaps, the collision terrain and `source` both hold exactly the loaded level image's bytes. When a level was spawned, the roles still hold, so the asset the material references holds those bytes too. |
| Lifecycle.SwapsKeepRoles | src/game/level.rs:192-199 | Across any number of swaps, the material keeps sampling `source`, the camera keeps rendering into `destination`, and the terrain stays apart from both targets. |
| Lifecycle.SwapThenCollisionPass | src/game/level.rs:181-199 | After a swap, the next collision pass dispatches exactly when the pipeline has compiled (collision.rs:257). It then dispatches 100 workgroups with a group that suits the layout. The group has the current positions and the results buffer, plus an Rgba8Unorm view of the main-world bytes of the asset the material references. |
| Lifecycle.StartupFrameReadsBlankTerrain | src/physics/collision.rs:121-148 | Before any level is loaded, the blank startup image already completes the bind group. A frame dispatches exactly when the pipeline has compiled. It then dispatches a group that suits the layout, against all-zero terrain and zeroed positions. |
| Lifecycle.BrushAndCollisionAgree | src/game/level.rs:163-166 | A yup standing on the world point under the cursor is packed (collision.rs:325-330) at exactly the coordinates the material's cursor position gets. |

## Behaviour of the code worth knowing

- Unused position slots keep their old contents. `update_yup_locations` writes only the slots below the live actor count. After an actor goes, its last position stays in the buffer.
- A 101st yup panics. It is an out-of-bounds write into the fixed array at collision.rs:325, at run time.
- Once the pipeline has compiled, every frame before a level is loaded dispatches against the blank image. `init` puts one blank transparent image under every role, so the first bind group is complete before any level is loaded. The shader is loaded as an asset and the pipeline only queued (collision.rs:221-223). Until it compiles, `get_compute_pipeline` at collision.rs:257 finds nothing and no frame dispatches (`Lifecycle.StartupFrameReadsBlankTerrain`).
- The bind group is made once by `prepare_bind_group`, which runs only while no group exists. After that, the node's `update` rebuilds it every frame.
- No actor state changes from the collision results. The readback observer only logs them.
- The collision terrain holds the loaded level's bytes. The level camera renders into `destination` on the GPU only, and nothing copies those pixels back into the `Image` asset. So the snapshot `swap_textures` takes every frame is a copy of the bytes prepared at intro.rs:61-73 (`Lifecycle.LevelBytesForever`).
- If the pointer is outside the window on entering the game, `init` returns early at level.rs:82. No level and no level camera are spawned, so `swap_textures` then never fires for that level. `update_yup_locations` does not run either, since it needs the single `Level` entity.
- Line 181 of collision.rs overwrites only the cached `texture_format` field of the terrain's GPU image. The view bound into the group keeps the format the texture was created with. The group therefore suits the layout's Rgba8Unorm storage texture because every image stored under the terrain handle is already Rgba8Unorm (`Level.TerrainStaysLinear`).

## Left out

- The WGSL compute kernel, pipeline compilation, texture views, uniform writes and command encoding are not modelled. Whether the pipeline has compiled is the `pipelineReady` parameter.
- The asynchronous readback is left out: its observer only logs.
- Floats are `real`. f32 rounding, and the `as f32` conversion of entity indices above 2^24, are not modelled.
- Level.UpdateCursorPosition: the `MainCamera` `Single` parameter is folded into `viewportToWorld`, whose `None` covers a point that cannot be projected.
- The level transform's matrix inverse and the camera's `viewport_to_world_2d` are function parameters (`toTexture`, `viewportToWorld`). They are not modelled.
- Bevy's default texture and buffer usages are parameters of `Collision.Init`, not constants, because they belong to the engine.
- Asset reference counting and handle dropping are not modelled. Neither is the removal of render-world-only assets from the main-world store after extraction. The blank startup image is such an asset.
- The mesh, render layers, state scoping and entity names spawned by the level's `init` are left out, except the mesh size. So is the change-detection touch at the end of `swap_textures`.
- Extraction to the render world prepares every image anew each frame, while Bevy re-prepares only changed assets. The content reaching the GPU is the same.
- Yup.CollisionHandler: treats the physics engine's `Collisions::contains` as independent of the order of the pair. That type is not part of this model.
- The `CharacterState`, `MovementSpeed` and `Obstacle` declarations are not part of the modelled files. They appear as a two-state datatype, a real speed and a list of obstacle entities.
- Splash fading, timers, screen and menu transitions, the minimap, movement's velocity copy, render-layer numbering, UI, assets, dev tools and `main` are outside this core.
