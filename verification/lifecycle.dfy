/** How the systems compose over a game: startup, entering a level, and the
    per-frame swap followed by the render world's collision pass. */
module Lifecycle {
  import opened Wrappers
  import opened Geometry
  import opened Assets
  import opened Resources
  import Collision
  import Intro
  import opened Level
  import Ecs

  /** The render-world extraction the collision pass depends on: the position
      buffer, the results-buffer handle and the collision terrain are copied over,
      every image asset is prepared on the GPU as a view of its bytes in its own
      format, and the bind group of the previous frame is kept. */
  function Extract(prev: Collision.RenderWorld, images: Store<Image>, terrain: CollisionsTerrain,
                   yupBuffer: Collision.YupBuffer, collisions: Handle,
                   gpuBuffers: map<Handle, Collision.GpuBuffer>): Collision.RenderWorld
  {
    var gpuImages := map h | h in images.items ::
      Collision.GpuImage(Collision.TextureView(images.items[h].data, images.items[h].format), images.items[h].format);
    Collision.RenderWorld(yupBuffer, collisions, terrain, gpuBuffers, gpuImages, prev.bindGroup)
  }

  /** Both targets and the collision terrain are stored, and all three hold the bytes `data`. */
  predicate CarriesBytes(w: LevelWorld, data: seq<bv8>) {
    && w.targets.source in w.images.items
    && w.targets.destination in w.images.items
    && w.terrain.handle in w.images.items
    && w.images.items[w.targets.source].data == data
    && w.images.items[w.targets.destination].data == data
    && w.images.items[w.terrain.handle].data == data
  }

  /** Entering a level: the asset loader adds the level image; on entering the intro
      screen `prepare_level_images` makes the target pair; on entering the game
      `init` and then `init_compute_shader` run, chained, on a scene with no level and
      no level camera. Without a cursor in the window no level is spawned, but the
      collision terrain is still made. */
  function EnterLevel(s: Collision.Startup, levelImage: Image, materials: Store<LevelMaterial>,
                      cursor: Option<Vec2>, cursorMask: Handle): (w: LevelWorld)
    requires s.images.Valid() && materials.Valid() && s.terrain.handle < s.images.next
    ensures Level.Valid(w)
    ensures HazardFree(w) && TerrainLinear(w)
    ensures CarriesBytes(w, levelImage.data)
    ensures cursor.None? ==> w.levels == [] && w.cameras == []
  {
    var (images, level) := s.images.Add(levelImage);
    var prepared := Intro.PrepareLevelImages(images, s.targets, level);
    var scene := LevelWorld(prepared.images, materials, prepared.targets, s.terrain, [], []);
    var spawned := Init(scene, cursor, cursorMask);
    assert spawned.images == scene.images && spawned.targets == scene.targets;
    InitComputeShaderHazardFree(spawned);
    InitComputeShader(spawned)
  }

  /** Once a level is entered with the cursor in the window, the material samples
      `source`, the camera renders into `destination`, these are different images,
      and the collision terrain is a third image holding the level's bytes in the
      shader's format. */
  lemma EnterLevelEstablishesInvariants(s: Collision.Startup, levelImage: Image, materials: Store<LevelMaterial>,
                                        cursor: Option<Vec2>, cursorMask: Handle)
    requires s.images.Valid() && materials.Valid() && s.terrain.handle < s.images.next
    requires cursor.Some?
    ensures var w := EnterLevel(s, levelImage, materials, cursor, cursorMask);
            && RolesHold(w)
            && HazardFree(w)
            && w.terrain.handle in w.images.items
            && w.images.items[w.terrain.handle].data == levelImage.data
            && w.images.items[w.terrain.handle].format == Rgba8Unorm
  {
    var (images, level) := s.images.Add(levelImage);
    var prepared := Intro.PrepareLevelImages(images, s.targets, level);
    var scene := LevelWorld(prepared.images, materials, prepared.targets, s.terrain, [], []);
    InitEstablishesRoles(scene, cursor, cursorMask);
  }

  /** `n` consecutive end-of-loop swaps. */
  function Swaps(w: LevelWorld, n: nat): (r: LevelWorld)
    requires Level.Valid(w)
    ensures Level.Valid(r)
    decreases n
  {
    if n == 0 then w else Swaps(SwapTextures(w), n - 1)
  }

  /** A swap copies bytes only between the three images, so when they all hold the
      same bytes they still do afterwards. */
  lemma SwapKeepsBytes(w: LevelWorld, data: seq<bv8>)
    requires Level.Valid(w) && CarriesBytes(w, data)
    ensures CarriesBytes(SwapTextures(w), data)
  {
  }

  lemma {:induction false} SwapsKeepBytes(w: LevelWorld, data: seq<bv8>, n: nat)
    requires Level.Valid(w) && CarriesBytes(w, data)
    ensures CarriesBytes(Swaps(w, n), data)
    decreases n
  {
    if n > 0 {
      SwapKeepsBytes(w, data);
      SwapsKeepBytes(SwapTextures(w), data, n - 1);
    }
  }

  /** However many swaps run, the material keeps sampling `source`, the camera keeps
      rendering into `destination`, and the terrain stays apart from both. */
  lemma {:induction false} SwapsKeepRoles(w: LevelWorld, n: nat)
    requires Level.Valid(w) && RolesHold(w) && HazardFree(w)
    ensures RolesHold(Swaps(w, n)) && HazardFree(Swaps(w, n))
    decreases n
  {
    if n > 0 {
      SwapPreservesRoles(w);
      SwapPreservesHazardFree(w);
      SwapsKeepRoles(SwapTextures(w), n - 1);
    }
  }

  /** The main-world bytes under the collision terrain never change after the level is
      entered: however many swaps run, they are the bytes of the loaded level image.
      When a level was spawned, they are also the bytes of the asset its material
      references. */
  lemma LevelBytesForever(s: Collision.Startup, levelImage: Image, materials: Store<LevelMaterial>,
                          cursor: Option<Vec2>, cursorMask: Handle, n: nat)
    requires s.images.Valid() && materials.Valid() && s.terrain.handle < s.images.next
    ensures var w := Swaps(EnterLevel(s, levelImage, materials, cursor, cursorMask), n);
            && w.terrain.handle in w.images.items
            && w.images.items[w.terrain.handle].data == levelImage.data
            && w.targets.source in w.images.items
            && w.images.items[w.targets.source].data == levelImage.data
    ensures var w := Swaps(EnterLevel(s, levelImage, materials, cursor, cursorMask), n);
            cursor.Some? ==>
              && RolesHold(w)
              && w.materials.items[w.levels[0].material].terrainTexture in w.images.items
              && w.images.items[w.materials.items[w.levels[0].material].terrainTexture].data == levelImage.data
  {
    var entered := EnterLevel(s, levelImage, materials, cursor, cursorMask);
    SwapsKeepBytes(entered, levelImage.data, n);
    if cursor.Some? {
      EnterLevelEstablishesInvariants(s, levelImage, materials, cursor, cursorMask);
      SwapsKeepRoles(entered, n);
    }
  }

  /** Every later frame: the swap fires, the render world extracts the result, and
      the collision pass (once the results buffer is on the GPU) dispatches exactly
      when the shader pipeline has compiled. The group it dispatches suits the layout
      and binds the current positions and a linear view of the main-world bytes of
      the asset the material references. */
  lemma SwapThenCollisionPass(w: LevelWorld, prev: Collision.RenderWorld, yupBuffer: Collision.YupBuffer,
                              collisions: Handle, gpuBuffers: map<Handle, Collision.GpuBuffer>,
                              pipelineReady: bool)
    requires Level.Valid(w) && SwapFires(w) && collisions in gpuBuffers
    ensures var r := SwapTextures(w);
            var f := Collision.RenderFrame(Extract(prev, r.images, r.terrain, yupBuffer, collisions, gpuBuffers), pipelineReady);
            && RolesHold(r)
            && f.Ok?
            && (f.value.dispatch.Dispatched? <==> pipelineReady)
    ensures var r := SwapTextures(w);
            var f := Collision.RenderFrame(Extract(prev, r.images, r.terrain, yupBuffer, collisions, gpuBuffers), pipelineReady);
            pipelineReady ==>
            && f.Ok?
            && f.value.dispatch.Dispatched?
            && f.value.dispatch.x == Collision.YUP_COUNT
            && Collision.MatchesLayout(f.value.dispatch.group, Collision.CollisionsLayout)
            && f.value.dispatch.group[0] == Collision.PositionsEntry(yupBuffer)
            && f.value.dispatch.group[1].TerrainEntry?
            && f.value.dispatch.group[1].view.data == r.images.items[r.targets.source].data
            && f.value.dispatch.group[1].view.format == Rgba8Unorm
            && f.value.dispatch.group[2] == Collision.ResultsEntry(gpuBuffers[collisions])
  {
    var r := SwapTextures(w);
    SwapSnapshotMatchesMaterialAsset(w);
    var rw := Extract(prev, r.images, r.terrain, yupBuffer, collisions, gpuBuffers);
    assert Collision.Ready(rw);
    Collision.FrameBindsCurrentState(rw, pipelineReady);
  }

  /** Before any level is loaded, the blank startup image already makes a complete
      bind group: once the results buffer is on the GPU, a frame dispatches exactly
      when the shader pipeline has compiled, and then with a group that suits the
      layout, against fully transparent terrain and zeroed positions. */
  lemma StartupFrameReadsBlankTerrain(s: Collision.Startup, prev: Collision.RenderWorld,
                                      gpuBuffers: map<Handle, Collision.GpuBuffer>,
                                      images: Store<Image>, buffers: Store<Collision.StorageBuffer>,
                                      bufferDefaultUsage: set<Collision.BufferUsage>,
                                      imageDefaultUsage: set<TextureUsage>, pipelineReady: bool)
    requires images.Valid() && buffers.Valid()
    requires s == Collision.Init(images, buffers, bufferDefaultUsage, imageDefaultUsage)
    requires s.collisions in gpuBuffers
    ensures var f := Collision.RenderFrame(Extract(prev, s.images, s.terrain, s.yupBuffer, s.collisions, gpuBuffers), pipelineReady);
            f.Ok? && (f.value.dispatch.Dispatched? <==> pipelineReady)
    ensures var f := Collision.RenderFrame(Extract(prev, s.images, s.terrain, s.yupBuffer, s.collisions, gpuBuffers), pipelineReady);
            pipelineReady ==>
            && f.Ok?
            && f.value.dispatch.Dispatched?
            && Collision.MatchesLayout(f.value.dispatch.group, Collision.CollisionsLayout)
            && f.value.dispatch.group[0] == Collision.PositionsEntry(s.yupBuffer)
            && (forall i :: 0 <= i < |s.yupBuffer.yups| ==> s.yupBuffer.yups[i] == Vec4Zero)
            && f.value.dispatch.group[1].TerrainEntry?
            && (forall i :: 0 <= i < |f.value.dispatch.group[1].view.data| ==> f.value.dispatch.group[1].view.data[i] == 0)
  {
    var rw := Extract(prev, s.images, s.terrain, s.yupBuffer, s.collisions, gpuBuffers);
    assert Collision.Ready(rw);
    Collision.FrameBindsCurrentState(rw, pipelineReady);
  }

  /** The brush and the collision slots share one pixel convention: a yup standing
      on the world point under the cursor is packed at exactly the coordinates the
      material's cursor position gets. */
  lemma BrushAndCollisionAgree(materials: Store<LevelMaterial>, levels: seq<LevelEntity>,
                               cursor: Vec2, viewportToWorld: Vec2 -> Option<Vec2>,
                               toTexture: Vec3 -> Vec3, window: Window, yup: Ecs.Entity)
    requires |levels| == 1 && levels[0].material in materials.items
    requires viewportToWorld(cursor).Some?
    ensures var world := viewportToWorld(cursor).value;
            var slot := Collision.PackSlot(Collision.YupPose(yup, Vec3(world.x, world.y, 0.0)), toTexture, window);
            var r := UpdateCursorPosition(materials, levels, true, Some(cursor), viewportToWorld, toTexture, window);
            r.items[levels[0].material].cursorPosition == Vec2(slot.x, slot.y)
  {
  }
}
