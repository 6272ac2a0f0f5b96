/** The level systems of `src/game/level.rs`: spawning the terrain material and the
    level camera, creating the collision terrain, steering the brush cursor, and the
    end-of-loop ping-pong swap with its collision snapshot. */
module Level {
  import opened Wrappers
  import opened Geometry
  import opened Assets
  import opened Resources

  /** `LevelMaterial`: the terrain shader's inputs. */
  datatype LevelMaterial = LevelMaterial(cursorPosition: Vec2, terrainTexture: Handle, maskTexture: Handle)

  /** The level camera: its draw order and the image it renders into. */
  datatype Camera = Camera(order: int, target: Handle)

  /** The entity marked `Level`: its material handle and the size of its rectangle mesh. */
  datatype LevelEntity = LevelEntity(material: Handle, meshWidth: nat, meshHeight: nat)

  /** What the level systems read and write: the image and material assets, the
      target pair, the collision terrain, the `Level` entities and the `LevelCamera` entities. */
  datatype LevelWorld = LevelWorld(
    images: Store<Image>,
    materials: Store<LevelMaterial>,
    targets: LevelRenderTargets,
    terrain: CollisionsTerrain,
    levels: seq<LevelEntity>,
    cameras: seq<Camera>)

  /** Every handle the world holds was handed out by its store. */
  predicate Valid(w: LevelWorld) {
    && w.images.Valid() && w.materials.Valid()
    && w.targets.source < w.images.next && w.targets.destination < w.images.next
    && w.terrain.handle < w.images.next
  }

  /** The ping-pong roles: the one level's material samples `source` and the one
      level camera renders into `destination`. */
  predicate RolesHold(w: LevelWorld) {
    && |w.levels| == 1 && |w.cameras| == 1
    && w.levels[0].material in w.materials.items
    && w.materials.items[w.levels[0].material].terrainTexture == w.targets.source
    && w.cameras[0].target == w.targets.destination
  }

  /** No image is read and written in the same frame: the two targets differ, and
      the collision terrain is neither of them. */
  predicate HazardFree(w: LevelWorld) {
    && w.targets.Distinct()
    && w.terrain.handle != w.targets.source
    && w.terrain.handle != w.targets.destination
  }

  /** Whatever image the collision-terrain handle holds is in the linear format the
      compute shader's storage-texture binding declares. */
  predicate TerrainLinear(w: LevelWorld) {
    w.terrain.handle in w.images.items ==> w.images.items[w.terrain.handle].format == Rgba8Unorm
  }

  /** The copy handed to the compute shader: same pixels, linear format, usable as a
      storage texture and as a copy source, kept in the render world only. */
  function ToCollisionTerrain(img: Image): (r: Image)
    ensures r.data == img.data && r.width == img.width && r.height == img.height
    ensures r.format == Rgba8Unorm
    ensures r.usage == {CopySrc, StorageBinding}
    ensures r.assetUsage == {RenderWorldAsset}
  {
    img.(assetUsage := {RenderWorldAsset}, format := Rgba8Unorm, usage := {CopySrc, StorageBinding})
  }

  /** Converting an already converted image changes nothing. */
  lemma ToCollisionTerrainIdempotent(img: Image)
    ensures ToCollisionTerrain(ToCollisionTerrain(img)) == ToCollisionTerrain(img)
  {
  }

  /** `init`: returns early without a cursor position or without the `source` image;
      otherwise spawns the level with a new material sampling `source` and a level
      camera, drawn first, rendering into `destination`. */
  function Init(w: LevelWorld, cursor: Option<Vec2>, cursorMask: Handle): (r: LevelWorld)
    requires Valid(w)
    ensures Valid(r)
    ensures cursor.None? || w.targets.source !in w.images.items ==> r == w
    ensures cursor.Some? && w.targets.source in w.images.items ==>
              && r.images == w.images && r.targets == w.targets && r.terrain == w.terrain
              && |r.levels| == |w.levels| + 1 && r.levels[..|w.levels|] == w.levels
              && r.cameras == w.cameras + [Camera(-1, w.targets.destination)]
              && var level := r.levels[|w.levels|];
                 && level.material !in w.materials.items
                 && level.material in r.materials.items
                 && r.materials.items[level.material] == LevelMaterial(cursor.value, w.targets.source, cursorMask)
                 && level.meshWidth == w.images.items[w.targets.source].width
                 && level.meshHeight == w.images.items[w.targets.source].height
                 && (forall m :: m in w.materials.items ==>
                      m in r.materials.items && r.materials.items[m] == w.materials.items[m])
                 && forall m :: m in r.materials.items ==> m in w.materials.items || m == level.material
  {
    match cursor
    case None => w
    case Some(position) =>
      match w.images.Get(w.targets.source)
      case None => w
      case Some(levelImage) =>
        var (materials, m) := w.materials.Add(LevelMaterial(position, w.targets.source, cursorMask));
        w.(materials := materials,
           levels := w.levels + [LevelEntity(m, levelImage.width, levelImage.height)],
           cameras := w.cameras + [Camera(-1, w.targets.destination)])
  }

  /** A level spawned into an empty scene establishes the ping-pong roles. */
  lemma InitEstablishesRoles(w: LevelWorld, cursor: Option<Vec2>, cursorMask: Handle)
    requires Valid(w) && w.levels == [] && w.cameras == []
    requires cursor.Some? && w.targets.source in w.images.items
    ensures RolesHold(Init(w, cursor, cursorMask))
  {
  }

  /** `init_compute_shader`: returns early without the `destination` image; otherwise
      adds a converted copy of it as a new image and makes that the collision terrain. */
  function InitComputeShader(w: LevelWorld): (r: LevelWorld)
    requires Valid(w)
    ensures Valid(r)
    ensures w.targets.destination !in w.images.items ==> r == w
    ensures w.targets.destination in w.images.items ==>
              && r.terrain.handle !in w.images.items
              && r.terrain.handle in r.images.items
              && r.images.items[r.terrain.handle] == ToCollisionTerrain(w.images.items[w.targets.destination])
              && (forall h :: h in w.images.items ==> h in r.images.items && r.images.items[h] == w.images.items[h])
              && (forall h :: h in r.images.items ==> h in w.images.items || h == r.terrain.handle)
              && r == w.(images := r.images, terrain := r.terrain)
  {
    match w.images.Get(w.targets.destination)
    case None => w
    case Some(levelImage) =>
      var (images, h) := w.images.Add(ToCollisionTerrain(levelImage));
      w.(images := images, terrain := CollisionsTerrain(h))
  }

  /** A fresh collision terrain is never one of the two targets. */
  lemma InitComputeShaderHazardFree(w: LevelWorld)
    requires Valid(w) && w.targets.Distinct()
    requires w.targets.destination in w.images.items
    ensures HazardFree(InitComputeShader(w))
  {
  }

  /** `swap_textures` finds everything it needs: one level camera (its `Single`
      parameter), one level, that level's material, and the `destination` image. */
  predicate SwapFires(w: LevelWorld) {
    && |w.cameras| == 1 && |w.levels| == 1
    && w.levels[0].material in w.materials.items
    && w.targets.destination in w.images.items
  }

  /** `swap_textures`: stores a converted snapshot of `destination` under the
      existing collision-terrain handle, points the material at `destination` and the
      camera at `source`, and exchanges the pair. Anything missing makes it a no-op. */
  function SwapTextures(w: LevelWorld): (r: LevelWorld)
    requires Valid(w)
    ensures Valid(r)
    ensures !SwapFires(w) ==> r == w
    ensures SwapFires(w) ==>
              && r.targets.source == w.targets.destination
              && r.targets.destination == w.targets.source
              && r.terrain == w.terrain
              && r.terrain.handle in r.images.items
              && r.images.items[r.terrain.handle] == ToCollisionTerrain(w.images.items[w.targets.destination])
              && (forall h :: h != w.terrain.handle ==>
                    (h in r.images.items <==> h in w.images.items)
                    && (h in w.images.items ==> r.images.items[h] == w.images.items[h]))
              && r.levels == w.levels
              && RolesHold(r)
              && r.materials.items[r.levels[0].material]
                 == w.materials.items[w.levels[0].material].(terrainTexture := r.targets.source)
              && r.cameras[0] == w.cameras[0].(target := r.targets.destination)
              && (forall m :: m != w.levels[0].material ==>
                    (m in r.materials.items <==> m in w.materials.items)
                    && (m in w.materials.items ==> r.materials.items[m] == w.materials.items[m]))
  {
    if |w.cameras| != 1 then w
    else if |w.levels| != 1 then w
    else
      var l := w.levels[0];
      match w.materials.Get(l.material)
      case None => w
      case Some(levelMaterial) =>
        match w.images.Get(w.targets.destination)
        case None => w
        case Some(destinationImage) =>
          var images := w.images.Insert(w.terrain.handle, ToCollisionTerrain(destinationImage));
          var materials := w.materials.Insert(l.material, levelMaterial.(terrainTexture := w.targets.destination));
          var camera := w.cameras[0].(target := w.targets.source);
          w.(images := images, materials := materials, cameras := [camera], targets := w.targets.Swap())
  }

  /** The ping-pong roles survive every swap, whether it fires or not. */
  lemma SwapPreservesRoles(w: LevelWorld)
    requires Valid(w) && RolesHold(w)
    ensures RolesHold(SwapTextures(w))
  {
  }

  /** The collision terrain stays apart from both targets across a swap. */
  lemma SwapPreservesHazardFree(w: LevelWorld)
    requires Valid(w) && HazardFree(w)
    ensures HazardFree(SwapTextures(w))
  {
  }

  /** After a swap the compute shader's terrain holds exactly the main-world bytes of
      the asset the material references, in the format the shader needs. */
  lemma SwapSnapshotMatchesMaterialAsset(w: LevelWorld)
    requires Valid(w) && SwapFires(w)
    ensures var r := SwapTextures(w);
            && r.targets.source in r.images.items
            && r.materials.items[r.levels[0].material].terrainTexture == r.targets.source
            && r.images.items[r.terrain.handle].data == r.images.items[r.targets.source].data
            && r.images.items[r.terrain.handle].format == Rgba8Unorm
  {
  }

  /** Two swaps in a row put both targets, the material and the camera back where
      they were, provided the roles held and both targets exist. */
  lemma SwapTwiceRestoresRoles(w: LevelWorld)
    requires Valid(w) && RolesHold(w) && SwapFires(w) && w.targets.source in w.images.items
    ensures SwapFires(SwapTextures(w))
    ensures var r := SwapTextures(SwapTextures(w));
            && r.targets == w.targets
            && r.levels == w.levels
            && r.materials.items[r.levels[0].material] == w.materials.items[w.levels[0].material]
            && r.cameras == w.cameras
  {
    var once := SwapTextures(w);
    assert once.targets.destination == w.targets.source;
    assert w.targets.source == w.terrain.handle || once.images.items[w.targets.source] == w.images.items[w.targets.source];
  }

  /** `update_cursor_position`: while the left button is held, and the cursor is in
      the window and maps into the world, the one level's material gets the cursor's
      texture-space position, offset by the window size with y flipped.
      `viewportToWorld` and `toTexture` stand for the camera projection and the
      inverse of the level transform. */
  function UpdateCursorPosition(materials: Store<LevelMaterial>, levels: seq<LevelEntity>, leftPressed: bool,
                                cursor: Option<Vec2>, viewportToWorld: Vec2 -> Option<Vec2>,
                                toTexture: Vec3 -> Vec3, window: Window): (r: Store<LevelMaterial>)
    ensures !leftPressed ==> r == materials
    ensures r != materials ==>
              && leftPressed && |levels| == 1 && levels[0].material in materials.items
              && cursor.Some? && viewportToWorld(cursor.value).Some?
    ensures leftPressed && |levels| == 1 && levels[0].material in materials.items
            && cursor.Some? && viewportToWorld(cursor.value).Some? ==>
              var world := viewportToWorld(cursor.value).value;
              var p := toTexture(Vec3(world.x, world.y, 0.0));
              var m := levels[0].material;
              && m in r.items
              && r.items[m].cursorPosition == Vec2(p.x + window.width, window.height - p.y)
              && r.items[m].terrainTexture == materials.items[m].terrainTexture
              && r.items[m].maskTexture == materials.items[m].maskTexture
              && (forall k :: k != m ==>
                    (k in r.items <==> k in materials.items)
                    && (k in materials.items ==> r.items[k] == materials.items[k]))
    ensures r.next == materials.next
  {
    if !leftPressed then materials
    else if |levels| != 1 then materials
    else
      var m := levels[0].material;
      if m !in materials.items then materials
      else
        match cursor
        case None => materials
        case Some(cursorPos) =>
          match viewportToWorld(cursorPos)
          case None => materials
          case Some(world) =>
            var texturePos := toTexture(Vec3(world.x, world.y, 0.0));
            var levelMaterial := materials.items[m];
            Store(materials.items[m := levelMaterial.(cursorPosition := OffsetFlip(texturePos, window))], materials.next)
  }

  /** Holding the button still, a second update with the same inputs changes nothing more. */
  lemma UpdateCursorPositionIdempotent(materials: Store<LevelMaterial>, levels: seq<LevelEntity>, leftPressed: bool,
                                       cursor: Option<Vec2>, viewportToWorld: Vec2 -> Option<Vec2>,
                                       toTexture: Vec3 -> Vec3, window: Window)
    ensures var once := UpdateCursorPosition(materials, levels, leftPressed, cursor, viewportToWorld, toTexture, window);
            UpdateCursorPosition(once, levels, leftPressed, cursor, viewportToWorld, toTexture, window) == once
  {
  }

  /** Every system that writes images keeps the collision terrain linear: `init`
      leaves the images alone, and `init_compute_shader` and `swap_textures` store
      only converted copies under the terrain handle. */
  lemma TerrainStaysLinear(w: LevelWorld, cursor: Option<Vec2>, cursorMask: Handle)
    requires Valid(w)
    ensures TerrainLinear(w) ==> TerrainLinear(Init(w, cursor, cursorMask))
    ensures TerrainLinear(w) || w.targets.destination in w.images.items ==> TerrainLinear(InitComputeShader(w))
    ensures TerrainLinear(w) || SwapFires(w) ==> TerrainLinear(SwapTextures(w))
  {
  }
}
