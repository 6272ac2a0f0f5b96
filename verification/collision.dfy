/** The collision pipeline of `src/physics/collision.rs`: the resources seeded at
    startup, the per-tick position buffer, and the render-world control flow around
    the compute pass (bind-group preparation, the node's update and run). The GPU
    kernel itself, pipeline compilation and command encoding are not modelled. */
module Collision {
  import opened Wrappers
  import opened Geometry
  import opened Assets
  import opened Resources
  import opened Ecs

  /** Number of compute workgroups dispatched per frame: one per actor slot. */
  const YUP_COUNT: nat := 100
  /** Number of position slots handed to the compute shader. */
  const YUP_BUFFER_SIZE: nat := 100
  /** Size of the blank render target used until a level is loaded. */
  const BLANK_WIDTH: nat := 2560
  const BLANK_HEIGHT: nat := 1440

  /** `YupBuffer`: one (x, y, entity index, padding) slot per actor, in pixel coordinates. */
  datatype YupBuffer = YupBuffer(yups: seq<Vec4>)

  /** `YupBuffer::default`. */
  function DefaultYupBuffer(): (b: YupBuffer)
    ensures |b.yups| == YUP_BUFFER_SIZE
    ensures forall i :: 0 <= i < |b.yups| ==> b.yups[i] == Vec4Zero
  {
    YupBuffer(seq(YUP_BUFFER_SIZE, _ => Vec4Zero))
  }

  /** `BufferUsages` flags. */
  datatype BufferUsage = BufferCopySrc | BufferCopyDst | BufferStorage | BufferUniform | BufferVertex

  /** A `ShaderStorageBuffer` asset holding 32-bit words. */
  datatype StorageBuffer = StorageBuffer(words: seq<bv32>, usage: set<BufferUsage>)

  /** The main-world state `init` leaves behind. */
  datatype Startup = Startup(
    images: Store<Image>,
    buffers: Store<StorageBuffer>,
    collisions: Handle,
    yupBuffer: YupBuffer,
    targets: LevelRenderTargets,
    terrain: CollisionsTerrain)

  /** The fully transparent placeholder image every role starts out on. */
  function BlankImage(imageDefaultUsage: set<TextureUsage>): (img: Image)
    ensures img.width == BLANK_WIDTH && img.height == BLANK_HEIGHT
    ensures |img.data| == 4 * BLANK_WIDTH * BLANK_HEIGHT
    ensures forall i :: 0 <= i < |img.data| ==> img.data[i] == 0
    ensures Transparent(img)
    ensures img.format == Rgba8Unorm
    ensures img.usage == imageDefaultUsage + {CopySrc, StorageBinding}
    ensures img.assetUsage == {RenderWorldAsset}
  {
    var fill := NewFill(BLANK_WIDTH, BLANK_HEIGHT, [0, 0, 0, 0], Rgba8Unorm, {RenderWorldAsset}, imageDefaultUsage);
    fill.(usage := fill.usage + {CopySrc, StorageBinding})
  }

  /** `init`: creates the zeroed results buffer, the empty position buffer, and one
      blank image that the source target, the destination target and the collision
      terrain all point at. Bevy's default usages are parameters. The readback
      entity it spawns only logs, and is left out. */
  function Init(images: Store<Image>, buffers: Store<StorageBuffer>,
                bufferDefaultUsage: set<BufferUsage>, imageDefaultUsage: set<TextureUsage>): (s: Startup)
    requires images.Valid() && buffers.Valid()
    ensures s.images.Valid() && s.buffers.Valid()
    // The results buffer: one zero word per actor slot, readable back and writable by the shader.
    ensures s.collisions !in buffers.items && s.collisions in s.buffers.items
    ensures var b := s.buffers.items[s.collisions];
            && |b.words| == YUP_COUNT
            && (forall i :: 0 <= i < |b.words| ==> b.words[i] == 0)
            && b.usage == bufferDefaultUsage + {BufferCopySrc, BufferStorage}
    // The position buffer: every slot zero.
    ensures |s.yupBuffer.yups| == YUP_BUFFER_SIZE
    ensures forall i :: 0 <= i < |s.yupBuffer.yups| ==> s.yupBuffer.yups[i] == Vec4Zero
    // One new blank image holds every role.
    ensures s.targets.source == s.terrain.handle && s.targets.destination == s.terrain.handle
    ensures s.terrain.handle !in images.items && s.terrain.handle in s.images.items
    ensures var img := s.images.items[s.terrain.handle];
            && img.width == BLANK_WIDTH && img.height == BLANK_HEIGHT
            && Transparent(img) && img.format == Rgba8Unorm
            && StorageBinding in img.usage && CopySrc in img.usage
            && img.assetUsage == {RenderWorldAsset}
    // Nothing already stored changes, and nothing else is added.
    ensures forall h :: h in images.items ==> h in s.images.items && s.images.items[h] == images.items[h]
    ensures forall h :: h in buffers.items ==> h in s.buffers.items && s.buffers.items[h] == buffers.items[h]
    ensures forall h :: h in s.images.items ==> h in images.items || h == s.terrain.handle
    ensures forall h :: h in s.buffers.items ==> h in buffers.items || h == s.collisions
  {
    var results := StorageBuffer(seq(YUP_COUNT, _ => 0), bufferDefaultUsage + {BufferCopySrc, BufferStorage});
    var (buffers', collisions) := buffers.Add(results);
    var (images', blank) := images.Add(BlankImage(imageDefaultUsage));
    Startup(images', buffers', collisions, DefaultYupBuffer(),
            LevelRenderTargets(blank, blank), CollisionsTerrain(blank))
  }

  /** A live actor as the position query yields it: its entity and its world translation. */
  datatype YupPose = YupPose(entity: Entity, translation: Vec3)

  /** The slot an actor occupies: its texture-space point offset by the window size
      with y flipped, its entity index, and a zero pad. */
  function PackSlot(pose: YupPose, toTexture: Vec3 -> Vec3, window: Window): (v: Vec4)
    ensures Unflip(Vec2(v.x, v.y), window) == Vec2(toTexture(pose.translation).x, toTexture(pose.translation).y)
    ensures v.z == pose.entity as real && v.w == 0.0
  {
    var p := OffsetFlip(toTexture(pose.translation), window);
    Vec4(p.x, p.y, pose.entity as real, 0.0)
  }

  /** `update_yup_locations`. `level` is the inverse of the transform of the single
      `Level` entity and `window` the single window; when either `Single` parameter
      matches nothing the system does not run. Otherwise the i-th actor of the query
      goes into slot i, slots past the last actor keep what they held, and more actors
      than slots is an out-of-bounds index, which panics. */
  method UpdateYupLocations(buf: YupBuffer, yups: seq<YupPose>, level: Option<Vec3 -> Vec3>, window: Option<Window>)
    returns (r: Result<YupBuffer>)
    requires |buf.yups| == YUP_BUFFER_SIZE
    ensures level.None? || window.None? ==> r == Ok(buf)
    ensures r.Ok? <==> level.None? || window.None? || |yups| <= YUP_BUFFER_SIZE
    ensures r.Ok? ==> |r.value.yups| == YUP_BUFFER_SIZE
    ensures r.Ok? && level.Some? && window.Some? ==> forall i :: 0 <= i < |yups| ==>
              var p := level.value(yups[i].translation);
              && r.value.yups[i].x == p.x + window.value.width
              && r.value.yups[i].y == window.value.height - p.y
              && r.value.yups[i].z == yups[i].entity as real
              && r.value.yups[i].w == 0.0
    ensures r.Ok? ==> forall i :: |yups| <= i < YUP_BUFFER_SIZE ==> r.value.yups[i] == buf.yups[i]
  {
    if level.None? || window.None? {
      return Ok(buf);
    }
    var toTexture := level.value;
    var slots := buf.yups;
    var i := 0;
    while i < |yups|
      invariant 0 <= i <= |yups|
      invariant i <= |slots| == YUP_BUFFER_SIZE
      invariant forall j :: 0 <= j < i ==>
                  var p := toTexture(yups[j].translation);
                  slots[j] == Vec4(p.x + window.value.width, -p.y + window.value.height, yups[j].entity as real, 0.0)
      invariant forall j :: i <= j < |slots| ==> slots[j] == buf.yups[j]
    {
      if i >= |slots| {
        return Panic("index out of bounds: the position buffer has 100 slots");
      }
      slots := slots[i := PackSlot(yups[i], toTexture, window.value)];
      i := i + 1;
    }
    return Ok(YupBuffer(slots));
  }

  // ---------------------------------------------------------------------------
  // Render world

  /** A texture view: the pixels it reads and the format the texture was created with. */
  datatype TextureView = TextureView(data: seq<bv8>, format: TextureFormat)

  /** A prepared GPU texture: its view, and the `texture_format` field kept beside it.
      Writing that field does not change the view. */
  datatype GpuImage = GpuImage(view: TextureView, textureFormat: TextureFormat)

  /** A prepared GPU storage buffer. */
  datatype GpuBuffer = GpuBuffer(words: seq<bv32>)

  datatype StorageAccess = ReadOnly | WriteOnly | ReadWrite

  /** One entry of a bind-group layout. */
  datatype LayoutSlot =
    | UniformSlot(dynamicOffset: bool)
    | StorageTextureSlot(format: TextureFormat, access: StorageAccess)
    | StorageBufferSlot(dynamicOffset: bool)

  /** The layout of `CollisionsPipeline`: positions, terrain, results. */
  const CollisionsLayout: seq<LayoutSlot> :=
    [UniformSlot(false), StorageTextureSlot(Rgba8Unorm, ReadOnly), StorageBufferSlot(false)]

  /** One resource bound into the compute pass. */
  datatype BindingEntry =
    | PositionsEntry(positions: YupBuffer)
    | TerrainEntry(view: TextureView)
    | ResultsEntry(results: GpuBuffer)

  /** An entry is of the kind its layout slot declares. */
  predicate SameKind(e: BindingEntry, slot: LayoutSlot) {
    match e
    case PositionsEntry(_) => slot.UniformSlot?
    case TerrainEntry(_) => slot.StorageTextureSlot?
    case ResultsEntry(_) => slot.StorageBufferSlot?
  }

  /** An entry is acceptable for its slot: of the right kind, and a storage texture's
      view has the format the slot declares. */
  predicate Fits(e: BindingEntry, slot: LayoutSlot) {
    SameKind(e, slot) && (e.TerrainEntry? ==> e.view.format == slot.format)
  }

  /** A bind group's entries are, in order, of the kinds a layout declares. */
  predicate KindsMatch(group: seq<BindingEntry>, layout: seq<LayoutSlot>) {
    |group| == |layout| && forall i :: 0 <= i < |group| ==> SameKind(group[i], layout[i])
  }

  /** A bind group is acceptable for a layout, entry by entry. */
  predicate MatchesLayout(group: seq<BindingEntry>, layout: seq<LayoutSlot>) {
    |group| == |layout| && forall i :: 0 <= i < |group| ==> Fits(group[i], layout[i])
  }

  /** The three entries both builders produce suit the collisions layout exactly when
      the terrain view is linear, and are always of the kinds it declares. */
  lemma CollisionsGroupFits(positions: YupBuffer, view: TextureView, results: GpuBuffer)
    ensures KindsMatch([PositionsEntry(positions), TerrainEntry(view), ResultsEntry(results)], CollisionsLayout)
    ensures MatchesLayout([PositionsEntry(positions), TerrainEntry(view), ResultsEntry(results)], CollisionsLayout)
            <==> view.format == Rgba8Unorm
  {
    var group := [PositionsEntry(positions), TerrainEntry(view), ResultsEntry(results)];
    assert Fits(group[1], CollisionsLayout[1]) <==> view.format == Rgba8Unorm;
    if view.format == Rgba8Unorm {
      assert forall i :: 0 <= i < 3 ==> Fits(group[i], CollisionsLayout[i]);
    }
  }

  /** The render world as far as the collision pass sees it: the extracted
      resources, the prepared GPU assets and the bind group, if one was made. */
  datatype RenderWorld = RenderWorld(
    yupBuffer: YupBuffer,
    collisions: Handle,
    terrain: CollisionsTerrain,
    gpuBuffers: map<Handle, GpuBuffer>,
    gpuImages: map<Handle, GpuImage>,
    bindGroup: Option<seq<BindingEntry>>)

  /** Both GPU resources a bind group needs have been prepared. */
  predicate Ready(rw: RenderWorld) {
    rw.collisions in rw.gpuBuffers && rw.terrain.handle in rw.gpuImages
  }

  /** The group binds exactly the current positions, the terrain's view and the current results buffer. */
  predicate BindsCurrent(rw: RenderWorld, group: seq<BindingEntry>)
    requires Ready(rw)
  {
    group == [PositionsEntry(rw.yupBuffer), TerrainEntry(rw.gpuImages[rw.terrain.handle].view),
              ResultsEntry(rw.gpuBuffers[rw.collisions])]
  }

  /** The body of `prepare_bind_group`: returns early while either GPU resource is
      missing; otherwise overwrites the terrain's `texture_format` field with the
      linear format and builds the bind group. The bound view keeps its own format,
      so the group suits the layout exactly when the terrain texture is linear. */
  function PrepareBindGroup(rw: RenderWorld): (r: RenderWorld)
    ensures !Ready(rw) ==> r == rw
    ensures Ready(rw) ==>
              && Ready(r)
              && r.gpuImages[r.terrain.handle].view == rw.gpuImages[rw.terrain.handle].view
              && r.gpuImages[r.terrain.handle].textureFormat == Rgba8Unorm
              && r.bindGroup.Some?
              && KindsMatch(r.bindGroup.value, CollisionsLayout)
              && (MatchesLayout(r.bindGroup.value, CollisionsLayout)
                  <==> rw.gpuImages[rw.terrain.handle].view.format == Rgba8Unorm)
              && BindsCurrent(r, r.bindGroup.value)
    ensures r.yupBuffer == rw.yupBuffer && r.collisions == rw.collisions && r.terrain == rw.terrain
    ensures r.gpuBuffers == rw.gpuBuffers
    ensures forall h :: h != rw.terrain.handle ==>
              (h in r.gpuImages <==> h in rw.gpuImages) && (h in rw.gpuImages ==> r.gpuImages[h] == rw.gpuImages[h])
  {
    if rw.collisions !in rw.gpuBuffers then rw
    else if rw.terrain.handle !in rw.gpuImages then rw
    else
      var collisionsBuffer := rw.gpuBuffers[rw.collisions];
      var terrainImage := rw.gpuImages[rw.terrain.handle].(textureFormat := Rgba8Unorm);
      var group := [PositionsEntry(rw.yupBuffer), TerrainEntry(terrainImage.view), ResultsEntry(collisionsBuffer)];
      CollisionsGroupFits(rw.yupBuffer, terrainImage.view, collisionsBuffer);
      rw.(gpuImages := rw.gpuImages[rw.terrain.handle := terrainImage], bindGroup := Some(group))
  }

  /** `prepare_bind_group` under its run condition: it runs only while no bind group exists. */
  function PrepareStage(rw: RenderWorld): (r: RenderWorld)
    ensures rw.bindGroup.Some? ==> r == rw
    ensures !Ready(rw) ==> r == rw
    ensures rw.bindGroup.None? && Ready(rw) ==>
              r.bindGroup.Some? && KindsMatch(r.bindGroup.value, CollisionsLayout)
    ensures Ready(r) <==> Ready(rw)
    ensures Ready(rw) ==> r.gpuImages[r.terrain.handle].view == rw.gpuImages[rw.terrain.handle].view
  {
    if rw.bindGroup.Some? then rw else PrepareBindGroup(rw)
  }

  /** `CollisionsNode::update`: returns early while either GPU resource is missing;
      otherwise rebuilds the bind group from the current positions and terrain and
      overwrites the existing one, which panics if there is none. */
  function NodeUpdate(rw: RenderWorld): (r: Result<RenderWorld>)
    ensures !Ready(rw) ==> r == Ok(rw)
    ensures Ready(rw) && rw.bindGroup.None? ==> r.Panic?
    ensures Ready(rw) && rw.bindGroup.Some? ==>
              && r.Ok?
              && r.value.bindGroup.Some?
              && KindsMatch(r.value.bindGroup.value, CollisionsLayout)
              && (MatchesLayout(r.value.bindGroup.value, CollisionsLayout)
                  <==> rw.gpuImages[rw.terrain.handle].view.format == Rgba8Unorm)
              && BindsCurrent(rw, r.value.bindGroup.value)
              && r.value == rw.(bindGroup := r.value.bindGroup)
  {
    if rw.collisions !in rw.gpuBuffers then Ok(rw)
    else if rw.terrain.handle !in rw.gpuImages then Ok(rw)
    else
      var collisions := rw.gpuBuffers[rw.collisions];
      var terrainImage := rw.gpuImages[rw.terrain.handle];
      var group := [PositionsEntry(rw.yupBuffer), TerrainEntry(terrainImage.view), ResultsEntry(collisions)];
      CollisionsGroupFits(rw.yupBuffer, terrainImage.view, collisions);
      if rw.bindGroup.None? then Panic("resource does not exist: CollisionsBufferBindGroup")
      else Ok(rw.(bindGroup := Some(group)))
  }

  /** The work a frame hands to the GPU. */
  datatype Dispatch = NoDispatch | Dispatched(group: seq<BindingEntry>, x: nat, y: nat, z: nat)

  /** `CollisionsNode::run`: without a bind group it returns without dispatching;
      with one, and once the pipeline has compiled, it dispatches one workgroup per
      actor slot. It always returns `Ok`. */
  function NodeRun(rw: RenderWorld, pipelineReady: bool): (d: Dispatch)
    ensures rw.bindGroup.None? ==> d == NoDispatch
    ensures d.Dispatched? <==> rw.bindGroup.Some? && pipelineReady
    ensures d.Dispatched? ==> d.group == rw.bindGroup.value && d.x == YUP_COUNT && d.y == 1 && d.z == 1
  {
    match rw.bindGroup
    case None => NoDispatch
    case Some(group) => if pipelineReady then Dispatched(group, YUP_COUNT, 1, 1) else NoDispatch
  }

  /** One render frame: the bind-group stage (`RenderSet::PrepareBindGroups`), whose
      commands are applied before the render graph runs; then the graph node's update;
      then its run. */
  datatype Frame = Frame(world: RenderWorld, dispatch: Dispatch)

  function RenderFrame(rw: RenderWorld, pipelineReady: bool): (r: Result<Frame>)
    ensures r.Ok?
    ensures r.value.dispatch.Dispatched? <==> pipelineReady && (rw.bindGroup.Some? || Ready(rw))
    ensures r.value.dispatch.Dispatched? ==>
              r.value.world.bindGroup.Some? && r.value.dispatch.group == r.value.world.bindGroup.value && r.value.dispatch.x == YUP_COUNT
    ensures r.value.world.yupBuffer == rw.yupBuffer && r.value.world.terrain == rw.terrain
    ensures r.value.world.collisions == rw.collisions && r.value.world.gpuBuffers == rw.gpuBuffers
  {
    var prepared := PrepareStage(rw);
    assert Ready(prepared) ==> prepared.bindGroup.Some?;
    match NodeUpdate(prepared)
    case Panic(reason) => Panic(reason)
    case Ok(updated) => Ok(Frame(updated, NodeRun(updated, pipelineReady)))
  }

  /** The binding order is the same in the layout, in `prepare_bind_group` and in the
      node's update, and both builders bind the same view. */
  lemma BindingOrderAgrees(rw: RenderWorld)
    requires Ready(rw)
    ensures PrepareBindGroup(rw).bindGroup.Some?
    ensures KindsMatch(PrepareBindGroup(rw).bindGroup.value, CollisionsLayout)
    ensures rw.bindGroup.Some? ==> NodeUpdate(rw).Ok? && NodeUpdate(rw).value.bindGroup.Some?
    ensures rw.bindGroup.Some? ==> KindsMatch(NodeUpdate(rw).value.bindGroup.value, CollisionsLayout)
    ensures rw.bindGroup.Some? ==>
              PrepareBindGroup(rw).bindGroup.value == NodeUpdate(rw).value.bindGroup.value
  {
  }

  /** The node's update never reaches its panic inside a frame: whenever both GPU
      resources exist, the bind-group stage earlier in the same frame has made a group. */
  lemma RenderFrameNeverPanics(rw: RenderWorld, pipelineReady: bool)
    ensures RenderFrame(rw, pipelineReady).Ok?
  {
    var prepared := PrepareStage(rw);
    if Ready(prepared) {
      assert prepared.bindGroup.Some?;
    }
  }

  /** With both GPU resources present, a frame binds the current positions, the
      terrain's view and the current results buffer, and dispatches one workgroup per
      slot exactly when the pipeline is ready. The group suits the layout exactly
      when the terrain's view is linear. */
  lemma FrameBindsCurrentState(rw: RenderWorld, pipelineReady: bool)
    requires Ready(rw)
    ensures RenderFrame(rw, pipelineReady).Ok?
    ensures var f := RenderFrame(rw, pipelineReady).value;
            && f.world.bindGroup.Some?
            && KindsMatch(f.world.bindGroup.value, CollisionsLayout)
            && (MatchesLayout(f.world.bindGroup.value, CollisionsLayout)
                <==> rw.gpuImages[rw.terrain.handle].view.format == Rgba8Unorm)
            && f.world.bindGroup.value
               == [PositionsEntry(rw.yupBuffer), TerrainEntry(rw.gpuImages[rw.terrain.handle].view),
                   ResultsEntry(rw.gpuBuffers[rw.collisions])]
            && (f.dispatch.Dispatched? <==> pipelineReady)
            && (f.dispatch.Dispatched? ==> f.dispatch.group == f.world.bindGroup.value && f.dispatch.x == YUP_COUNT)
  {
    var prepared := PrepareStage(rw);
    assert Ready(prepared) && prepared.bindGroup.Some?;
  }

  /** While a GPU resource is missing, a frame changes nothing and replays the bind
      group of an earlier frame, if there was one; before the first one there is no
      dispatch at all. */
  lemma DegradedFrame(rw: RenderWorld, pipelineReady: bool)
    requires !Ready(rw)
    ensures RenderFrame(rw, pipelineReady).Ok?
    ensures RenderFrame(rw, pipelineReady).value.world == rw
    ensures rw.bindGroup.None? ==> RenderFrame(rw, pipelineReady).value.dispatch == NoDispatch
    ensures rw.bindGroup.Some? && pipelineReady ==>
              RenderFrame(rw, pipelineReady).value.dispatch.Dispatched?
              && RenderFrame(rw, pipelineReady).value.dispatch.group == rw.bindGroup.value
  {
  }
}
