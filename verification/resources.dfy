/** The resources that the level systems and the collision systems share. */
module Resources {
  import opened Assets

  /** `LevelRenderTargets`: the ping-pong pair. The terrain material samples
      `source`; the level camera renders into `destination`. */
  datatype LevelRenderTargets = LevelRenderTargets(destination: Handle, source: Handle) {

    /** The image it is safe to read this frame. */
    function Stable(): Handle { source }

    /** The image this frame renders into. */
    function Active(): Handle { destination }

    /** The exchange performed at the end of every fixed loop. */
    function Swap(): (t: LevelRenderTargets)
      ensures t.Stable() == Active() && t.Active() == Stable()
    {
      LevelRenderTargets(source, destination)
    }

    /** Both roles are held by different images. */
    predicate Distinct() { source != destination }
  }

  /** Swapping twice gives back the original pair. */
  lemma SwapInvolution(t: LevelRenderTargets)
    ensures t.Swap().Swap() == t
  {
  }

  /** Swapping keeps the two roles on different images, and never merges them. */
  lemma SwapKeepsDistinct(t: LevelRenderTargets)
    ensures t.Swap().Distinct() <==> t.Distinct()
  {
  }

  /** `CollisionsTerrain`: the image the collision compute pass reads. */
  datatype CollisionsTerrain = CollisionsTerrain(handle: Handle)
}
