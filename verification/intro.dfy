/** `prepare_level_images` of `src/screens/intro.rs`: turning the loaded level image
    into the source/destination render-target pair. */
module Intro {
  import opened Assets
  import opened Resources

  /** The usage a render target needs: copied into, sampled and rendered into. */
  const RenderTargetUsage: set<TextureUsage> := {CopyDst, TextureBinding, RenderAttachment}

  /** The image assets and the target pair after the system ran. */
  datatype Prepared = Prepared(images: Store<Image>, targets: LevelRenderTargets)

  /** `prepare_level_images`: returns early if the level image is not loaded;
      otherwise overwrites the level asset with a copy carrying render-target usage,
      adds a second identical copy, and makes the level handle `source` and the new
      handle `destination`. */
  function PrepareLevelImages(images: Store<Image>, targets: LevelRenderTargets, level: Handle): (r: Prepared)
    requires images.Valid()
    ensures r.images.Valid() && images.next <= r.images.next
    ensures level !in images.items ==> r == Prepared(images, targets)
    ensures level in images.items ==>
              var original := images.items[level];
              && r.targets.source == level
              && r.targets.destination !in images.items
              && r.targets.Distinct()
              && r.targets.destination < r.images.next
              && level in r.images.items && r.targets.destination in r.images.items
              && r.images.items[level] == original.(usage := RenderTargetUsage)
              && r.images.items[r.targets.destination] == r.images.items[level]
              && (forall h :: h != level && h != r.targets.destination ==>
                    (h in r.images.items <==> h in images.items)
                    && (h in images.items ==> r.images.items[h] == images.items[h]))
  {
    match images.Get(level)
    case None => Prepared(images, targets)
    case Some(levelImage) =>
      var sourceImage := levelImage.(usage := RenderTargetUsage);
      var destinationImage := sourceImage;
      var updated := images.Insert(level, sourceImage);
      var (images', destination) := updated.Add(destinationImage);
      Prepared(images', LevelRenderTargets(destination, level))
  }

  /** Both targets show the level's pixels at the level's size, and both can be
      rendered into and sampled. */
  lemma PreparedTargetsAgree(images: Store<Image>, targets: LevelRenderTargets, level: Handle)
    requires images.Valid() && level in images.items
    ensures var r := PrepareLevelImages(images, targets, level);
            && r.targets.source in r.images.items && r.targets.destination in r.images.items
            && var src := r.images.items[r.targets.source];
               var dst := r.images.items[r.targets.destination];
               && src.data == dst.data == images.items[level].data
               && src.width == dst.width == images.items[level].width
               && src.height == dst.height == images.items[level].height
               && RenderAttachment in src.usage && RenderAttachment in dst.usage
               && TextureBinding in src.usage && TextureBinding in dst.usage
  {
  }
}
