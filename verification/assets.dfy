/** Bevy's asset collections and the image records the terrain pipeline moves between them. */
module Assets {
  import opened Wrappers

  /** An asset handle. Handles of different asset types live in different stores. */
  type Handle = nat

  /** `Assets<T>`: stored assets by handle, plus the next handle `add` will hand out.
      Every stored handle was handed out before, so `add` never reuses one. */
  datatype Store<T> = Store(items: map<Handle, T>, next: Handle) {

    predicate Valid() {
      forall h :: h in items ==> h < next
    }

    /** `Assets::get`. */
    function Get(h: Handle): (r: Option<T>)
      ensures r.Some? <==> h in items
      ensures r.Some? ==> r.value == items[h]
    {
      if h in items then Some(items[h]) else None
    }

    /** `Assets::insert`: stores `v` under an existing handle, replacing what was there. */
    function Insert(h: Handle, v: T): (s: Store<T>)
      requires Valid() && h < next
      ensures s.Valid()
      ensures h in s.items && s.items[h] == v
      ensures forall k :: k != h ==> (k in s.items <==> k in items)
      ensures forall k :: k != h && k in items ==> s.items[k] == items[k]
      ensures s.next == next
    {
      Store(items[h := v], next)
    }

    /** `Assets::add`: stores `v` under a handle no other asset has. */
    function Add(v: T): (res: (Store<T>, Handle))
      requires Valid()
      ensures res.0.Valid()
      ensures res.1 !in items && res.1 < res.0.next
      ensures res.1 in res.0.items && res.0.items[res.1] == v
      ensures forall k :: k in items ==> k in res.0.items && res.0.items[k] == items[k]
      ensures forall k :: k in res.0.items ==> k in items || k == res.1
      ensures next <= res.0.next
    {
      (Store(items[next := v], next + 1), next)
    }
  }

  /** The texture formats that matter here: the compute shader needs the linear one. */
  datatype TextureFormat = Rgba8Unorm | Rgba8UnormSrgb | OtherFormat

  /** `TextureUsages` flags. */
  datatype TextureUsage = CopySrc | CopyDst | TextureBinding | StorageBinding | RenderAttachment

  /** `RenderAssetUsages` flags: which world keeps a copy of the asset. */
  datatype RenderAssetUsage = MainWorldAsset | RenderWorldAsset

  /** An image asset: pixel bytes (RGBA, four bytes per pixel), size, format and usage flags. */
  datatype Image = Image(
    data: seq<bv8>,
    width: nat,
    height: nat,
    format: TextureFormat,
    usage: set<TextureUsage>,
    assetUsage: set<RenderAssetUsage>)

  /** A four-byte RGBA `pixel` written `n` times in a row: the pixel data of `Image::new_fill`. */
  function Repeat(pixel: seq<bv8>, n: nat): (r: seq<bv8>)
    requires |pixel| == 4
    ensures |r| == 4 * n
    ensures forall i :: 0 <= i < |r| ==> r[i] == pixel[i % 4]
  {
    if n == 0 then []
    else
      var rest := Repeat(pixel, n - 1);
      assert forall i :: 4 <= i < 4 + |rest| ==> (pixel + rest)[i] == rest[i - 4] && (i - 4) % 4 == i % 4;
      pixel + rest
  }

  /** Every pixel of the image has alpha zero: nothing in it counts as terrain. */
  predicate Transparent(img: Image) {
    forall i :: 0 <= i < |img.data| && i % 4 == 3 ==> img.data[i] == 0
  }

  /** `Image::new_fill`: a `width` by `height` image whose every pixel is `pixel`.
      Bevy's own default texture usage is a parameter, not part of this model. */
  function NewFill(width: nat, height: nat, pixel: seq<bv8>, format: TextureFormat,
                   assetUsage: set<RenderAssetUsage>, defaultUsage: set<TextureUsage>): (img: Image)
    requires |pixel| == 4
    ensures img.width == width && img.height == height
    ensures |img.data| == 4 * width * height
    ensures forall i :: 0 <= i < |img.data| ==> img.data[i] == pixel[i % 4]
    ensures pixel[3] == 0 ==> Transparent(img)
    ensures img.format == format && img.assetUsage == assetUsage && img.usage == defaultUsage
  {
    Image(Repeat(pixel, width * height), width, height, format, defaultUsage, assetUsage)
  }
}
