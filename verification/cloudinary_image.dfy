/** The image component's choice of source and size: the Cloudinary public id
    when Cloudinary is enabled, otherwise a local path under `/images/`. */
module CloudinaryImage {
  import opened Wrappers
  import opened Text
  import opened Cloudinary

  /** The `quality` prop: a number or a text setting such as `'auto'`. */
  datatype Quality = NumericQuality(n: int) | TextQuality(setting: string)

  /** The props the source decision depends on; absent props are `None`. */
  datatype ImageProps = ImageProps(
    src: string,
    width: Option<int>,
    height: Option<int>,
    fill: bool,
    quality: Option<Quality>)

  /** What is rendered: the Cloudinary image or the plain local image. */
  datatype Rendered =
    | Delivered(publicId: string, width: Option<int>, height: Option<int>, fill: bool, quality: Quality)
    | Local(path: string, width: Option<int>, height: Option<int>, fill: bool, localQuality: int)

  const DefaultWidth := 800
  const DefaultHeight := 600
  const DefaultLocalQuality := 90

  /** `v || fallback` for a number: absent and `0` are falsy. */
  function OrDefault(v: Option<int>, fallback: int): (r: int)
    ensures v.Some? && v.value != 0 ==> r == v.value
    ensures v.None? || v.value == 0 ==> r == fallback
  {
    if v.Some? && v.value != 0 then v.value else fallback
  }

  /** `localSrc`: a public id is turned back into a local `.webp` path by
      replacing its first `eleven-star/` with `/images/`; anything else is
      used as it is. */
  function LocalSrc(src: string): (path: string)
    ensures !IsCloudinaryPublicId(src) ==> path == src
    ensures IsCloudinaryPublicId(src) ==> path == ReplaceFirst(src, ProjectFolder, LocalFolder) + ".webp"
    ensures IsCloudinaryPublicId(src) ==> EndsWithExtension(path, "webp")
  {
    if IsCloudinaryPublicId(src) then
      var replaced := ReplaceFirst(src, ProjectFolder, LocalFolder);
      EndsWithWebp(replaced);
      replaced + ".webp"
    else src
  }

  /** Every id in the project folder maps to the same name under `/images/`,
      with `.webp` appended. */
  lemma LocalSrcOfProjectId(src: string)
    requires StartsWith(src, ProjectFolder)
    ensures LocalSrc(src) == LocalFolder + src[|ProjectFolder|..] + ".webp"
  {
    var rest := src[|ProjectFolder|..];
    assert src == ProjectFolder + rest;
    PublicIdsOnlyLoseExtension(src);
    ReplaceFirstAtStart(rest, ProjectFolder, LocalFolder);
  }

  /** An id that does not mention the project folder only gains `.webp`. */
  lemma LocalSrcOfBareId(src: string)
    requires IsCloudinaryPublicId(src) && !Contains(src, ProjectFolder)
    ensures LocalSrc(src) == src + ".webp"
  {
  }

  /** The component's render decision. */
  function Render(cloudName: string, props: ImageProps): (r: Rendered)
    ensures IsCloudinaryEnabled(cloudName) <==> r.Delivered?
    ensures r.Delivered? ==> r.publicId == GetImageSrc(cloudName, props.src)
    ensures r.Delivered? && !props.fill ==>
      r.width == Some(OrDefault(props.width, DefaultWidth)) && r.height == Some(OrDefault(props.height, DefaultHeight))
    ensures r.Delivered? && props.fill ==> r.width.None? && r.height.None?
    ensures r.Delivered? ==> r.quality == props.quality.GetOr(TextQuality("auto"))
    ensures r.Local? ==> r.path == LocalSrc(props.src) && r.width == props.width && r.height == props.height
    ensures r.Local? && props.quality.Some? && props.quality.value.NumericQuality? ==>
      r.localQuality == props.quality.value.n
    ensures r.Local? && !(props.quality.Some? && props.quality.value.NumericQuality?) ==>
      r.localQuality == DefaultLocalQuality
  {
    var quality := props.quality.GetOr(TextQuality("auto"));
    if IsCloudinaryEnabled(cloudName) then
      var publicId := GetCloudinaryPublicId(props.src);
      if props.fill then Delivered(publicId, None, None, true, quality)
      else Delivered(publicId, Some(OrDefault(props.width, DefaultWidth)),
                     Some(OrDefault(props.height, DefaultHeight)), false, quality)
    else
      Local(LocalSrc(props.src), props.width, props.height, props.fill,
            if quality.NumericQuality? then quality.n else DefaultLocalQuality)
  }

  /** An id in the project folder survives the trip to a local path and back. */
  lemma LocalSrcRoundTrip(id: string)
    requires StartsWith(id, ProjectFolder)
    ensures GetCloudinaryPublicId(LocalSrc(id)) == id
  {
    var rest := id[|ProjectFolder|..];
    LocalSrcOfProjectId(id);
    LocalPathToId(rest);
    assert id == ProjectFolder + rest;
  }

  /** A local `.webp` path survives the trip to an id and back. */
  lemma LocalPathRoundTrip(rest: string)
    ensures LocalSrc(GetCloudinaryPublicId(LocalFolder + rest + ".webp")) == LocalFolder + rest + ".webp"
  {
    LocalPathToId(rest);
    var id := ProjectFolder + rest;
    assert StartsWith(id, ProjectFolder);
    LocalSrcOfProjectId(id);
    assert id[|ProjectFolder|..] == rest;
  }

  /** Paths and URLs are never rewritten for local rendering. */
  lemma LocalSrcKeepsPaths(src: string)
    requires StartsWith(src, "/") || StartsWith(src, "http") || StartsWith(src, "blob:")
    ensures LocalSrc(src) == src
  {
  }

  /** The example in the component's comment: the driveway id maps to its
      local `.webp` file. */
  lemma DrivewayLocalExample(rest: string)
    requires rest == "projects/road-construction/driveway-1"
    ensures LocalSrc(ProjectFolder + rest) == LocalFolder + rest + ".webp"
  {
    var id := ProjectFolder + rest;
    assert StartsWith(id, ProjectFolder);
    LocalSrcOfProjectId(id);
    assert id[|ProjectFolder|..] == rest;
  }
}
