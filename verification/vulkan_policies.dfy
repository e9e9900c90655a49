/** Decisions `VulkanInstance` takes between API calls: which memory type
    to allocate from, how many swapchain images to ask for, how the images
    are shared between queue families, which image-layout transitions are
    supported, how the swapchain's dependent resources are rebuilt, and the
    built-in quad. */
module VulkanPolicies {
  import opened Wrappers
  import QueueFamilies
  import SwapChain

  const UInt32Range: int := 0x1_0000_0000
  const UInt32Max: nat := 0xFFFF_FFFF

  // ---------------------------------------------------------------------------
  // Memory types

  /** `VK_MAX_MEMORY_TYPES`: the size of the driver's memory-type array. */
  const MaxMemoryTypes: nat := 32

  /** Memory type `i` is allowed by the filter and has every requested
      property flag. */
  predicate MemoryTypeMatches(types: seq<bv32>, typeFilter: bv32, properties: bv32, i: nat)
    requires i < |types| <= MaxMemoryTypes
  {
    typeFilter & ((1 as bv32) << i) != 0 && types[i] & properties == properties
  }

  /** `find_memory_type`: the first memory type, in the driver's order, that
      matches; `runtime_error` when none does. `types` holds the property
      flags of the `memoryTypeCount` reported types. */
  method FindMemoryType(types: seq<bv32>, typeFilter: bv32, properties: bv32) returns (r: Result<nat, string>)
    requires |types| <= MaxMemoryTypes
    ensures r.Ok? ==> r.value < |types| && MemoryTypeMatches(types, typeFilter, properties, r.value)
    ensures r.Ok? ==> forall j :: 0 <= j < r.value ==> !MemoryTypeMatches(types, typeFilter, properties, j)
    ensures r.Err? <==> forall j :: 0 <= j < |types| ==> !MemoryTypeMatches(types, typeFilter, properties, j)
    ensures r.Err? ==> r.error == "couldn't find suitable memory type"
  {
    var i := 0;
    while i < |types|
      invariant 0 <= i <= |types|
      invariant forall j :: 0 <= j < i ==> !MemoryTypeMatches(types, typeFilter, properties, j)
    {
      if typeFilter & ((1 as bv32) << i) != 0 && types[i] & properties == properties {
        assert MemoryTypeMatches(types, typeFilter, properties, i);
        return Ok(i);
      }
      i := i + 1;
    }
    return Err("couldn't find suitable memory type");
  }

  // ---------------------------------------------------------------------------
  // Swapchain creation parameters

  /** The image count requested in `create_swapchain`: one more than the
      minimum (a `uint32_t` addition), lowered to the maximum when the
      surface has one (a maximum of 0 means "no limit"). */
  function ImageCount(caps: SwapChain.Capabilities): (r: nat)
    requires caps.minImageCount < UInt32Range && caps.maxImageCount < UInt32Range
    ensures r < UInt32Range
    ensures caps.maxImageCount > 0 ==> r <= caps.maxImageCount
    ensures caps.minImageCount < UInt32Max && (caps.maxImageCount == 0 || caps.minImageCount < caps.maxImageCount)
      ==> r == caps.minImageCount + 1
    ensures caps.minImageCount < UInt32Max && 0 < caps.maxImageCount <= caps.minImageCount
      ==> r == caps.maxImageCount
    ensures caps.minImageCount == UInt32Max ==> r == 0
  {
    var count := (caps.minImageCount + 1) % UInt32Range;
    if caps.maxImageCount > 0 && count > caps.maxImageCount then caps.maxImageCount else count
  }

  /** `VkSharingMode` with the queue family indices handed to the driver. */
  datatype SharingMode = Exclusive | Concurrent(queueFamilyIndices: seq<nat>)

  /** The sharing mode of `create_swapchain`: both family indices are read
      with `.value()` (throwing `bad_optional_access` when one is missing);
      the images are shared concurrently between two different families
      and owned exclusively when one family does both jobs. */
  function ChooseSharingMode(ix: QueueFamilies.QueueFamilyIndices): (r: Result<SharingMode, string>)
    ensures r.Ok? <==> QueueFamilies.Complete(ix)
    ensures r.Err? ==> r.error == "bad optional access"
    ensures r.Ok? ==> (r.value.Concurrent? <==> ix.graphicsFamily != ix.presentFamily)
    ensures r.Ok? && r.value.Concurrent? ==>
      r.value.queueFamilyIndices == [ix.graphicsFamily.value, ix.presentFamily.value]
  {
    if ix.graphicsFamily.None? || ix.presentFamily.None? then Err("bad optional access")
    else
      var indices := [ix.graphicsFamily.value, ix.presentFamily.value];
      if ix.graphicsFamily != ix.presentFamily then Ok(Concurrent(indices)) else Ok(Exclusive)
  }

  /** The families that may touch the swapchain images under a sharing
      mode: the listed ones, or the single owner. */
  function Users(mode: SharingMode, owner: nat): set<nat> {
    match mode
    case Exclusive => {owner}
    case Concurrent(indices) => set i | i in indices
  }

  // ---------------------------------------------------------------------------
  // Image layout transitions

  /** `VkImageLayout` values. */
  const LayoutUndefined: nat := 0
  const LayoutShaderReadOnlyOptimal: nat := 5
  const LayoutTransferDstOptimal: nat := 7

  /** `VkAccessFlagBits` and `VkPipelineStageFlagBits` values. */
  const AccessShaderRead: bv32 := 0x20
  const AccessTransferRead: bv32 := 0x800
  const AccessTransferWrite: bv32 := 0x1000
  const StageTopOfPipe: bv32 := 0x1
  const StageFragmentShader: bv32 := 0x80
  const StageTransfer: bv32 := 0x1000

  /** The parts of the `VkImageMemoryBarrier` and the stage masks handed
      to `vkCmdPipelineBarrier` that depend on the layouts. */
  datatype Barrier = Barrier(
    oldLayout: nat,
    newLayout: nat,
    srcAccessMask: bv32,
    dstAccessMask: bv32,
    srcStage: bv32,
    dstStage: bv32)

  /** The two transitions a texture upload needs. */
  predicate Supported(oldLayout: nat, newLayout: nat) {
    (oldLayout == LayoutUndefined && newLayout == LayoutTransferDstOptimal)
    || (oldLayout == LayoutTransferDstOptimal && newLayout == LayoutShaderReadOnlyOptimal)
  }

  /** The barrier each branch of `transition_image_layout` sets up, with
      the access masks the branch chooses, before the lines after the
      branch overwrite them. */
  function BranchBarrier(oldLayout: nat, newLayout: nat): (r: Result<Barrier, string>)
    ensures r.Ok? <==> Supported(oldLayout, newLayout)
    ensures r.Err? ==> r.error == "unsupported layout transition"
    ensures r.Ok? ==> r.value.oldLayout == oldLayout && r.value.newLayout == newLayout
    ensures r.Ok? && oldLayout == LayoutUndefined ==>
      && r.value.srcAccessMask == 0 && r.value.dstAccessMask == AccessTransferWrite
      && r.value.srcStage == StageTopOfPipe && r.value.dstStage == StageTransfer
    ensures r.Ok? && oldLayout == LayoutTransferDstOptimal ==>
      && r.value.srcAccessMask == AccessTransferWrite && r.value.dstAccessMask == AccessTransferRead
      && r.value.srcStage == StageTransfer && r.value.dstStage == StageFragmentShader
  {
    if oldLayout == LayoutUndefined && newLayout == LayoutTransferDstOptimal then
      Ok(Barrier(oldLayout, newLayout, 0, AccessTransferWrite, StageTopOfPipe, StageTransfer))
    else if oldLayout == LayoutTransferDstOptimal && newLayout == LayoutShaderReadOnlyOptimal then
      Ok(Barrier(oldLayout, newLayout, AccessTransferWrite, AccessTransferRead, StageTransfer, StageFragmentShader))
    else
      Err("unsupported layout transition")
  }

  /** `transition_image_layout` as written: only the whitelisted
      transitions are accepted (`invalid_argument` otherwise), the stages
      are the branch's, and after the branch both access masks are reset
      to 0. */
  function TransitionImageLayout(oldLayout: nat, newLayout: nat): (r: Result<Barrier, string>)
    ensures r.Ok? <==> Supported(oldLayout, newLayout)
    ensures r.Err? ==> r.error == "unsupported layout transition"
    ensures r.Ok? ==> r.value.srcAccessMask == 0 && r.value.dstAccessMask == 0
    ensures r.Ok? ==> r.value.oldLayout == oldLayout && r.value.newLayout == newLayout
    ensures r.Ok? && oldLayout == LayoutUndefined ==>
      r.value.srcStage == StageTopOfPipe && r.value.dstStage == StageTransfer
    ensures r.Ok? && oldLayout == LayoutTransferDstOptimal ==>
      r.value.srcStage == StageTransfer && r.value.dstStage == StageFragmentShader
  {
    var b :- BranchBarrier(oldLayout, newLayout);
    Ok(b.(srcAccessMask := 0, dstAccessMask := 0))
  }

  /** The transition as the upload needs it: the same whitelist, layouts
      and stages, the masks each branch chooses kept, and the second
      transition waiting for shader reads rather than transfer reads. */
  function TransitionImageLayoutIntended(oldLayout: nat, newLayout: nat): (r: Result<Barrier, string>)
    ensures r.Ok? <==> Supported(oldLayout, newLayout)
    ensures r.Err? ==> r.error == "unsupported layout transition"
    ensures r.Ok? ==> r.value.oldLayout == oldLayout && r.value.newLayout == newLayout
    ensures r.Ok? && oldLayout == LayoutUndefined ==>
      && r.value.srcAccessMask == 0 && r.value.dstAccessMask == AccessTransferWrite
      && r.value.srcStage == StageTopOfPipe && r.value.dstStage == StageTransfer
    ensures r.Ok? && oldLayout == LayoutTransferDstOptimal ==>
      && r.value.srcAccessMask == AccessTransferWrite && r.value.dstAccessMask == AccessShaderRead
      && r.value.srcStage == StageTransfer && r.value.dstStage == StageFragmentShader
  {
    var b :- BranchBarrier(oldLayout, newLayout);
    if oldLayout == LayoutTransferDstOptimal then Ok(b.(dstAccessMask := AccessShaderRead)) else Ok(b)
  }

  /** The upload sequence: into transfer-destination layout, the copy,
      then into shader-read-only layout. The copy's writes are made
      available when the first barrier makes the copy wait with write
      access and the second barrier's source scope names the transfer
      write. */
  predicate WriteAvailable(first: Barrier, second: Barrier) {
    && first.dstAccessMask & AccessTransferWrite != 0 && first.dstStage & StageTransfer != 0
    && second.srcAccessMask & AccessTransferWrite != 0 && second.srcStage & StageTransfer != 0
  }

  /** The written texels are made visible to the fragment shader when the
      second barrier's destination scope names shader reads in that
      stage. */
  predicate ReadVisible(second: Barrier) {
    second.dstAccessMask & AccessShaderRead != 0 && second.dstStage & StageFragmentShader != 0
  }

  predicate UploadOrdered(first: Barrier, second: Barrier) {
    WriteAvailable(first, second) && ReadVisible(second)
  }

  // ---------------------------------------------------------------------------
  // Swapchain resources

  datatype ImageView = ImageView(image: nat, format: nat)
  datatype Framebuffer = Framebuffer(attachment: ImageView, width: nat, height: nat)

  /** The swapchain and the resources built on its images. Handles are
      abstract numbers; `None` is `VK_NULL_HANDLE`. */
  datatype Resources = Resources(
    swapchain: Option<nat>,
    images: seq<nat>,
    views: seq<ImageView>,
    framebuffers: seq<Framebuffer>,
    format: nat,
    extent: SwapChain.Extent)

  /** One view per image, one framebuffer per view, each framebuffer built
      on the view of the same index and sized to the swapchain extent. */
  predicate Consistent(s: Resources) {
    |s.views| == |s.images| && |s.framebuffers| == |s.views|
    && (forall i :: 0 <= i < |s.views| ==> s.views[i] == ImageView(s.images[i], s.format))
    && (forall i :: 0 <= i < |s.framebuffers| ==>
          s.framebuffers[i] == Framebuffer(s.views[i], s.extent.width, s.extent.height))
  }

  /** `cleanup_swapchain`: destroy and forget the framebuffers, the image
      views and the swapchain with its images. */
  function CleanupSwapchain(s: Resources): (r: Resources)
    ensures r.framebuffers == [] && r.views == [] && r.images == [] && r.swapchain == None
    ensures r.format == s.format && r.extent == s.extent
  {
    s.(framebuffers := [], views := [], images := [], swapchain := None)
  }

  /** The bookkeeping part of `create_swapchain`: the new handle, the
      images the driver returns for it, and the chosen format and extent. */
  function CreateSwapchain(s: Resources, handle: nat, images: seq<nat>, format: nat, extent: SwapChain.Extent): (r: Resources)
    ensures r.swapchain == Some(handle) && r.images == images && r.format == format && r.extent == extent
    ensures r.views == s.views && r.framebuffers == s.framebuffers
  {
    s.(swapchain := Some(handle), images := images, format := format, extent := extent)
  }

  /** `create_image_views`: the view list is resized to the image count and
      every entry replaced by a view of the image with the same index. */
  function CreateImageViews(s: Resources): (r: Resources)
    ensures |r.views| == |s.images|
    ensures forall i :: 0 <= i < |r.views| ==> r.views[i].image == s.images[i] && r.views[i].format == s.format
    ensures r.(views := s.views) == s
  {
    s.(views := seq(|s.images|, i requires 0 <= i < |s.images| => ImageView(s.images[i], s.format)))
  }

  /** `create_framebuffers`: one framebuffer per view, attached to the view
      with the same index and sized to the swapchain extent. */
  function CreateFramebuffers(s: Resources): (r: Resources)
    ensures |r.framebuffers| == |s.views|
    ensures forall i :: 0 <= i < |r.framebuffers| ==> r.framebuffers[i].attachment == s.views[i]
    ensures forall i :: 0 <= i < |r.framebuffers| ==>
      r.framebuffers[i].width == s.extent.width && r.framebuffers[i].height == s.extent.height
    ensures r.(framebuffers := s.framebuffers) == s
  {
    s.(framebuffers := seq(|s.views|, i requires 0 <= i < |s.views| =>
                             Framebuffer(s.views[i], s.extent.width, s.extent.height)))
  }

  /** `recreate_swapchain` after the window has a non-zero size: clean up,
      then create the swapchain, its views and its framebuffers again. */
  function RecreateSwapchain(s: Resources, handle: nat, images: seq<nat>, format: nat, extent: SwapChain.Extent): (r: Resources)
    ensures Consistent(r)
    ensures r.swapchain == Some(handle) && r.images == images
    ensures r.format == format && r.extent == extent
  {
    CreateFramebuffers(CreateImageViews(CreateSwapchain(CleanupSwapchain(s), handle, images, format, extent)))
  }

  // ---------------------------------------------------------------------------
  // Built-in geometry

  datatype Point = Point(x: real, y: real)
  datatype Colour = Colour(r: real, g: real, b: real)
  datatype VertexData = VertexData(position: Point, color: Colour, tex: Point)

  const UInt16Range: nat := 0x1_0000

  /** The four vertices the instance starts with. */
  const QuadVertices: seq<VertexData> := [
    VertexData(Point(-0.5, -0.5), Colour(1.0, 0.0, 0.0), Point(1.0, 0.0)),
    VertexData(Point(0.5, -0.5), Colour(0.0, 1.0, 0.0), Point(0.0, 0.0)),
    VertexData(Point(0.5, 0.5), Colour(0.0, 0.0, 1.0), Point(0.0, 1.0)),
    VertexData(Point(-0.5, 0.5), Colour(1.0, 1.0, 1.0), Point(1.0, 1.0))
  ]

  /** The six 16-bit indices: two triangles over the quad. */
  const QuadIndices: seq<nat> := [0, 1, 2, 2, 3, 0]

  /** Twice the signed area of a triangle: positive when the corners run
      counter-clockwise. */
  function TwiceSignedArea(a: Point, b: Point, c: Point): real {
    (b.x - a.x) * (c.y - a.y) - (c.x - a.x) * (b.y - a.y)
  }

  /** Triangle `t` of an index list. */
  function Corners(vertices: seq<VertexData>, indices: seq<nat>, t: nat): (Point, Point, Point)
    requires 3 * t + 2 < |indices|
    requires forall k :: 0 <= k < |indices| ==> indices[k] < |vertices|
  {
    (vertices[indices[3 * t]].position, vertices[indices[3 * t + 1]].position, vertices[indices[3 * t + 2]].position)
  }

  // ---------------------------------------------------------------------------
  // Proofs

  /** The memory-type search only looks at the filter bits below the
      type count: with an empty filter, or no property set a type has, it
      finds nothing. */
  lemma EmptyFilterMatchesNothing(types: seq<bv32>, properties: bv32, i: nat)
    requires i < |types| <= MaxMemoryTypes
    ensures !MemoryTypeMatches(types, 0, properties, i)
  {
  }

  /** When the surface's limits are consistent and the minimum is not the
      largest 32-bit value, the request is within the limits. */
  lemma ImageCountWithinLimits(caps: SwapChain.Capabilities)
    requires caps.minImageCount < UInt32Max && caps.maxImageCount < UInt32Range
    requires caps.maxImageCount == 0 || caps.minImageCount <= caps.maxImageCount
    ensures caps.minImageCount <= ImageCount(caps)
    ensures caps.maxImageCount == 0 || ImageCount(caps) <= caps.maxImageCount
  {
  }

  /** A minimum of `UINT32_MAX` wraps: with no maximum the request is for
      0 images. */
  lemma ImageCountWraps(caps: SwapChain.Capabilities)
    requires caps.minImageCount == UInt32Max && caps.maxImageCount == 0
    ensures ImageCount(caps) == 0
  {
  }

  /** The families allowed to use the images are exactly the distinct
      families the queues come from, and sharing is concurrent exactly when
      there are two of them. */
  lemma SharingCoversFamilies(ix: QueueFamilies.QueueFamilyIndices)
    requires QueueFamilies.Complete(ix)
    ensures Users(ChooseSharingMode(ix).value, ix.graphicsFamily.value) == QueueFamilies.FamilySet(ix)
    ensures ChooseSharingMode(ix).value.Concurrent? <==> |QueueFamilies.FamilySet(ix)| == 2
  {
    QueueFamilies.FamilySetSize(ix);
    var g, p := ix.graphicsFamily.value, ix.presentFamily.value;
    if g != p {
      assert Users(ChooseSharingMode(ix).value, g) == {g, p};
    }
  }

  /** As written, the upload's barriers carry no access masks, so the
      copy's writes are neither made available nor made visible to the
      shader's reads. */
  lemma AsWrittenUploadUnordered()
    ensures TransitionImageLayout(LayoutUndefined, LayoutTransferDstOptimal).Ok?
    ensures TransitionImageLayout(LayoutTransferDstOptimal, LayoutShaderReadOnlyOptimal).Ok?
    ensures var first := TransitionImageLayout(LayoutUndefined, LayoutTransferDstOptimal).value;
      var second := TransitionImageLayout(LayoutTransferDstOptimal, LayoutShaderReadOnlyOptimal).value;
      !WriteAvailable(first, second) && !ReadVisible(second)
  {
  }

  /** Even with the branch masks kept, the second barrier waits for
      transfer reads, so the copy's writes are made available but not
      made visible to the fragment shader. */
  lemma BranchMasksNotVisible()
    ensures BranchBarrier(LayoutUndefined, LayoutTransferDstOptimal).Ok?
    ensures BranchBarrier(LayoutTransferDstOptimal, LayoutShaderReadOnlyOptimal).Ok?
    ensures var first := BranchBarrier(LayoutUndefined, LayoutTransferDstOptimal).value;
      var second := BranchBarrier(LayoutTransferDstOptimal, LayoutShaderReadOnlyOptimal).value;
      WriteAvailable(first, second) && !ReadVisible(second)
  {
  }

  /** With the branch masks kept and shader reads named, the upload is
      ordered, and the accepted transitions, layouts and stages are the
      same as written. */
  lemma IntendedUploadOrdered(oldLayout: nat, newLayout: nat)
    ensures UploadOrdered(TransitionImageLayoutIntended(LayoutUndefined, LayoutTransferDstOptimal).value,
                          TransitionImageLayoutIntended(LayoutTransferDstOptimal, LayoutShaderReadOnlyOptimal).value)
    ensures TransitionImageLayoutIntended(oldLayout, newLayout).Ok? <==> TransitionImageLayout(oldLayout, newLayout).Ok?
    ensures TransitionImageLayoutIntended(oldLayout, newLayout).Ok? ==>
      TransitionImageLayoutIntended(oldLayout, newLayout).value.(srcAccessMask := 0, dstAccessMask := 0)
      == TransitionImageLayout(oldLayout, newLayout).value
  {
  }

  /** Cleaning up twice is the same as once. */
  lemma CleanupIdempotent(s: Resources)
    ensures CleanupSwapchain(CleanupSwapchain(s)) == CleanupSwapchain(s)
  {
  }

  /** After a recreation the resources are consistent and built on the new
      swapchain's images, whatever state they were in before. */
  lemma RecreateConsistent(s: Resources, handle: nat, images: seq<nat>, format: nat, extent: SwapChain.Extent)
    ensures var r := RecreateSwapchain(s, handle, images, format, extent);
      Consistent(r) && r.swapchain == Some(handle) && r.images == images
  {
  }

  /** Nothing of the old swapchain's resources survives a recreation. */
  lemma RecreateForgetsOld(s: Resources, s': Resources, handle: nat, images: seq<nat>, format: nat, extent: SwapChain.Extent)
    ensures RecreateSwapchain(s, handle, images, format, extent) == RecreateSwapchain(s', handle, images, format, extent)
  {
  }

  /** The built-in quad: four vertices, six indices, all of them valid
      vertex numbers that fit in 16 bits; both triangles wind the same way,
      together cover the unit square and share the diagonal 0-2; the
      texture coordinates lie in [0, 1]. */
  lemma BuiltInQuad()
    ensures |QuadVertices| == 4 && |QuadIndices| == 6
    ensures forall k :: 0 <= k < |QuadIndices| ==> QuadIndices[k] < |QuadVertices| && QuadIndices[k] < UInt16Range
    ensures var (a, b, c) := Corners(QuadVertices, QuadIndices, 0);
            var (d, e, f) := Corners(QuadVertices, QuadIndices, 1);
            TwiceSignedArea(a, b, c) > 0.0 && TwiceSignedArea(d, e, f) > 0.0
            && TwiceSignedArea(a, b, c) + TwiceSignedArea(d, e, f) == 2.0
    ensures {QuadIndices[0], QuadIndices[2]} == {QuadIndices[3], QuadIndices[5]}
    ensures forall v :: v in QuadVertices ==> 0.0 <= v.tex.x <= 1.0 && 0.0 <= v.tex.y <= 1.0
  {
  }
}
