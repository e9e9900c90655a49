/** Swap-chain support of a physical device (`SwapChainSupportDetails`) and
    the three choices made from it: surface format, present mode and image
    extent. The lists and capabilities are what the device reported. */
module SwapChain {

  const UInt32Range: int := 0x1_0000_0000
  /** `std::numeric_limits<uint32_t>::max()`: a current extent of this width
      means the window system lets the application pick the size. */
  const UInt32Max: nat := 0xFFFF_FFFF

  /** `VK_FORMAT_B8G8R8A8_SRGB` and `VK_COLOR_SPACE_SRGB_NONLINEAR_KHR`. */
  const FormatB8G8R8A8Srgb: nat := 50
  const ColorSpaceSrgbNonlinear: nat := 0

  /** `VkPresentModeKHR` values. */
  const PresentImmediate: nat := 0
  const PresentMailbox: nat := 1
  const PresentFifo: nat := 2

  datatype SurfaceFormat = SurfaceFormat(format: nat, colorSpace: nat)

  /** The format the viewer prefers. */
  const Preferred := SurfaceFormat(FormatB8G8R8A8Srgb, ColorSpaceSrgbNonlinear)

  datatype Extent = Extent(width: nat, height: nat)

  /** The fields of `VkSurfaceCapabilitiesKHR` the viewer reads. */
  datatype Capabilities = Capabilities(
    minImageCount: nat,
    maxImageCount: nat,
    currentExtent: Extent,
    minImageExtent: Extent,
    maxImageExtent: Extent)

  datatype SupportDetails = SupportDetails(
    capabilities: Capabilities,
    formats: seq<SurfaceFormat>,
    presentModes: seq<nat>)

  /** `operator bool`: at least one format and one present mode. */
  predicate Adequate(d: SupportDetails)
    ensures Adequate(d) <==> (exists f :: f in d.formats) && (exists m :: m in d.presentModes)
  {
    assert |d.formats| > 0 ==> d.formats[0] in d.formats;
    assert |d.presentModes| > 0 ==> d.presentModes[0] in d.presentModes;
    |d.formats| > 0 && |d.presentModes| > 0
  }

  /** `chooseSwapSurfaceFormat`: the preferred sRGB format when the device
      offers it, otherwise the first format offered. The list must not be
      empty (the source reads `formats[0]`). */
  method ChooseSurfaceFormat(formats: seq<SurfaceFormat>) returns (r: SurfaceFormat)
    requires |formats| > 0
    ensures r in formats
    ensures Preferred in formats ==> r == Preferred
    ensures Preferred !in formats ==> r == formats[0]
  {
    var i := 0;
    while i < |formats|
      invariant 0 <= i <= |formats|
      invariant Preferred !in formats[..i]
    {
      if formats[i].format == FormatB8G8R8A8Srgb && formats[i].colorSpace == ColorSpaceSrgbNonlinear {
        return formats[i];
      }
      i := i + 1;
    }
    assert formats[..i] == formats;
    return formats[0];
  }

  /** `chooseSwapPresentMode`: mailbox when offered, otherwise FIFO, which
      the Vulkan specification guarantees, whether listed or not. */
  method ChoosePresentMode(modes: seq<nat>) returns (r: nat)
    ensures r == PresentMailbox <==> PresentMailbox in modes
    ensures r == PresentMailbox || r == PresentFifo
  {
    var i := 0;
    while i < |modes|
      invariant 0 <= i <= |modes|
      invariant PresentMailbox !in modes[..i]
    {
      if modes[i] == PresentMailbox {
        return modes[i];
      }
      i := i + 1;
    }
    assert modes[..i] == modes;
    return PresentFifo;
  }

  /** `static_cast<uint32_t>` of an `int`: reduction modulo 2^32. */
  function ToUInt32(x: int): (r: nat)
    ensures r < UInt32Range
    ensures 0 <= x < UInt32Range ==> r == x
    ensures (r - x) % UInt32Range == 0
  {
    x % UInt32Range
  }

  /** `std::clamp(v, lo, hi)` as the standard library writes it:
      `v < lo ? lo : hi < v ? hi : v`. */
  function Clamp(v: int, lo: int, hi: int): (r: int)
    ensures lo <= hi ==> lo <= r <= hi
    ensures r == v || r == lo || r == hi
  {
    if v < lo then lo else if hi < v then hi else v
  }

  /** `chooseSwapExtent`: the surface's current extent unless its width is
      the "pick it yourself" marker; then the framebuffer size (reported as
      `int` by the window system) is converted to `uint32_t` and clamped into
      the allowed range, one dimension at a time. */
  function ChooseExtent(caps: Capabilities, framebufferWidth: int, framebufferHeight: int): (r: Extent)
    ensures caps.currentExtent.width != UInt32Max ==> r == caps.currentExtent
    ensures caps.currentExtent.width == UInt32Max && caps.minImageExtent.width <= caps.maxImageExtent.width
      ==> caps.minImageExtent.width <= r.width <= caps.maxImageExtent.width
    ensures caps.currentExtent.width == UInt32Max && caps.minImageExtent.height <= caps.maxImageExtent.height
      ==> caps.minImageExtent.height <= r.height <= caps.maxImageExtent.height
    ensures caps.currentExtent.width == UInt32Max ==>
      forall x :: caps.minImageExtent.width <= x <= caps.maxImageExtent.width ==>
        Dist(r.width, ToUInt32(framebufferWidth)) <= Dist(x, ToUInt32(framebufferWidth))
    ensures caps.currentExtent.width == UInt32Max ==>
      forall y :: caps.minImageExtent.height <= y <= caps.maxImageExtent.height ==>
        Dist(r.height, ToUInt32(framebufferHeight)) <= Dist(y, ToUInt32(framebufferHeight))
  {
    if caps.currentExtent.width != UInt32Max then caps.currentExtent
    else
      var w := ToUInt32(framebufferWidth);
      var h := ToUInt32(framebufferHeight);
      ClampNearest(w, caps.minImageExtent.width, caps.maxImageExtent.width);
      ClampNearest(h, caps.minImageExtent.height, caps.maxImageExtent.height);
      Extent(Clamp(w, caps.minImageExtent.width, caps.maxImageExtent.width) as nat,
             Clamp(h, caps.minImageExtent.height, caps.maxImageExtent.height) as nat)
  }

  // ---------------------------------------------------------------------------
  // Proofs

  /** The clamped value is the point of `[lo, hi]` nearest to `v`. */
  lemma ClampNearest(v: int, lo: int, hi: int)
    ensures forall x :: lo <= x <= hi ==> Dist(Clamp(v, lo, hi), v) <= Dist(x, v)
  {
  }

  function Dist(a: int, b: int): nat {
    if a <= b then b - a else a - b
  }

  /** A framebuffer size already within the allowed range is kept. */
  lemma ExtentKeepsFittingSize(caps: Capabilities, w: nat, h: nat)
    requires caps.currentExtent.width == UInt32Max
    requires caps.minImageExtent.width <= w <= caps.maxImageExtent.width
    requires caps.minImageExtent.height <= h <= caps.maxImageExtent.height
    requires w < UInt32Range && h < UInt32Range
    ensures ChooseExtent(caps, w, h) == Extent(w, h)
  {
  }

  /** A negative size reported by the window system wraps to a huge
      unsigned value, which the clamp then pulls down to the maximum. */
  lemma NegativeSizeClampsToMax(caps: Capabilities)
    requires caps.currentExtent.width == UInt32Max
    requires caps.maxImageExtent.width < UInt32Max
    requires caps.minImageExtent.width <= caps.maxImageExtent.width
    ensures ChooseExtent(caps, -1, 0).width == caps.maxImageExtent.width
  {
    assert ToUInt32(-1) == UInt32Max;
  }
}
