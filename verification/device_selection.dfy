/** The application's own decisions: the start-up argument check, the
    suitability score of a physical device, first-fit device selection and
    the rotation of the frame-slot index in the render loop. */
module DeviceSelection {
  import opened Wrappers
  import QueueFamilies
  import SwapChain
  import GraphicsUtils
  import ObjParser

  const UInt32Range: int := 0x1_0000_0000

  /** `VK_PHYSICAL_DEVICE_TYPE_DISCRETE_GPU` and the bonus it earns. */
  const PhysicalDeviceTypeDiscreteGpu: nat := 2
  const DiscreteBonus: nat := 1000

  // ---------------------------------------------------------------------------
  // Start-up

  /** What the constructor does before initialising the window: stop with a
      status, or carry on with the parsed mesh. */
  datatype Startup = Exit(status: int) | Proceed(mesh: ObjParser.File)

  /** `Application::Application`: exactly one argument (the scene file) is
      required; an unreadable file (`contents == None`) or a parse error
      also ends the program with status 1. The mesh starts empty. */
  function Start(argc: int, contents: Option<seq<string>>): (r: Startup)
    ensures argc != 2 ==> r == Exit(1)
    ensures contents.None? ==> r == Exit(1)
    ensures r.Exit? ==> r.status == 1
    ensures r.Proceed? ==> argc == 2 && contents.Some?
    ensures r.Proceed? ==> forall t :: t in r.mesh.triangulated ==> |t.vertices| == 3
    ensures argc == 2 && contents.Some? ==>
      (r.Proceed? <==> forall i {:trigger ObjParser.LineAccepted(contents.value[i])} :: 0 <= i < |contents.value| ==> ObjParser.LineAccepted(contents.value[i]))
    ensures r.Proceed? ==>
      && r.mesh.vertices == ObjParser.VerticesOf(contents.value)
      && r.mesh.texCoords == ObjParser.TexturesOf(contents.value)
      && r.mesh.normals == ObjParser.NormalsOf(contents.value)
      && r.mesh.faces == ObjParser.FacesOf(contents.value)
      && ObjParser.Triangulate(r.mesh.faces) == Ok(r.mesh.triangulated)
  {
    if argc != 2 then Exit(1)
    else if contents.None? then Exit(1)
    else
      var lines := contents.value;
      var out := ObjParser.Parse(ObjParser.EmptyFile, lines);
      assert lines[..|lines|] == lines;
      assert ObjParser.EmptyFile.(vertices := []) == ObjParser.EmptyFile;
      assert out.failure.None? ==> ObjParser.AcceptedPrefix(lines) == |lines|;
      if out.failure.Some? then Exit(1) else Proceed(out.state)
  }

  /** A scene of one triangle and one quad starts the viewer with three
      triangles. */
  lemma StartsOnTriangleAndQuad()
    ensures var r := Start(2, Some(["f 1 2 3", "f 1 2 3 4"]));
      r.Proceed? && |r.mesh.faces| == 2 && |r.mesh.triangulated| == 3
  {
    ObjParser.TriangleAndQuad();
    StartParses(["f 1 2 3", "f 1 2 3 4"]);
  }

  /** With its one argument readable, start-up carries on exactly when the
      parse succeeds, with the parsed mesh. */
  lemma StartParses(lines: seq<string>)
    ensures var out := ObjParser.Parse(ObjParser.EmptyFile, lines);
      Start(2, Some(lines)) == if out.failure.Some? then Exit(1) else Proceed(out.state)
  {
  }

  // ---------------------------------------------------------------------------
  // Suitability

  datatype Features = Features(sampleRateShading: bool, samplerAnisotropy: bool)

  /** What the driver reports about one physical device: properties, limits,
      features, queue families (with surface support), extension names and
      swap-chain support. `maxImageDimension2D` is a `uint32_t`;
      `maxSamplerAnisotropy` is a `float`. */
  datatype Device = Device(
    deviceType: nat,
    maxImageDimension2D: nat,
    maxSamplerAnisotropy: real,
    features: Features,
    queueFamilies: seq<QueueFamilies.QueueFamily>,
    extensions: seq<string>,
    swapChain: SwapChain.SupportDetails)

  /** Values the driver can report: a 32-bit dimension, and an anisotropy
      whose conversion to `uint32_t` is defined (after truncation toward
      zero it must fit). */
  predicate Reported(d: Device) {
    d.maxImageDimension2D < UInt32Range && -1.0 < d.maxSamplerAnisotropy < UInt32Range as real
  }

  /** The queue families `find_queue_families` returns for the device. */
  function FamiliesFound(d: Device): QueueFamilies.QueueFamilyIndices {
    QueueFamilies.SeenAfter(d.queueFamilies, QueueFamilies.ScanLength(d.queueFamilies, 0))
  }

  /** `check_mandatory_features`: both features first, then complete queue
      families, the device extensions and adequate swap-chain support. */
  predicate Mandatory(d: Device, portability: bool)
    ensures Mandatory(d, portability) ==>
      && GraphicsUtils.SwapchainExtension in d.extensions
      && |d.swapChain.formats| > 0 && |d.swapChain.presentModes| > 0
      && FamiliesFound(d).graphicsFamily.Some? && FamiliesFound(d).presentFamily.Some?
  {
    assert GraphicsUtils.SwapchainExtension in GraphicsUtils.DeviceExtensions(portability);
    d.features.sampleRateShading && d.features.samplerAnisotropy
    && QueueFamilies.Complete(FamiliesFound(d))
    && GraphicsUtils.Supported(GraphicsUtils.DeviceExtensions(portability), d.extensions)
    && SwapChain.Adequate(d.swapChain)
  }

  /** `static_cast<uint32_t>` of a float in range: truncation toward
      zero. */
  function Truncate(x: real): (r: nat)
    requires -1.0 < x < UInt32Range as real
    ensures r < UInt32Range
    ensures x >= 0.0 ==> r as real <= x < r as real + 1.0
    ensures x < 1.0 ==> r == 0
  {
    if x >= 0.0 then x.Floor else 0
  }

  /** `check_physical_device_suitability`: 0 for a device missing a
      mandatory feature; otherwise a `uint32_t` accumulated from the
      discrete-GPU bonus, the largest 2D image dimension and the truncated
      anisotropy, each addition wrapping modulo 2^32. */
  function Score(d: Device, portability: bool): (s: nat)
    requires Reported(d)
    ensures s < UInt32Range
    ensures !Mandatory(d, portability) ==> s == 0
    ensures Mandatory(d, portability) ==>
      s == ((if d.deviceType == PhysicalDeviceTypeDiscreteGpu then DiscreteBonus else 0)
            + d.maxImageDimension2D + Truncate(d.maxSamplerAnisotropy)) % UInt32Range
  {
    if !Mandatory(d, portability) then 0
    else
      var bonus := if d.deviceType == PhysicalDeviceTypeDiscreteGpu then DiscreteBonus else 0;
      var withDimension := (bonus + d.maxImageDimension2D) % UInt32Range;
      ModAddLeft(bonus + d.maxImageDimension2D, Truncate(d.maxSamplerAnisotropy), UInt32Range);
      (withDimension + Truncate(d.maxSamplerAnisotropy)) % UInt32Range
  }

  /** `select_physical_device`: walk the devices in enumeration order and
      keep the first one with a non-zero score (the loop breaks after the
      first insertion into the ranking), failing when there is none. */
  method SelectPhysicalDevice(devices: seq<Device>, portability: bool) returns (r: Result<nat, string>)
    requires forall i :: 0 <= i < |devices| ==> Reported(devices[i])
    ensures r.Ok? ==> r.value < |devices| && Score(devices[r.value], portability) != 0
    ensures r.Ok? ==> forall j :: 0 <= j < r.value ==> Score(devices[j], portability) == 0
    ensures r.Err? <==> forall i :: 0 <= i < |devices| ==> Score(devices[i], portability) == 0
    ensures r.Err? ==> r.error == "couldn't find suitable device for Scop"
  {
    var ranking: seq<(nat, nat)> := [];
    var i := 0;
    while i < |devices|
      invariant 0 <= i <= |devices|
      invariant ranking == []
      invariant forall j :: 0 <= j < i ==> Score(devices[j], portability) == 0
    {
      var score := Score(devices[i], portability);
      if score != 0 {
        ranking := [(score, i)];
        break;
      }
      i := i + 1;
    }
    if ranking == [] || ranking[0].0 == 0 {
      return Err("couldn't find suitable device for Scop");
    }
    return Ok(ranking[0].1);
  }

  // ---------------------------------------------------------------------------
  // Frame slots

  /** `frame_idx = (frame_idx + 1) % MAX_FRAMES_IN_FLIGHT` on `uint32_t`;
      the number of frames in flight is a positive 32-bit constant. */
  function NextFrame(idx: nat, frames: nat): (r: nat)
    requires 0 < frames < UInt32Range && idx < UInt32Range
    ensures r < frames
  {
    ((idx + 1) % UInt32Range) % frames
  }

  /** The slot used by frame number `k`, counting from slot 0. */
  function FrameSlot(k: nat, frames: nat): (r: nat)
    requires 0 < frames < UInt32Range
    ensures r < frames
  {
    if k == 0 then 0 else NextFrame(FrameSlot(k - 1, frames), frames)
  }

  // ---------------------------------------------------------------------------
  // Proofs

  /** Frames use the slots 0, 1, ..., N-1 in turn. */
  lemma {:induction false} FramesCycle(k: nat, frames: nat)
    requires 0 < frames < UInt32Range
    ensures FrameSlot(k, frames) == k % frames
  {
    if k > 0 {
      FramesCycle(k - 1, frames);
      FrameStep(FrameSlot(k - 1, frames), frames);
      ModAddLeft(k - 1, 1, frames);
    }
  }

  /** From a valid slot the increment never wraps the 32-bit counter. */
  lemma FrameStep(idx: nat, frames: nat)
    requires idx < frames < UInt32Range
    ensures NextFrame(idx, frames) == (idx + 1) % frames
  {
    assert (idx + 1) % UInt32Range == idx + 1;
  }

  /** Adding to a remainder and reducing again gives the same remainder as
      adding to the number itself. */
  lemma ModAddLeft(m: nat, b: nat, n: nat)
    requires n > 0
    ensures (m % n + b) % n == (m + b) % n
  {
    var x := m % n + b;
    assert m == m / n * n + m % n;
    assert x == x / n * n + x % n;
    assert m + b == (m + b) / n * n + (m + b) % n;
    assert (m / n + x / n) * n == m / n * n + x / n * n;
    SameQuotient(m / n + x / n, (m + b) / n, n, x % n, (m + b) % n);
  }

  /** Division with remainder is unique. */
  lemma SameQuotient(q: int, q': int, n: int, r: int, r': int)
    requires n > 0 && 0 <= r < n && 0 <= r' < n
    requires q * n + r == q' * n + r'
    ensures q == q' && r == r'
  {
    var d := q - q';
    assert d * n == r' - r;
    MultipleOutside(d, n);
  }

  /** A non-zero multiple of `n` is at least `n` away from 0. */
  lemma MultipleOutside(d: int, n: int)
    requires n > 0
    ensures d >= 1 ==> d * n >= n
    ensures d <= -1 ==> d * n <= -n
  {
  }

  /** A device that passes the mandatory checks offers a family that can
      draw, one that can present, some surface format and present mode, and
      the swapchain extension. */
  lemma MandatoryMeansUsable(d: Device, portability: bool)
    requires Mandatory(d, portability)
    ensures exists i :: 0 <= i < |d.queueFamilies| && QueueFamilies.CanDraw(d.queueFamilies[i])
    ensures exists j :: 0 <= j < |d.queueFamilies| && d.queueFamilies[j].presentSupport
    ensures |d.swapChain.formats| > 0 && |d.swapChain.presentModes| > 0
    ensures GraphicsUtils.SwapchainExtension in d.extensions
  {
    QueueFamilies.CompleteMeansBothExist(d.queueFamilies, QueueFamilies.ScanLength(d.queueFamilies, 0));
    assert GraphicsUtils.SwapchainExtension in GraphicsUtils.DeviceExtensions(portability);
  }

  /** Without wrap-around, a discrete GPU outscores an otherwise identical
      device of another type by exactly the bonus. */
  lemma DiscreteOutscores(d: Device, portability: bool)
    requires Reported(d) && Mandatory(d, portability)
    requires d.deviceType == PhysicalDeviceTypeDiscreteGpu
    requires DiscreteBonus + d.maxImageDimension2D + Truncate(d.maxSamplerAnisotropy) < UInt32Range
    ensures Score(d, portability) == Score(d.(deviceType := 1), portability) + DiscreteBonus
  {
  }

  /** The score wraps: a discrete GPU that passes every mandatory check but
      reports a 2D limit of 2^32 - 1000 and an anisotropy below 1 scores 0,
      exactly like an unusable device. */
  lemma ScoreCanWrapToZero(d: Device, portability: bool)
    requires Mandatory(d, portability)
    requires d.deviceType == PhysicalDeviceTypeDiscreteGpu
    requires d.maxImageDimension2D == UInt32Range - DiscreteBonus
    requires 0.0 <= d.maxSamplerAnisotropy < 1.0
    ensures Reported(d) && Score(d, portability) == 0
  {
  }
}
