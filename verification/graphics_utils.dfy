/** Instance and device prerequisites (layer and extension names) and the
    vertex input layout the pipeline declares for `VertexData`. */
module GraphicsUtils {

  /** `VALIDATION_LAYERS`. */
  const ValidationLayers: seq<string> := ["VK_LAYER_KHRONOS_validation"]

  const SwapchainExtension: string := "VK_KHR_swapchain"
  const PortabilitySubsetExtension: string := "VK_KHR_portability_subset"
  const DebugUtilsExtension: string := "VK_EXT_debug_utils"
  const PortabilityEnumerationExtension: string := "VK_KHR_portability_enumeration"
  const PhysicalDeviceProperties2Extension: string := "VK_KHR_get_physical_device_properties2"

  /** `DEVICE_EXTENSIONS`: the swapchain extension, plus the portability
      subset on builds where the portability switch is on (a preprocessor
      condition, here the parameter `portability`). */
  function DeviceExtensions(portability: bool): (r: seq<string>)
    ensures |r| > 0 && r[0] == SwapchainExtension
    ensures PortabilitySubsetExtension in r <==> portability
  {
    [SwapchainExtension] + (if portability then [PortabilitySubsetExtension] else [])
  }

  /** `get_required_extensions`: the window system's own list first, then
      the debug-utils extension when validation layers are on, then the two
      portability extensions on portability builds. */
  function RequiredExtensions(windowSystem: seq<string>, validation: bool, portability: bool): (r: seq<string>)
    ensures |r| == |windowSystem| + (if validation then 1 else 0) + (if portability then 2 else 0)
    ensures r[..|windowSystem|] == windowSystem
    ensures validation ==> r[|windowSystem|] == DebugUtilsExtension
    ensures DebugUtilsExtension in r[|windowSystem|..] <==> validation
    ensures portability ==> r[|r| - 2..] == [PortabilityEnumerationExtension, PhysicalDeviceProperties2Extension]
  {
    var withDebug := windowSystem + (if validation then [DebugUtilsExtension] else []);
    var r := withDebug + (if portability then [PortabilityEnumerationExtension, PhysicalDeviceProperties2Extension] else []);
    assert r[|windowSystem|..] == (if validation then [DebugUtilsExtension] else [])
      + (if portability then [PortabilityEnumerationExtension, PhysicalDeviceProperties2Extension] else []);
    r
  }

  /** Every required name is among the available ones. */
  predicate Supported(required: seq<string>, available: seq<string>) {
    forall name :: name in required ==> name in available
  }

  /** `check_validation_layer_support`: for each required layer, a linear
      search of the available layers; the first one missing fails the
      check. */
  method CheckValidationLayerSupport(required: seq<string>, available: seq<string>) returns (ok: bool)
    ensures ok <==> Supported(required, available)
  {
    var i := 0;
    while i < |required|
      invariant 0 <= i <= |required|
      invariant forall j :: 0 <= j < i ==> required[j] in available
    {
      var found := false;
      var m := 0;
      while m < |available|
        invariant 0 <= m <= |available|
        invariant required[i] !in available[..m]
      {
        if available[m] == required[i] {
          found := true;
          break;
        }
        m := m + 1;
      }
      if !found {
        assert available[..m] == available;
        return false;
      }
      i := i + 1;
    }
    return true;
  }

  /** `check_device_extension_support`: start from the set of required
      names, erase every available name, and succeed when nothing is
      left. */
  method CheckDeviceExtensionSupport(required: seq<string>, available: seq<string>) returns (ok: bool)
    ensures ok <==> Supported(required, available)
  {
    var remaining := set name | name in required;
    var i := 0;
    while i < |available|
      invariant 0 <= i <= |available|
      invariant remaining == set name | name in required && name !in available[..i]
    {
      assert available[..i + 1] == available[..i] + [available[i]];
      remaining := remaining - {available[i]};
      i := i + 1;
    }
    assert available[..i] == available;
    ok := remaining == {};
    if ok {
      forall name | name in required
        ensures name in available
      {
        assert name !in remaining;
      }
    } else {
      var missing :| missing in remaining;
      assert missing in required && missing !in available;
    }
  }

  // ---------------------------------------------------------------------------
  // Vertex input layout

  /** `VkFormat` values used by the vertex attributes. */
  const FormatR32G32Sfloat: nat := 103
  const FormatR32G32B32Sfloat: nat := 106
  const VertexInputRateVertex: nat := 0

  /** Bytes a vertex attribute of the given format reads. */
  function FormatBytes(format: nat): nat {
    if format == FormatR32G32Sfloat then 8
    else if format == FormatR32G32B32Sfloat then 12
    else 0
  }

  /** Both `maths::Vec2` and `maths::Vec3` store a `std::array<float, 3>`,
      so each occupies 12 bytes; `VertexData` is position, colour and
      texture coordinate in that order. */
  const VecBytes: nat := 12
  const VertexFields: seq<nat> := [VecBytes, VecBytes, VecBytes]

  /** The offset of field `k` in a struct of 4-byte-aligned fields: the
      sizes of the fields before it. */
  function OffsetOf(sizes: seq<nat>, k: nat): nat
    requires k <= |sizes|
  {
    if k == 0 then 0 else OffsetOf(sizes, k - 1) + sizes[k - 1]
  }

  datatype BindingDescription = BindingDescription(binding: nat, stride: nat, inputRate: nat)
  datatype AttributeDescription = AttributeDescription(binding: nat, location: nat, format: nat, offset: nat)

  /** `VertexData::getBindingDesc`. */
  function BindingDesc(): (r: BindingDescription)
    ensures r.binding == 0 && r.inputRate == VertexInputRateVertex
    ensures r.stride == OffsetOf(VertexFields, |VertexFields|)
  {
    BindingDescription(0, OffsetOf(VertexFields, 3), VertexInputRateVertex)
  }

  /** `VertexData::getAttributeDescs`. */
  function AttributeDescs(): (r: seq<AttributeDescription>)
    ensures |r| == 3
    ensures forall i :: 0 <= i < 3 ==> r[i].binding == 0 && r[i].location == i && r[i].offset == OffsetOf(VertexFields, i)
    ensures r[0].format == FormatR32G32Sfloat && r[1].format == FormatR32G32B32Sfloat && r[2].format == FormatR32G32Sfloat
  {
    [AttributeDescription(0, 0, FormatR32G32Sfloat, OffsetOf(VertexFields, 0)),
     AttributeDescription(0, 1, FormatR32G32B32Sfloat, OffsetOf(VertexFields, 1)),
     AttributeDescription(0, 2, FormatR32G32Sfloat, OffsetOf(VertexFields, 2))]
  }

  /** Each attribute reads only bytes of its own field, and all of them
      lie within one vertex's stride. */
  predicate FitsLayout(attrs: seq<AttributeDescription>, sizes: seq<nat>, stride: nat)
    requires |attrs| == |sizes|
  {
    (forall i :: 0 <= i < |attrs| ==> attrs[i].offset == OffsetOf(sizes, i) && FormatBytes(attrs[i].format) <= sizes[i])
    && stride == OffsetOf(sizes, |sizes|)
  }

  // ---------------------------------------------------------------------------
  // Proofs

  /** Fields laid out one after another do not overlap: a field ends at or
      before the start of any later field. */
  lemma {:induction false} OffsetsIncrease(sizes: seq<nat>, i: nat, j: nat)
    requires i < j <= |sizes|
    ensures OffsetOf(sizes, i) + sizes[i] <= OffsetOf(sizes, j)
    decreases j - i
  {
    if j > i + 1 {
      OffsetsIncrease(sizes, i, j - 1);
    }
  }

  /** Under a fitting layout, the bytes two different attributes read are
      disjoint and lie inside the stride. */
  lemma AttributesDisjoint(attrs: seq<AttributeDescription>, sizes: seq<nat>, stride: nat, i: nat, j: nat)
    requires |attrs| == |sizes| && FitsLayout(attrs, sizes, stride)
    requires i < j < |attrs|
    ensures attrs[i].offset + FormatBytes(attrs[i].format) <= attrs[j].offset
    ensures attrs[j].offset + FormatBytes(attrs[j].format) <= stride
  {
    OffsetsIncrease(sizes, i, j);
    OffsetsIncrease(sizes, j, |sizes|);
  }

  /** The descriptors of `VertexData` fit its layout: offsets 0, 12 and 24,
      a 36-byte stride, and no attribute reads past its field. */
  lemma VertexLayoutFits()
    ensures FitsLayout(AttributeDescs(), VertexFields, BindingDesc().stride)
    ensures BindingDesc().stride == 36
    ensures AttributeDescs()[1].offset == 12 && AttributeDescs()[2].offset == 24
  {
    assert OffsetOf(VertexFields, 1) == 12;
    assert OffsetOf(VertexFields, 2) == 24;
    assert OffsetOf(VertexFields, 3) == 36;
  }

  /** Only the sets of names matter: listing an available name twice, or
      offering extras, never changes the answer. */
  lemma SupportIgnoresExtras(required: seq<string>, available: seq<string>, extra: seq<string>)
    ensures Supported(required, available) ==> Supported(required, available + extra)
    ensures Supported(required, available) <==> Supported(required + required, available)
  {
  }
}
