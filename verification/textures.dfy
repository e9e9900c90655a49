/** `graphics::resources::Texture`: loading an image file into an RGBA
    pixel buffer, the buffer's size in bytes, and whether a texture holds
    anything. The image decoder is a parameter. */
module Textures {
  import opened Wrappers

  /** `size_t` and `VkDeviceSize` are 64-bit; `int` is 32-bit. */
  const SizeRange: int := 0x1_0000_0000_0000_0000
  const IntMin: int := -0x8000_0000
  const IntRange: int := 0x8000_0000

  /** The pixel buffer is reduced to whether it is present (non-null). */
  datatype Texture = Texture(pixels: bool, w: nat, h: nat, channels: nat)

  /** A value-initialised `Texture`. */
  const EmptyTexture := Texture(false, 0, 0, 0)

  /** The channel count `STBI_rgb_alpha` asks the decoder for. */
  const RgbaChannels: nat := 4

  /** `static_cast<size_t>` of an `int`. */
  function ToSize(x: int): (r: nat)
    ensures r < SizeRange
    ensures 0 <= x < SizeRange ==> r == x
  {
    x % SizeRange
  }

  /** `operator bool`: pixels present and every dimension non-zero. */
  predicate IsValid(t: Texture)
    ensures IsValid(t) <==> t.pixels && t.w * t.h * t.channels > 0
  {
    NonZeroProduct(t.w, t.h, t.channels);
    t.pixels && t.w != 0 && t.h != 0 && t.channels != 0
  }

  /** `device_size`: width times height times channels, in 64-bit
      arithmetic. */
  function DeviceSize(t: Texture): (n: nat)
    ensures n < SizeRange
    ensures t.w * t.h * t.channels < SizeRange ==> n == t.w * t.h * t.channels
  {
    (t.w * t.h * t.channels) % SizeRange
  }

  /** `Texture::load`. `decoded` is what `stbi_load` reports: `None` when
      it fails, otherwise the image's width and height as `int`s. An empty
      path raises `invalid_argument`; a decoder failure gives an empty
      texture; a decoded image is kept as four channels per pixel. */
  function Load(path: string, decoded: Option<(int, int)>): (r: Result<Texture, string>)
    requires decoded.Some? ==> IntMin <= decoded.value.0 < IntRange && IntMin <= decoded.value.1 < IntRange
    ensures r.Err? <==> path == ""
    ensures r.Err? ==> r.error == "couldn't load empty filename"
    ensures r.Ok? && decoded.None? ==> !IsValid(r.value)
    ensures r.Ok? && decoded.Some? ==> r.value.pixels && r.value.channels == RgbaChannels
    ensures r.Ok? && decoded.Some? && decoded.value.0 >= 0 && decoded.value.1 >= 0
      ==> r.value.w == decoded.value.0 && r.value.h == decoded.value.1
  {
    if path == "" then Err("couldn't load empty filename")
    else match decoded
      case None => Ok(EmptyTexture)
      case Some((w, h)) => Ok(Texture(true, ToSize(w), ToSize(h), RgbaChannels))
  }

  // ---------------------------------------------------------------------------
  // Proofs

  /** A decoded image of positive size gives a valid texture whose byte
      size is exactly four bytes per pixel: dimensions that fit an `int`
      cannot overflow the 64-bit product. */
  lemma LoadedTextureSize(path: string, w: int, h: int)
    requires path != ""
    requires 0 < w < IntRange && 0 < h < IntRange
    ensures Load(path, Some((w, h))).Ok?
    ensures IsValid(Load(path, Some((w, h))).value)
    ensures DeviceSize(Load(path, Some((w, h))).value) == w * h * RgbaChannels
  {
    ProductBound(w, h);
  }

  lemma ProductBound(w: nat, h: nat)
    requires w < IntRange && h < IntRange
    ensures w * h * RgbaChannels < SizeRange
  {
    assert w * h <= w * IntRange <= IntRange * IntRange;
  }

  /** A product of naturals is non-zero exactly when every factor is. */
  lemma NonZeroProduct(a: nat, b: nat, c: nat)
    ensures a * b * c > 0 <==> a != 0 && b != 0 && c != 0
  {
    if a != 0 && b != 0 && c != 0 {
      assert a * b >= 1;
      assert a * b * c >= 1;
    }
  }

  /** Without overflow, a texture with pixels is valid exactly when its
      byte size is non-zero. */
  lemma ValidIffNonEmpty(t: Texture)
    requires t.pixels
    requires t.w * t.h * t.channels < SizeRange
    ensures IsValid(t) <==> DeviceSize(t) > 0
  {
    if IsValid(t) {
      assert t.w * t.h >= 1;
      assert t.w * t.h * t.channels >= 1;
    }
  }

  /** The 64-bit product can wrap: a texture with pixels and dimensions
      2^32 by 2^32 is valid yet reports 0 bytes. Such sizes cannot come
      from the decoder, whose dimensions are `int`s. */
  lemma SizeCanWrap()
    ensures var t := Texture(true, 0x1_0000_0000, 0x1_0000_0000, RgbaChannels);
      IsValid(t) && DeviceSize(t) == 0
  {
  }
}
