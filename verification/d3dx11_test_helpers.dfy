/**
 * Helpers of the D3DX11 conformance tests (dlls/d3dx11_43/tests/d3dx11.c):
 * DXGI format tables (block compression, bits per pixel, 8-bit RGBA),
 * tolerant colour comparison, the expected mip-level count, row strides,
 * and the two routines that lay out initial texture data in memory.
 */
module D3dx11TestHelpers {
  import opened Words
  import opened D3dx11Layout

  /**
   * DXGI_FORMAT; Other carries the code of any format not listed here.  The
   * block-compressed and 8-bit RGBA formats the tests single out come first.
   */
  datatype DxgiFormat =
    | BC1_TYPELESS | BC1_UNORM | BC1_UNORM_SRGB | BC2_TYPELESS | BC2_UNORM | BC2_UNORM_SRGB
    | BC3_TYPELESS | BC3_UNORM | BC3_UNORM_SRGB | BC4_TYPELESS | BC4_UNORM | BC4_SNORM
    | BC5_TYPELESS | BC5_UNORM | BC5_SNORM
    | BC6H_TYPELESS | BC6H_UF16 | BC6H_SF16 | BC7_TYPELESS | BC7_UNORM | BC7_UNORM_SRGB
    | R8G8B8A8_TYPELESS | R8G8B8A8_UNORM | R8G8B8A8_UNORM_SRGB | R8G8B8A8_UINT
    | R8G8B8A8_SNORM | R8G8B8A8_SINT
    | UNKNOWN
    | R32G32B32A32_TYPELESS | R32G32B32A32_FLOAT | R32G32B32A32_UINT | R32G32B32A32_SINT
    | R32G32B32_TYPELESS | R32G32B32_FLOAT | R32G32B32_UINT | R32G32B32_SINT
    | R16G16B16A16_TYPELESS | R16G16B16A16_FLOAT | R16G16B16A16_UNORM | R16G16B16A16_UINT
    | R16G16B16A16_SNORM | R16G16B16A16_SINT
    | R32G32_TYPELESS | R32G32_FLOAT | R32G32_UINT | R32G32_SINT
    | R32G8X24_TYPELESS | D32_FLOAT_S8X24_UINT | R32_FLOAT_X8X24_TYPELESS | X32_TYPELESS_G8X24_UINT
    | R10G10B10A2_TYPELESS | R10G10B10A2_UNORM | R10G10B10A2_UINT | R11G11B10_FLOAT
    | R16G16_TYPELESS | R16G16_FLOAT | R16G16_UNORM | R16G16_UINT | R16G16_SNORM | R16G16_SINT
    | R32_TYPELESS | D32_FLOAT | R32_FLOAT | R32_UINT | R32_SINT
    | R24G8_TYPELESS | D24_UNORM_S8_UINT | R24_UNORM_X8_TYPELESS | X24_TYPELESS_G8_UINT
    | R8G8_TYPELESS | R8G8_UNORM | R8G8_UINT | R8G8_SNORM | R8G8_SINT
    | R16_TYPELESS | R16_FLOAT | D16_UNORM | R16_UNORM | R16_UINT | R16_SNORM | R16_SINT
    | R8_TYPELESS | R8_UNORM | R8_UINT | R8_SNORM | R8_SINT | A8_UNORM | R1_UNORM
    | R9G9B9E5_SHAREDEXP | R8G8_B8G8_UNORM | G8R8_G8B8_UNORM
    | B5G6R5_UNORM | B5G5R5A1_UNORM | B8G8R8A8_UNORM | B8G8R8X8_UNORM | R10G10B10_XR_BIAS_A2_UNORM
    | B8G8R8A8_TYPELESS | B8G8R8A8_UNORM_SRGB | B8G8R8X8_TYPELESS | B8G8R8X8_UNORM_SRGB
    | AYUV | Y410 | Y416 | NV12 | P010 | P016 | OPAQUE_420 | YUY2 | Y210 | Y216 | NV11
    | AI44 | IA44 | P8 | A8P8 | B4G4R4A4_UNORM
    | Other(code: nat)

  /** block_compressed_formats[] */
  const BLOCK_COMPRESSED_FORMATS: seq<DxgiFormat> := [
    BC1_TYPELESS, BC1_UNORM, BC1_UNORM_SRGB,
    BC2_TYPELESS, BC2_UNORM, BC2_UNORM_SRGB,
    BC3_TYPELESS, BC3_UNORM, BC3_UNORM_SRGB,
    BC4_TYPELESS, BC4_UNORM, BC4_SNORM,
    BC5_TYPELESS, BC5_UNORM, BC5_SNORM,
    BC6H_TYPELESS, BC6H_UF16, BC6H_SF16,
    BC7_TYPELESS, BC7_UNORM, BC7_UNORM_SRGB
  ]

  /** The formats listed in block_compressed_formats[]. */
  predicate IsBlockCompressed(format: DxgiFormat)
  {
    format in {BC1_TYPELESS, BC1_UNORM, BC1_UNORM_SRGB, BC2_TYPELESS, BC2_UNORM, BC2_UNORM_SRGB,
               BC3_TYPELESS, BC3_UNORM, BC3_UNORM_SRGB, BC4_TYPELESS, BC4_UNORM, BC4_SNORM,
               BC5_TYPELESS, BC5_UNORM, BC5_SNORM, BC6H_TYPELESS, BC6H_UF16, BC6H_SF16,
               BC7_TYPELESS, BC7_UNORM, BC7_UNORM_SRGB}
  }

  /** The table lists exactly the block-compressed formats. */
  lemma TableIsBlockCompressed(format: DxgiFormat)
    ensures format in BLOCK_COMPRESSED_FORMATS <==> IsBlockCompressed(format)
  {
  }

  /** A linear scan of a format table. */
  method ScanTable(table: seq<DxgiFormat>, format: DxgiFormat) returns (found: bool)
    ensures found <==> format in table
  {
    var i := 0;
    while i < |table|
      invariant 0 <= i <= |table|
      invariant forall k :: 0 <= k < i ==> table[k] != format
    {
      if format == table[i] {
        return true;
      }
      i := i + 1;
    }
    return false;
  }

  /** is_block_compressed: the scan of block_compressed_formats[]. */
  method ScanBlockCompressed(format: DxgiFormat) returns (found: bool)
    ensures found <==> IsBlockCompressed(format)
  {
    found := ScanTable(BLOCK_COMPRESSED_FORMATS, format);
    TableIsBlockCompressed(format);
  }

  /** The BC1 and BC4 families, which pack a 4x4 block into 8 bytes. */
  predicate IsHalfByteBlockFormat(format: DxgiFormat)
  {
    format in {BC1_TYPELESS, BC1_UNORM, BC1_UNORM_SRGB, BC4_TYPELESS, BC4_UNORM, BC4_SNORM}
  }

  /** dxgi_format_is_8bpp_rgba */
  predicate Is8bppRgba(format: DxgiFormat)
  {
    format in {R8G8B8A8_TYPELESS, R8G8B8A8_UNORM, R8G8B8A8_UNORM_SRGB, R8G8B8A8_UINT, R8G8B8A8_SNORM, R8G8B8A8_SINT}
  }

  /** get_bpp_from_format */
  function BppFromFormat(format: DxgiFormat): (bpp: nat)
    ensures bpp in {0, 1, 4, 8, 12, 16, 24, 32, 64, 96, 128}
  {
    match format
    case R32G32B32A32_TYPELESS | R32G32B32A32_FLOAT | R32G32B32A32_UINT | R32G32B32A32_SINT => 128
    case R32G32B32_TYPELESS | R32G32B32_FLOAT | R32G32B32_UINT | R32G32B32_SINT => 96
    case R16G16B16A16_TYPELESS | R16G16B16A16_FLOAT | R16G16B16A16_UNORM | R16G16B16A16_UINT
      | R16G16B16A16_SNORM | R16G16B16A16_SINT | R32G32_TYPELESS | R32G32_FLOAT | R32G32_UINT
      | R32G32_SINT | R32G8X24_TYPELESS | D32_FLOAT_S8X24_UINT | R32_FLOAT_X8X24_TYPELESS
      | X32_TYPELESS_G8X24_UINT | Y416 | Y210 | Y216 => 64
    case R10G10B10A2_TYPELESS | R10G10B10A2_UNORM | R10G10B10A2_UINT | R11G11B10_FLOAT
      | R8G8B8A8_TYPELESS | R8G8B8A8_UNORM | R8G8B8A8_UNORM_SRGB | R8G8B8A8_UINT | R8G8B8A8_SNORM
      | R8G8B8A8_SINT | R16G16_TYPELESS | R16G16_FLOAT | R16G16_UNORM | R16G16_UINT | R16G16_SNORM
      | R16G16_SINT | R32_TYPELESS | D32_FLOAT | R32_FLOAT | R32_UINT | R32_SINT | R24G8_TYPELESS
      | D24_UNORM_S8_UINT | R24_UNORM_X8_TYPELESS | X24_TYPELESS_G8_UINT | R9G9B9E5_SHAREDEXP
      | R8G8_B8G8_UNORM | G8R8_G8B8_UNORM | B8G8R8A8_UNORM | B8G8R8X8_UNORM
      | R10G10B10_XR_BIAS_A2_UNORM | B8G8R8A8_TYPELESS | B8G8R8A8_UNORM_SRGB | B8G8R8X8_TYPELESS
      | B8G8R8X8_UNORM_SRGB | AYUV | Y410 | YUY2 => 32
    case P010 | P016 => 24
    case R8G8_TYPELESS | R8G8_UNORM | R8G8_UINT | R8G8_SNORM | R8G8_SINT | R16_TYPELESS | R16_FLOAT
      | D16_UNORM | R16_UNORM | R16_UINT | R16_SNORM | R16_SINT | B5G6R5_UNORM | B5G5R5A1_UNORM
      | A8P8 | B4G4R4A4_UNORM => 16
    case NV12 | OPAQUE_420 | NV11 => 12
    case R8_TYPELESS | R8_UNORM | R8_UINT | R8_SNORM | R8_SINT | A8_UNORM | AI44 | IA44 | P8
      | BC2_TYPELESS | BC2_UNORM | BC2_UNORM_SRGB | BC3_TYPELESS | BC3_UNORM | BC3_UNORM_SRGB
      | BC5_TYPELESS | BC5_UNORM | BC5_SNORM | BC6H_TYPELESS | BC6H_UF16 | BC6H_SF16
      | BC7_TYPELESS | BC7_UNORM | BC7_UNORM_SRGB => 8
    case BC1_TYPELESS | BC1_UNORM | BC1_UNORM_SRGB | BC4_TYPELESS | BC4_UNORM | BC4_SNORM => 4
    case R1_UNORM => 1
    case _ => 0
  }

  /** Every block-compressed format has a size: 4 bits for BC1/BC4, 8 for the rest. */
  lemma BlockCompressedBpp(format: DxgiFormat)
    requires IsBlockCompressed(format)
    ensures BppFromFormat(format) == if IsHalfByteBlockFormat(format) then 4 else 8
    ensures BppFromFormat(format) != 0
  {
  }

  /** The 8-bit RGBA formats are the 32-bit formats the pixel-wise comparison handles. */
  lemma Rgba8FormatsAre32Bpp(format: DxgiFormat)
    requires Is8bppRgba(format)
    ensures BppFromFormat(format) == 32 && !IsBlockCompressed(format)
  {
  }

  /** compare_uint: the distance is taken without unsigned underflow. */
  function CompareUint(x: u32, y: u32, maxDiff: u32): (r: bool)
    ensures r <==> -(maxDiff as int) <= x - y <= maxDiff
  {
    var diff := if x > y then x - y else y - x;
    diff <= maxDiff
  }

  lemma CompareUintSymmetric(x: u32, y: u32, maxDiff: u32)
    ensures CompareUint(x, y, maxDiff) == CompareUint(y, x, maxDiff)
    ensures CompareUint(x, x, maxDiff)
  {
  }

  /** Byte k (0 = lowest) of a packed 32-bit colour, `(c >> 8k) & 0xff`. */
  function Channel(c: u32, k: nat): (b: u8)
    requires k < 4
  {
    if k == 0 then c % 0x100
    else if k == 1 then (c / 0x100) % 0x100
    else if k == 2 then (c / 0x1_0000) % 0x100
    else c / 0x100_0000
  }

  /** compare_color: every byte channel within maxDiff. */
  function CompareColor(c1: u32, c2: u32, maxDiff: u8): (r: bool)
    ensures r <==> forall k :: 0 <= k < 4 ==> CompareUint(Channel(c1, k), Channel(c2, k), maxDiff)
  {
    CompareUint(Channel(c1, 0), Channel(c2, 0), maxDiff)
    && CompareUint(Channel(c1, 1), Channel(c2, 1), maxDiff)
    && CompareUint(Channel(c1, 2), Channel(c2, 2), maxDiff)
    && CompareUint(Channel(c1, 3), Channel(c2, 3), maxDiff)
  }

  /** The four channels rebuild the colour. */
  lemma ChannelsRebuildColor(c: u32)
    ensures c == Channel(c, 0) + 0x100 * Channel(c, 1) + 0x1_0000 * Channel(c, 2) + 0x100_0000 * Channel(c, 3)
  {
    assert c == c % 0x100 + 0x100 * (c / 0x100);
    assert c / 0x100 == (c / 0x100) % 0x100 + 0x100 * (c / 0x1_0000);
    assert c / 0x1_0000 == (c / 0x1_0000) % 0x100 + 0x100 * (c / 0x100_0000);
  }

  /** With no tolerance, colours compare equal exactly when they are equal. */
  lemma CompareColorExact(c1: u32, c2: u32)
    ensures CompareColor(c1, c2, 0) <==> c1 == c2
  {
    if CompareColor(c1, c2, 0) {
      assert forall k :: 0 <= k < 4 ==> Channel(c1, k) == Channel(c2, k);
      ChannelsRebuildColor(c1);
      ChannelsRebuildColor(c2);
    }
  }

  /** The dimensions the mip count is derived from: rounded to whole blocks for BC formats. */
  function MipBaseDimension(d: nat, format: DxgiFormat): nat
  {
    if IsBlockCompressed(format) then RoundUpToBlock(d) else d
  }

  /**
   * The expected mip-level count of check_resource_info: one level per
   * halving of the larger (block-rounded) dimension until it reaches 0.
   */
  method ExpectedMipLevels(width: nat, height: nat, format: DxgiFormat) returns (levels: nat)
    ensures var m := if MipBaseDimension(width, format) > MipBaseDimension(height, format)
                     then MipBaseDimension(width, format) else MipBaseDimension(height, format);
            levels == BitLength(m)
            && (m == 0 <==> levels == 0)
            && (m > 0 ==> Pow2(levels - 1) <= m < Pow2(levels))
  {
    var w := width;
    var h := height;
    var bc := ScanBlockCompressed(format);
    if bc {
      w := RoundUpToBlock(w);
      h := RoundUpToBlock(h);
    }
    var maxDimension := if w > h then w else h;
    levels := CountMipLevels(maxDimension);
  }

  /** The row pitch: for block-compressed formats a row of blocks spans four pixel rows. */
  function RowPitch(width: nat, format: DxgiFormat): nat
  {
    if IsBlockCompressed(format) then RowBytes(width, BppFromFormat(format)) * 4 else RowBytes(width, BppFromFormat(format))
  }

  /**
   * The stride is the row size in bits rounded up to whole bytes, over
   * four pixel rows for block-compressed formats.
   */
  lemma RowPitchIsCeiling(width: nat, format: DxgiFormat)
    ensures var rows := if IsBlockCompressed(format) then 4 else 1;
            var bits := width * BppFromFormat(format);
            rows * bits <= 8 * RowPitch(width, format) < rows * (bits + 8)
  {
    RowBytesIsCeiling(width, BppFromFormat(format));
  }

  /**
   * init_subresource_data: the subresource table of an image in `format`,
   * laid out as D3dx11Layout.Layout describes.
   */
  method InitSubresourceData(subresources: array<SubresourceData>, width: nat, height: nat, depth: nat,
                             mipLevels: nat, arraySize: nat, format: DxgiFormat)
    requires arraySize * mipLevels <= subresources.Length
    modifies subresources
    ensures subresources[..arraySize * mipLevels]
            == Layout(width, height, depth, mipLevels, BppFromFormat(format), IsBlockCompressed(format), arraySize)
    ensures subresources[arraySize * mipLevels..] == old(subresources[arraySize * mipLevels..])
  {
    var bc := ScanBlockCompressed(format);
    InitSubresources(subresources, width, height, depth, mipLevels, arraySize, BppFromFormat(format), bc);
  }
}
