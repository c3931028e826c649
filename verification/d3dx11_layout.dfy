/**
 * Memory layout arithmetic of the D3DX11 tests (dlls/d3dx11_43/tests/d3dx11.c):
 * row sizes, mip extents, the subresource table init_subresource_data
 * builds and the pixel fill of init_buffer_color.  A format enters only
 * through its bits per pixel and whether it is block-compressed.
 */
module D3dx11Layout {
  import opened Words

  /** `(x + 3) & ~3` on a dimension: rounded up to a whole number of 4x4 blocks. */
  function RoundUpToBlock(x: nat): (r: nat)
    ensures r % 4 == 0 && x <= r < x + 4
  {
    (x + 3) / 4 * 4
  }

  /** Number of binary digits of n. */
  function BitLength(n: nat): nat
  {
    if n == 0 then 0 else 1 + BitLength(n / 2)
  }

  /** The bit length places n between consecutive powers of two. */
  lemma {:induction false} BitLengthBounds(n: nat)
    requires n > 0
    ensures BitLength(n) >= 1 && Pow2(BitLength(n) - 1) <= n < Pow2(BitLength(n))
  {
    if n > 1 {
      BitLengthBounds(n / 2);
    }
  }

  /** The mip-count loop: one level per halving of the dimension until it reaches 0. */
  method CountMipLevels(maxDimension: nat) returns (levels: nat)
    ensures levels == BitLength(maxDimension)
    ensures maxDimension == 0 <==> levels == 0
    ensures maxDimension > 0 ==> Pow2(levels - 1) <= maxDimension < Pow2(levels)
  {
    var m := maxDimension;
    levels := 0;
    while m > 0
      invariant levels + BitLength(m) == BitLength(maxDimension)
    {
      levels := levels + 1;
      m := m / 2;
    }
    if maxDimension > 0 {
      BitLengthBounds(maxDimension);
    }
  }

  /** Bytes per row of pixels, `(width * bpp + 7) / 8`. */
  function RowBytes(width: nat, bpp: nat): nat
  {
    (width * bpp + 7) / 8
  }

  /** The row rounding is a ceiling division: whole bytes, with less than a byte to spare. */
  lemma RowBytesIsCeiling(width: nat, bpp: nat)
    ensures RowBytes(width, bpp) * 8 >= width * bpp && RowBytes(width, bpp) * 8 < width * bpp + 8
  {
  }

  /** One mip level's extent: halved per level, never below 1. */
  function MipExtent(d: nat, level: nat): nat
  {
    if level == 0 then d
    else var prev := MipExtent(d, level - 1); if prev / 2 > 1 then prev / 2 else 1
  }

  /** For a nonzero extent, level j has extent max(d / 2^j, 1). */
  lemma {:induction false} MipExtentIsShift(d: nat, level: nat)
    requires d >= 1
    ensures MipExtent(d, level) == if d / Pow2(level) > 1 then d / Pow2(level) else 1
  {
    if level > 0 {
      MipExtentIsShift(d, level - 1);
      DivDivIsDivProduct(d, Pow2(level - 1));
    }
  }

  /** D3D11_SUBRESOURCE_DATA, with pSysMem as a byte offset from the data pointer. */
  datatype SubresourceData = SubresourceData(sysMem: nat, sysMemPitch: nat, sysMemSlicePitch: nat)

  /** The bytes one mip level occupies: its slice pitch times its depth. */
  function LevelSize(width: nat, height: nat, depth: nat, level: nat, bpp: nat): nat
  {
    RowBytes(MipExtent(width, level), bpp) * MipExtent(height, level) * MipExtent(depth, level)
  }

  /** The bytes of mip levels 0..levels-1 of one array element. */
  function ChainSize(width: nat, height: nat, depth: nat, levels: nat, bpp: nat): nat
  {
    if levels == 0 then 0
    else ChainSize(width, height, depth, levels - 1, bpp) + LevelSize(width, height, depth, levels - 1, bpp)
  }

  /**
   * The entry for mip level j of an array element whose data starts at
   * byte offset `start`: the slice pitch is taken before a block-compressed
   * row pitch is multiplied by four.
   */
  function LevelEntry(width: nat, height: nat, depth: nat, bpp: nat, bc: bool, start: nat, j: nat): SubresourceData
  {
    var rowBytes := RowBytes(MipExtent(width, j), bpp);
    SubresourceData(
      start + ChainSize(width, height, depth, j, bpp),
      if bc then rowBytes * 4 else rowBytes,
      rowBytes * MipExtent(height, j))
  }

  /** The entries of one array element, one per mip level. */
  function ChainEntries(width: nat, height: nat, depth: nat, mipLevels: nat, bpp: nat, bc: bool, start: nat): (row: seq<SubresourceData>)
    ensures |row| == mipLevels
  {
    seq(mipLevels, j requires 0 <= j < mipLevels => LevelEntry(width, height, depth, bpp, bc, start, j))
  }

  /** The entries of array elements 0..n-1, element after element, each chain starting where the previous ends. */
  function Layout(width: nat, height: nat, depth: nat, mipLevels: nat, bpp: nat, bc: bool, n: nat): seq<SubresourceData>
  {
    if n == 0 then []
    else Layout(width, height, depth, mipLevels, bpp, bc, n - 1)
         + ChainEntries(width, height, depth, mipLevels, bpp, bc, (n - 1) * ChainSize(width, height, depth, mipLevels, bpp))
  }

  lemma {:induction false} LayoutLength(width: nat, height: nat, depth: nat, mipLevels: nat, bpp: nat, bc: bool, n: nat)
    ensures |Layout(width, height, depth, mipLevels, bpp, bc, n)| == n * mipLevels
  {
    if n > 0 {
      LayoutLength(width, height, depth, mipLevels, bpp, bc, n - 1);
      assert n * mipLevels == (n - 1) * mipLevels + mipLevels;
    }
  }

  /**
   * Entry i * mipLevels + j of the layout describes array element i, mip
   * level j, whose data starts after i whole mip chains.
   */
  lemma {:induction false} LayoutEntry(width: nat, height: nat, depth: nat, mipLevels: nat, bpp: nat, bc: bool, n: nat, i: nat, j: nat)
    requires i < n && j < mipLevels
    ensures |Layout(width, height, depth, mipLevels, bpp, bc, n)| == n * mipLevels
    ensures i * mipLevels + j < n * mipLevels
    ensures Layout(width, height, depth, mipLevels, bpp, bc, n)[i * mipLevels + j]
            == LevelEntry(width, height, depth, bpp, bc, i * ChainSize(width, height, depth, mipLevels, bpp), j)
  {
    assert n * mipLevels == (n - 1) * mipLevels + mipLevels;
    if i < n - 1 {
      LayoutEntry(width, height, depth, mipLevels, bpp, bc, n - 1, i, j);
    } else {
      LayoutLength(width, height, depth, mipLevels, bpp, bc, n - 1);
    }
  }

  /** Level j's entry, and the chain size up to level j + 1, from the extents of level j. */
  lemma LevelStep(width: nat, height: nat, depth: nat, bpp: nat, bc: bool, start: nat, j: nat, w: nat, h: nat, d: nat)
    requires w == MipExtent(width, j) && h == MipExtent(height, j) && d == MipExtent(depth, j)
    ensures LevelEntry(width, height, depth, bpp, bc, start, j)
            == SubresourceData(start + ChainSize(width, height, depth, j, bpp),
                               if bc then RowBytes(w, bpp) * 4 else RowBytes(w, bpp), RowBytes(w, bpp) * h)
    ensures ChainSize(width, height, depth, j + 1, bpp) == ChainSize(width, height, depth, j, bpp) + RowBytes(w, bpp) * h * d
  {
  }

  /** The inner loop of init_subresource_data: one element's mip chain, entries from `base`, data from `start`. */
  method FillMipChain(subresources: array<SubresourceData>, base: nat, start: nat, width: nat, height: nat, depth: nat,
                      mipLevels: nat, bpp: nat, bc: bool) returns (next: nat)
    requires base + mipLevels <= subresources.Length
    modifies subresources
    ensures subresources[base..base + mipLevels] == ChainEntries(width, height, depth, mipLevels, bpp, bc, start)
    ensures subresources[..base] == old(subresources[..base])
    ensures subresources[base + mipLevels..] == old(subresources[base + mipLevels..])
    ensures next == start + ChainSize(width, height, depth, mipLevels, bpp)
  {
    ghost var row := ChainEntries(width, height, depth, mipLevels, bpp, bc, start);
    var pixelPtr := start;
    var tmpWidth, tmpHeight, tmpDepth := width, height, depth;
    var j := 0;
    while j < mipLevels
      invariant 0 <= j <= mipLevels
      invariant tmpWidth == MipExtent(width, j) && tmpHeight == MipExtent(height, j) && tmpDepth == MipExtent(depth, j)
      invariant pixelPtr == start + ChainSize(width, height, depth, j, bpp)
      invariant subresources[base..base + j] == row[..j]
      invariant subresources[..base] == old(subresources[..base])
      invariant subresources[base + mipLevels..] == old(subresources[base + mipLevels..])
    {
      var pitch := (tmpWidth * bpp + 7) / 8;
      var slicePitch := pitch * tmpHeight;
      LevelStep(width, height, depth, bpp, bc, start, j, tmpWidth, tmpHeight, tmpDepth);
      if bc {
        pitch := pitch * 4;
      }
      subresources[base + j] := SubresourceData(pixelPtr, pitch, slicePitch);
      assert subresources[base..base + j + 1] == row[..j + 1];
      pixelPtr := pixelPtr + slicePitch * tmpDepth;
      tmpWidth := if tmpWidth / 2 > 1 then tmpWidth / 2 else 1;
      tmpHeight := if tmpHeight / 2 > 1 then tmpHeight / 2 else 1;
      tmpDepth := if tmpDepth / 2 > 1 then tmpDepth / 2 else 1;
      j := j + 1;
    }
    next := pixelPtr;
  }

  /** One more array element: the layout grows by that element's chain, starting after i whole chains. */
  lemma LayoutStep(width: nat, height: nat, depth: nat, mipLevels: nat, bpp: nat, bc: bool, i: nat, arraySize: nat)
    requires i < arraySize
    ensures Layout(width, height, depth, mipLevels, bpp, bc, i + 1)
            == Layout(width, height, depth, mipLevels, bpp, bc, i)
               + ChainEntries(width, height, depth, mipLevels, bpp, bc, i * ChainSize(width, height, depth, mipLevels, bpp))
    ensures (i + 1) * mipLevels == i * mipLevels + mipLevels <= arraySize * mipLevels
    ensures (i + 1) * ChainSize(width, height, depth, mipLevels, bpp)
            == i * ChainSize(width, height, depth, mipLevels, bpp) + ChainSize(width, height, depth, mipLevels, bpp)
  {
    MulMonotone(i + 1, arraySize, mipLevels);
  }

  /**
   * The loops of init_subresource_data: entry i * mipLevels + j describes
   * array element i, mip level j (see LayoutEntry); the data pointer
   * advances by slice pitch times depth per level, so the chains of all
   * elements lie back to back.
   */
  method InitSubresources(subresources: array<SubresourceData>, width: nat, height: nat, depth: nat,
                          mipLevels: nat, arraySize: nat, bpp: nat, bc: bool)
    requires arraySize * mipLevels <= subresources.Length
    modifies subresources
    ensures subresources[..arraySize * mipLevels] == Layout(width, height, depth, mipLevels, bpp, bc, arraySize)
    ensures subresources[arraySize * mipLevels..] == old(subresources[arraySize * mipLevels..])
  {
    ghost var chain := ChainSize(width, height, depth, mipLevels, bpp);
    var pixelPtr := 0;
    var i := 0;
    ghost var base := 0;
    while i < arraySize
      invariant 0 <= i <= arraySize
      invariant base == i * mipLevels && base <= arraySize * mipLevels
      invariant pixelPtr == i * chain
      invariant subresources[..base] == Layout(width, height, depth, mipLevels, bpp, bc, i)
      invariant subresources[arraySize * mipLevels..] == old(subresources[arraySize * mipLevels..])
    {
      LayoutStep(width, height, depth, mipLevels, bpp, bc, i, arraySize);
      pixelPtr := FillMipChain(subresources, i * mipLevels, pixelPtr, width, height, depth, mipLevels, bpp, bc);
      assert subresources[..base + mipLevels] == subresources[..base] + subresources[base..base + mipLevels];
      i := i + 1;
      base := base + mipLevels;
    }
  }

  /** The little-endian bytes of a 32-bit pixel as x86 stores it. */
  function PixelBytes(color: u32): seq<u8>
  {
    [color % 0x100, (color / 0x100) % 0x100, (color / 0x1_0000) % 0x100, color / 0x100_0000]
  }

  /** One pixel store: the four bytes of `color` at `at`, every other byte unchanged. */
  method StorePixel(buf: array<u8>, at: nat, color: u32)
    requires at + 4 <= buf.Length
    modifies buf
    ensures forall k :: at <= k < at + 4 ==> buf[k] == PixelBytes(color)[k - at]
    ensures forall k :: 0 <= k < at || at + 4 <= k < buf.Length ==> buf[k] == old(buf[k])
  {
    buf[at] := color % 0x100;
    buf[at + 1] := (color / 0x100) % 0x100;
    buf[at + 2] := (color / 0x1_0000) % 0x100;
    buf[at + 3] := color / 0x100_0000;
  }

  /**
   * init_buffer_color: fills width * height * depth pixels from byte offset
   * `start` with `color` and returns the offset just past them; byte k of
   * the filled range is byte (k - start) % 4 of the colour.
   */
  method InitBufferColor(buf: array<u8>, start: nat, color: u32, width: nat, height: nat, depth: nat) returns (next: nat)
    requires start + 4 * (width * height * depth) <= buf.Length
    modifies buf
    ensures next == start + 4 * (width * height * depth)
    ensures forall k :: start <= k < next ==> buf[k] == PixelBytes(color)[(k - start) % 4]
    ensures forall k :: 0 <= k < start || next <= k < buf.Length ==> buf[k] == old(buf[k])
  {
    var totalPixels := width * height * depth;
    var i := 0;
    while i < totalPixels
      invariant 0 <= i <= totalPixels
      invariant forall k :: start <= k < start + 4 * i ==> buf[k] == PixelBytes(color)[(k - start) % 4]
      invariant forall k :: 0 <= k < start || start + 4 * i <= k < buf.Length ==> buf[k] == old(buf[k])
    {
      var at := start + 4 * i;
      StorePixel(buf, at, color);
      forall k | at <= k < at + 4
        ensures buf[k] == PixelBytes(color)[(k - start) % 4]
      {
        assert (k - start) % 4 == k - at;
      }
      i := i + 1;
    }
    next := start + totalPixels * 4;
  }
}
