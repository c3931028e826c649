/**
 * Inline helpers of the D3DX9 implementation (dlls/d3dx9_36/d3dx9_private.h):
 * texture filter validation, pixel-format compatibility predicates, effect
 * parameter number conversion, power-of-two rounding and the effect
 * parameter update-version bookkeeping.
 */
module D3dx9Helpers {
  import opened Words
  import opened Wrappers

  const D3D_OK: u32 := 0
  /** MAKE_D3DHRESULT(2156). */
  const D3DERR_INVALIDCALL: u32 := 0x8876086c

  /** D3DX_DEFAULT, and the D3DX_FILTER_* values of the public d3dx9tex.h. */
  const D3DX_DEFAULT: bv32 := 0xffffffff
  const D3DX_FILTER_NONE: bv32 := 1
  const D3DX_FILTER_POINT: bv32 := 2
  const D3DX_FILTER_LINEAR: bv32 := 3
  const D3DX_FILTER_TRIANGLE: bv32 := 4
  const D3DX_FILTER_BOX: bv32 := 5
  const D3DX_FILTER_MIRROR: bv32 := 0x70000
  const D3DX_FILTER_DITHER: bv32 := 0x80000
  const D3DX_FILTER_DITHER_DIFFUSION: bv32 := 0x100000
  const D3DX_FILTER_SRGB_IN: bv32 := 0x200000
  const D3DX_FILTER_SRGB_OUT: bv32 := 0x400000
  /** Wine-internal premultiplied-alpha filter flags. */
  const D3DX_FILTER_PMA_IN: bv32 := 0x80000000
  const D3DX_FILTER_PMA_OUT: bv32 := 0x40000000

  const D3DX9_FILTER_INVALID_BITS: bv32 := 0xff80fff8

  /** d3dx9_validate_filter. */
  function ValidateFilter(filter: bv32): u32
  {
    if filter & D3DX9_FILTER_INVALID_BITS != 0 || filter & 7 == 0 || filter & 7 > D3DX_FILTER_BOX
    then D3DERR_INVALIDCALL
    else D3D_OK
  }

  /**
   * A filter is accepted exactly when it is one of NONE, POINT, LINEAR,
   * TRIANGLE or BOX, combined with any of the mirror, dither and sRGB flags
   * and nothing else.
   */
  lemma ValidFilterShape(filter: bv32)
    ensures ValidateFilter(filter) == D3D_OK <==>
      1 <= filter & 7 <= 5 &&
      filter == (filter & 7) | (filter & (D3DX_FILTER_MIRROR | D3DX_FILTER_DITHER | D3DX_FILTER_DITHER_DIFFUSION |
                                          D3DX_FILTER_SRGB_IN | D3DX_FILTER_SRGB_OUT))
    ensures ValidateFilter(filter) == D3D_OK || ValidateFilter(filter) == D3DERR_INVALIDCALL
  {
  }

  /**
   * d3dx9_handle_load_filter: `*filter` is rewritten from D3DX_DEFAULT to
   * TRIANGLE | DITHER before validation; any other value is kept.
   */
  method HandleLoadFilter(filter: bv32) returns (hr: u32, newFilter: bv32)
    ensures newFilter == if filter == D3DX_DEFAULT then D3DX_FILTER_TRIANGLE | D3DX_FILTER_DITHER else filter
    ensures hr == ValidateFilter(newFilter)
    ensures filter == D3DX_DEFAULT ==> hr == D3D_OK
  {
    newFilter := filter;
    if newFilter == D3DX_DEFAULT {
      newFilter := D3DX_FILTER_TRIANGLE | D3DX_FILTER_DITHER;
    }
    hr := ValidateFilter(newFilter);
  }

  /** filter_flags_match: premultiplied alpha and sRGB are each either converted both ways or not at all. */
  function FilterFlagsMatch(filterFlags: bv32): bool
  {
    if (filterFlags & D3DX_FILTER_PMA_IN != 0) != (filterFlags & D3DX_FILTER_PMA_OUT != 0) then false
    else if (filterFlags & D3DX_FILTER_SRGB_IN != 0) != (filterFlags & D3DX_FILTER_SRGB_OUT != 0) then false
    else true
  }

  /** The flags match exactly when the four flags form one of four balanced combinations. */
  lemma FilterFlagsMatchCombinations(filterFlags: bv32)
    ensures FilterFlagsMatch(filterFlags) <==>
      var pma := D3DX_FILTER_PMA_IN | D3DX_FILTER_PMA_OUT;
      var srgb := D3DX_FILTER_SRGB_IN | D3DX_FILTER_SRGB_OUT;
      var m := filterFlags & (pma | srgb);
      m == 0 || m == pma || m == srgb || m == pma | srgb
  {
  }

  /** The channel component types of a pixel format (enum component_type). */
  datatype ComponentType = CtypeEmpty | CtypeUnorm | CtypeSnorm | CtypeFloat | CtypeLuma | CtypeIndex

  /** fmt_flags bits. */
  const FMT_FLAG_DXT: bv32 := 0x01
  const FMT_FLAG_PACKED: bv32 := 0x02

  /** The format identifier; `PixelFormatCount` is the D3DX_PIXEL_FORMAT_COUNT sentinel of unknown formats. */
  datatype PixelFormatId = Known(id: nat) | PixelFormatCount

  /** The fields of `struct pixel_format_desc` the predicates read. */
  datatype PixelFormatDesc = PixelFormatDesc(format: PixelFormatId, aType: ComponentType, rgbType: ComponentType, fmtFlags: bv32)

  predicate IsUnknownFormat(f: PixelFormatDesc) { f.format == PixelFormatCount }
  predicate IsIndexFormat(f: PixelFormatDesc) { f.aType == CtypeIndex || f.rgbType == CtypeIndex }
  predicate IsCompressedFormat(f: PixelFormatDesc) { f.fmtFlags & FMT_FLAG_DXT != 0 }
  predicate IsPackedFormat(f: PixelFormatDesc) { f.fmtFlags & FMT_FLAG_PACKED != 0 }

  /** format_types_match. */
  predicate FormatTypesMatch(src: PixelFormatDesc, dst: PixelFormatDesc)
  {
    if src.aType != dst.aType && src.aType != CtypeEmpty && dst.aType != CtypeEmpty then false
    else if src.rgbType != dst.rgbType && src.rgbType != CtypeEmpty && dst.rgbType != CtypeEmpty then false
    else if src.fmtFlags != dst.fmtFlags then false
    else src.rgbType == dst.rgbType || src.aType == dst.aType
  }

  /**
   * The match does not depend on the direction, holds between a format and
   * itself, needs equal format flags, and is exactly "each channel type equal
   * or one side empty, and at least one channel type equal".
   */
  lemma FormatTypesMatchProperties(src: PixelFormatDesc, dst: PixelFormatDesc)
    ensures FormatTypesMatch(src, dst) == FormatTypesMatch(dst, src)
    ensures FormatTypesMatch(src, src)
    ensures src.fmtFlags != dst.fmtFlags ==> !FormatTypesMatch(src, dst)
    ensures FormatTypesMatch(src, dst) <==>
      (src.aType == dst.aType || CtypeEmpty in {src.aType, dst.aType}) &&
      (src.rgbType == dst.rgbType || CtypeEmpty in {src.rgbType, dst.rgbType}) &&
      src.fmtFlags == dst.fmtFlags &&
      (src.rgbType == dst.rgbType || src.aType == dst.aType)
  {
  }

  predicate IsConversionFromSupported(f: PixelFormatDesc) { !IsPackedFormat(f) && !IsUnknownFormat(f) }
  predicate IsConversionToSupported(f: PixelFormatDesc) { !IsIndexFormat(f) && !IsPackedFormat(f) && !IsUnknownFormat(f) }

  /** Every format that can be converted to can also be converted from; index formats only from. */
  lemma ConversionSupportOrder(f: PixelFormatDesc)
    ensures IsConversionToSupported(f) ==> IsConversionFromSupported(f)
    ensures IsConversionFromSupported(f) && !IsConversionToSupported(f) <==> IsConversionFromSupported(f) && IsIndexFormat(f)
  {
  }

  /** The D3DXPARAMETER_TYPE values the conversion helpers distinguish; `PtOther` covers strings, textures, samplers, ... */
  datatype ParamType = PtVoid | PtBool | PtInt | PtFloat | PtOther(code: nat)

  /** get_bool on the 32-bit word at `data`: a BOOL, normalised to 0/1 except for VOID, which is returned raw. */
  function GetBool(t: ParamType, data: u32): (b: u32)
    ensures t in {PtFloat, PtInt, PtBool} ==> (b == 1 <==> data != 0) && (b == 0 <==> data == 0)
    ensures t == PtVoid ==> b == data
    ensures t.PtOther? ==> b == 0
  {
    match t
    case PtFloat | PtInt | PtBool => if data != 0 then 1 else 0
    case PtVoid => data
    case PtOther(_) => 0
  }

  /** The value a conversion produces: a 32-bit word, or a float conversion that the model does not follow. */
  datatype Converted = Word(value: u32) | FloatConversion

  /** get_int; the FLOAT case truncates a float and is not followed. The result is the int's 32-bit pattern. */
  function GetInt(t: ParamType, data: u32): (r: Converted)
    ensures t == PtFloat <==> r == FloatConversion
    ensures t in {PtInt, PtVoid} ==> r == Word(data)
    ensures t == PtBool ==> r == Word(if data != 0 then 1 else 0)
    ensures t.PtOther? ==> r == Word(0)
  {
    match t
    case PtFloat => FloatConversion
    case PtInt | PtVoid => Word(data)
    case PtBool => Word(GetBool(t, data))
    case PtOther(_) => Word(0)
  }

  /** set_number: the word written to `outdata`. */
  function SetNumber(outType: ParamType, inData: u32, inType: ParamType): (r: Converted)
    ensures outType == inType ==> r == Word(inData)
    ensures outType != inType && outType.PtOther? ==> r == Word(0)
    ensures outType != inType && outType == PtBool ==> r == Word(GetBool(inType, inData))
    ensures outType != inType && outType == PtFloat ==> r == FloatConversion
  {
    if outType == inType then Word(inData)
    else match outType
      case PtFloat => FloatConversion
      case PtBool => Word(GetBool(inType, inData))
      case PtInt => GetInt(inType, inData)
      case _ => Word(0)
  }

  /**
   * Converting an INT or BOOL to BOOL keeps its truth value, and converting a
   * BOOL to INT and back gives the normalised BOOL.
   */
  lemma SetNumberKeepsTruth(x: u32)
    ensures SetNumber(PtBool, x, PtInt) == Word(if x != 0 then 1 else 0)
    ensures SetNumber(PtInt, x, PtBool).Word?
    ensures SetNumber(PtBool, SetNumber(PtInt, x, PtBool).value, PtInt) == Word(if x != 0 then 1 else 0)
  {
  }

  /** BitScanReverse: the index of the most significant set bit, when there is one. */
  function BitScanReverse(x: nat): Option<nat>
  {
    if x == 0 then None else Some(HighestBit(x))
  }

  function HighestBit(x: nat): nat
    requires x > 0
  {
    if x == 1 then 0 else 1 + HighestBit(x / 2)
  }

  lemma {:induction false} HighestBitBounds(x: nat)
    requires x > 0
    ensures Pow2(HighestBit(x)) <= x < Pow2(HighestBit(x) + 1)
  {
    if x > 1 {
      HighestBitBounds(x / 2);
    }
  }

  lemma {:induction false} PowMonotone(a: nat, b: nat)
    requires a <= b
    ensures Pow2(a) <= Pow2(b)
  {
    if a < b {
      PowMonotone(a, b - 1);
    }
  }

  /** A value below 2^31 has its top bit at index 30 or lower. */
  lemma HighestBitBelow31(x: nat)
    requires 0 < x < 0x8000_0000
    ensures HighestBit(x) <= 30
    ensures Pow2(HighestBit(x) + 1) <= 0x8000_0000
  {
    HighestBitBounds(x);
    Pow2WordSizes();
    if HighestBit(x) > 30 {
      PowMonotone(31, HighestBit(x));
    }
    PowMonotone(HighestBit(x) + 1, 31);
  }

  /**
   * make_pow2 on 1 <= num <= 2^31 (beyond that `1u << 32` is undefined in C):
   * BitScanReverse(num - 1) finds the top bit of num - 1 and the result is
   * the next power of two above it, or 1 when num - 1 is 0.
   */
  function MakePow2(num: u32): u32
    requires 1 <= num <= 0x8000_0000
  {
    match BitScanReverse(num - 1)
    case None => 1
    case Some(index) =>
      HighestBitBelow31(num - 1);
      Pow2(index + 1)
  }

  /** make_pow2 returns a power of two that is at least num and less than twice num. */
  lemma MakePow2Bounds(num: u32)
    requires 1 <= num <= 0x8000_0000
    ensures IsPowerOfTwo(MakePow2(num)) && num <= MakePow2(num)
    ensures MakePow2(num) == 1 || MakePow2(num) < 2 * num
  {
    if num == 1 {
      Pow2IsPowerOfTwo(0);
    } else {
      HighestBitBounds(num - 1);
      Pow2IsPowerOfTwo(HighestBit(num - 1) + 1);
    }
  }

  /** The smallest power of two that is at least num: every power of two at least num is at least the result. */
  lemma MakePow2IsLeast(num: u32, k: nat)
    requires 1 <= num <= 0x8000_0000
    requires Pow2(k) >= num
    ensures MakePow2(num) <= Pow2(k)
  {
    if num > 1 {
      var i := HighestBit(num - 1);
      assert MakePow2(num) == Pow2(i + 1);
      HighestBitBounds(num - 1);
      if k <= i {
        PowMonotone(k, i);
        assert false;
      }
      PowMonotone(i + 1, k);
    } else {
      assert MakePow2(num) == 1;
      PowMonotone(0, k);
    }
  }

  /** ULONG64 *version_counter shared by the parameters of one effect pool. */
  class VersionCounter {
    var value: u64

    constructor (initial: u64)
      ensures value == initial
    {
      value := initial;
    }

    /** next_update_version: `++*version_counter`, wrapping at 2^64. */
    method NextUpdateVersion() returns (version: u64)
      modifies this
      ensures value == (old(value) + 1) % QWORD_RANGE
      ensures version == value
      ensures old(value) < QWORD_RANGE - 1 ==> version > old(value)
    {
      value := (value + 1) % QWORD_RANGE;
      version := value;
    }
  }

  datatype SharedData = SharedData(updateVersion: u64)

  /** The fields of `struct d3dx_top_level_parameter` the dirty test reads. */
  datatype TopLevelParam = TopLevelParam(updateVersion: u64, sharedData: Option<SharedData>)

  /** is_top_level_param_dirty: a shared parameter is dirty by the pool's version, otherwise by its own. */
  function IsTopLevelParamDirty(param: TopLevelParam, updateVersion: u64): bool
  {
    match param.sharedData
    case Some(shared) => updateVersion < shared.updateVersion
    case None => updateVersion < param.updateVersion
  }

  /** Stamping a parameter's change with a version: shared parameters record it in the shared data. */
  function Stamp(param: TopLevelParam, version: u64): TopLevelParam
  {
    match param.sharedData
    case Some(shared) => param.(sharedData := Some(shared.(updateVersion := version)))
    case None => param.(updateVersion := version)
  }

  /**
   * A change stamped with a version newer than the one a consumer last saw
   * makes the parameter dirty for that consumer and clean for a consumer that
   * has seen the stamp; for a shared parameter its own version is irrelevant.
   */
  lemma StampedParamIsDirty(param: TopLevelParam, seen: u64, version: u64)
    ensures IsTopLevelParamDirty(Stamp(param, version), seen) <==> seen < version
    ensures param.sharedData.Some? ==>
      forall own: u64 :: IsTopLevelParamDirty(param.(updateVersion := own), seen) == IsTopLevelParamDirty(param, seen)
  {
  }
}
