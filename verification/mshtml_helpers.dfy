/**
 * Inline helpers and shared constants of MSHTML (dlls/mshtml/mshtml_private.h):
 * property flag layout, document compatibility modes, the custom DISPID
 * range, bounded string duplication, VARIANT_BOOL conversion, digit and
 * power-of-two tests, and dropping an interface reference.
 */
module MshtmlHelpers {
  import opened Words
  import opened Wrappers

  /** PROPF_* property flags reported to the script engine proxy. */
  const PROPF_ARGMASK: bv32 := 0x00ff
  const PROPF_METHOD: bv32 := 0x0100
  const PROPF_CONSTR: bv32 := 0x0200
  const PROPF_ENUMERABLE: bv32 := 0x0400
  const PROPF_WRITABLE: bv32 := 0x0800
  const PROPF_CONFIGURABLE: bv32 := 0x1000
  const PROPF_ALL: bv32 := PROPF_ENUMERABLE | PROPF_WRITABLE | PROPF_CONFIGURABLE

  /** The argument count, the method and constructor bits and the three attributes never overlap. */
  lemma PropFlagsDisjoint()
    ensures PROPF_ARGMASK & PROPF_METHOD == 0 && PROPF_ARGMASK & PROPF_CONSTR == 0 && PROPF_METHOD & PROPF_CONSTR == 0
    ensures (PROPF_ARGMASK | PROPF_METHOD | PROPF_CONSTR) & PROPF_ALL == 0
    ensures PROPF_ENUMERABLE & PROPF_WRITABLE == 0 && PROPF_ENUMERABLE & PROPF_CONFIGURABLE == 0
    ensures PROPF_WRITABLE & PROPF_CONFIGURABLE == 0
    ensures PROPF_ALL == 0x1c00
  {
  }

  /** compat_mode_t, in increasing order of IE version. */
  datatype CompatMode = Quirks | IE5 | IE7 | IE8 | IE9 | IE10 | IE11
  {
    /** The enumerator's numeric value. */
    function Ordinal(): nat
    {
      match this
      case Quirks => 0
      case IE5 => 1
      case IE7 => 2
      case IE8 => 3
      case IE9 => 4
      case IE10 => 5
      case IE11 => 6
    }
  }

  const MSHTML_DISPID_CUSTOM_MIN: int := 0x60000000
  const MSHTML_DISPID_CUSTOM_MAX: int := 0x6fffffff

  /** A WCHAR code unit. */
  type WChar = u16

  /**
   * strndupW: NULL in, NULL out; otherwise a fresh buffer of len + 1 WCHARs
   * holding the first len characters and a terminating zero, or NULL when
   * the allocation (`allocOk`) fails.  The caller guarantees len readable characters.
   */
  method StrnDupW(str: Option<seq<WChar>>, len: u32, allocOk: bool) returns (ret: Option<array<WChar>>)
    requires str.Some? ==> len <= |str.value|
    ensures str.None? || !allocOk <==> ret.None?
    ensures ret.Some? ==> fresh(ret.value) && ret.value.Length == len + 1
    ensures ret.Some? ==> ret.value[..len] == str.value[..len] && ret.value[len] == 0
  {
    ret := None;
    if str.Some? {
      if allocOk {
        var buf := new WChar[len + 1];
        var i := 0;
        while i < len
          invariant 0 <= i <= len
          invariant buf[..i] == str.value[..i]
        {
          buf[i] := str.value[i];
          i := i + 1;
        }
        buf[len] := 0;
        assert buf[..len] == str.value[..len];
        ret := Some(buf);
      }
    }
  }

  /** VARIANT_TRUE and VARIANT_FALSE as 16-bit signed values. */
  const VARIANT_TRUE: int := -1
  const VARIANT_FALSE: int := 0

  /** variant_bool: any nonzero BOOL becomes VARIANT_TRUE. */
  function VariantBool(b: int): (v: int)
    ensures v == VARIANT_TRUE || v == VARIANT_FALSE
    ensures v == VARIANT_TRUE <==> b != 0
  {
    if b != 0 then VARIANT_TRUE else VARIANT_FALSE
  }

  /** is_digit: the ASCII decimal digits '0' to '9'. */
  function IsDigit(c: WChar): (d: bool)
    ensures d <==> 0x30 <= c <= 0x39
  {
    '0' as int <= c <= '9' as int
  }

  /** is_power_of_2 on an unsigned 32-bit x, with x - 1 wrapping to 0xffffffff when x is 0. */
  function IsPowerOf2(x: u32): bool
  {
    BitAnd(x, (x - 1) % DWORD_RANGE) == 0
  }

  lemma {:induction false} BitAndWithPredecessor(x: nat)
    requires x >= 1
    ensures BitAnd(x, x - 1) == 0 <==> IsPowerOfTwo(x)
  {
    if x % 2 == 1 {
      if x > 1 {
        BitAndSelf(x / 2);
        assert BitAnd(x, x - 1) == 2 * BitAnd(x / 2, x / 2);
      }
    } else {
      var q := x / 2;
      assert (x - 1) / 2 == q - 1;
      assert BitAnd(x, x - 1) == 2 * BitAnd(q, q - 1);
      BitAndWithPredecessor(q);
    }
  }

  /** The bit trick is true exactly for 0 and the powers of two. */
  lemma IsPowerOf2Characterised(x: u32)
    ensures IsPowerOf2(x) <==> x == 0 || IsPowerOfTwo(x)
  {
    if x > 0 {
      BitAndWithPredecessor(x);
    } else {
      assert !IsPowerOfTwo(0);
    }
  }

  /** A COM object, reduced to its reference count; IUnknown_Release decrements it. */
  class ComObject {
    var refcount: nat
    constructor (refcount: nat)
      ensures this.refcount == refcount
    {
      this.refcount := refcount;
    }
  }

  /** An interface pointer variable (`IUnknown *`). */
  class RefSlot {
    var target: ComObject?
    constructor (target: ComObject?)
      ensures this.target == target
    {
      this.target := target;
    }
  }

  /**
   * unlink_ref: clears the pointer, then releases the object it held, if
   * any; a held reference means the count is at least one.
   */
  method UnlinkRef(slot: RefSlot)
    requires slot.target != null ==> slot.target.refcount >= 1
    modifies slot, slot.target
    ensures slot.target == null
    ensures old(slot.target) != null ==> old(slot.target).refcount == old(slot.target.refcount) - 1
  {
    if slot.target != null {
      var unk := slot.target;
      slot.target := null;
      unk.refcount := unk.refcount - 1;
    }
  }
}
