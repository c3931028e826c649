/**
 * The value layer under ArrayBuffer views, as the "ArrayBuffers & Views"
 * test of es5.js pins it down: the integer element types, the conversion of
 * a Number to an element (modular for the integer types, saturating for
 * Uint8Clamped), two's-complement encoding in either byte order, the
 * element layout of a typed array over a byte store, and the clamping of
 * relative indices by subarray and slice.
 */
module Es5Bytes {
  import opened Words
  import opened Wrappers
  import opened Es5Values

  /** The integer element types (Float32 and Float64 are not modelled). */
  datatype ElementType = Int8 | Uint8 | Uint8Clamped | Int16 | Uint16 | Int32 | Uint32

  /** BYTES_PER_ELEMENT. */
  function Size(t: ElementType): (n: nat)
    ensures n == 1 || n == 2 || n == 4
  {
    match t
    case Int8 | Uint8 | Uint8Clamped => 1
    case Int16 | Uint16 => 2
    case Int32 | Uint32 => 4
  }

  predicate IsSigned(t: ElementType)
  {
    t == Int8 || t == Int16 || t == Int32
  }

  /** The number of distinct element values, 2 to the power of the element's bits. */
  function Modulus(t: ElementType): (m: nat)
    ensures m >= 2
  {
    match t
    case Int8 | Uint8 | Uint8Clamped => BYTE_RANGE
    case Int16 | Uint16 => WORD_RANGE
    case Int32 | Uint32 => DWORD_RANGE
  }

  /** 256 to the power n: the number of values n bytes hold. */
  function Pow256(n: nat): (r: nat)
    ensures r >= 1
  {
    if n == 0 then 1 else 256 * Pow256(n - 1)
  }

  /** The values an element of type t holds. */
  predicate InRange(t: ElementType, v: int)
  {
    if IsSigned(t) then -(Modulus(t) / 2) <= v < Modulus(t) / 2 else 0 <= v < Modulus(t)
  }

  /** The element value of an unsigned residue u: for the signed types the upper half counts down from 0. */
  function Signed(t: ElementType, u: int): int
  {
    if IsSigned(t) && u >= Modulus(t) / 2 then u - Modulus(t) else u
  }

  /** ToInt8, ToUint8, ToInt16, ... of an integer: reduction modulo 2^bits into the type's range. */
  function Wrap(t: ElementType, i: int): int
  {
    Signed(t, i % Modulus(t))
  }

  lemma ShiftMod(u: int, m: int)
    requires 0 <= u < m
    ensures u % m == u && (u - m) % m == u
  {
  }

  /** A residue's element value lies in the type's range and is congruent to it. */
  lemma SignedSpec(t: ElementType, u: int)
    requires 0 <= u < Modulus(t)
    ensures InRange(t, Signed(t, u)) && Signed(t, u) % Modulus(t) == u
  {
    ShiftMod(u, Modulus(t));
  }

  /** A value in the type's range is the element value of its own residue. */
  lemma SignedOfResidue(t: ElementType, v: int)
    requires InRange(t, v)
    ensures Signed(t, v % Modulus(t)) == v
  {
    if v < 0 {
      ShiftMod(v + Modulus(t), Modulus(t));
    } else {
      ShiftMod(v, Modulus(t));
    }
  }

  /** The integer a Number contributes to ToInt32 and its relatives: NaN and the infinities give 0. */
  function IntegerPart(n: Number): int
  {
    if n.Finite? then Truncate(n.r) else 0
  }

  /** ToUint8Clamp (ECMA-262 6th edition, section 7.1.11): saturate, then round half to even. */
  function ToUint8Clamp(n: Number): int
  {
    match n
    case NaN => 0
    case PosInf => 255
    case NegInf => 0
    case Finite(x) =>
      if x <= 0.0 then 0
      else if x >= 255.0 then 255
      else
        var f := x.Floor;
        if x - f as real < 0.5 then f
        else if x - f as real > 0.5 then f + 1
        else if f % 2 == 0 then f
        else f + 1
  }

  /** The element value an assignment of n stores into an array of type t. */
  function ToElement(t: ElementType, n: Number): int
  {
    if t == Uint8Clamped then ToUint8Clamp(n) else Wrap(t, IntegerPart(n))
  }

  /** Wrap lands in the type's range, keeps the value modulo 2^bits, and keeps values already in range. */
  lemma WrapSpec(t: ElementType, i: int)
    ensures InRange(t, Wrap(t, i))
    ensures Wrap(t, i) % Modulus(t) == i % Modulus(t)
    ensures InRange(t, i) ==> Wrap(t, i) == i
  {
    SignedSpec(t, i % Modulus(t));
    if InRange(t, i) {
      SignedOfResidue(t, i);
    }
  }

  /**
   * ToUint8Clamp saturates to [0, 255]: NaN and everything at or below 0
   * give 0, everything at or above 255 gives 255, and in between the result
   * is the nearest integer, an exact half going to the even neighbour.
   */
  lemma ToUint8ClampSpec(n: Number)
    ensures 0 <= ToUint8Clamp(n) <= 255
    ensures n.NaN? || n.NegInf? || (n.Finite? && n.r <= 0.0) ==> ToUint8Clamp(n) == 0
    ensures n.PosInf? || (n.Finite? && n.r >= 255.0) ==> ToUint8Clamp(n) == 255
    ensures n.Finite? && 0.0 <= n.r <= 255.0 ==>
      var d := ToUint8Clamp(n) as real - n.r;
      && -0.5 <= d <= 0.5
      && (d == 0.5 || d == -0.5 ==> ToUint8Clamp(n) % 2 == 0)
  {
  }

  /** Every conversion gives a value of the element type. */
  lemma ToElementInRange(t: ElementType, n: Number)
    ensures InRange(t, ToElement(t, n))
  {
    if t == Uint8Clamped {
      ToUint8ClampSpec(n);
    } else {
      WrapSpec(t, IntegerPart(n));
    }
  }

  /** The element conversions es5.js checks: 16-bit and 8-bit wrap-around, and clamped against modular stores. */
  lemma ToElementExamples()
    ensures ToElement(Int16, Finite(65535.0)) == -1 && ToElement(Int16, Finite(-65535.0)) == 1
    ensures ToElement(Uint8, Finite(-2.0)) == 254 && ToElement(Uint8, Finite(258.0)) == 2
    ensures ToElement(Uint8Clamped, Finite(42.0)) == 42 && ToElement(Uint8, Finite(42.0)) == 42
    ensures ToElement(Uint8Clamped, Finite(-1.0)) == 0 && ToElement(Uint8, Finite(-1.0)) == 255
    ensures ToElement(Uint8Clamped, Finite(999.0)) == 255 && ToElement(Uint8, Finite(999.0)) == 231
    ensures ToElement(Uint8Clamped, Finite(0.9)) == 1 && ToElement(Uint8, Finite(0.9)) == 0
    ensures ToElement(Uint8Clamped, NaN) == 0 && ToElement(Uint8, NaN) == 0
    ensures ToElement(Uint8Clamped, PosInf) == 255 && ToElement(Uint8, PosInf) == 0
    ensures ToElement(Uint8Clamped, NegInf) == 0 && ToElement(Uint8, NegInf) == 0
  {
  }

  // ---------------------------------------------------------------------
  // Byte encoding.

  /** The n low bytes of v, least significant first. */
  function EncodeLE(v: nat, n: nat): (b: seq<u8>)
    ensures |b| == n
  {
    if n == 0 then [] else [v % 256] + EncodeLE(v / 256, n - 1)
  }

  /** The unsigned value of bytes stored least significant first. */
  function DecodeLE(b: seq<u8>): nat
  {
    if b == [] then 0 else b[0] + 256 * DecodeLE(b[1..])
  }

  function Reverse(s: seq<u8>): (r: seq<u8>)
    ensures |r| == |s|
  {
    seq(|s|, i requires 0 <= i < |s| => s[|s| - 1 - i])
  }

  /** The bytes setInt8/setUint16/... store for v, in the requested byte order. */
  function Encode(t: ElementType, v: int, littleEndian: bool): (b: seq<u8>)
    ensures |b| == Size(t)
  {
    var le := EncodeLE(v % Modulus(t), Size(t));
    if littleEndian then le else Reverse(le)
  }

  /** The value getInt8/getUint16/... reads from b, in the requested byte order. */
  function Decode(t: ElementType, b: seq<u8>, littleEndian: bool): int
  {
    Signed(t, DecodeLE(if littleEndian then b else Reverse(b)))
  }

  lemma ModulusIsPow256(t: ElementType)
    ensures Modulus(t) == Pow256(Size(t))
  {
    assert Pow256(1) == 256;
    assert Pow256(2) == 65536;
    assert Pow256(4) == 256 * 256 * Pow256(2);
  }

  lemma ReverseReverse(s: seq<u8>)
    ensures Reverse(Reverse(s)) == s
  {
  }

  /** n bytes decode to less than 256^n. */
  lemma {:induction false} DecodeLEBound(b: seq<u8>)
    ensures DecodeLE(b) < Pow256(|b|)
  {
    if b != [] {
      DecodeLEBound(b[1..]);
    }
  }

  /** Decoding the n-byte encoding of a value below 256^n gives it back. */
  lemma {:induction false} DecodeEncodeLE(v: nat, n: nat)
    requires v < Pow256(n)
    ensures DecodeLE(EncodeLE(v, n)) == v
  {
    if n > 0 {
      var q, r := v / 256, v % 256;
      assert v == q * 256 + r;
      MulCancelLess(q, Pow256(n - 1), 256);
      DecodeEncodeLE(q, n - 1);
      assert EncodeLE(v, n)[1..] == EncodeLE(q, n - 1);
    }
  }

  /** Encoding the value of some bytes gives those bytes back. */
  lemma {:induction false} EncodeDecodeLE(b: seq<u8>)
    ensures EncodeLE(DecodeLE(b), |b|) == b
  {
    if b != [] {
      EncodeDecodeLE(b[1..]);
      var d := DecodeLE(b);
      assert d % 256 == b[0] && d / 256 == DecodeLE(b[1..]);
      assert b == [b[0]] + b[1..];
    }
  }

  /**
   * Reading back what a store wrote gives the stored value reduced to the
   * type (setUint32(0, -2) then getInt32(0) is -2), in either byte order.
   */
  lemma DecodeEncode(t: ElementType, v: int, littleEndian: bool)
    ensures Decode(t, Encode(t, v, littleEndian), littleEndian) == Wrap(t, v)
  {
    ModulusIsPow256(t);
    var le := EncodeLE(v % Modulus(t), Size(t));
    DecodeEncodeLE(v % Modulus(t), Size(t));
    if !littleEndian {
      ReverseReverse(le);
    }
  }

  /** Storing a value read from some bytes writes exactly those bytes. */
  lemma EncodeDecode(t: ElementType, b: seq<u8>, littleEndian: bool)
    requires |b| == Size(t)
    ensures Encode(t, Decode(t, b, littleEndian), littleEndian) == b
  {
    ModulusIsPow256(t);
    var le := if littleEndian then b else Reverse(b);
    DecodeLEBound(le);
    EncodeDecodeLE(le);
    var u := DecodeLE(le);
    SignedSpec(t, u);
    if !littleEndian {
      ReverseReverse(b);
    }
  }

  /** Every value read from an element's bytes lies in the element type's range. */
  lemma DecodeInRange(t: ElementType, b: seq<u8>, littleEndian: bool)
    requires |b| == Size(t)
    ensures InRange(t, Decode(t, b, littleEndian))
  {
    ModulusIsPow256(t);
    DecodeLEBound(if littleEndian then b else Reverse(b));
    SignedSpec(t, DecodeLE(if littleEndian then b else Reverse(b)));
  }

  /** Zero bytes have the unsigned value 0. */
  lemma {:induction false} DecodeLEZeros(b: seq<u8>)
    requires forall k :: 0 <= k < |b| ==> b[k] == 0
    ensures DecodeLE(b) == 0
  {
    if b != [] {
      DecodeLEZeros(b[1..]);
    }
  }

  /** Zero bytes read as 0 in either byte order. */
  lemma DecodeZeros(b: seq<u8>)
    requires forall k :: 0 <= k < |b| ==> b[k] == 0
    ensures DecodeLE(b) == 0 && DecodeLE(Reverse(b)) == 0
  {
    DecodeLEZeros(b);
    DecodeLEZeros(Reverse(b));
  }

  /**
   * Stores differing only in signedness write the same bytes: the stored
   * bytes depend on the value modulo 2^bits only.
   */
  lemma SignednessDoesNotChangeStores(v: int, littleEndian: bool)
    ensures Encode(Int8, v, littleEndian) == Encode(Uint8, v, littleEndian)
    ensures Encode(Int16, v, littleEndian) == Encode(Uint16, v, littleEndian)
    ensures Encode(Int32, v, littleEndian) == Encode(Uint32, v, littleEndian)
  {
  }

  // ---------------------------------------------------------------------
  // A byte store and the elements of a view over it.

  /**
   * A byte store with data written at `at` and every other byte kept; the
   * same write on a typed array's elements writes a run of values.
   */
  function Store<T>(bytes: seq<T>, at: nat, data: seq<T>): (r: seq<T>)
    requires at + |data| <= |bytes|
    ensures |r| == |bytes|
  {
    bytes[..at] + data + bytes[at + |data|..]
  }

  /** The bytes n elements of type t take: n times BYTES_PER_ELEMENT. */
  function ByteCount(n: nat, t: ElementType): nat
  {
    match t
    case Int8 | Uint8 | Uint8Clamped => n
    case Int16 | Uint16 => 2 * n
    case Int32 | Uint32 => 4 * n
  }

  /** The byte offset of element i of a view starting at off. */
  function Offset(off: nat, i: nat, t: ElementType): nat
  {
    off + ByteCount(i, t)
  }

  lemma ElementsFit(off: nat, len: nat, t: ElementType, n: nat)
    requires off + ByteCount(len, t) <= n
    ensures forall i: nat :: i < len ==> Offset(off, i, t) + Size(t) <= n
  {
  }

  /** Element i of a view of type t at byte offset off, read in x86 (little-endian) order. */
  function ElementAt(bytes: seq<u8>, off: nat, i: nat, t: ElementType): int
    requires Offset(off, i, t) + Size(t) <= |bytes|
  {
    Decode(t, bytes[Offset(off, i, t)..Offset(off, i, t) + Size(t)], true)
  }

  /** The elements of a typed array of type t and length len at byte offset off. */
  function ElementsOf(bytes: seq<u8>, off: nat, len: nat, t: ElementType): (r: seq<int>)
    requires off + ByteCount(len, t) <= |bytes|
    ensures |r| == len
  {
    ElementsFit(off, len, t, |bytes|);
    seq(len, i requires 0 <= i < len => ElementAt(bytes, off, i, t))
  }

  /** A cut of a store that lies before or after the written range sees the old bytes. */
  lemma StoreOutside(bytes: seq<u8>, p: nat, data: seq<u8>, x: nat, k: nat)
    requires p + |data| <= |bytes| && x + k <= |bytes|
    requires x + k <= p || p + |data| <= x
    ensures Store(bytes, p, data)[x..x + k] == bytes[x..x + k]
  {
  }

  /** The cut of a store at the written range is the written data. */
  lemma StoreAt(bytes: seq<u8>, p: nat, data: seq<u8>)
    requires p + |data| <= |bytes|
    ensures Store(bytes, p, data)[p..p + |data|] == data
  {
  }

  /** Distinct elements of a view occupy disjoint bytes. */
  lemma ElementsDisjoint(off: nat, i: nat, j: nat, t: ElementType)
    requires i != j
    ensures Offset(off, i, t) + Size(t) <= Offset(off, j, t) || Offset(off, j, t) + Size(t) <= Offset(off, i, t)
  {
  }

  /** Storing v's bytes over element i of a view leaves every other element's value as it was. */
  lemma StoreElementOther(bytes: seq<u8>, off: nat, i: nat, t: ElementType, v: int, j: nat)
    requires Offset(off, i, t) + Size(t) <= |bytes| && Offset(off, j, t) + Size(t) <= |bytes| && i != j
    ensures ElementAt(Store(bytes, Offset(off, i, t), Encode(t, v, true)), off, j, t) == ElementAt(bytes, off, j, t)
  {
    ElementsDisjoint(off, i, j, t);
    StoreOutside(bytes, Offset(off, i, t), Encode(t, v, true), Offset(off, j, t), Size(t));
  }

  /** Storing v's bytes over element i of a view makes that element read back as v reduced to the type. */
  lemma StoreElementSame(bytes: seq<u8>, off: nat, i: nat, t: ElementType, v: int)
    requires Offset(off, i, t) + Size(t) <= |bytes|
    ensures ElementAt(Store(bytes, Offset(off, i, t), Encode(t, v, true)), off, i, t) == Wrap(t, v)
  {
    StoreAt(bytes, Offset(off, i, t), Encode(t, v, true));
    DecodeEncode(t, v, true);
  }

  /**
   * Storing the bytes of an in-range value v over element i of a view
   * changes that element to v and no other element of the view.
   */
  lemma StoreElement(bytes: seq<u8>, off: nat, len: nat, t: ElementType, i: nat, v: int)
    requires off + ByteCount(len, t) <= |bytes| && i < len && InRange(t, v)
    ensures Offset(off, i, t) + Size(t) <= |bytes|
    ensures ElementsOf(Store(bytes, Offset(off, i, t), Encode(t, v, true)), off, len, t)
      == ElementsOf(bytes, off, len, t)[i := v]
  {
    ElementsFit(off, len, t, |bytes|);
    var after := Store(bytes, Offset(off, i, t), Encode(t, v, true));
    var lhs, rhs := ElementsOf(after, off, len, t), ElementsOf(bytes, off, len, t)[i := v];
    forall j | 0 <= j < len
      ensures lhs[j] == rhs[j]
    {
      if j == i {
        StoreElementSame(bytes, off, i, t, v);
        WrapSpec(t, v);
      } else {
        StoreElementOther(bytes, off, i, t, v, j);
      }
    }
  }

  lemma OffsetAdd(off: nat, a: nat, b: nat, t: ElementType)
    ensures Offset(Offset(off, a, t), b, t) == Offset(off, a + b, t)
  {
  }

  /** Element offsets grow with the index, one element size per step. */
  lemma OffsetOrder(off: nat, i: nat, j: nat, t: ElementType)
    requires i < j
    ensures Offset(off, i, t) + Size(t) <= Offset(off, j, t)
  {
  }

  /** A view `first` elements into another, `count` elements long, ends within it. */
  lemma SuffixFits(off: nat, len: nat, t: ElementType, first: nat, count: nat)
    requires first + count <= len
    ensures Offset(off, first, t) + ByteCount(count, t) <= off + ByteCount(len, t)
  {
  }

  /** Element i of a view starting `first` elements into another is that one's element first + i. */
  lemma SuffixElement(bytes: seq<u8>, off: nat, t: ElementType, first: nat, i: nat)
    requires Offset(off, first + i, t) + Size(t) <= |bytes|
    ensures Offset(Offset(off, first, t), i, t) + Size(t) <= |bytes|
    ensures ElementAt(bytes, Offset(off, first, t), i, t) == ElementAt(bytes, off, first + i, t)
  {
    OffsetAdd(off, first, i, t);
  }

  /** A view starting `first` elements into another sees that one's elements from `first` on. */
  lemma ElementsOfSuffix(bytes: seq<u8>, off: nat, len: nat, t: ElementType, first: nat, count: nat)
    requires off + ByteCount(len, t) <= |bytes| && first + count <= len
    ensures Offset(off, first, t) + ByteCount(count, t) <= |bytes|
    ensures ElementsOf(bytes, Offset(off, first, t), count, t) == ElementsOf(bytes, off, len, t)[first..first + count]
  {
    SuffixFits(off, len, t, first, count);
    var inner := ElementsOf(bytes, Offset(off, first, t), count, t);
    var outer := ElementsOf(bytes, off, len, t);
    forall i | 0 <= i < count
      ensures inner[i] == outer[first + i]
    {
      assert Offset(off, first + i, t) + Size(t) <= Offset(off, len, t);
      SuffixElement(bytes, off, t, first, i);
    }
  }

  /** A store keeps the bytes before the written range and the bytes after it. */
  lemma StoreKeeps(bytes: seq<u8>, p: nat, data: seq<u8>, lo: nat, hi: nat)
    requires lo <= p && p + |data| <= hi <= |bytes|
    ensures Store(bytes, p, data)[..lo] == bytes[..lo]
    ensures Store(bytes, p, data)[hi..] == bytes[hi..]
  {
  }

  /** A view over zero bytes holds only zeros. */
  lemma ZeroElements(bytes: seq<u8>, off: nat, len: nat, t: ElementType)
    requires off + ByteCount(len, t) <= |bytes|
    requires forall k :: 0 <= k < |bytes| ==> bytes[k] == 0
    ensures ElementsOf(bytes, off, len, t) == seq(len, _ => 0)
  {
    ElementsFit(off, len, t, |bytes|);
    forall i | 0 <= i < len
      ensures ElementAt(bytes, off, i, t) == 0
    {
      var x := Offset(off, i, t);
      DecodeZeros(bytes[x..x + Size(t)]);
    }
  }

  /**
   * The number of whole elements in a byte length, when the bytes divide
   * into elements.
   */
  function ElementCount(bytes: nat, t: ElementType): (r: Option<nat>)
    ensures r.Some? ==> ByteCount(r.value, t) == bytes
    ensures r.Some? <==> bytes % Size(t) == 0
  {
    match t
    case Int8 | Uint8 | Uint8Clamped => Some(bytes)
    case Int16 | Uint16 => if bytes % 2 == 0 then Some(bytes / 2) else None
    case Int32 | Uint32 => if bytes % 4 == 0 then Some(bytes / 4) else None
  }

  /** A run as long as the sequence replaces all of it. */
  lemma StoreWhole<T>(s: seq<T>, vals: seq<T>)
    requires |vals| == |s|
    ensures Store(s, 0, vals) == vals
  {
  }

  /** Writing the next value of a run extends the written prefix by one. */
  lemma StoreStep<T>(s: seq<T>, at: nat, vals: seq<T>, k: nat)
    requires at + |vals| <= |s| && k < |vals|
    ensures Store(s, at, vals[..k])[at + k := vals[k]] == Store(s, at, vals[..k + 1])
  {
    var lhs, rhs := Store(s, at, vals[..k])[at + k := vals[k]], Store(s, at, vals[..k + 1]);
    forall i | 0 <= i < |s|
      ensures lhs[i] == rhs[i]
    {
      if i < at {
      } else if i < at + k {
        assert lhs[i] == vals[..k][i - at] == vals[i - at];
      } else if i == at + k {
      } else {
        assert lhs[i] == s[i];
      }
    }
  }

  /** The element values a run of Numbers converts to. */
  function Convert(t: ElementType, ns: seq<Number>): (r: seq<int>)
    ensures |r| == |ns|
    ensures forall i :: 0 <= i < |r| ==> r[i] == ToElement(t, ns[i])
  {
    seq(|ns|, i requires 0 <= i < |ns| => ToElement(t, ns[i]))
  }

  /** Integer element values as Numbers. */
  function AsNumbers(vals: seq<int>): (r: seq<Number>)
    ensures |r| == |vals|
    ensures forall i :: 0 <= i < |r| ==> r[i] == Finite(vals[i] as real)
  {
    seq(|vals|, i requires 0 <= i < |vals| => Finite(vals[i] as real))
  }

  /** Converted values are values of the target type. */
  lemma ConvertInRange(t: ElementType, ns: seq<Number>)
    ensures forall i :: 0 <= i < |ns| ==> InRange(t, Convert(t, ns)[i])
  {
    forall i | 0 <= i < |ns|
      ensures InRange(t, Convert(t, ns)[i])
    {
      ToElementInRange(t, ns[i]);
    }
  }

  /** Values already of the element type convert to themselves: copying between arrays of one kind keeps every value. */
  lemma ConvertKeeps(t: ElementType, vals: seq<int>)
    requires forall i :: 0 <= i < |vals| ==> InRange(t, vals[i])
    ensures Convert(t, AsNumbers(vals)) == vals
  {
    forall i | 0 <= i < |vals|
      ensures Convert(t, AsNumbers(vals))[i] == vals[i]
    {
      assert Truncate(vals[i] as real) == vals[i];
      if t != Uint8Clamped {
        WrapSpec(t, vals[i]);
      }
    }
  }

  // ---------------------------------------------------------------------
  // Relative indices.

  /** A relative index of subarray and slice: negative counts from the end; the result is clamped to [0, len]. */
  function RelativeIndex(rel: int, len: nat): (k: nat)
    ensures k <= len
  {
    if rel < 0 then (if len + rel < 0 then 0 else len + rel)
    else if rel > len then len
    else rel
  }

  /** The first index and the element count of begin..end (end absent: to the end); never negative. */
  function Span(len: nat, begin: int, end: Option<int>): (span: (nat, nat))
    ensures span.0 + span.1 <= len
  {
    var first := RelativeIndex(begin, len);
    var last := if end.None? then len else RelativeIndex(end.value, len);
    (first, if last > first then last - first else 0)
  }

  /**
   * A span starts at the clamped begin and ends at the clamped end, empty
   * when the end does not lie past the start; indices within range keep
   * their meaning, and negative ones count back from the length.
   */
  lemma SpanSpec(len: nat, begin: int, end: Option<int>)
    ensures var (first, count) := Span(len, begin, end);
      && first == RelativeIndex(begin, len)
      && (end.None? ==> first + count == len)
      && (end.Some? && RelativeIndex(end.value, len) >= first ==> first + count == RelativeIndex(end.value, len))
      && (end.Some? && RelativeIndex(end.value, len) <= first ==> count == 0)
    ensures 0 <= begin <= len ==> RelativeIndex(begin, len) == begin
    ensures -(len as int) <= begin < 0 ==> RelativeIndex(begin, len) == len + begin
  {
  }

  /** The subarray and slice spans es5.js checks on lengths 10. */
  lemma SpanExamples()
    ensures Span(10, 4, None) == (4, 6)
    ensures Span(10, 4, Some(2)) == (4, 0)
    ensures Span(10, -3, Some(100)) == (7, 3)
    ensures Span(10, 42, Some(-1)) == (10, 0)
    ensures Span(10, 2, Some(-3)) == (2, 5)
    ensures Span(10, -9, Some(1)) == (1, 0)
    ensures Span(10, 0, None) == (0, 10)
    ensures Span(10, 9, Some(16)) == (9, 1)
    ensures Span(10, -9, Some(-1)) == (1, 8)
    ensures Span(10, -9, None) == (1, 9)
  {
  }
}
