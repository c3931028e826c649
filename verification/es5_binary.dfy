/**
 * ArrayBuffer, DataView and the integer typed arrays as the "ArrayBuffers &
 * Views" test of es5.js drives them: one mutable byte store shared by every
 * view created over it, bounds-checked DataView accesses in either byte
 * order, typed-array element reads and writes, subarray views sharing the
 * store, slice copies, and `set` from a run of values or from another typed
 * array, possibly over the same bytes.
 */
module Es5Binary {
  import opened Words
  import opened Wrappers
  import opened Es5Values
  import opened Es5Bytes

  /** The script errors the constructors and methods throw. */
  datatype JsError =
    | INVALID_LENGTH
    | DATAVIEW_NO_ARGUMENT
    | DATAVIEW_INVALID_OFFSET
    | DATAVIEW_INVALID_ACCESS
    | TYPEDARRAY_INVALID_OFFSLEN
    | TYPEDARRAY_BAD_CTOR_ARG
    | TYPEDARRAY_INVALID_SUBARRAY
    | TYPEDARRAY_INVALID_SOURCE

  datatype Outcome<T> = Ok(value: T) | Err(error: JsError)

  /** The integer a length argument stands for: ToInteger, with negative and infinite lengths rejected. */
  function LengthArgument(n: Number): (r: Option<nat>)
    ensures n.Finite? ==> (r.Some? <==> Truncate(n.r) >= 0)
    ensures n.Finite? && r.Some? ==> r.value == Truncate(n.r)
    ensures n.NaN? ==> r == Some(0)
    ensures n.PosInf? || n.NegInf? ==> r.None?
  {
    match ToInteger(n)
    case Infinite(_) => None
    case Integral(i) => if i < 0 then None else Some(i)
  }

  // ---------------------------------------------------------------------
  // ArrayBuffer.

  /** An ArrayBuffer: a fixed-length byte store, zero-filled when created. */
  class ArrayBuffer {
    const data: array<u8>

    constructor (length: nat)
      ensures data.Length == length && fresh(data)
      ensures forall k :: 0 <= k < length ==> data[k] == 0
    {
      data := new u8[length](_ => 0);
    }

    /**
     * ArrayBuffer.prototype.slice(begin, end): a new buffer holding a copy
     * of the bytes in the clamped span; an absent begin is 0.
     */
    method Slice(begin: Option<int>, end: Option<int>) returns (r: ArrayBuffer)
      ensures fresh(r) && fresh(r.data)
      ensures var (first, count) := Span(data.Length, if begin.None? then 0 else begin.value, end);
        r.data[..] == old(data[first..first + count])
    {
      var (first, count) := Span(data.Length, if begin.None? then 0 else begin.value, end);
      r := new ArrayBuffer(count);
      CopyInto(r.data, 0, data[first..first + count]);
    }
  }

  /** new ArrayBuffer(length): an absent length is 0, a negative or infinite one is INVALID_LENGTH. */
  method NewArrayBuffer(length: Option<Number>) returns (r: Outcome<ArrayBuffer>)
    ensures length.None? ==> r.Ok? && r.value.data.Length == 0
    ensures length.Some? ==> (r.Ok? <==> LengthArgument(length.value).Some?)
    ensures length.Some? && r.Ok? ==> r.value.data.Length == LengthArgument(length.value).value
    ensures r.Err? ==> r.error == INVALID_LENGTH
    ensures r.Ok? ==> fresh(r.value) && fresh(r.value.data) && forall k :: 0 <= k < r.value.data.Length ==> r.value.data[k] == 0
  {
    var n: nat := 0;
    if length.Some? {
      var l := LengthArgument(length.value);
      if l.None? {
        return Err(INVALID_LENGTH);
      }
      n := l.value;
    }
    var buf := new ArrayBuffer(n);
    r := Ok(buf);
  }

  // ---------------------------------------------------------------------
  // DataView.

  /**
   * The byte offset and length of new DataView(buffer, offset, length) over
   * a buffer of bufLen bytes; an absent offset is 0 and an absent length
   * runs to the end of the buffer.
   */
  function ViewBounds(bufLen: nat, offset: Option<int>, length: Option<int>): (r: Outcome<(nat, nat)>)
    ensures r.Ok? ==> r.value.0 + r.value.1 <= bufLen
    ensures r.Err? ==> r.error == DATAVIEW_INVALID_OFFSET
  {
    var off := if offset.None? then 0 else offset.value;
    if off < 0 || off > bufLen then Err(DATAVIEW_INVALID_OFFSET)
    else if length.None? then Ok((off, bufLen - off))
    else if length.value < 0 || off + length.value > bufLen then Err(DATAVIEW_INVALID_OFFSET)
    else Ok((off, length.value))
  }

  /**
   * A view is accepted exactly when its offset lies in [0, bufLen] and its
   * length, when given, is non-negative and ends within the buffer; it then
   * starts at that offset and covers that length or the rest of the buffer.
   */
  lemma ViewBoundsSpec(bufLen: nat, offset: Option<int>, length: Option<int>)
    ensures var off := if offset.None? then 0 else offset.value;
      && (ViewBounds(bufLen, offset, length).Ok? <==>
            0 <= off <= bufLen && (length.Some? ==> 0 <= length.value && off + length.value <= bufLen))
      && (ViewBounds(bufLen, offset, length).Ok? ==>
            ViewBounds(bufLen, offset, length).value.0 == off
            && ViewBounds(bufLen, offset, length).value.1 == if length.None? then bufLen - off else length.value)
  {
  }

  /** The views es5.js creates over a 10-byte buffer, and the ones it rejects. */
  lemma ViewBoundsExamples()
    ensures ViewBounds(10, Some(-1), None) == Err(DATAVIEW_INVALID_OFFSET)
    ensures ViewBounds(10, Some(11), None) == Err(DATAVIEW_INVALID_OFFSET)
    ensures ViewBounds(10, Some(9), Some(2)) == Err(DATAVIEW_INVALID_OFFSET)
    ensures ViewBounds(10, Some(9), Some(1)) == Ok((9, 1))
    ensures ViewBounds(10, Some(10), None) == Ok((10, 0))
    ensures ViewBounds(10, Some(1), Some(7)) == Ok((1, 7))
    ensures ViewBounds(10, Some(6), None) == Ok((6, 4))
    ensures ViewBounds(10, None, None) == Ok((0, 10))
  {
  }

  /** The bytes the two setters of the DataView sequence of es5.js store. */
  lemma DataViewStores()
    ensures Encode(Int8, ToElement(Int8, Finite(-257.0)), false) == [255]
    ensures Encode(Uint32, ToElement(Uint32, Finite(12345678.0)), true) == [0x4e, 0x61, 0xbc, 0]
  {
    assert ToElement(Int8, Finite(-257.0)) == -1;
    assert ToElement(Uint32, Finite(12345678.0)) == 12345678;
  }

  /** The values the getters of the DataView sequence of es5.js read back. */
  lemma DataViewReads()
    ensures Decode(Uint16, [0, 255], false) == 255
    ensures Decode(Uint16, [0, 255], true) == 65280
    ensures Decode(Int32, [255, 0x4e, 0x61, 0xbc], false) == -11640388
  {
    var le2: seq<u8> := [0, 255];
    var be2, be4 := Reverse(le2), Reverse([255, 0x4e, 0x61, 0xbc]);
    assert be2 == [255, 0] && be2[1..] == [0] && be2[1..][1..] == [];
    assert DecodeLE(be2[1..]) == 0;
    assert DecodeLE(be2) == 255;
    assert le2[1..] == [255];
    assert DecodeLE(le2) == 65280;
    assert be4 == [0xbc, 0x61, 0x4e, 255];
    assert be4[1..] == [0x61, 0x4e, 255] && be4[1..][1..] == [0x4e, 255] && be4[1..][1..][1..] == [255];
    assert DecodeLE(be4) == 0xff4e61bc;
  }

  /**
   * The DataView sequence of es5.js over a 10-byte buffer: setInt8(1, -257)
   * stores 0xff, which getUint16(0) reads as 255 big-endian and 65280
   * little-endian; setUint32(2, 12345678, true) then makes getInt32(1) read
   * -11640388.
   */
  lemma DataViewSequence()
    ensures var b1 := Store(seq(10, _ => 0 as u8), 1, Encode(Int8, ToElement(Int8, Finite(-257.0)), false));
      var b2 := Store(b1, 2, Encode(Uint32, ToElement(Uint32, Finite(12345678.0)), true));
      && Decode(Uint16, b1[0..2], false) == 255
      && Decode(Uint16, b1[0..2], true) == 65280
      && Decode(Int32, b2[1..5], false) == -11640388
  {
    DataViewStores();
    DataViewReads();
    var b1 := Store(seq(10, _ => 0 as u8), 1, [255]);
    assert b1[0..2] == [0, 255];
    var b2 := Store(b1, 2, [0x4e, 0x61, 0xbc, 0]);
    assert b2[1..5] == [255, 0x4e, 0x61, 0xbc];
  }

  /** A DataView: a byte window onto a buffer, read and written in either byte order. */
  class DataView {
    const buffer: ArrayBuffer
    const byteOffset: nat
    const byteLength: nat

    predicate Valid()
    {
      byteOffset + byteLength <= buffer.data.Length
    }

    constructor (buffer: ArrayBuffer, byteOffset: nat, byteLength: nat)
      requires byteOffset + byteLength <= buffer.data.Length
      ensures this.buffer == buffer && this.byteOffset == byteOffset && this.byteLength == byteLength
      ensures Valid()
    {
      this.buffer := buffer;
      this.byteOffset := byteOffset;
      this.byteLength := byteLength;
    }

    /** An access of `size` bytes at offset stays within the view. */
    predicate InView(offset: int, size: nat)
    {
      0 <= offset && offset + size <= byteLength
    }

    /**
     * getInt8, getUint8, getInt16, ... (offset, littleEndian): an absent
     * offset is NO_ARGUMENT, an access reaching outside the view is
     * INVALID_ACCESS, and otherwise the value the element's bytes hold.
     */
    method Get(t: ElementType, offset: Option<int>, littleEndian: bool) returns (r: Outcome<int>)
      requires Valid() && t != Uint8Clamped
      ensures offset.None? ==> r == Err(DATAVIEW_NO_ARGUMENT)
      ensures offset.Some? && !InView(offset.value, Size(t)) ==> r == Err(DATAVIEW_INVALID_ACCESS)
      ensures r.Ok? ==> offset.Some? && InView(offset.value, Size(t))
      ensures r.Ok? ==> var p := byteOffset + offset.value;
        r.value == Decode(t, buffer.data[p..p + Size(t)], littleEndian) && InRange(t, r.value)
    {
      if offset.None? {
        return Err(DATAVIEW_NO_ARGUMENT);
      }
      if !InView(offset.value, Size(t)) {
        return Err(DATAVIEW_INVALID_ACCESS);
      }
      var p := byteOffset + offset.value;
      DecodeInRange(t, buffer.data[p..p + Size(t)], littleEndian);
      r := Ok(Decode(t, buffer.data[p..p + Size(t)], littleEndian));
    }

    /**
     * setInt8, setUint8, setInt16, ... (offset, value, littleEndian): fewer
     * than two arguments is NO_ARGUMENT, an access reaching outside the view
     * is INVALID_ACCESS, and otherwise the element's bytes are overwritten
     * with the converted value in the requested byte order, every other byte
     * of the buffer keeping its value; reading the element back in the same
     * order gives the converted value.
     */
    method Set(t: ElementType, offset: Option<int>, value: Option<Number>, littleEndian: bool) returns (r: Outcome<()>)
      requires Valid() && t != Uint8Clamped
      modifies buffer.data
      ensures offset.None? || value.None? ==> r == Err(DATAVIEW_NO_ARGUMENT)
      ensures offset.Some? && value.Some? && !InView(offset.value, Size(t)) ==> r == Err(DATAVIEW_INVALID_ACCESS)
      ensures r.Err? ==> buffer.data[..] == old(buffer.data[..])
      ensures r.Ok? ==> offset.Some? && value.Some? && InView(offset.value, Size(t))
      ensures r.Ok? ==> var p := byteOffset + offset.value;
        && buffer.data[..] == Store(old(buffer.data[..]), p, Encode(t, ToElement(t, value.value), littleEndian))
        && Decode(t, buffer.data[p..p + Size(t)], littleEndian) == ToElement(t, value.value)
    {
      if offset.None? || value.None? {
        return Err(DATAVIEW_NO_ARGUMENT);
      }
      if !InView(offset.value, Size(t)) {
        return Err(DATAVIEW_INVALID_ACCESS);
      }
      var p := byteOffset + offset.value;
      var v := ToElement(t, value.value);
      var bytes := Encode(t, v, littleEndian);
      CopyInto(buffer.data, p, bytes);
      DecodeEncode(t, v, littleEndian);
      ToElementInRange(t, value.value);
      WrapSpec(t, v);
      r := Ok(());
    }
  }

  /**
   * new DataView(buffer, offset, length): a missing buffer (or an argument
   * that is not one) is NO_ARGUMENT; the bounds are checked as ViewBounds
   * says.
   */
  method NewDataView(buffer: Option<ArrayBuffer>, offset: Option<int>, length: Option<int>) returns (r: Outcome<DataView>)
    ensures buffer.None? ==> r == Err(DATAVIEW_NO_ARGUMENT)
    ensures buffer.Some? ==> var b := ViewBounds(buffer.value.data.Length, offset, length);
      && (r.Ok? <==> b.Ok?)
      && (r.Err? ==> r.error == b.error)
      && (r.Ok? ==> fresh(r.value) && r.value.Valid() && r.value.buffer == buffer.value
                    && r.value.byteOffset == b.value.0 && r.value.byteLength == b.value.1)
  {
    if buffer.None? {
      return Err(DATAVIEW_NO_ARGUMENT);
    }
    var b := ViewBounds(buffer.value.data.Length, offset, length);
    if b.Err? {
      return Err(b.error);
    }
    var view := new DataView(buffer.value, b.value.0, b.value.1);
    r := Ok(view);
  }

  // ---------------------------------------------------------------------
  // Typed arrays.

  /** An integer typed array: `length` elements of `kind` at byteOffset in buffer, in x86 byte order. */
  class TypedArray {
    const kind: ElementType
    const buffer: ArrayBuffer
    const byteOffset: nat
    const length: nat

    predicate Valid()
    {
      byteOffset + ByteCount(length, kind) <= buffer.data.Length
    }

    constructor (kind: ElementType, buffer: ArrayBuffer, byteOffset: nat, length: nat)
      requires byteOffset + ByteCount(length, kind) <= buffer.data.Length
      ensures this.kind == kind && this.buffer == buffer && this.byteOffset == byteOffset && this.length == length
      ensures Valid()
    {
      this.kind := kind;
      this.buffer := buffer;
      this.byteOffset := byteOffset;
      this.length := length;
    }

    /** The element values the array holds now. */
    function Elements(): (r: seq<int>)
      requires Valid()
      reads buffer.data
      ensures |r| == length
    {
      ElementsOf(buffer.data[..], byteOffset, length, kind)
    }

    /** The byteLength property. */
    function ByteLength(): nat
    {
      ByteCount(length, kind)
    }

    /** arr[index]: the element at an index within the array, and undefined (None) elsewhere. */
    method Get(index: int) returns (r: Option<int>)
      requires Valid()
      ensures 0 <= index < length ==> r == Some(Elements()[index]) && InRange(kind, r.value)
      ensures !(0 <= index < length) ==> r.None?
    {
      if index < 0 || index >= length {
        return None;
      }
      ElementsFit(byteOffset, length, kind, buffer.data.Length);
      var p := Offset(byteOffset, index, kind);
      DecodeInRange(kind, buffer.data[p..p + Size(kind)], true);
      r := Some(Decode(kind, buffer.data[p..p + Size(kind)], true));
    }

    /** Writes the in-range value v over element i: only that element's bytes change. */
    method WriteElement(i: nat, v: int)
      requires Valid() && i < length && InRange(kind, v)
      modifies buffer.data
      ensures Elements() == old(Elements())[i := v]
      ensures Offset(byteOffset, i, kind) + Size(kind) <= buffer.data.Length
      ensures buffer.data[..] == Store(old(buffer.data[..]), Offset(byteOffset, i, kind), Encode(kind, v, true))
    {
      ElementsFit(byteOffset, length, kind, buffer.data.Length);
      var p := Offset(byteOffset, i, kind);
      CopyInto(buffer.data, p, Encode(kind, v, true));
      StoreElement(old(buffer.data[..]), byteOffset, length, kind, i, v);
    }

    /** WriteElement, keeping the bytes outside [lo, hi), a range holding element i. */
    method WriteWithin(i: nat, v: int, ghost lo: nat, ghost hi: nat)
      requires Valid() && i < length && InRange(kind, v)
      requires lo <= Offset(byteOffset, i, kind) && Offset(byteOffset, i, kind) + Size(kind) <= hi <= buffer.data.Length
      modifies buffer.data
      ensures Elements() == old(Elements())[i := v]
      ensures buffer.data[..lo] == old(buffer.data[..lo]) && buffer.data[hi..] == old(buffer.data[hi..])
    {
      ghost var before := buffer.data[..];
      WriteElement(i, v);
      StoreKeeps(before, Offset(byteOffset, i, kind), Encode(kind, v, true), lo, hi);
    }

    /**
     * arr[index] = n: within the array the element becomes n converted to
     * the element type and no other element changes; an index outside the
     * array is ignored and no byte changes.
     */
    method Put(index: int, n: Number)
      requires Valid()
      modifies buffer.data
      ensures 0 <= index < length ==> Elements() == old(Elements())[index := ToElement(kind, n)]
      ensures !(0 <= index < length) ==> buffer.data[..] == old(buffer.data[..])
    {
      if 0 <= index < length {
        ToElementInRange(kind, n);
        WriteElement(index, ToElement(kind, n));
      }
    }

    /**
     * Writes the in-range values vals over elements at.. one by one; the
     * view's other elements and every buffer byte outside the written
     * elements keep their values.
     */
    method WriteRun(at: nat, vals: seq<int>)
      requires Valid() && at + |vals| <= length
      requires forall i :: 0 <= i < |vals| ==> InRange(kind, vals[i])
      modifies buffer.data
      ensures Elements() == Store(old(Elements()), at, vals)
      ensures Offset(byteOffset, at + |vals|, kind) <= buffer.data.Length
      ensures buffer.data[..Offset(byteOffset, at, kind)] == old(buffer.data[..Offset(byteOffset, at, kind)])
      ensures buffer.data[Offset(byteOffset, at + |vals|, kind)..] == old(buffer.data[Offset(byteOffset, at + |vals|, kind)..])
    {
      ghost var e0, lo, hi := Elements(), Offset(byteOffset, at, kind), Offset(byteOffset, at + |vals|, kind);
      ghost var prefix, suffix := buffer.data[..lo], buffer.data[hi..];
      var k := 0;
      assert Store(e0, at, vals[..0]) == e0;
      while k < |vals|
        invariant 0 <= k <= |vals|
        invariant Elements() == Store(e0, at, vals[..k])
        invariant buffer.data[..lo] == prefix
        invariant buffer.data[hi..] == suffix
        decreases |vals| - k
      {
        OffsetOrder(byteOffset, at + k, at + |vals|, kind);
        WriteWithin(at + k, vals[k], lo, hi);
        StoreStep(e0, at, vals, k);
        k := k + 1;
      }
      assert vals[..|vals|] == vals;
    }

    /**
     * subarray(begin, end): no arguments at all is INVALID_SUBARRAY (an
     * undefined begin is passed as 0); otherwise a new view of the same kind
     * on the same buffer over the clamped span, whose elements are that span
     * of this array's elements.
     */
    method Subarray(begin: Option<int>, end: Option<int>) returns (r: Outcome<TypedArray>)
      requires Valid()
      ensures begin.None? ==> r == Err(TYPEDARRAY_INVALID_SUBARRAY)
      ensures begin.Some? ==> r.Ok?
      ensures r.Ok? ==> begin.Some? && var (first, count) := Span(length, begin.value, end);
        && fresh(r.value) && r.value.Valid()
        && r.value.kind == kind && r.value.buffer == buffer
        && r.value.byteOffset == byteOffset + ByteCount(first, kind) && r.value.length == count
        && r.value.Elements() == Elements()[first..first + count]
    {
      if begin.None? {
        return Err(TYPEDARRAY_INVALID_SUBARRAY);
      }
      var (first, count) := Span(length, begin.value, end);
      ElementsOfSuffix(buffer.data[..], byteOffset, length, kind, first, count);
      var view := new TypedArray(kind, buffer, Offset(byteOffset, first, kind), count);
      r := Ok(view);
    }

    /**
     * set(source, offset) with an array-like source (its element values as
     * Numbers; None when the source is absent or null): INVALID_SOURCE
     * without a source, INVALID_OFFSLEN when the run does not fit from
     * offset, and otherwise the run's converted values replace elements
     * offset.. and nothing else changes.
     */
    method SetFromValues(source: Option<seq<Number>>, offset: int) returns (r: Outcome<()>)
      requires Valid()
      modifies buffer.data
      ensures source.None? ==> r == Err(TYPEDARRAY_INVALID_SOURCE)
      ensures source.Some? && (offset < 0 || offset + |source.value| > length) ==> r == Err(TYPEDARRAY_INVALID_OFFSLEN)
      ensures r.Err? ==> buffer.data[..] == old(buffer.data[..])
      ensures source.Some? && 0 <= offset && offset + |source.value| <= length ==> r.Ok?
      ensures r.Ok? ==>
        && source.Some? && 0 <= offset && offset + |source.value| <= length
        && Elements() == Store(old(Elements()), offset, Convert(kind, source.value))
    {
      if source.None? {
        return Err(TYPEDARRAY_INVALID_SOURCE);
      }
      if offset < 0 || offset + |source.value| > length {
        return Err(TYPEDARRAY_INVALID_OFFSLEN);
      }
      ConvertInRange(kind, source.value);
      WriteRun(offset, Convert(kind, source.value));
      r := Ok(());
    }

    /**
     * set(source, offset) with a typed-array source: INVALID_OFFSLEN when it
     * does not fit from offset; otherwise elements offset.. become the
     * source's elements as they were before the call, converted, even when
     * the source shares this array's bytes.
     */
    method SetFromTyped(source: TypedArray, offset: int) returns (r: Outcome<()>)
      requires Valid() && source.Valid()
      modifies buffer.data
      ensures offset < 0 || offset + source.length > length ==> r == Err(TYPEDARRAY_INVALID_OFFSLEN)
      ensures r.Err? ==> buffer.data[..] == old(buffer.data[..])
      ensures 0 <= offset && offset + source.length <= length ==> r.Ok?
      ensures r.Ok? ==>
        && 0 <= offset && offset + source.length <= length
        && Elements() == Store(old(Elements()), offset, Convert(kind, AsNumbers(old(source.Elements()))))
    {
      if offset < 0 || offset + source.length > length {
        return Err(TYPEDARRAY_INVALID_OFFSLEN);
      }
      var temp := source.Elements();
      var vals := Convert(kind, AsNumbers(temp));
      ConvertInRange(kind, AsNumbers(temp));
      WriteRun(offset, vals);
      r := Ok(());
    }
  }

  /**
   * The overlapping set of es5.js: an Int32Array over the bytes of an
   * Int8Array holding 1..12 is set from elements 1..3 of the Int8Array,
   * whose bytes the first write overwrites; the result is [2, 3, 4], read
   * from the source as it was before the call.
   */
  method OverlappingSet() returns (r: seq<int>)
    ensures r == [2, 3, 4]
  {
    var ones := [1, 2, 3, 4, 5, 6, 7, 8, 9, 10, 11, 12];
    ConvertKeeps(Int8, ones);
    var made := NewTypedArray(Int8, ValuesArgument(AsNumbers(ones)));
    var arr := made.value;
    var buf := arr.buffer;
    var arr2 := new TypedArray(Int32, buf, 0, 3);
    var sub := arr.Subarray(Some(1), Some(4));
    assert arr.Elements() == ones;
    assert sub.value.Elements() == ones[1..4];
    assert ones[1..4] == [2, 3, 4];
    ConvertKeeps(Int32, [2, 3, 4]);
    ghost var before := arr2.Elements();
    var _ := arr2.SetFromTyped(sub.value, 0);
    StoreWhole(before, [2, 3, 4]);
    r := arr2.Elements();
  }

  /** What a typed-array constructor was given. */
  datatype CtorArgument =
    | NoArgument
    | LengthArgumentOf(n: Number)
    | BufferArgument(buffer: ArrayBuffer, offset: Option<int>, length: Option<int>)
    | ValuesArgument(values: seq<Number>)
    | TypedArgument(source: TypedArray)
    | OtherArgument

  /**
   * The byte offset and element count of new XxxArray(buffer, offset,
   * length) over bufLen bytes: the offset must lie in [0, bufLen] and be a
   * multiple of the element size, a given length must fit, and without a
   * length the rest of the buffer must divide into whole elements.
   */
  function BufferView(t: ElementType, bufLen: nat, offset: Option<int>, length: Option<int>): (r: Outcome<(nat, nat)>)
    ensures r.Err? ==> r.error == TYPEDARRAY_INVALID_OFFSLEN
    ensures r.Ok? ==> r.value.0 + ByteCount(r.value.1, t) <= bufLen
  {
    var off := if offset.None? then 0 else offset.value;
    if off < 0 || off > bufLen || off % Size(t) != 0 then Err(TYPEDARRAY_INVALID_OFFSLEN)
    else if length.Some? then
      if length.value < 0 || off + ByteCount(length.value, t) > bufLen then Err(TYPEDARRAY_INVALID_OFFSLEN)
      else Ok((off, length.value))
    else match ElementCount(bufLen - off, t)
      case None => Err(TYPEDARRAY_INVALID_OFFSLEN)
      case Some(n) => Ok((off, n))
  }

  /**
   * A view over a buffer is accepted exactly when its offset is an aligned
   * position in the buffer and its elements fit: with a length, that many
   * elements from the offset; without one, the whole rest of the buffer.
   */
  lemma BufferViewSpec(t: ElementType, bufLen: nat, offset: Option<int>, length: Option<int>)
    ensures var off := if offset.None? then 0 else offset.value;
      var r := BufferView(t, bufLen, offset, length);
      && (r.Ok? <==>
            && 0 <= off <= bufLen && off % Size(t) == 0
            && (length.Some? ==> 0 <= length.value && off + ByteCount(length.value, t) <= bufLen)
            && (length.None? ==> (bufLen - off) % Size(t) == 0))
      && (r.Ok? ==> r.value.0 == off && r.value.0 % Size(t) == 0)
      && (r.Ok? && length.Some? ==> r.value.1 == length.value)
      && (r.Ok? && length.None? ==> r.value.0 + ByteCount(r.value.1, t) == bufLen)
  {
  }

  /** The buffer views es5.js builds and rejects over a 34-byte buffer, and a misaligned buffer length. */
  lemma BufferViewExamples()
    ensures BufferView(Int16, 34, Some(-1), None).Err?
    ensures BufferView(Int16, 34, Some(36), None).Err?
    ensures BufferView(Int32, 34, Some(32), Some(4)).Err?
    ensures BufferView(Int8, 34, Some(32), Some(4)).Err?
    ensures BufferView(Int32, 34, Some(2), Some(1)).Err?
    ensures BufferView(Int16, 34, Some(1), Some(1)).Err?
    ensures BufferView(Int32, 6, None, None).Err?
    ensures BufferView(Uint16, 3, None, None).Err?
    ensures BufferView(Int32, 34, Some(4), Some(2)) == Ok((4, 2))
    ensures BufferView(Int32, 12, None, None) == Ok((0, 3))
  {
  }

  /**
   * new XxxArray(argument): no argument gives an empty array; a length gives
   * that many zero elements (INVALID_OFFSLEN when negative); a buffer gives
   * a view sharing it, checked as BufferView says; an array-like object or
   * another typed array gives a new buffer holding the converted values;
   * anything else is BAD_CTOR_ARG.
   */
  method NewTypedArray(t: ElementType, arg: CtorArgument) returns (r: Outcome<TypedArray>)
    requires arg.TypedArgument? ==> arg.source.Valid()
    ensures arg.OtherArgument? ==> r == Err(TYPEDARRAY_BAD_CTOR_ARG)
    ensures arg.LengthArgumentOf? ==> (r.Ok? <==> LengthArgument(arg.n).Some?)
    ensures arg.BufferArgument? ==> (r.Ok? <==> BufferView(t, arg.buffer.data.Length, arg.offset, arg.length).Ok?)
    ensures arg.NoArgument? || arg.ValuesArgument? || arg.TypedArgument? ==> r.Ok?
    ensures r.Err? && !arg.OtherArgument? ==> r.error == TYPEDARRAY_INVALID_OFFSLEN
    ensures r.Ok? ==> r.value.Valid() && r.value.kind == t && fresh(r.value)
    ensures r.Ok? && arg.NoArgument? ==> r.value.length == 0 && r.value.byteOffset == 0 && fresh(r.value.buffer)
    ensures r.Ok? && arg.LengthArgumentOf? ==>
      && r.value.length == LengthArgument(arg.n).value && r.value.byteOffset == 0
      && r.value.buffer.data.Length == r.value.ByteLength() && fresh(r.value.buffer)
      && r.value.Elements() == seq(r.value.length, _ => 0)
    ensures r.Ok? && arg.BufferArgument? ==>
      var b := BufferView(t, arg.buffer.data.Length, arg.offset, arg.length).value;
      && r.value.buffer == arg.buffer && r.value.byteOffset == b.0 && r.value.length == b.1
    ensures r.Ok? && arg.ValuesArgument? ==>
      && r.value.byteOffset == 0 && r.value.length == |arg.values| && fresh(r.value.buffer) && fresh(r.value.buffer.data)
      && r.value.buffer.data.Length == r.value.ByteLength()
      && r.value.Elements() == Convert(t, arg.values)
    ensures r.Ok? && arg.TypedArgument? ==>
      && r.value.byteOffset == 0 && r.value.length == arg.source.length && fresh(r.value.buffer) && fresh(r.value.buffer.data)
      && r.value.buffer.data.Length == r.value.ByteLength()
      && r.value.Elements() == Convert(t, AsNumbers(old(arg.source.Elements())))
  {
    match arg
    case OtherArgument =>
      return Err(TYPEDARRAY_BAD_CTOR_ARG);
    case NoArgument =>
      var buf := new ArrayBuffer(0);
      var arr := new TypedArray(t, buf, 0, 0);
      return Ok(arr);
    case LengthArgumentOf(n) =>
      var len := LengthArgument(n);
      if len.None? {
        return Err(TYPEDARRAY_INVALID_OFFSLEN);
      }
      var arr := ZeroArray(t, len.value);
      return Ok(arr);
    case BufferArgument(buffer, offset, length) =>
      var b := BufferView(t, buffer.data.Length, offset, length);
      if b.Err? {
        return Err(b.error);
      }
      var arr := new TypedArray(t, buffer, b.value.0, b.value.1);
      return Ok(arr);
    case ValuesArgument(values) =>
      var arr := ZeroArray(t, |values|);
      ConvertInRange(t, values);
      arr.WriteRun(0, Convert(t, values));
      assert Store(seq(|values|, _ => 0), 0, Convert(t, values)) == Convert(t, values);
      return Ok(arr);
    case TypedArgument(source) =>
      var temp := source.Elements();
      var vals := Convert(t, AsNumbers(temp));
      var arr := ZeroArray(t, |vals|);
      ConvertInRange(t, AsNumbers(temp));
      arr.WriteRun(0, vals);
      assert Store(seq(|vals|, _ => 0), 0, vals) == vals;
      return Ok(arr);
  }

  /** A new array of len zero elements over a new buffer of exactly its bytes. */
  method ZeroArray(t: ElementType, len: nat) returns (arr: TypedArray)
    ensures fresh(arr) && fresh(arr.buffer) && fresh(arr.buffer.data) && arr.Valid()
    ensures arr.kind == t && arr.byteOffset == 0 && arr.length == len
    ensures arr.buffer.data.Length == arr.ByteLength()
    ensures arr.Elements() == seq(len, _ => 0)
  {
    var buf := new ArrayBuffer(ByteCount(len, t));
    arr := new TypedArray(t, buf, 0, len);
    ZeroElements(buf.data[..], 0, len, t);
  }
}
