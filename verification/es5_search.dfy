/**
 * Array.prototype.indexOf and Array.prototype.lastIndexOf (ECMA-262 5.1
 * sections 15.4.4.14 and 15.4.4.15) on an array-like object, as the
 * "indexOf" and "lastIndexOf" tests of es5.js exercise them.
 */
module Es5Search {
  import opened Wrappers
  import opened Es5Values

  /**
   * An array-like receiver: its `length` (after ToUint32) and its own
   * index-named properties. An index without a property is a hole.
   */
  datatype ArrayLike = ArrayLike(length: nat, elems: map<nat, JsValue>)

  /** Element k is present (HasProperty) and strictly equal to x. */
  predicate MatchesAt(o: ArrayLike, k: int, x: JsValue)
  {
    0 <= k && k in o.elems && StrictEquals(o.elems[k], x)
  }

  /** The index indexOf starts at; a start equal to the length searches nothing. */
  function IndexOfStart(len: nat, fromIndex: Option<Number>): (k: nat)
    ensures k <= len
  {
    if fromIndex.None? then 0
    else match ToInteger(fromIndex.value)
      case Infinite(positive) => if positive then len else 0
      case Integral(n) =>
        if n >= len then len
        else if n >= 0 then n
        else if len + n >= 0 then len + n
        else 0
  }

  /** The first matching index in [k, length), or -1. */
  function IndexOfFrom(o: ArrayLike, x: JsValue, k: nat): int
    decreases o.length - k
  {
    if k >= o.length then -1
    else if MatchesAt(o, k, x) then k
    else IndexOfFrom(o, x, k + 1)
  }

  /** Array.prototype.indexOf.call(o, x, fromIndex); an absent fromIndex is None. */
  function IndexOf(o: ArrayLike, x: JsValue, fromIndex: Option<Number>): int
  {
    IndexOfFrom(o, x, IndexOfStart(o.length, fromIndex))
  }

  /** The index lastIndexOf starts at, searching downwards; -1 searches nothing. */
  function LastIndexOfStart(len: nat, fromIndex: Option<Number>): (k: int)
    ensures -1 <= k < len
  {
    if len == 0 then -1
    else if fromIndex.None? then len - 1
    else match ToInteger(fromIndex.value)
      case Infinite(positive) => if positive then len - 1 else -1
      case Integral(n) =>
        if n >= 0 then (if n < len - 1 then n else len - 1)
        else if len + n >= 0 then len + n
        else -1
  }

  /** The last matching index in [0, k], or -1. */
  function LastIndexOfFrom(o: ArrayLike, x: JsValue, k: int): int
    decreases k + 1
  {
    if k < 0 then -1
    else if MatchesAt(o, k, x) then k
    else LastIndexOfFrom(o, x, k - 1)
  }

  /** Array.prototype.lastIndexOf.call(o, x, fromIndex); an absent fromIndex is None. */
  function LastIndexOf(o: ArrayLike, x: JsValue, fromIndex: Option<Number>): int
  {
    LastIndexOfFrom(o, x, LastIndexOfStart(o.length, fromIndex))
  }

  /** IndexOfFrom finds the first match at or after k, and -1 means there is none. */
  lemma {:induction false} IndexOfFromSpec(o: ArrayLike, x: JsValue, k: nat)
    ensures var r := IndexOfFrom(o, x, k);
      && (r == -1 || (k <= r < o.length && MatchesAt(o, r, x)))
      && (forall j :: k <= j < o.length && (r == -1 || j < r) ==> !MatchesAt(o, j, x))
    decreases o.length - k
  {
    if k < o.length && !MatchesAt(o, k, x) {
      IndexOfFromSpec(o, x, k + 1);
    }
  }

  /** LastIndexOfFrom finds the last match at or before k, and -1 means there is none. */
  lemma {:induction false} LastIndexOfFromSpec(o: ArrayLike, x: JsValue, k: int)
    ensures var r := LastIndexOfFrom(o, x, k);
      && (r == -1 || (0 <= r <= k && MatchesAt(o, r, x)))
      && (forall j :: r < j <= k ==> !MatchesAt(o, j, x))
    decreases k + 1
  {
    if k >= 0 && !MatchesAt(o, k, x) {
      LastIndexOfFromSpec(o, x, k - 1);
    }
  }

  /**
   * indexOf returns the first index from its start whose element is present
   * and strictly equal to x, or -1 when there is none; the start is
   * fromIndex truncated, counted from the end when negative and clamped to 0,
   * and a fromIndex at or beyond the length searches nothing.
   */
  lemma IndexOfSpec(o: ArrayLike, x: JsValue, fromIndex: Option<Number>)
    ensures var r, k := IndexOf(o, x, fromIndex), IndexOfStart(o.length, fromIndex);
      && (r == -1 || (k <= r < o.length && MatchesAt(o, r, x)))
      && (forall j :: k <= j < o.length && (r == -1 || j < r) ==> !MatchesAt(o, j, x))
    ensures fromIndex.Some? && fromIndex.value.Finite? ==>
      var n := Truncate(fromIndex.value.r);
      && (n >= o.length ==> IndexOf(o, x, fromIndex) == -1)
      && (0 <= n < o.length ==> IndexOfStart(o.length, fromIndex) == n)
      && (n < 0 ==> IndexOfStart(o.length, fromIndex) == if o.length + n < 0 then 0 else o.length + n)
  {
    IndexOfFromSpec(o, x, IndexOfStart(o.length, fromIndex));
  }

  /**
   * lastIndexOf returns the last index up to its start whose element is
   * present and strictly equal to x, or -1; the start is fromIndex truncated,
   * capped at length - 1, counted from the end when negative, and a start
   * still negative searches nothing.
   */
  lemma LastIndexOfSpec(o: ArrayLike, x: JsValue, fromIndex: Option<Number>)
    ensures var r, k := LastIndexOf(o, x, fromIndex), LastIndexOfStart(o.length, fromIndex);
      && (r == -1 || (0 <= r <= k && MatchesAt(o, r, x)))
      && (forall j :: r < j <= k ==> !MatchesAt(o, j, x))
    ensures o.length > 0 && fromIndex.Some? && fromIndex.value.Finite? ==>
      var n := Truncate(fromIndex.value.r);
      && (n >= 0 ==> LastIndexOfStart(o.length, fromIndex) == if n < o.length then n else o.length - 1)
      && (n < 0 && o.length + n < 0 ==> LastIndexOf(o, x, fromIndex) == -1)
  {
    LastIndexOfFromSpec(o, x, LastIndexOfStart(o.length, fromIndex));
  }

  /** A hole is never found, not even when searching for undefined. */
  lemma HolesNeverMatch(o: ArrayLike, x: JsValue, fromIndex: Option<Number>)
    ensures var r := IndexOf(o, x, fromIndex); r >= 0 ==> r in o.elems
    ensures var r := LastIndexOf(o, x, fromIndex); r >= 0 ==> r in o.elems
  {
    IndexOfSpec(o, x, fromIndex);
    LastIndexOfSpec(o, x, fromIndex);
  }

  /** An array literal: every element present. */
  function Dense(vs: seq<JsValue>): ArrayLike
  {
    ArrayLike(|vs|, map k | 0 <= k < |vs| :: vs[k])
  }

  function N(i: int): JsValue { Num(Finite(i as real)) }
  function At(i: int): Option<Number> { Some(Finite(i as real)) }

  /** The indexOf cases of es5.js with a fromIndex. */
  lemma IndexOfExamples()
    ensures IndexOf(Dense([N(1), N(2), N(3), N(4), N(5), N(6)]), N(5), At(-1)) == -1
    ensures IndexOf(Dense([N(1), N(2), N(3), N(4), N(5), N(6)]), N(5), At(-2)) == 4
    ensures IndexOf(Dense([N(1), N(2), N(3), N(4), N(5), N(6)]), N(5), At(-20)) == 4
    ensures IndexOf(Dense([N(1), N(2), N(3), N(4), N(5), N(6)]), N(5), At(20)) == -1
  {
  }

  /** The indexOf cases of es5.js with a fractional fromIndex and with holes. */
  lemma IndexOfHoleExamples()
    ensures IndexOf(Dense([N(1), N(2), N(3)]), N(2), Some(Finite(1.9))) == 1
    ensures IndexOf(ArrayLike(3, map[0 := N(1), 2 := N(3)]), Undefined, None) == -1
    ensures IndexOf(ArrayLike(3, map[4 := N(4)]), N(4), None) == -1
  {
  }

  /** The lastIndexOf cases of es5.js with a fromIndex. */
  lemma LastIndexOfExamples()
    ensures LastIndexOf(Dense([N(1), N(2), N(3), N(2), N(5), N(6)]), N(2), At(-3)) == 3
    ensures LastIndexOf(Dense([N(1), N(2), N(3), N(2), N(5), N(6)]), N(2), At(-4)) == 1
    ensures LastIndexOf(Dense([N(1), N(2), N(3), N(2), N(5), N(6)]), N(1), At(-100)) == -1
    ensures LastIndexOf(Dense([N(1), N(2), N(3), N(2), N(5), N(6)]), N(2), At(100)) == 3
    ensures LastIndexOf(Dense([N(1), N(2), N(3)]), N(2), Some(Finite(0.9))) == -1
    ensures LastIndexOf(Dense([N(1), Undefined, Undefined]), Undefined, None) == 2
  {
  }
}
