/**
 * The MSHTML dispatch property table (dlls/mshtml/dispex.c): DISPID range
 * classification, the binary searches over an object's builtin functions
 * by DISPID and by name, the growable table of dynamic (expando)
 * properties with its DELETED and PROTREF flags, enumeration of dynamic
 * properties, the `[object Name]` string and the property flags reported
 * to the script engine proxy.
 */
module Dispex {
  import opened Words
  import opened Wrappers
  import opened WideStrings
  import opened MshtmlHelpers

  /** HRESULTs of the property table, by name; `Other` carries any other code a hook returns. */
  datatype HResult =
    | S_OK
    | S_FALSE
    | E_INVALIDARG
    | E_OUTOFMEMORY
    | DISP_E_MEMBERNOTFOUND
    | DISP_E_UNKNOWNNAME
    | Other(code: int)

  const DISPID_DYNPROP_0: int := 0x50000000
  const DISPID_DYNPROP_MAX: int := 0x5fffffff
  /** DISPID_STARTENUM, which is DISPID_UNKNOWN in oaidl.h. */
  const DISPID_STARTENUM: int := -1

  // ---------------------------------------------------------------------
  // DISPID classification.

  datatype PropType = DispexPropCustom | DispexPropDynamic | DispexPropBuiltin

  predicate IsDynamicDispid(id: int)
  {
    DISPID_DYNPROP_0 <= id <= DISPID_DYNPROP_MAX
  }

  predicate IsCustomDispid(id: int)
  {
    MSHTML_DISPID_CUSTOM_MIN <= id <= MSHTML_DISPID_CUSTOM_MAX
  }

  /** get_dispid_type. */
  function GetDispidType(id: int): PropType
  {
    if IsDynamicDispid(id) then DispexPropDynamic
    else if IsCustomDispid(id) then DispexPropCustom
    else DispexPropBuiltin
  }

  /**
   * The classification partitions the DISPIDs into the two ranges and the
   * rest, and the DISPID of dynamic property `idx` is classified dynamic and
   * gives `idx` back.
   */
  lemma DispidTypeSpec(id: int, idx: nat)
    ensures GetDispidType(id) == DispexPropDynamic <==> 0x50000000 <= id <= 0x5fffffff
    ensures GetDispidType(id) == DispexPropCustom <==> 0x60000000 <= id <= 0x6fffffff
    ensures GetDispidType(id) == DispexPropBuiltin <==> id < 0x50000000 || 0x6fffffff < id
    ensures idx < 0x10000000 ==>
      GetDispidType(DISPID_DYNPROP_0 + idx) == DispexPropDynamic && DISPID_DYNPROP_0 + idx - DISPID_DYNPROP_0 == idx
  {
  }

  // ---------------------------------------------------------------------
  // Builtin functions.

  /** func_info_t: the fields the lookups and the flags use. */
  datatype FuncInfo = FuncInfo(id: int, name: string, funcDispIdx: int, argc: nat, putVtblOff: int)

  /** The funcs array after qsort with dispid_cmp: ascending DISPIDs. */
  predicate SortedById(funcs: seq<FuncInfo>)
  {
    forall i, j :: 0 <= i < j < |funcs| ==> funcs[i].id <= funcs[j].id
  }

  /**
   * The name table after qsort with func_name_cmp: ascending under wcsicmp.
   * add_func_info keeps apart names that differ only in case, so such names
   * may sit side by side.
   */
  predicate SortedByName(table: seq<FuncInfo>)
  {
    forall i, j :: 0 <= i < j < |table| ==> CompareIgnoringCase(table[i].name, table[j].name) <= 0
  }

  /** No two entries of the table are equal up to case. */
  predicate CaseUnique(table: seq<FuncInfo>)
  {
    forall i, j :: 0 <= i < j < |table| ==> !CaseEqual(table[i].name, table[j].name)
  }

  /** get_builtin_func: binary search of the funcs array for `id`. */
  method GetBuiltinFunc(funcs: seq<FuncInfo>, id: int) returns (hr: HResult, idx: nat)
    requires SortedById(funcs)
    ensures hr == S_OK || hr == DISP_E_MEMBERNOTFOUND
    ensures hr == S_OK ==> idx < |funcs| && funcs[idx].id == id
    ensures hr == DISP_E_MEMBERNOTFOUND <==> forall i :: 0 <= i < |funcs| ==> funcs[i].id != id
  {
    var min, max := 0, |funcs| - 1;
    while min <= max
      invariant 0 <= min && max < |funcs| && min <= max + 1
      invariant forall i :: 0 <= i < min ==> funcs[i].id < id
      invariant forall i :: max < i < |funcs| ==> funcs[i].id > id
      decreases max - min
    {
      var n := (min + max) / 2;
      if funcs[n].id == id {
        return S_OK, n;
      }
      if funcs[n].id < id {
        min := n + 1;
      } else {
        max := n - 1;
      }
    }
    hr, idx := DISP_E_MEMBERNOTFOUND, 0;
  }

  /**
   * The entry the binary search of get_builtin_id stops on within
   * [min, max]: the probe is (min + max) / 2 and the first probe equal to
   * `name` up to case ends the search.
   */
  function NameSearch(table: seq<FuncInfo>, name: string, min: nat, max: int): (r: Option<nat>)
    requires max < |table| && min <= max + 1
    ensures r.Some? ==> min <= r.value <= max && CaseEqual(table[r.value].name, name)
    decreases max - min + 1
  {
    if max < min then None
    else
      var n := (min + max) / 2;
      var c := CompareIgnoringCase(table[n].name, name);
      CompareIgnoringCaseSpec(table[n].name, name);
      if c == 0 then Some(n)
      else if c > 0 then NameSearch(table, name, min, n - 1)
      else NameSearch(table, name, n + 1, max)
  }

  /**
   * In a name-sorted table the search of get_builtin_id finds nothing
   * exactly when no entry in the range equals `name` up to case.
   */
  lemma {:induction false} NameSearchSpec(table: seq<FuncInfo>, name: string, min: nat, max: int)
    requires SortedByName(table) && max < |table| && min <= max + 1
    ensures NameSearch(table, name, min, max).None? <==>
      forall i :: min <= i <= max ==> !CaseEqual(table[i].name, name)
    decreases max - min + 1
  {
    if min <= max {
      var n := (min + max) / 2;
      assert min <= n <= max;
      var c := CompareIgnoringCase(table[n].name, name);
      CompareIgnoringCaseSpec(table[n].name, name);
      if c == 0 {
        assert NameSearch(table, name, min, max) == Some(n);
      } else if c > 0 {
        assert NameSearch(table, name, min, max) == NameSearch(table, name, min, n - 1);
        NameSearchSpec(table, name, min, n - 1);
        EntriesAfterDiffer(table, name, n);
      } else {
        assert NameSearch(table, name, min, max) == NameSearch(table, name, n + 1, max);
        NameSearchSpec(table, name, n + 1, max);
        EntriesBeforeDiffer(table, name, n);
      }
    }
  }

  /** The binary search of get_builtin_id: the entry it lands on, equal to `name` up to case. */
  method FindBuiltinName(table: seq<FuncInfo>, name: string) returns (r: Option<nat>)
    requires SortedByName(table)
    ensures r.Some? ==> r.value < |table| && CaseEqual(table[r.value].name, name)
    ensures r.None? <==> forall i :: 0 <= i < |table| ==> !CaseEqual(table[i].name, name)
    ensures r == NameSearch(table, name, 0, |table| - 1)
  {
    NameSearchSpec(table, name, 0, |table| - 1);
    var min, max := 0, |table| - 1;
    while min <= max
      invariant 0 <= min && max < |table| && min <= max + 1
      invariant NameSearch(table, name, min, max) == NameSearch(table, name, 0, |table| - 1)
      decreases max - min
    {
      var n := (min + max) / 2;
      var c := CompareIgnoringCase(table[n].name, name);
      if c == 0 {
        return Some(n);
      }
      if c > 0 {
        max := n - 1;
      } else {
        min := n + 1;
      }
    }
    r := None;
  }

  /** In a name-sorted table, entries after one that sorts above `name` do not match it. */
  lemma EntriesAfterDiffer(table: seq<FuncInfo>, name: string, n: nat)
    requires SortedByName(table) && n < |table|
    requires CompareIgnoringCase(table[n].name, name) > 0
    ensures forall i :: n <= i < |table| ==> !CaseEqual(table[i].name, name)
  {
    forall i | n <= i < |table|
      ensures !CaseEqual(table[i].name, name)
    {
      CompareIgnoringCaseSpec(table[n].name, name);
    }
  }

  /** In a name-sorted table, entries before one that sorts below `name` do not match it. */
  lemma EntriesBeforeDiffer(table: seq<FuncInfo>, name: string, n: nat)
    requires SortedByName(table) && n < |table|
    requires CompareIgnoringCase(table[n].name, name) < 0
    ensures forall i :: 0 <= i <= n ==> !CaseEqual(table[i].name, name)
  {
    forall i | 0 <= i <= n
      ensures !CaseEqual(table[i].name, name)
    {
      if CaseEqual(table[i].name, name) {
        assert i != n by { CompareIgnoringCaseSpec(table[n].name, name); }
        assert CompareIgnoringCase(table[i].name, table[n].name) <= 0;
        assert Fold(table[i].name) == Fold(name);
        assert CompareIgnoringCase(name, table[n].name) <= 0;
        CompareIgnoringCaseSpec(name, table[n].name);
        assert false;
      }
    }
  }

  /** In a table without names equal up to case, at most one entry equals a name up to case. */
  lemma NameTableUnique(table: seq<FuncInfo>, name: string, i: nat, j: nat)
    requires CaseUnique(table) && i < |table| && j < |table|
    requires CaseEqual(table[i].name, name) && CaseEqual(table[j].name, name)
    ensures i == j
  {
  }

  /** A get_static_dispid or get_dispid hook of the object's vtbl: absent, or its reply. */
  datatype Hook = NoHook | Hook(hr: HResult, id: int)

  datatype Lookup = Lookup(hr: HResult, id: int)

  /** The hooks are asked in turn; a reply other than DISP_E_UNKNOWNNAME is final. */
  function HookChain(staticHook: Hook, dispidHook: Hook): Lookup
  {
    if staticHook.Hook? && staticHook.hr != DISP_E_UNKNOWNNAME then Lookup(staticHook.hr, staticHook.id)
    else if dispidHook.Hook? && dispidHook.hr != DISP_E_UNKNOWNNAME then Lookup(dispidHook.hr, dispidHook.id)
    else Lookup(DISP_E_UNKNOWNNAME, 0)
  }

  /** Whether builtin entry i answers `name`: equal up to case, and exactly when case matters. */
  predicate Answers(table: seq<FuncInfo>, i: int, name: string, caseSensitive: bool)
  {
    0 <= i < |table| && CaseEqual(table[i].name, name) && (caseSensitive ==> table[i].name == name)
  }

  /**
   * get_builtin_id: the search lands on one entry equal to `name` up to
   * case; its DISPID is the answer unless fdexNameCaseSensitive is given
   * and its spelling differs, in which case (as when nothing is found) the
   * vtbl hooks answer, and DISP_E_UNKNOWNNAME when they have none. Only the
   * landing entry is judged: another spelling of the name elsewhere in the
   * table is not looked at. When names are unique up to case the answer is
   * the entry that answers the name, if there is one.
   */
  method GetBuiltinId(table: seq<FuncInfo>, name: string, caseSensitive: bool, staticHook: Hook, dispidHook: Hook)
    returns (r: Lookup)
    requires SortedByName(table)
    ensures (forall i :: 0 <= i < |table| ==> !CaseEqual(table[i].name, name)) ==> r == HookChain(staticHook, dispidHook)
    ensures NameSearch(table, name, 0, |table| - 1).Some? ==>
      var n := NameSearch(table, name, 0, |table| - 1).value;
      CaseEqual(table[n].name, name)
      && (Answers(table, n, name, caseSensitive) ==> r == Lookup(S_OK, table[n].id))
      && (!Answers(table, n, name, caseSensitive) ==> r == HookChain(staticHook, dispidHook))
    ensures CaseUnique(table) ==>
      (forall i :: Answers(table, i, name, caseSensitive) ==> r == Lookup(S_OK, table[i].id))
      && ((forall i :: !Answers(table, i, name, caseSensitive)) ==> r == HookChain(staticHook, dispidHook))
  {
    var found := FindBuiltinName(table, name);
    if found.Some? {
      var n := found.value;
      if !(caseSensitive && table[n].name != name) {
        return Lookup(S_OK, table[n].id);
      }
    }
    r := HookChain(staticHook, dispidHook);
  }

  /**
   * The entry the binary search of is_custom_attribute stops on within the
   * half-open range [a, b): the probe is (a + b) / 2, so it may land on a
   * different entry from get_builtin_id's search.
   */
  function AttributeSearch(table: seq<FuncInfo>, name: string, a: nat, b: nat): (r: Option<nat>)
    requires a <= b <= |table|
    ensures r.Some? ==> a <= r.value < b && CaseEqual(table[r.value].name, name)
    decreases b - a
  {
    if a == b then None
    else
      var i := (a + b) / 2;
      var c := CompareIgnoringCase(table[i].name, name);
      CompareIgnoringCaseSpec(table[i].name, name);
      if c == 0 then Some(i)
      else if c > 0 then AttributeSearch(table, name, a, i)
      else AttributeSearch(table, name, i + 1, b)
  }

  /**
   * In a name-sorted table the search of is_custom_attribute finds nothing
   * exactly when no entry in the range equals `name` up to case.
   */
  lemma {:induction false} AttributeSearchSpec(table: seq<FuncInfo>, name: string, a: nat, b: nat)
    requires SortedByName(table) && a <= b <= |table|
    ensures AttributeSearch(table, name, a, b).None? <==>
      forall i :: a <= i < b ==> !CaseEqual(table[i].name, name)
    decreases b - a
  {
    if a < b {
      var i := (a + b) / 2;
      var c := CompareIgnoringCase(table[i].name, name);
      CompareIgnoringCaseSpec(table[i].name, name);
      if c == 0 {
        assert AttributeSearch(table, name, a, b) == Some(i);
      } else if c > 0 {
        assert AttributeSearch(table, name, a, b) == AttributeSearch(table, name, a, i);
        AttributeSearchSpec(table, name, a, i);
        EntriesAfterDiffer(table, name, i);
      } else {
        assert AttributeSearch(table, name, a, b) == AttributeSearch(table, name, i + 1, b);
        AttributeSearchSpec(table, name, i + 1, b);
        EntriesBeforeDiffer(table, name, i);
      }
    }
  }

  /**
   * is_custom_attribute: a name is a custom attribute unless the entry the
   * search lands on is a builtin property (a builtin that is not a method).
   * When names are unique up to case, that is: unless some builtin property
   * has the name up to case.
   */
  method IsCustomAttribute(table: seq<FuncInfo>, name: string) returns (r: bool)
    requires SortedByName(table)
    ensures (forall i :: 0 <= i < |table| ==> !CaseEqual(table[i].name, name)) ==> r
    ensures AttributeSearch(table, name, 0, |table|).Some? ==>
      var k := AttributeSearch(table, name, 0, |table|).value;
      CaseEqual(table[k].name, name) && (!r <==> table[k].funcDispIdx == -1)
    ensures CaseUnique(table) ==>
      (!r <==> exists i :: 0 <= i < |table| && CaseEqual(table[i].name, name) && table[i].funcDispIdx == -1)
  {
    AttributeSearchSpec(table, name, 0, |table|);
    var a, b := 0, |table|;
    while a < b
      invariant 0 <= a <= b <= |table|
      invariant AttributeSearch(table, name, a, b) == AttributeSearch(table, name, 0, |table|)
      decreases b - a
    {
      var i := (a + b) / 2;
      var c := CompareIgnoringCase(table[i].name, name);
      if c == 0 {
        if CaseUnique(table) {
          forall j | 0 <= j < |table| && CaseEqual(table[j].name, name)
            ensures j == i
          {
            NameTableUnique(table, name, i, j);
          }
        }
        return table[i].funcDispIdx != -1;
      }
      if c > 0 {
        b := i;
      } else {
        a := i + 1;
      }
    }
    r := true;
  }

  /**
   * Two builtins whose names differ only in case ("Foo", a property, and
   * "foo", a method) sort side by side. A case-sensitive get_builtin_id of
   * "foo" lands on "Foo" and so falls through to the hooks although "foo"
   * is in the table; is_custom_attribute of "FOO" lands on the method and
   * so calls the name a custom attribute although "Foo" is a builtin
   * property.
   */
  lemma CaseVariantsJudgedByLanding()
    ensures var t := [FuncInfo(1, "Foo", -1, 0, 0), FuncInfo(2, "foo", 0, 0, 0)];
      SortedByName(t) && !CaseUnique(t)
      && NameSearch(t, "foo", 0, 1) == Some(0) && !Answers(t, 0, "foo", true) && Answers(t, 1, "foo", true)
      && AttributeSearch(t, "FOO", 0, 2) == Some(1) && t[1].funcDispIdx != -1 && t[0].funcDispIdx == -1
  {
    var t := [FuncInfo(1, "Foo", -1, 0, 0), FuncInfo(2, "foo", 0, 0, 0)];
    assert Fold("Foo") == "foo" && Fold("foo") == "foo" && Fold("FOO") == "foo";
    CompareIgnoringCaseSpec(t[0].name, t[1].name);
    CompareIgnoringCaseSpec(t[0].name, "foo");
    CompareIgnoringCaseSpec(t[1].name, "FOO");
  }

  // ---------------------------------------------------------------------
  // Dynamic properties.

  /**
   * A VARIANT as the table uses it: VT_EMPTY, VT_EMPTY carrying a prototype
   * property index in its ui4 member (for PROTREF entries), or a value.
   */
  datatype Variant = VEmpty | VRef(protIndex: nat) | VValue(v: int)

  /** dynamic_prop_t: the name, the value and the DYNPROP_DELETED and DYNPROP_PROTREF flags. */
  datatype DynProp = DynProp(name: string, value: Variant, deleted: bool, protRef: bool)

  /** An entry that enumeration skips. */
  predicate Hidden(p: DynProp)
  {
    p.deleted || p.protRef
  }

  /** The table capacity: zero before the first property, then 4 doubled any number of times. */
  predicate GrownCapacity(n: nat)
    decreases n
  {
    n == 4 || (n > 4 && n % 2 == 0 && GrownCapacity(n / 2))
  }

  /** Every PROTREF entry refers to an existing property of the prototype's table. */
  predicate RefsInto(props: seq<DynProp>, proto: Option<seq<DynProp>>)
  {
    forall i :: 0 <= i < |props| && props[i].protRef ==>
      proto.Some? && props[i].value.VRef? && props[i].value.protIndex < |proto.value|
  }

  /** The name comparison get_dynamic_prop uses for the given flags. */
  predicate NameMatches(caseInsensitive: bool, a: string, b: string)
  {
    if caseInsensitive then CaseEqual(a, b) else a == b
  }

  /** The index of the first entry from `start` on whose name matches. */
  function FindFrom(props: seq<DynProp>, name: string, caseInsensitive: bool, start: nat): (r: Option<nat>)
    requires start <= |props|
    ensures r.Some? ==> start <= r.value < |props|
    decreases |props| - start
  {
    if start == |props| then None
    else if NameMatches(caseInsensitive, props[start].name, name) then Some(start)
    else FindFrom(props, name, caseInsensitive, start + 1)
  }

  function FindProp(props: seq<DynProp>, name: string, caseInsensitive: bool): (r: Option<nat>)
    ensures r.Some? ==> r.value < |props|
  {
    FindFrom(props, name, caseInsensitive, 0)
  }

  /** FindFrom returns the first matching index at or after `start`, or None when none matches. */
  lemma {:induction false} FindFromSpec(props: seq<DynProp>, name: string, ci: bool, start: nat)
    requires start <= |props|
    ensures FindFrom(props, name, ci, start).Some? ==>
      var k := FindFrom(props, name, ci, start).value;
      start <= k < |props| && NameMatches(ci, props[k].name, name)
      && forall j :: start <= j < k ==> !NameMatches(ci, props[j].name, name)
    ensures FindFrom(props, name, ci, start).None? ==>
      forall j :: start <= j < |props| ==> !NameMatches(ci, props[j].name, name)
    decreases |props| - start
  {
    if start < |props| && !NameMatches(ci, props[start].name, name) {
      FindFromSpec(props, name, ci, start + 1);
    }
  }

  /**
   * The prototype's answer to a case-sensitive, non-creating lookup: the
   * index of its first property with that name, unless it is DELETED.
   */
  function ProtoLookup(proto: Option<seq<DynProp>>, name: string): (r: Option<nat>)
    ensures r.Some? ==> proto.Some? && r.value < |proto.value|
  {
    if proto.None? then None
    else
      var k := FindProp(proto.value, name, false);
      FindFromSpec(proto.value, name, false, 0);
      if k.Some? && !proto.value[k.value].deleted then k else None
  }

  /**
   * fixup_prop_ref: a DELETED entry that the prototype still has becomes a
   * PROTREF to it; a PROTREF to a prototype property that was deleted
   * becomes DELETED.
   */
  function Fixup(p: DynProp, proto: Option<seq<DynProp>>): (r: DynProp)
    requires p.protRef ==> proto.Some? && p.value.VRef? && p.value.protIndex < |proto.value|
    ensures r.name == p.name
  {
    if p.deleted then
      match ProtoLookup(proto, p.name)
      case Some(k) => p.(value := VRef(k), deleted := false, protRef := true)
      case None => p
    else if p.protRef && proto.value[p.value.protIndex].deleted then
      p.(deleted := true, protRef := false)
    else p
  }

  /** The fix-up keeps an entry's flags exclusive and its reference valid. */
  lemma FixupSpec(p: DynProp, proto: Option<seq<DynProp>>)
    requires p.protRef ==> proto.Some? && p.value.VRef? && p.value.protIndex < |proto.value|
    requires !(p.deleted && p.protRef)
    ensures var r := Fixup(p, proto);
      !(r.deleted && r.protRef)
      && (r.protRef ==> proto.Some? && r.value.VRef? && r.value.protIndex < |proto.value|
                        && !proto.value[r.value.protIndex].deleted)
      && (r.deleted <==> (p.deleted && ProtoLookup(proto, p.name).None?)
                         || (p.protRef && proto.value[p.value.protIndex].deleted))
  {
  }

  /** The entry get_dynamic_prop appends: empty, or a PROTREF to the prototype's property. */
  function NewProp(name: string, protIdx: Option<nat>): DynProp
  {
    match protIdx
    case Some(k) => DynProp(name, VRef(k), false, true)
    case None => DynProp(name, VEmpty, false, false)
  }

  /** The capacity get_dynamic_prop allocates before appending to a table with `count` entries. */
  function GrowTo(bufSize: nat, count: nat): nat
  {
    if bufSize == 0 then 4 else if bufSize == count then bufSize * 2 else bufSize
  }

  /**
   * An entry once DYNPROP_PROTREF is cleared: an own property; the variant
   * of a former reference is VT_EMPTY (its ui4 member held only the index).
   */
  function OwnProp(p: DynProp): DynProp
  {
    if p.protRef then p.(value := VEmpty, protRef := false) else p
  }

  /** struct dispex_dynamic_data_t: the entries (prop_cnt of them) and the capacity buf_size. */
  class DynamicData {
    var props: seq<DynProp>
    var bufSize: nat

    /** prop_cnt never exceeds buf_size, which follows the 4-then-doubling pattern, and no entry is both DELETED and PROTREF. */
    predicate Valid()
      reads this
    {
      |props| <= bufSize
      && (bufSize == 0 || GrownCapacity(bufSize))
      && forall i :: 0 <= i < |props| ==> !(props[i].deleted && props[i].protRef)
    }

    /** The zero-initialised dynamic data: no entries and no buffer. */
    constructor ()
      ensures Valid() && props == [] && bufSize == 0
    {
      props := [];
      bufSize := 0;
    }

    /** The lookup loop of get_dynamic_prop: the first entry whose name matches. */
    method FindDynamicProp(name: string, caseInsensitive: bool) returns (r: Option<nat>)
      ensures r.Some? ==> r.value < |props| && NameMatches(caseInsensitive, props[r.value].name, name)
      ensures r.Some? ==> forall j :: 0 <= j < r.value ==> !NameMatches(caseInsensitive, props[j].name, name)
      ensures r.None? <==> forall j :: 0 <= j < |props| ==> !NameMatches(caseInsensitive, props[j].name, name)
      ensures r == FindProp(props, name, caseInsensitive)
    {
      var i := 0;
      while i < |props|
        invariant 0 <= i <= |props|
        invariant FindFrom(props, name, caseInsensitive, i) == FindProp(props, name, caseInsensitive)
        invariant forall j :: 0 <= j < i ==> !NameMatches(caseInsensitive, props[j].name, name)
        decreases |props| - i
      {
        if NameMatches(caseInsensitive, props[i].name, name) {
          return Some(i);
        }
        i := i + 1;
      }
      r := None;
    }

    /**
     * get_dynamic_prop. `proto` is the prototype's dynamic table (None when
     * the object has no prototype); `allocOk` is whether the buffer
     * (re)allocation succeeds and `dupOk` whether duplicating the name does.
     * A matching entry is fixed up against the prototype; if it is then
     * DELETED it is revived only with fdexNameEnsure. Otherwise a new entry
     * is appended at index prop_cnt when fdexNameEnsure is given or the
     * prototype has the property, growing the buffer to 4 entries, or to
     * twice its size when full.
     */
    method GetDynamicProp(name: string, caseInsensitive: bool, ensure: bool, proto: Option<seq<DynProp>>,
                          allocOk: bool, dupOk: bool)
      returns (hr: HResult, idx: nat)
      requires Valid() && RefsInto(props, proto)
      modifies this
      ensures Valid() && RefsInto(props, proto)
      ensures hr == S_OK ==> idx < |props| && !props[idx].deleted && NameMatches(caseInsensitive, props[idx].name, name)
      ensures FindProp(old(props), name, caseInsensitive).Some? ==>
        var i := FindProp(old(props), name, caseInsensitive).value;
        var f := Fixup(old(props)[i], proto);
        i < |old(props)| && idx == i && bufSize == old(bufSize)
        && (if f.deleted && !ensure
            then hr == DISP_E_UNKNOWNNAME && props == old(props)[i := f]
            else hr == S_OK && props == old(props)[i := f.(deleted := false)])
      ensures FindProp(old(props), name, caseInsensitive).None? && !ensure && ProtoLookup(proto, name).None? ==>
        hr == DISP_E_UNKNOWNNAME && props == old(props) && bufSize == old(bufSize)
      ensures FindProp(old(props), name, caseInsensitive).None? && (ensure || ProtoLookup(proto, name).Some?) ==>
        var grows := old(bufSize) == 0 || old(bufSize) == |old(props)|;
        (grows && !allocOk ==> hr == E_OUTOFMEMORY && props == old(props) && bufSize == old(bufSize))
        && (allocOk || !grows ==> bufSize == GrowTo(old(bufSize), |old(props)|))
        && (allocOk || !grows ==>
              if dupOk
              then hr == S_OK && idx == |old(props)| && props == old(props) + [NewProp(name, ProtoLookup(proto, name))]
              else hr == E_OUTOFMEMORY && props == old(props))
    {
      var found := FindDynamicProp(name, caseInsensitive);
      if found.Some? {
        var i := found.value;
        var p := Fixup(props[i], proto);
        FixupSpec(props[i], proto);
        props := props[i := p];
        if p.deleted {
          if !ensure {
            return DISP_E_UNKNOWNNAME, i;
          }
          props := props[i := p.(deleted := false)];
        }
        return S_OK, i;
      }
      var protProp := ProtoLookup(proto, name);
      if !ensure && protProp.None? {
        return DISP_E_UNKNOWNNAME, 0;
      }
      hr, idx := AppendProp(name, protProp, allocOk, dupOk);
    }

    /**
     * The creating half of get_dynamic_prop: grows the buffer to 4 entries,
     * or to twice its size when full, then appends the new entry at index
     * prop_cnt; an allocation failure leaves the entries as they were.
     */
    method AppendProp(name: string, protProp: Option<nat>, allocOk: bool, dupOk: bool) returns (hr: HResult, idx: nat)
      requires Valid()
      modifies this
      ensures Valid()
      ensures var grows := old(bufSize) == 0 || old(bufSize) == |old(props)|;
        (grows && !allocOk ==> hr == E_OUTOFMEMORY && props == old(props) && bufSize == old(bufSize))
        && (allocOk || !grows ==> bufSize == GrowTo(old(bufSize), |old(props)|))
        && (allocOk || !grows ==>
              if dupOk
              then hr == S_OK && idx == |old(props)| && props == old(props) + [NewProp(name, protProp)]
              else hr == E_OUTOFMEMORY && props == old(props))
    {
      GrowToSpec(bufSize, |props|);
      if bufSize == 0 {
        if !allocOk {
          return E_OUTOFMEMORY, 0;
        }
        bufSize := 4;
      } else if bufSize == |props| {
        if !allocOk {
          return E_OUTOFMEMORY, 0;
        }
        bufSize := bufSize * 2;
      }
      if !dupOk {
        return E_OUTOFMEMORY, 0;
      }
      props := props + [NewProp(name, protProp)];
      hr, idx := S_OK, |props| - 1;
    }

    /**
     * dispex_get_dynid: get_dynamic_prop with fdexNameEnsure, case-sensitive;
     * the entry it finds or appends loses DYNPROP_PROTREF (a former reference
     * keeps its VT_EMPTY variant, so it becomes an empty own property) and
     * the DISPID is DISPID_DYNPROP_0 plus its index.
     */
    method GetDynid(name: string, proto: Option<seq<DynProp>>, allocOk: bool, dupOk: bool)
      returns (hr: HResult, id: int)
      requires Valid() && RefsInto(props, proto)
      modifies this
      ensures Valid() && RefsInto(props, proto)
      ensures hr == S_OK ==>
        var idx := id - DISPID_DYNPROP_0;
        0 <= idx < |props| && props[idx].name == name && !Hidden(props[idx])
      ensures hr != S_OK ==> hr == E_OUTOFMEMORY
      ensures dupOk && allocOk ==> hr == S_OK
      ensures FindProp(old(props), name, false).Some? ==>
        var i := FindProp(old(props), name, false).value;
        var f := Fixup(old(props)[i], proto);
        i < |old(props)| && hr == S_OK && id == DISPID_DYNPROP_0 + i && bufSize == old(bufSize)
        && props == old(props)[i := OwnProp(f.(deleted := false))]
      ensures FindProp(old(props), name, false).None? ==>
        var grows := old(bufSize) == 0 || old(bufSize) == |old(props)|;
        (grows && !allocOk ==> hr == E_OUTOFMEMORY && props == old(props) && bufSize == old(bufSize))
        && (allocOk || !grows ==> bufSize == GrowTo(old(bufSize), |old(props)|))
        && (allocOk || !grows ==>
              if dupOk
              then hr == S_OK && id == DISPID_DYNPROP_0 + |old(props)|
                   && props == old(props) + [DynProp(name, VEmpty, false, false)]
              else hr == E_OUTOFMEMORY && props == old(props))
    {
      var idx;
      hr, idx := GetDynamicProp(name, false, true, proto, allocOk, dupOk);
      if hr != S_OK {
        return hr, 0;
      }
      props := props[idx := OwnProp(props[idx])];
      id := DISPID_DYNPROP_0 + idx;
    }

    /**
     * dispex_delete_prop for a dynamic DISPID: an index past the table is
     * ignored; an own property loses its value and becomes DELETED; a
     * PROTREF entry is left alone. The result is always S_OK.
     */
    method DeleteDynamicProp(id: int) returns (hr: HResult)
      requires Valid()
      requires GetDispidType(id) == DispexPropDynamic
      modifies this
      ensures Valid() && hr == S_OK && bufSize == old(bufSize) && |props| == |old(props)|
      ensures var idx := id - DISPID_DYNPROP_0;
        forall j :: 0 <= j < |props| && j != idx ==> props[j] == old(props)[j]
      ensures var idx := id - DISPID_DYNPROP_0;
        idx < |props| ==>
          && props[idx].name == old(props)[idx].name && props[idx].protRef == old(props)[idx].protRef
          && (old(props)[idx].protRef ==> props[idx] == old(props)[idx])
          && (!old(props)[idx].protRef ==> props[idx].deleted && props[idx].value == VEmpty)
    {
      var idx := id - DISPID_DYNPROP_0;
      if idx >= |props| {
        return S_OK;
      }
      var p := props[idx];
      if !p.protRef {
        props := props[idx := p.(value := VEmpty, deleted := true)];
      }
      hr := S_OK;
    }

    /**
     * next_dynamic_id: the DISPID of the first entry from `idx` on that is
     * neither DELETED nor PROTREF, or DISPID_STARTENUM with S_FALSE at the
     * end. Callers pass an index at most prop_cnt.
     */
    method NextDynamicId(idx: nat) returns (hr: HResult, id: int)
      requires idx <= |props|
      ensures hr == S_OK || hr == S_FALSE
      ensures hr == S_FALSE <==> forall j :: idx <= j < |props| ==> Hidden(props[j])
      ensures hr == S_FALSE ==> id == DISPID_STARTENUM
      ensures hr == S_OK ==>
        var k := id - DISPID_DYNPROP_0;
        idx <= k < |props| && !Hidden(props[k]) && forall j :: idx <= j < k ==> Hidden(props[j])
    {
      var i := idx;
      while i < |props| && Hidden(props[i])
        invariant idx <= i <= |props|
        invariant forall j :: idx <= j < i ==> Hidden(props[j])
        decreases |props| - i
      {
        i := i + 1;
      }
      if i == |props| {
        return S_FALSE, DISPID_STARTENUM;
      }
      hr, id := S_OK, DISPID_DYNPROP_0 + i;
    }
  }

  /**
   * A deleted own property stays invisible to a lookup without
   * fdexNameEnsure unless the prototype has a live property of that name,
   * in which case it becomes a reference to it.
   */
  lemma DeletedPropLookup(p: DynProp, proto: Option<seq<DynProp>>)
    requires !p.protRef
    ensures var d := Fixup(p.(value := VEmpty, deleted := true), proto);
      (ProtoLookup(proto, p.name).None? ==> d.deleted)
      && (ProtoLookup(proto, p.name).Some? ==> d.protRef && d.value == VRef(ProtoLookup(proto, p.name).value))
  {
  }

  /** A table grows as 4, 8, 16, …: the capacity after growth stays of that form and holds one more entry. */
  lemma GrowToSpec(bufSize: nat, count: nat)
    requires count <= bufSize && (bufSize == 0 || GrownCapacity(bufSize))
    ensures GrownCapacity(GrowTo(bufSize, count)) && count < GrowTo(bufSize, count)
  {
    if bufSize != 0 && bufSize == count {
      assert (bufSize * 2) / 2 == bufSize;
    }
  }

  // ---------------------------------------------------------------------
  // dispex_to_string.

  datatype StringResult = StringResult(hr: HResult, str: Option<string>)

  /**
   * dispex_to_string: "[object " + name + "]" from IE9 mode on and
   * "[object]" below it; E_INVALIDARG for a NULL out pointer and
   * E_OUTOFMEMORY when SysAllocString fails. The name fits the 36-character
   * buffer slot.
   */
  function DispexToString(mode: CompatMode, name: string, retNull: bool, allocOk: bool): (r: StringResult)
    requires |name| <= 36
    ensures retNull ==> r == StringResult(E_INVALIDARG, None)
    ensures !retNull && !allocOk ==> r == StringResult(E_OUTOFMEMORY, None)
    ensures !retNull && allocOk ==> r.hr == S_OK && r.str.Some?
  {
    if retNull then StringResult(E_INVALIDARG, None)
    else
      var prefix := "[object ";
      var body := if mode.Ordinal() < IE9.Ordinal() then prefix[..|prefix| - 1] else prefix + name;
      if allocOk then StringResult(S_OK, Some(body + "]")) else StringResult(E_OUTOFMEMORY, None)
  }

  /**
   * Below IE9 the string is "[object]" whatever the name; from IE9 on it is
   * the bracketed "object " prefix around the name, which can be read back.
   */
  lemma DispexToStringSpec(mode: CompatMode, name: string)
    requires |name| <= 36
    ensures var s := DispexToString(mode, name, false, true).str.value;
      (mode.Ordinal() < 4 ==> s == "[object]")
      && (mode.Ordinal() >= 4 ==> |s| == |name| + 9 && s[..8] == "[object " && s[8..|s| - 1] == name && s[|s| - 1] == ']')
  {
    var s := DispexToString(mode, name, false, true).str.value;
    if mode.Ordinal() >= 4 {
      assert s == "[object " + name + "]";
      assert s[8..|s| - 1] == name;
    }
  }

  // ---------------------------------------------------------------------
  // Property flags reported to the script engine proxy.

  /** PROPF_PROXY_ACCESSOR: the engine's flag for a builtin accessor, a bit above the PROPF_* attributes. */
  const PROPF_PROXY_ACCESSOR: bv32 := 0x2000

  /** The builtin entry's function object slot: never created, created and untouched, or replaced by script. */
  datatype FuncObjSlot = NoFuncObj | FuncObjOriginal | FuncObjReplaced

  /**
   * WineDispatchProxyPrivate_PropFlags. `func` is the get_builtin_func_prot
   * result for a builtin DISPID and `slot` the state of its function object.
   */
  function PropFlags(id: int, func: Option<FuncInfo>, slot: FuncObjSlot): (f: bv32)
    requires func.Some? ==> func.value.argc < 256
  {
    if IsDynamicDispid(id) then PROPF_WRITABLE | PROPF_CONFIGURABLE | PROPF_ENUMERABLE
    else if IsCustomDispid(id) then PROPF_WRITABLE
    else if func.None? then 0
    else if func.value.funcDispIdx != -1 then
      if slot == FuncObjReplaced then PROPF_WRITABLE | PROPF_CONFIGURABLE
      else PROPF_METHOD | (func.value.argc as bv32) | PROPF_WRITABLE | PROPF_CONFIGURABLE
    else
      PROPF_PROXY_ACCESSOR | PROPF_ENUMERABLE | PROPF_CONFIGURABLE | (if func.value.putVtblOff != 0 then PROPF_WRITABLE else 0)
  }

  /**
   * Dynamic properties have all three attributes, custom ones are only
   * writable, unknown builtins have no flags; a builtin method carries its
   * argument count and is never enumerable; a builtin property is an
   * enumerable, configurable accessor, writable iff it has a setter.
   */
  lemma PropFlagsSpec(id: int, func: Option<FuncInfo>, slot: FuncObjSlot)
    requires func.Some? ==> func.value.argc < 256
    ensures IsDynamicDispid(id) ==> PropFlags(id, func, slot) == PROPF_ALL
    ensures GetDispidType(id) == DispexPropCustom ==> PropFlags(id, func, slot) == PROPF_WRITABLE
    ensures GetDispidType(id) == DispexPropBuiltin && func.None? ==> PropFlags(id, func, slot) == 0
    ensures GetDispidType(id) == DispexPropBuiltin && func.Some? && func.value.funcDispIdx != -1 ==>
      PropFlags(id, func, slot) & PROPF_ENUMERABLE == 0
      && PropFlags(id, func, slot) & PROPF_WRITABLE == PROPF_WRITABLE
      && (slot != FuncObjReplaced ==>
            PropFlags(id, func, slot) & PROPF_ARGMASK == func.value.argc as bv32
            && PropFlags(id, func, slot) & PROPF_METHOD == PROPF_METHOD)
    ensures GetDispidType(id) == DispexPropBuiltin && func.Some? && func.value.funcDispIdx == -1 ==>
      PropFlags(id, func, slot) & (PROPF_ENUMERABLE | PROPF_CONFIGURABLE | PROPF_PROXY_ACCESSOR)
        == PROPF_ENUMERABLE | PROPF_CONFIGURABLE | PROPF_PROXY_ACCESSOR
      && (PropFlags(id, func, slot) & PROPF_WRITABLE != 0 <==> func.value.putVtblOff != 0)
  {
    if GetDispidType(id) == DispexPropBuiltin && func.Some? && func.value.funcDispIdx != -1 && slot != FuncObjReplaced {
      ArgcBits(func.value.argc as bv32);
    }
  }

  /** An argument count below 256 sits in the PROPF_ARGMASK bits and clears the others. */
  lemma ArgcBits(a: bv32)
    requires a < 256
    ensures (PROPF_METHOD | a | PROPF_WRITABLE | PROPF_CONFIGURABLE) & PROPF_ARGMASK == a
    ensures (PROPF_METHOD | a | PROPF_WRITABLE | PROPF_CONFIGURABLE) & PROPF_ENUMERABLE == 0
  {
  }

  // ---------------------------------------------------------------------
  // The DISPID comparator used to sort the funcs array.

  /** dispid_cmp as written: the difference of two 32-bit DISPIDs, computed in 32-bit int. */
  function DispidCmpAsWritten(a: int, b: int): int
    requires -0x8000_0000 <= a < 0x8000_0000 && -0x8000_0000 <= b < 0x8000_0000
  {
    var d := (a - b) % DWORD_RANGE;
    if d >= 0x8000_0000 then d - DWORD_RANGE else d
  }

  /** A DISPID far above zero against an event DISPID near INT_MIN: the difference wraps and the order flips. */
  lemma DispidCmpAsWrittenMisorders()
    ensures var a, b := 0x100000, -0x7ffe_e888;
      a > b && DispidCmpAsWritten(a, b) < 0
  {
  }

  /** The comparison qsort needs: the sign of a - b. */
  function DispidCmp(a: int, b: int): int
  {
    if a < b then -1 else if a > b then 1 else 0
  }

  /** The corrected comparator agrees with the DISPID order and is antisymmetric. */
  lemma DispidCmpSpec(a: int, b: int)
    ensures DispidCmp(a, b) < 0 <==> a < b
    ensures DispidCmp(a, b) == 0 <==> a == b
    ensures DispidCmp(a, b) == -DispidCmp(b, a)
  {
  }

  /** For DISPIDs whose difference fits in 32 bits, the code as written agrees in sign with the corrected comparator. */
  lemma DispidCmpAgrees(a: int, b: int)
    requires -0x8000_0000 <= a < 0x8000_0000 && -0x8000_0000 <= b < 0x8000_0000
    requires -0x8000_0000 <= a - b < 0x8000_0000
    ensures DispidCmpAsWritten(a, b) == a - b
    ensures (DispidCmpAsWritten(a, b) < 0) == (DispidCmp(a, b) < 0)
  {
  }
}
