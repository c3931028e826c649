# Verified models of selected Wine components

This project holds Dafny models of several small cores of Wine. Each core keeps its own form. Code that updates objects in place becomes a class whose methods carry `modifies` clauses and loop invariants. Pure code becomes datatypes, functions and lemmas. The models are:

- **I/O completion waits** (`server/completion.c`), in `completion.dfy`. A wait object holds the completion packets of a port. It adds and removes them in FIFO order and is satisfied while it holds one. Destroying the port abandons its waits.
- **mshtml dispatch** (`dlls/mshtml/dispex.c` and helpers from `dlls/mshtml/mshtml_private.h`), in `dispex.dfy`, `mshtml_helpers.dfy` and `wide_strings.dfy`:
  - the DISPID ranges and their classification;
  - binary search over the sorted builtin name table;
  - dynamic properties, with their growth, deletion and lookup;
  - the `[object …]` string of `toString`;
  - the property flags of builtin accessors;
  - the small inline helpers of the private header.
- **d3dx9 private helpers** (`dlls/d3dx9_36/d3dx9_private.h`), in `d3dx9_helpers.dfy`:
  - filter validation and the format tables;
  - the boolean, integer and number conversions of effect parameters;
  - `make_pow2`;
  - the shared update-version counter and the dirty test.
- **d3dx11** (`dlls/d3dx11_43/d3dx11_43_main.c` and the helpers of `dlls/d3dx11_43/tests/d3dx11.c`), in `d3dx11_version.dfy`, `d3dx11_layout.dfy` and `d3dx11_test_helpers.dfy`:
  - the SDK version check;
  - the mip-chain count and layout;
  - the format bits-per-pixel table;
  - the channel-wise colour comparison.
- **wow64 CPU backend** (`dlls/wow64cpu/cpu.c`), in `wow64_cpu.dfy`:
  - the 64-to-32-bit context copy by flag group;
  - the reset of the thread state;
  - the turbo-thunk control;
  - the far-jump thunk written by process initialisation.
- **Speech recognizer session** (`dlls/windows.media.speech/recognizer.c`), in `recognizer.dfy`:
  - the start, stop, pause and resume state machine of the continuous recognition session;
  - its handler lists;
  - the constraint lookup by spoken command;
  - the PCM capture format;
  - the packet accumulation of the audio loop.
- **winegstreamer media source** (`dlls/winegstreamer/media_source.c`), in `media_source.dfy`:
  - the per-stream token queues;
  - the STOPPED/PAUSED/RUNNING/SHUTDOWN state machine driven by asynchronous commands;
  - the events of start, pause, stop and end of stream;
  - the read-size clamp of the read thread;
  - the map from media-source streams to demuxer streams;
  - the mutually-exclusive and default-stream selection of the descriptors.
- **ECMAScript 5 behaviour asserted by `dlls/mshtml/tests/es5.js`**, in `es5_values.dfy`, `es5_search.dfy`, `es5_descriptors.dfy`, `es5_bytes.dfy` and `es5_binary.dfy`:
  - `Array.prototype.indexOf` and `lastIndexOf`;
  - `Object.defineProperty` and the integrity levels (`freeze`, `seal`, `preventExtensions`, `isFrozen`, `isSealed`);
  - `ArrayBuffer`, `DataView` and the integer typed arrays over one shared byte store.

  The script engine that runs these tests is not part of this model. These modules are reference models of the behaviour the tests assert, with the section numbers of ECMA-262 5.1 (and of the 6th edition for the typed arrays).

`words.dfy` holds the fixed-width integer types and arithmetic lemmas. `wrappers.dfy` holds `Option`.

Fixed-width C integers are bounded `int` subsets. The wrap-arounds and truncations that the stated properties depend on are written out as reductions modulo 2^32 or 2^64: the update version of D3dx9Helpers.NextUpdateVersion, the unsigned test in MshtmlHelpers.IsPowerOf2Characterised, the register truncation of Wow64Cpu.CopyContext64To32, MediaSource.ReadSizeAsWritten and Dispex.DispidCmpAsWritten. Other size arithmetic is on unbounded integers, as listed under "Left out". Most allocation failures, thread creation failures and the answers of components outside a core (the demuxer, the audio client, the engine's prototype lookup) are parameters of the operations that consume them. Header constants whose definitions are outside these sources (HRESULT and NTSTATUS codes, `wg_major_type` values, SDK versions, `CONTEXT_I386_*` flags) are named constants with the documented values.

Two behaviours are easy to misread:
- `media_source_Pause` computes failure codes but always returns `S_OK` (`dlls/winegstreamer/media_source.c:1411-1434`). The model does the same.
- The tests leave open how `Uint8ClampedArray` rounds an exact half. The model rounds it to even, as section 7.1.11 of ECMA-262 6th edition requires.

## Model

| member | source | states |
|---|---|---|
| Completion.CompletionWait.constructor | server/completion.c:281-284 | a new wait object has an empty queue, depth 0 and is linked to its completion |
| Completion.CompletionWait.Satisfied | server/completion.c:202-215 | a woken waiter locks the completion exactly when the completion still exists, and is told the wait was abandoned otherwise |
| Completion.CompletionWait.AddCompletion | server/completion.c:301-318 | the message is appended at the tail and depth stays equal to the queue length; a failed allocation changes nothing |
| Completion.CompletionWait.RemoveCompletion | server/completion.c:384-423 | a non-empty queue yields its head with STATUS_SUCCESS and keeps the rest; an empty one gives STATUS_PENDING while the completion exists and STATUS_ABANDONED_WAIT_0 after; the signal is cleared exactly when the object stops being signaled |
| Completion.CompletionWait.QueryCompletion | server/completion.c:427-436 | the reported depth is the number of queued messages |
| Completion.CompletionPort.constructor | server/completion.c:267-294 | a new port owns a fresh, empty, linked wait object |
| Completion.CompletionPort.Destroy | server/completion.c:257-265 | closing the port unlinks the wait object, keeps its queued messages and leaves it signaled |
| Completion.FifoScenario | server/completion.c:301-318 | two messages come out in the order they went in, and a third removal reports STATUS_PENDING |
| Completion.AbandonScenario | server/completion.c:257-265 | after the port is closed, a queued message is still delivered, and then STATUS_ABANDONED_WAIT_0 is reported |
| D3dx11Version.CheckVersion | dlls/d3dx11_43/d3dx11_43_main.c:32-35 | a caller is accepted exactly when it passes D3D11_SDK_VERSION (7) and D3DX11_SDK_VERSION (43) |
| D3dx11Version.AcceptedPairIsUnique | dlls/d3dx11_43/d3dx11_43_main.c:32-35 | no two different argument pairs are both accepted |
| D3dx11Layout.RoundUpToBlock | dlls/d3dx11_43/tests/d3dx11.c:1990-1994 | `(x + 3) & ~3` gives the least multiple of 4 that is at least x |
| D3dx11Layout.BitLengthBounds | dlls/d3dx11_43/tests/d3dx11.c:1995-2001 | a positive dimension lies between 2^(bits-1) and 2^bits |
| D3dx11Layout.CountMipLevels | dlls/d3dx11_43/tests/d3dx11.c:1995-2001 | the expected mip count is the bit length of the largest dimension: 0 only for 0, and otherwise 2^(levels-1) <= dimension < 2^levels |
| D3dx11Layout.RowBytesIsCeiling | dlls/d3dx11_43/tests/d3dx11.c:5344 | `(width * bpp + 7) / 8` is the number of whole bytes covering a row of pixels |
| D3dx11Layout.MipExtentIsShift | dlls/d3dx11_43/tests/d3dx11.c:5349-5351 | halving an extent with a floor of 1 per level gives max(d / 2^level, 1) at every level |
| D3dx11Layout.ChainEntries | dlls/d3dx11_43/tests/d3dx11.c:5339-5352 | one array element contributes one entry per mip level |
| D3dx11Layout.LayoutLength | dlls/d3dx11_43/tests/d3dx11.c:5332-5354 | the table has array_size * mip_levels entries |
| D3dx11Layout.LayoutEntry | dlls/d3dx11_43/tests/d3dx11.c:5341-5347 | entry i * mip_levels + j describes element i, level j: its data starts after i whole chains plus levels 0..j-1; its slice pitch is the row bytes times the level height; its row pitch is four times the row bytes for a block-compressed format |
| D3dx11Layout.LevelStep | dlls/d3dx11_43/tests/d3dx11.c:5343-5347 | a level's entry comes from the current extents, and the data pointer then advances by slice pitch times depth |
| D3dx11Layout.FillMipChain | dlls/d3dx11_43/tests/d3dx11.c:5336-5352 | the inner loop writes exactly one element's chain into its mip_levels slots and returns the pointer just past that chain; the other slots are unchanged |
| D3dx11Layout.LayoutStep | dlls/d3dx11_43/tests/d3dx11.c:5332-5353 | each outer iteration appends one more chain, starting i whole chains into the data |
| D3dx11Layout.InitSubresources | dlls/d3dx11_43/tests/d3dx11.c:5326-5355 | init_subresource_data fills the first array_size * mip_levels entries with the layout, and leaves the rest untouched |
| D3dx11Layout.StorePixel | dlls/d3dx11_43/tests/d3dx11.c:5363 | one 32-bit store writes the colour's four little-endian bytes and nothing else |
| D3dx11Layout.InitBufferColor | dlls/d3dx11_43/tests/d3dx11.c:5357-5365 | every pixel of width * height * depth holds the colour; the result points 4 bytes per pixel past the start; bytes outside the range are unchanged |
| D3dx11TestHelpers.TableIsBlockCompressed | dlls/d3dx11_43/tests/d3dx11.c:38-47 | block_compressed_formats[] lists exactly the 21 BC1-BC7 formats |
| D3dx11TestHelpers.ScanTable | dlls/d3dx11_43/tests/d3dx11.c:53-56 | the linear scan finds a format exactly when the table holds it |
| D3dx11TestHelpers.ScanBlockCompressed | dlls/d3dx11_43/tests/d3dx11.c:49-58 | is_block_compressed is TRUE exactly for the BC formats |
| D3dx11TestHelpers.BppFromFormat | dlls/d3dx11_43/tests/d3dx11.c:76-208 | get_bpp_from_format only ever returns one of the eleven sizes 0, 1, 4, 8, 12, 16, 24, 32, 64, 96 and 128, with 0 for unknown formats |
| D3dx11TestHelpers.BlockCompressedBpp | dlls/d3dx11_43/tests/d3dx11.c:179-201 | every block-compressed format has a non-zero size: 4 bits for the BC1 and BC4 families, 8 bits for the others |
| D3dx11TestHelpers.Rgba8FormatsAre32Bpp | dlls/d3dx11_43/tests/d3dx11.c:60-74 | the formats dxgi_format_is_8bpp_rgba accepts are 32-bit formats and are not block-compressed |
| D3dx11TestHelpers.CompareUint | dlls/d3dx11_43/tests/d3dx11.c:299-304 | the comparison holds exactly when \|x - y\| <= max_diff, with no unsigned underflow |
| D3dx11TestHelpers.CompareUintSymmetric | dlls/d3dx11_43/tests/d3dx11.c:299-304 | the comparison is symmetric and reflexive |
| D3dx11TestHelpers.CompareColor | dlls/d3dx11_43/tests/d3dx11.c:1787-1793 | colours compare equal exactly when each of the four byte channels is within max_diff |
| D3dx11TestHelpers.ChannelsRebuildColor | dlls/d3dx11_43/tests/d3dx11.c:1789-1792 | the four channels `(c >> 8k) & 0xff` together determine the colour |
| D3dx11TestHelpers.CompareColorExact | dlls/d3dx11_43/tests/d3dx11.c:1787-1793 | with max_diff 0 the comparison is exact equality, in both directions |
| D3dx11TestHelpers.ExpectedMipLevels | dlls/d3dx11_43/tests/d3dx11.c:1988-2001 | the expected mip count is the bit length of the larger dimension, after both are rounded up to whole blocks for BC formats |
| D3dx11TestHelpers.RowPitchIsCeiling | dlls/d3dx11_43/tests/d3dx11.c:2101-2105 | the stride is the row size in bits rounded up to whole bytes, taken over four pixel rows for BC formats |
| D3dx11TestHelpers.InitSubresourceData | dlls/d3dx11_43/tests/d3dx11.c:5326-5355 | init_subresource_data builds the table from the format's bits per pixel and block compression |
| D3dx9Helpers.ValidFilterShape | dlls/d3dx9_36/d3dx9_private.h:37-44 | a filter passes validation exactly when its low three bits name NONE..BOX and every other set bit is a mirror, dither or sRGB flag; the result is always D3D_OK or D3DERR_INVALIDCALL |
| D3dx9Helpers.HandleLoadFilter | dlls/d3dx9_36/d3dx9_private.h:46-52 | D3DX_DEFAULT is rewritten to TRIANGLE \| DITHER, which then validates; any other filter is kept and validated as it is |
| D3dx9Helpers.FilterFlagsMatchCombinations | dlls/d3dx9_36/d3dx9_private.h:178-186 | the flags match exactly when premultiplied alpha and sRGB are each requested both ways or not at all, which gives four combinations |
| D3dx9Helpers.FormatTypesMatchProperties | dlls/d3dx9_36/d3dx9_private.h:159-176 | format matching is symmetric and reflexive, and needs equal format flags; it holds exactly when each channel type is equal or one side is empty and at least one channel type is equal |
| D3dx9Helpers.ConversionSupportOrder | dlls/d3dx9_36/d3dx9_private.h:188-196 | every format that can be converted to can be converted from; the formats that can only be converted from are the index formats |
| D3dx9Helpers.GetBool | dlls/d3dx9_36/d3dx9_private.h:241-256 | FLOAT, INT and BOOL give 1 exactly for a non-zero word and 0 otherwise; VOID passes the word through; other types give FALSE |
| D3dx9Helpers.GetInt | dlls/d3dx9_36/d3dx9_private.h:258-274 | INT and VOID pass the word through, BOOL is normalised to 0 or 1, other types give 0, and only FLOAT takes the float path |
| D3dx9Helpers.SetNumber | dlls/d3dx9_36/d3dx9_private.h:296-322 | an equal type copies the word; a BOOL target gets get_bool of the input; a FLOAT target takes the float path; an unknown target gets 0 |
| D3dx9Helpers.SetNumberKeepsTruth | dlls/d3dx9_36/d3dx9_private.h:296-322 | converting INT to BOOL keeps the truth value, and BOOL to INT and back gives the normalised BOOL |
| D3dx9Helpers.HighestBitBounds | dlls/d3dx9_36/d3dx9_private.h:332-337 | the index BitScanReverse finds is that of the highest set bit: 2^i <= x < 2^(i+1) |
| D3dx9Helpers.HighestBitBelow31 | dlls/d3dx9_36/d3dx9_private.h:332-337 | for num <= 2^31 the shift `1u << (index + 1)` stays within 32 bits |
| D3dx9Helpers.MakePow2Bounds | dlls/d3dx9_36/d3dx9_private.h:331-337 | make_pow2 returns a power of two that is at least num, and below 2 * num unless it is 1 |
| D3dx9Helpers.MakePow2IsLeast | dlls/d3dx9_36/d3dx9_private.h:331-337 | every power of two that is at least num is at least make_pow2(num), so the result is the smallest such power |
| D3dx9Helpers.VersionCounter.NextUpdateVersion | dlls/d3dx9_36/d3dx9_private.h:470-473 | the shared counter is pre-incremented modulo 2^64 and the new value is returned, so it is larger than the old one unless it wraps |
| D3dx9Helpers.StampedParamIsDirty | dlls/d3dx9_36/d3dx9_private.h:475-483 | a change stamped with a newer version than a consumer has seen makes the parameter dirty for that consumer and for no other; a shared parameter's own version plays no part |
| Dispex.DispidTypeSpec | dlls/mshtml/dispex.c:704-721 | DISPIDs 0x50000000-0x5fffffff are dynamic, 0x60000000-0x6fffffff custom and all others builtin; the DISPID of dynamic property idx is dynamic and gives idx back |
| Dispex.GetBuiltinFunc | dlls/mshtml/dispex.c:1372-1395 | on funcs sorted by DISPID, the binary search returns S_OK with an entry holding the id, and DISP_E_MEMBERNOTFOUND exactly when no entry holds it |
| Dispex.NameSearch | dlls/mshtml/dispex.c:1408-1427 | the entry the search of get_builtin_id stops on, probing (min+max)/2, lies within the searched range and equals the name up to case, whatever the table |
| Dispex.NameSearchSpec | dlls/mshtml/dispex.c:1408-1427 | on a name table sorted under wcsicmp, where names equal up to case may sit side by side, the search lands nowhere exactly when no entry in the range equals the name up to case |
| Dispex.FindBuiltinName | dlls/mshtml/dispex.c:1408-1427 | the loop returns the entry the search lands on: one equal to the name up to case, and none exactly when no entry is |
| Dispex.EntriesAfterDiffer | dlls/mshtml/dispex.c:1423-1424 | when the middle entry sorts above the name, no entry from it onward matches, even with case variants in the table, so `max = n-1` loses nothing |
| Dispex.EntriesBeforeDiffer | dlls/mshtml/dispex.c:1425-1426 | when the middle entry sorts below the name, no entry up to it matches, even with case variants in the table, so `min = n+1` loses nothing |
| Dispex.NameTableUnique | dlls/mshtml/dispex.c:582-585 | when no two names in the table are equal up to case, at most one entry equals a given name up to case |
| Dispex.GetBuiltinId | dlls/mshtml/dispex.c:1404-1446 | with no entry equal to the name up to case, get_static_dispid and then get_dispid are asked and the first reply other than DISP_E_UNKNOWNNAME is final; otherwise the entry the search lands on decides: its DISPID when it answers the name (exactly, with fdexNameCaseSensitive), the hooks when it does not; when names are unique up to case, an entry answering the name yields its DISPID |
| Dispex.AttributeSearch | dlls/mshtml/dispex.c:723-734 | the entry the search of is_custom_attribute stops on, probing (a+b)/2 in [a, b), lies within the range and equals the name up to case, whatever the table |
| Dispex.AttributeSearchSpec | dlls/mshtml/dispex.c:723-734 | on a name table sorted under wcsicmp, the search lands nowhere exactly when no entry in the range equals the name up to case |
| Dispex.IsCustomAttribute | dlls/mshtml/dispex.c:723-738 | a name no entry has up to case is a custom attribute; otherwise it is one exactly when the entry the search lands on is a method; when names are unique up to case, it is one unless a builtin property has the name up to case |
| Dispex.CaseVariantsJudgedByLanding | dlls/mshtml/dispex.c:375-376 | names differing only in case ("Foo" a property, "foo" a method) sort side by side; a case-sensitive lookup of "foo" lands on "Foo" and so is not answered by the table, and is_custom_attribute of "FOO" lands on the method |
| Dispex.FindFrom | dlls/mshtml/dispex.c:795-796 | the index found lies at or after the start and inside the table |
| Dispex.FindProp | dlls/mshtml/dispex.c:795-796 | the index found lies inside the table |
| Dispex.FindFromSpec | dlls/mshtml/dispex.c:795-806 | the lookup returns the first entry whose name matches (with wcsicmp or wcscmp as the flags say), and nothing when no entry matches |
| Dispex.ProtoLookup | dlls/mshtml/dispex.c:808-816 | the prototype's answer, when there is one, is an index into the prototype's table |
| Dispex.Fixup | dlls/mshtml/dispex.c:751-769 | fixing up an entry never changes its name |
| Dispex.FixupSpec | dlls/mshtml/dispex.c:751-769 | after a fix-up, DELETED and PROTREF still exclude each other and a PROTREF points at a live prototype property; the entry is DELETED exactly when it was deleted and the prototype has no live property of that name, or it referred to a prototype property that was deleted |
| Dispex.DynamicData.constructor | dlls/mshtml/dispex.c:774-778 | zero-allocated dynamic data has no entries and no buffer |
| Dispex.DynamicData.FindDynamicProp | dlls/mshtml/dispex.c:795-796 | the loop returns the first matching entry, and nothing exactly when none matches |
| Dispex.DynamicData.GetDynamicProp | dlls/mshtml/dispex.c:786-855 | a matching entry is fixed up; if it is then DELETED, it gives DISP_E_UNKNOWNNAME without fdexNameEnsure and is revived with it. With no match, it gives DISP_E_UNKNOWNNAME unless fdexNameEnsure is set or the prototype has the name; otherwise a new entry (a PROTREF when the prototype has the name) is appended at prop_cnt, after growing the buffer to 4 or doubling it when full; an allocation failure gives E_OUTOFMEMORY and leaves the entries as they were |
| Dispex.DynamicData.AppendProp | dlls/mshtml/dispex.c:825-854 | the buffer grows to 4 entries, or to twice its size when full; the new entry goes at index prop_cnt; an allocation failure leaves the entries as they were |
| Dispex.DynamicData.GetDynid | dlls/mshtml/dispex.c:871-883 | get_dynamic_prop with fdexNameEnsure, case-sensitive: a matching entry is fixed up and revived, otherwise an empty entry is appended at prop_cnt after growing the buffer; the entry returned loses PROTREF (a former reference becomes an empty own property), every other entry is unchanged, and the DISPID is DISPID_DYNPROP_0 plus its index; the only failure is E_OUTOFMEMORY from an allocation |
| Dispex.DynamicData.DeleteDynamicProp | dlls/mshtml/dispex.c:3411-3424 | an index past the table is ignored; an own property loses its value and becomes DELETED; a PROTREF entry and all other entries are left alone; the result is S_OK |
| Dispex.DynamicData.NextDynamicId | dlls/mshtml/dispex.c:2899-2913 | gives the DISPID of the first entry from idx on that is neither DELETED nor PROTREF; S_FALSE with DISPID_STARTENUM exactly when there is none |
| Dispex.DeletedPropLookup | dlls/mshtml/dispex.c:751-763 | a deleted own property stays deleted unless the prototype has a live property of that name, in which case it becomes a PROTREF to it |
| Dispex.GrowToSpec | dlls/mshtml/dispex.c:825-839 | the capacity runs 4, 8, 16, …, and after growing there is room for one more entry |
| Dispex.DispexToString | dlls/mshtml/dispex.c:2023-2049 | a NULL out pointer gives E_INVALIDARG, a failed SysAllocString gives E_OUTOFMEMORY, and otherwise S_OK with a string |
| Dispex.DispexToStringSpec | dlls/mshtml/dispex.c:2036-2046 | below IE9 the string is "[object]"; from IE9 on it is "[object " + name + "]", from which the name can be read back |
| Dispex.PropFlagsSpec | dlls/mshtml/dispex.c:3103-3130 | dynamic properties are writable, configurable and enumerable; custom ones are only writable; unknown builtins have no flags; a builtin method is writable, never enumerable and, unless script replaced its function object, carries its argument count and PROPF_METHOD; a builtin property is an enumerable, configurable proxy accessor, writable exactly when it has a setter |
| Dispex.ArgcBits | dlls/mshtml/dispex.c:3119 | an argument count below 256 sits in the PROPF_ARGMASK bits and sets no enumerable bit |
| Dispex.DispidCmpAsWrittenMisorders | dlls/mshtml/dispex.c:577-580 | the subtracting comparator orders 0x100000 below -0x7ffee888 |
| Dispex.DispidCmpSpec | dlls/mshtml/dispex.c:577-580 | the corrected comparator is negative exactly for a < b, zero exactly for equal DISPIDs, and antisymmetric |
| Dispex.DispidCmpAgrees | dlls/mshtml/dispex.c:577-580 | when the difference fits in 32 bits, the comparator as written agrees in sign with the corrected one |
| MshtmlHelpers.PropFlagsDisjoint | dlls/mshtml/mshtml_private.h:134-141 | the argument-count mask, the method and constructor bits and the three attribute bits never overlap, and PROPF_ALL is 0x1c00 |
| MshtmlHelpers.StrnDupW | dlls/mshtml/mshtml_private.h:1636-1649 | NULL gives NULL, and so does a failed allocation; otherwise the result is a fresh buffer of len + 1 WCHARs holding the first len characters and a terminating zero |
| MshtmlHelpers.VariantBool | dlls/mshtml/mshtml_private.h:1729-1732 | the result is VARIANT_TRUE exactly for a non-zero BOOL, and VARIANT_FALSE otherwise |
| MshtmlHelpers.IsDigit | dlls/mshtml/mshtml_private.h:1734-1737 | exactly the code units 0x30-0x39 are digits |
| MshtmlHelpers.BitAndWithPredecessor | dlls/mshtml/mshtml_private.h:1739-1742 | for x >= 1, `x & (x - 1)` is 0 exactly when x is a power of two |
| MshtmlHelpers.IsPowerOf2Characterised | dlls/mshtml/mshtml_private.h:1739-1742 | is_power_of_2 holds exactly for 0 and the powers of two, because 0 - 1 wraps to 0xffffffff |
| MshtmlHelpers.UnlinkRef | dlls/mshtml/mshtml_private.h:1744-1752 | the pointer is cleared, and the object it held, if any, loses one reference |
| WideStrings.CompareZero | dlls/mshtml/dispex.c:582-585 | the string comparison is three-way, and is 0 exactly for equal strings |
| WideStrings.CompareAntisymmetric | dlls/mshtml/dispex.c:582-585 | swapping the operands negates the comparison |
| WideStrings.CompareIgnoringCaseSpec | dlls/mshtml/dispex.c:1414-1415 | wcsicmp reports 0 exactly for strings that are equal up to case, and is antisymmetric |
| WideStrings.CaseEqualExamples | dlls/mshtml/dispex.c:1414-1417 | "Open" and "oPEN" are equal up to case; "open" and "opens" are not |
| WideStrings.Fold | dlls/mshtml/dispex.c:731 | case folding keeps the length |
| SpeechRecognizer.Session.constructor | dlls/windows.media.speech/recognizer.c:2011-2046 | a zero-filled session is idle, has no worker thread, no handlers and no constraints, and satisfies the session invariant |
| SpeechRecognizer.Session.StartAsync | dlls/windows.media.speech/recognizer.c:1162-1196 | no action gives E_OUTOFMEMORY; a running worker or an existing thread gives COR_E_INVALIDOPERATION; a failed thread creation gives its Win32 error; otherwise the worker runs, unpaused, in the Capturing state; every failure leaves the session unchanged |
| SpeechRecognizer.Session.StopAsync | dlls/windows.media.speech/recognizer.c:1211-1254 | only a running worker with a thread is stopped, leaving the session idle, unpaused and without a thread; otherwise COR_E_INVALIDOPERATION and no change |
| SpeechRecognizer.Session.PauseAsync | dlls/windows.media.speech/recognizer.c:1267-1290 | succeeds whenever the action exists; pauses only a running worker and then reports Paused |
| SpeechRecognizer.Session.Resume | dlls/windows.media.speech/recognizer.c:1292-1309 | always S_OK; a running worker is unpaused and reports Capturing; otherwise nothing changes |
| SpeechRecognizer.Session.GetState | dlls/windows.media.speech/recognizer.c:1762-1777 | a NULL out pointer gives E_POINTER; otherwise the state stored follows the worker's running and paused flags |
| SpeechRecognizer.Session.AddCompleted | dlls/windows.media.speech/recognizer.c:1311-1319 | a NULL handler gives E_INVALIDARG, a failed append E_OUTOFMEMORY; only on S_OK is the handler appended, and nothing else changes |
| SpeechRecognizer.Session.AddResultGenerated | dlls/windows.media.speech/recognizer.c:1328-1336 | as AddCompleted, on the result-generated handler list |
| SpeechRecognizer.Session.FindConstraintByString | dlls/windows.media.speech/recognizer.c:803-885 | the result is the first command, in constraint then command order, equal to the phrase up to case, with S_OK and that command; with no such command, COR_E_KEYNOTFOUND |
| SpeechRecognizer.FirstCommandFromSpec | dlls/windows.media.speech/recognizer.c:851-866 | the command search returns a matching index with no match before it, or none when no command matches |
| SpeechRecognizer.FirstMatchFromSpec | dlls/windows.media.speech/recognizer.c:830-875 | the constraint search returns the first match from a given constraint on, or none when no later constraint holds a match |
| SpeechRecognizer.FirstMatchSound | dlls/windows.media.speech/recognizer.c:803-885 | the lookup finds a command equal to the phrase up to case with no such command earlier, and finds nothing exactly when no command anywhere matches |
| SpeechRecognizer.FirstCommandIgnoresCase | dlls/windows.media.speech/recognizer.c:860 | phrases equal up to case find the same command in one list |
| SpeechRecognizer.FirstMatchFromIgnoresCase | dlls/windows.media.speech/recognizer.c:860 | phrases equal up to case find the same match from any constraint on |
| SpeechRecognizer.FirstMatchIgnoresCase | dlls/windows.media.speech/recognizer.c:803-885 | phrases equal up to case find the same constraint and command |
| SpeechRecognizer.AccumulatePackets | dlls/windows.media.speech/recognizer.c:951-971 | the buffer's first offset bytes are the consumed packets' bytes in order, and offset never passes the buffer size; the first packet that does not fit is released with 0 frames and deferred; every copied packet is released with its own frame count |
| SpeechRecognizer.PcmFormat | dlls/windows.media.speech/recognizer.c:1968-1973 | the format keeps the requested rate, channel count and sample width |
| SpeechRecognizer.PcmFormatSpec | dlls/windows.media.speech/recognizer.c:1972-1973 | when nothing is truncated, a frame holds the fewest whole bytes per channel that fit a sample, and nAvgBytesPerSec is the rate times nBlockAlign |
| SpeechRecognizer.CaptureFormat | dlls/windows.media.speech/recognizer.c:1968-1971 | the capture format is 16 kHz, mono, 16-bit |
| SpeechRecognizer.CaptureFormatValues | dlls/windows.media.speech/recognizer.c:1972-1973 | the capture format has 2-byte frames and 32000 bytes per second |
| Wow64Cpu.CopyContext64To32 | dlls/wow64cpu/cpu.c:60-98 | ContextFlags is always written; each register group is copied, truncated to 32 bits, exactly when its flag is requested with the CONTEXT_i386 bit masked off; the stack and data segments come from the captured selectors; the floating-point area is never written |
| Wow64Cpu.GroupFlagsAreIndependent | dlls/wow64cpu/cpu.c:62-91 | the CONTEXT_i386 bit alone requests no group, each group flag requests only its own group, and CONTEXT_I386_ALL requests all four |
| Wow64Cpu.ClearTrapAndAlignIsExact | dlls/wow64cpu/cpu.c:242 | the reset clears the trap and alignment-check flags and keeps every other EFLAGS bit |
| Wow64Cpu.ResetToConsistentState | dlls/wow64cpu/cpu.c:236-250 | the 32-bit context handed to the thread is a full copy with trap and alignment check cleared; the 64-bit context resumes at the syscall thunk with the 64-bit code selector and the stack pointer taken from R14; the status is STATUS_SUCCESS |
| Wow64Cpu.TurboThunkControl | dlls/wow64cpu/cpu.c:256-261 | enabling turbo thunks gives STATUS_NOT_SUPPORTED, disabling them STATUS_SUCCESS |
| Wow64Cpu.ProcessInit | dlls/wow64cpu/cpu.c:180-203 | a syscall entry above 4G gives STATUS_INVALID_ADDRESS and no thunk; otherwise STATUS_SUCCESS and a thunk whose bytes are the far-jump opcode, the entry's address and the 64-bit code selector |
| Wow64Cpu.ThunkBytes | dlls/wow64cpu/cpu.c:197-199 | the packed thunk occupies seven bytes |
| Wow64Cpu.ThunkLayoutRoundTrip | dlls/wow64cpu/cpu.c:197-199 | reading the seven packed little-endian bytes back gives the same opcode, target and selector |
| Es5Values.Truncate | dlls/mshtml/tests/es5.js:239 | truncation toward zero: the result is the integer next to the number on the side of zero, within one of it |
| Es5Values.ToInteger | dlls/mshtml/tests/es5.js:239 | a finite number converts to its truncation |
| Es5Values.TruncateExamples | dlls/mshtml/tests/es5.js:239 | 1.9 truncates to 1, 0.9 to 0 and -1.9 to -1 |
| Es5Search.IndexOfStart | dlls/mshtml/tests/es5.js:228-231 | indexOf's start index never exceeds the length |
| Es5Search.LastIndexOfStart | dlls/mshtml/tests/es5.js:256-259 | lastIndexOf's start index lies between -1 and length - 1 |
| Es5Search.IndexOfFromSpec | dlls/mshtml/tests/es5.js:216-240 | the forward search returns the first present, strictly equal element at or after its start, or -1 when there is none |
| Es5Search.LastIndexOfFromSpec | dlls/mshtml/tests/es5.js:242-268 | the backward search returns the last present, strictly equal element at or before its start, or -1 when there is none |
| Es5Search.IndexOfSpec | dlls/mshtml/tests/es5.js:216-240 | indexOf finds the first matching index from its start, or -1; the start is fromIndex truncated, counted from the end when negative and clamped to 0; a fromIndex at or past the length finds nothing |
| Es5Search.LastIndexOfSpec | dlls/mshtml/tests/es5.js:242-268 | lastIndexOf finds the last matching index up to its start, or -1; the start is fromIndex truncated, capped at length - 1 and counted from the end when negative; a start still negative finds nothing |
| Es5Search.HolesNeverMatch | dlls/mshtml/tests/es5.js:227 | neither search ever returns the index of a hole, even when searching for undefined |
| Es5Search.IndexOfExamples | dlls/mshtml/tests/es5.js:229-232 | the fromIndex cases -1, -2, -20 and 20 on [1,2,3,4,5,6] give -1, 4, 4 and -1 |
| Es5Search.IndexOfHoleExamples | dlls/mshtml/tests/es5.js:227-239 | a fractional fromIndex is truncated, a hole does not match undefined, and an element beyond `length` is not searched |
| Es5Search.LastIndexOfExamples | dlls/mshtml/tests/es5.js:255-267 | the fromIndex cases -3, -4, -100, 100 and 0.9, and undefined found at the last index |
| Es5Descriptors.DefinedReflectsDescriptor | dlls/mshtml/tests/es5.js:632-645 | a successful definition carries every field the descriptor has; a new property is defined exactly on an extensible object, takes the descriptor's kind, and gets false for unspecified attributes and undefined for an unspecified value, getter or setter |
| Es5Descriptors.ApplyReflects | dlls/mshtml/tests/es5.js:642-644 | updating a property keeps its kind, overwrites the fields the descriptor has and keeps the others |
| Es5Descriptors.AgreeingRedefinitionIsIdentity | dlls/mshtml/tests/es5.js:715-730 | redefining a property, even a non-configurable one, with fields it already has succeeds and changes nothing |
| Es5Descriptors.ConfigurableIsRedefinable | dlls/mshtml/tests/es5.js:748-775 | a configurable property accepts any descriptor, including one of the other kind |
| Es5Descriptors.NonConfigurableRedefinition | dlls/mshtml/tests/es5.js:672-703 | on a non-configurable property, making it configurable, flipping its enumerability, switching its kind, or changing an accessor's getter or setter fails with NONCONFIGURABLE_REDEFINED |
| Es5Descriptors.NonWritableModification | dlls/mshtml/tests/es5.js:705-711 | on a non-configurable read-only data property, a compatible data descriptor fails with NONWRITABLE_MODIFIED exactly when it sets writable to true or gives a different value |
| Es5Descriptors.DefinePropertySpec | dlls/mshtml/tests/es5.js:780-786 | get or set together with value fails with PROP_DESC_MISMATCH, and together with writable with INVALID_WRITABLE_PROP_DESC; a successful call keeps extensibility, adds only the named property and leaves every other property unchanged |
| Es5Descriptors.IntegrityLevels | dlls/mshtml/tests/es5.js:1480-1630 | freeze gives a frozen object and seal a sealed one with the same property names; freeze keeps enumerability and values; a frozen object is sealed; a sealed object is frozen exactly when its data properties were already read-only |
| Es5Descriptors.PreventExtensionsLevels | dlls/mshtml/tests/es5.js:1613-1620 | after preventExtensions an object is sealed exactly when no property is configurable, and frozen exactly when in addition no data property is writable; an empty object becomes both |
| Es5Descriptors.DefinePropertyExamples | dlls/mshtml/tests/es5.js:632-760 | the defineProperty sequence on the test object: the defaults of an empty descriptor, the NONCONFIGURABLE_REDEFINED and NONWRITABLE_MODIFIED rejections, the accepted redefinitions, and an accessor turned into a data property |
| Es5Descriptors.IsFrozenExamples | dlls/mshtml/tests/es5.js:1632-1666 | after defineProperty and preventExtensions, {value: 1} and an accessor pair give a frozen object, {value: 1, writable: true} a sealed unfrozen one, and {value: 1, configurable: true} neither |
| Es5Descriptors.SealFreezeExamples | dlls/mshtml/tests/es5.js:1618-1630 | an object literal's property stays unsealed after preventExtensions, is frozen by freeze, and is sealed but not frozen by seal |
| Es5Bytes.Size | dlls/mshtml/tests/es5.js:2084-2085 | BYTES_PER_ELEMENT is 1, 2 or 4 for the integer element types |
| Es5Bytes.ModulusIsPow256 | dlls/mshtml/tests/es5.js:2084-2085 | an element type's value count is 256 to the power of its BYTES_PER_ELEMENT |
| Es5Bytes.SignedSpec | dlls/mshtml/tests/es5.js:2468-2472 | reading a residue as an element value lands in the type's range and keeps the residue |
| Es5Bytes.SignedOfResidue | dlls/mshtml/tests/es5.js:2468-2472 | a value in the type's range is read back from its own residue |
| Es5Bytes.WrapSpec | dlls/mshtml/tests/es5.js:2468-2478 | a modular store lands in the type's range, is congruent to the stored integer modulo 2^bits, and keeps values already in range |
| Es5Bytes.ToUint8ClampSpec | dlls/mshtml/tests/es5.js:2505-2513 | a clamped store saturates to [0, 255]: NaN and non-positive values give 0, values of 255 or more give 255, and values in between round to the nearest integer with halves going to even |
| Es5Bytes.ToElementInRange | dlls/mshtml/tests/es5.js:2465-2513 | every conversion of a Number gives a value of the element type |
| Es5Bytes.ToElementExamples | dlls/mshtml/tests/es5.js:2467-2513 | the 16-bit and 8-bit overflow cases, and the clamped against modular stores of 42, -1, 999, 0.9, NaN and the infinities |
| Es5Bytes.EncodeLE | dlls/mshtml/tests/es5.js:2019-2030 | a little-endian encoding to n bytes has n bytes |
| Es5Bytes.Encode | dlls/mshtml/tests/es5.js:2019-2030 | a DataView store writes BYTES_PER_ELEMENT bytes |
| Es5Bytes.DecodeLEBound | dlls/mshtml/tests/es5.js:2015-2030 | n bytes read as an unsigned value below 256^n |
| Es5Bytes.DecodeEncodeLE | dlls/mshtml/tests/es5.js:2019-2030 | reading back the n-byte little-endian encoding of a value below 256^n gives that value |
| Es5Bytes.EncodeDecodeLE | dlls/mshtml/tests/es5.js:2019-2030 | encoding the value read from some bytes gives the same bytes |
| Es5Bytes.ReverseReverse | dlls/mshtml/tests/es5.js:2015-2018 | switching the byte order twice gives the original bytes |
| Es5Bytes.DecodeEncode | dlls/mshtml/tests/es5.js:2027-2030 | reading back what a DataView store wrote, in the same byte order, gives the stored value reduced to the type |
| Es5Bytes.EncodeDecode | dlls/mshtml/tests/es5.js:2019-2026 | storing a value read from some bytes, in the same byte order, rewrites exactly those bytes |
| Es5Bytes.DecodeInRange | dlls/mshtml/tests/es5.js:2015-2030 | every value a DataView read returns lies in the element type's range |
| Es5Bytes.DecodeLEZeros | dlls/mshtml/tests/es5.js:1922-1925 | zero bytes read as 0 |
| Es5Bytes.DecodeZeros | dlls/mshtml/tests/es5.js:1922-1925 | zero bytes read as 0 in either byte order |
| Es5Bytes.SignednessDoesNotChangeStores | dlls/mshtml/tests/es5.js:2046-2049 | setInt8/setUint8, setInt16/setUint16 and setInt32/setUint32 write the same bytes for every value |
| Es5Bytes.Store | dlls/mshtml/tests/es5.js:2058-2065 | a write into a byte store, or of a run of values into a typed array's elements, keeps the length |
| Es5Bytes.StoreOutside | dlls/mshtml/tests/es5.js:2058-2065 | bytes outside the written range are unchanged by a store |
| Es5Bytes.StoreAt | dlls/mshtml/tests/es5.js:2058-2065 | the written range holds exactly the written data |
| Es5Bytes.StoreKeeps | dlls/mshtml/tests/es5.js:2058-2065 | a store keeps the bytes before and after the written range |
| Es5Bytes.ElementsFit | dlls/mshtml/tests/es5.js:2292-2301 | every element of a view that fits its buffer lies within the buffer |
| Es5Bytes.ElementsOf | dlls/mshtml/tests/es5.js:2292-2301 | a typed array of length n has n elements |
| Es5Bytes.ElementsDisjoint | dlls/mshtml/tests/es5.js:2478-2482 | distinct elements of a view occupy disjoint bytes |
| Es5Bytes.StoreElementOther | dlls/mshtml/tests/es5.js:2292-2301 | storing over one element of a view leaves every other element's value unchanged |
| Es5Bytes.StoreElementSame | dlls/mshtml/tests/es5.js:2292-2301 | storing over one element of a view makes it read back the stored value reduced to the type |
| Es5Bytes.StoreElement | dlls/mshtml/tests/es5.js:2292-2301 | storing an in-range value over element i of a view changes element i to that value and no other element |
| Es5Bytes.OffsetOrder | dlls/mshtml/tests/es5.js:2478-2482 | element offsets grow with the index, one element size per step |
| Es5Bytes.OffsetAdd | dlls/mshtml/tests/es5.js:2338-2362 | an element offset into a view that starts a elements into another is that one's offset of element a + b |
| Es5Bytes.SuffixFits | dlls/mshtml/tests/es5.js:2338-2362 | a subarray within a typed array ends within its bytes |
| Es5Bytes.SuffixElement | dlls/mshtml/tests/es5.js:2338-2362 | element i of a subarray starting at `first` is element first + i of the original |
| Es5Bytes.ElementsOfSuffix | dlls/mshtml/tests/es5.js:2338-2362 | a subarray sees exactly the original's elements over its span |
| Es5Bytes.ZeroElements | dlls/mshtml/tests/es5.js:2196-2199 | a view over zero bytes holds only zeros |
| Es5Bytes.ElementCount | dlls/mshtml/tests/es5.js:2165-2173 | a byte length gives a whole element count exactly when it is a multiple of BYTES_PER_ELEMENT, and that count's bytes are the byte length |
| Es5Bytes.StoreWhole | dlls/mshtml/tests/es5.js:2476-2477 | a run as long as the array replaces all of it |
| Es5Bytes.StoreStep | dlls/mshtml/tests/es5.js:2428-2431 | writing the next value of a run extends the written prefix by one |
| Es5Bytes.Convert | dlls/mshtml/tests/es5.js:2505-2510 | converting a run of Numbers converts each one in place and keeps the count |
| Es5Bytes.AsNumbers | dlls/mshtml/tests/es5.js:2461-2482 | element values become the Numbers of the same value |
| Es5Bytes.ConvertInRange | dlls/mshtml/tests/es5.js:2505-2513 | converted values are values of the target type |
| Es5Bytes.ConvertKeeps | dlls/mshtml/tests/es5.js:2436-2444 | values already of the element type convert to themselves, so copying between arrays of one kind keeps every value |
| Es5Bytes.RelativeIndex | dlls/mshtml/tests/es5.js:2338-2362 | a relative index is clamped to [0, length] |
| Es5Bytes.Span | dlls/mshtml/tests/es5.js:2338-2362 | the span of begin..end starts and ends within the length |
| Es5Bytes.SpanSpec | dlls/mshtml/tests/es5.js:2338-2362 | the span starts at the clamped begin and ends at the clamped end, empty when the end is not past the start; an absent end means the length; in-range indices keep their meaning and negative ones count back from the length |
| Es5Bytes.SpanExamples | dlls/mshtml/tests/es5.js:2036-2053 | the subarray and slice spans checked on length 10: 4..end, 4..2, -3..100, 42..-1, 2..-3, -9..1, whole, 9..16, -9..-1 and -9..end |
| Es5Binary.LengthArgument | dlls/mshtml/tests/es5.js:1775-1786 | a finite length is accepted exactly when its truncation is non-negative and then stands for that truncation; NaN stands for 0; the infinities are rejected |
| Es5Binary.ArrayBuffer.constructor | dlls/mshtml/tests/es5.js:1783-1786 | a new buffer has the requested number of bytes, all zero |
| Es5Binary.ArrayBuffer.Slice | dlls/mshtml/tests/es5.js:2032-2056 | slice gives a new buffer holding a copy of the bytes in the clamped span, and does not share them with the original |
| Es5Binary.NewArrayBuffer | dlls/mshtml/tests/es5.js:1775-1786 | no length gives an empty buffer; a negative or infinite length is INVALID_LENGTH; otherwise a new zero-filled buffer of the truncated length |
| Es5Binary.ViewBounds | dlls/mshtml/tests/es5.js:1873-1917 | an accepted DataView lies within its buffer; a rejected one is DATAVIEW_INVALID_OFFSET |
| Es5Binary.ViewBoundsSpec | dlls/mshtml/tests/es5.js:1873-1917 | a DataView is accepted exactly when its offset lies in [0, byteLength] and a given length is non-negative and ends within the buffer; it then starts at the offset and covers the length or the rest of the buffer |
| Es5Binary.ViewBoundsExamples | dlls/mshtml/tests/es5.js:1873-1917 | the DataViews built over a 10-byte buffer and the three it rejects |
| Es5Binary.DataViewStores | dlls/mshtml/tests/es5.js:2013-2020 | setInt8(-257) stores 0xff, and setUint32(12345678, little endian) stores 4e 61 bc 00 |
| Es5Binary.DataViewReads | dlls/mshtml/tests/es5.js:2015-2022 | the getters read 255 and 65280 from bytes 00 ff in the two orders, and -11640388 big-endian from ff 4e 61 bc |
| Es5Binary.DataViewSequence | dlls/mshtml/tests/es5.js:2013-2022 | the store sequence on a zero buffer makes getUint16(0) read 255 big-endian and 65280 little-endian, and getInt32(1) read -11640388 |
| Es5Binary.DataView.constructor | dlls/mshtml/tests/es5.js:1894-1917 | a DataView keeps its buffer, offset and length |
| Es5Binary.DataView.Get | dlls/mshtml/tests/es5.js:1927-1964 | no offset is DATAVIEW_NO_ARGUMENT, an access reaching outside the view DATAVIEW_INVALID_ACCESS; otherwise the value the element's bytes hold in the requested byte order |
| Es5Binary.DataView.Set | dlls/mshtml/tests/es5.js:1966-2030 | fewer than two arguments is DATAVIEW_NO_ARGUMENT, an access outside the view DATAVIEW_INVALID_ACCESS, and a failure changes no byte; otherwise the element's bytes take the converted value, no other byte changes, and the element reads back as the converted value |
| Es5Binary.NewDataView | dlls/mshtml/tests/es5.js:1858-1917 | no buffer is DATAVIEW_NO_ARGUMENT; otherwise the view is accepted exactly as ViewBounds says, and shares the buffer |
| Es5Binary.TypedArray.constructor | dlls/mshtml/tests/es5.js:2277-2293 | a typed array keeps its kind, buffer, byte offset and length |
| Es5Binary.TypedArray.Elements | dlls/mshtml/tests/es5.js:2193-2199 | a typed array has `length` elements |
| Es5Binary.TypedArray.Get | dlls/mshtml/tests/es5.js:2196-2203 | an index within the array gives its element, a value of the element type; any other index gives undefined |
| Es5Binary.TypedArray.WriteElement | dlls/mshtml/tests/es5.js:2198-2201 | writing an in-range value over element i changes element i and no other, by storing the value's bytes at its offset |
| Es5Binary.TypedArray.WriteWithin | dlls/mshtml/tests/es5.js:2198-2201 | as WriteElement, and the bytes outside a range holding the element are unchanged |
| Es5Binary.TypedArray.Put | dlls/mshtml/tests/es5.js:2198-2203 | within the array the element becomes the converted Number and no other element changes; an index outside the array changes no byte |
| Es5Binary.TypedArray.WriteRun | dlls/mshtml/tests/es5.js:2428-2431 | writing a run of in-range values replaces the elements from `at` on, and the buffer bytes before and after the written elements are unchanged |
| Es5Binary.TypedArray.Subarray | dlls/mshtml/tests/es5.js:2331-2362 | no argument is TYPEDARRAY_INVALID_SUBARRAY; otherwise a view of the same kind on the same buffer over the clamped span, whose elements are that span of this array's elements |
| Es5Binary.TypedArray.SetFromValues | dlls/mshtml/tests/es5.js:2378-2431 | no source is TYPEDARRAY_INVALID_SOURCE, a run that does not fit from the offset TYPEDARRAY_INVALID_OFFSLEN, and a failure changes no byte; otherwise the converted run replaces the elements from the offset on and nothing else changes |
| Es5Binary.TypedArray.SetFromTyped | dlls/mshtml/tests/es5.js:2433-2441 | a source that does not fit from the offset is TYPEDARRAY_INVALID_OFFSLEN and changes nothing; otherwise the elements from the offset take the source's elements as they were before the call, even when the two share bytes |
| Es5Binary.OverlappingSet | dlls/mshtml/tests/es5.js:2476-2485 | setting an Int32Array from a subarray of the Int8Array over the same bytes gives [2, 3, 4] |
| Es5Binary.BufferView | dlls/mshtml/tests/es5.js:2113-2173 | an accepted buffer view fits its buffer; a rejected one is TYPEDARRAY_INVALID_OFFSLEN |
| Es5Binary.BufferViewSpec | dlls/mshtml/tests/es5.js:2113-2173 | a typed array over a buffer is accepted exactly when its offset is an aligned position in the buffer and its elements fit: the given length from the offset, or without one the whole rest of the buffer in whole elements |
| Es5Binary.BufferViewExamples | dlls/mshtml/tests/es5.js:2113-2173 | the buffer views built and rejected over a 34-byte buffer, and the misaligned buffer lengths |
| Es5Binary.NewTypedArray | dlls/mshtml/tests/es5.js:2104-2300 | a non-numeric, null or object argument is TYPEDARRAY_BAD_CTOR_ARG; no argument gives an empty array; a length gives that many zeros, a negative one TYPEDARRAY_INVALID_OFFSLEN; a buffer gives a view sharing it, accepted as BufferView says; an array-like or typed source gives a new buffer holding the converted values |
| Es5Binary.ZeroArray | dlls/mshtml/tests/es5.js:2193-2199 | a new array of len zero elements over a new buffer of exactly its bytes |
| MediaSource.MediaStream.constructor | dlls/winegstreamer/media_source.c:996-1025 | a new stream has no token buffer, is inactive and is not at end of stream |
| MediaSource.MediaStream.Select | dlls/winegstreamer/media_source.c:516-537 | the stream becomes active exactly when selected; its end-of-stream flag is cleared only when the start has a position; its queued tokens and buffer are untouched |
| MediaSource.MediaStream.EnqueueToken | dlls/winegstreamer/media_source.c:374-391 | a token is queued at the end, keeping the earlier tokens in order, unless the queue is full and growing it fails; a full queue grows to twice its capacity plus one; on failure the queue is unchanged; the flags never change |
| MediaSource.NonNullTokensSpec | dlls/winegstreamer/media_source.c:415-416 | releasing a queue releases exactly its non-NULL tokens, and never more tokens than the queue holds |
| MediaSource.RequestsForSpec | dlls/winegstreamer/media_source.c:398-413 | re-posting a queue makes exactly one sample request per queued token, for that stream, carrying that token, in queue order |
| MediaSource.TrueIndicesSpec | dlls/winegstreamer/media_source.c:1341-1347 | the listed indices are exactly those of the set flags, in strictly increasing order |
| MediaSource.PausedEventsSpec | dlls/winegstreamer/media_source.c:567-573 | a pause sends exactly one MEStreamPaused per active stream, in stream order, and nothing for an inactive stream |
| MediaSource.StoppedEventsSpec | dlls/winegstreamer/media_source.c:589-595 | a stop sends exactly one MEStreamStopped per active stream, in stream order, and nothing for an inactive stream |
| MediaSource.EmptyQueues | dlls/winegstreamer/media_source.c:417-423 | the result has one queue per stream, and every queue is empty, as flushing leaves them |
| MediaSource.StartEventsMembers | dlls/winegstreamer/media_source.c:516-537 | every event the start loop sends is an announcement for a selected stream below the bound, and every such announcement is sent |
| MediaSource.StartEventsSpec | dlls/winegstreamer/media_source.c:516-537 | a selected stream gets MEUpdatedStream exactly when it was active before and MENewStream otherwise; it gets MEStreamSeeked when the start seeks and MEStreamStarted otherwise; an unselected stream gets no event; no other kind of event is sent |
| MediaSource.StartPositionCases | dlls/winegstreamer/media_source.c:488-493 | a start from STOPPED always has a time position and never reports seeking; the position stays empty, so the queues are re-posted, exactly when a source that is not stopped restarts without a position; a seek keeps the caller's position |
| MediaSource.WasActive | dlls/winegstreamer/media_source.c:519 | a stream counts as previously active only when the source was not stopped and the stream was active |
| MediaSource.EosAfterStart | dlls/winegstreamer/media_source.c:522-523 | after a start, a stream is at end of stream only if it was before and the start has no position |
| MediaSource.ShutdownIsFinal | dlls/winegstreamer/media_source.c:693-742 | once shut down, the source stays shut down whatever commands run afterwards |
| MediaSource.OnlyShutdownReachesShutdown | dlls/winegstreamer/media_source.c:693-742 | no start, pause, stop or sample request moves a live source to SHUTDOWN, whatever the allocation outcomes |
| MediaSource.ReadSizeAsWrittenOverruns | dlls/winegstreamer/media_source.c:778-781 | with the 64-bit sum as written, an offset within 4 GiB of 2^64 lets a read run past the end of the file |
| MediaSource.ReadSize | dlls/winegstreamer/media_source.c:778-781 | the clamped size never exceeds the request; a read that starts inside the file ends at or before its end, and is either the full request or reaches exactly the end; a read at or past the end has size 0 |
| MediaSource.ReadSizeAgrees | dlls/winegstreamer/media_source.c:778-781 | whenever offset plus size does not wrap, the clamp as written gives the corrected size |
| MediaSource.MapGroup | dlls/winegstreamer/media_source.c:1512-1534 | each major type goes to exactly one of three groups: UNKNOWN goes last, a type below VIDEO goes first, and VIDEO and above go in the middle |
| MediaSource.GroupFromSpec | dlls/winegstreamer/media_source.c:1512-1519 | a mapping loop visits exactly the streams of its group, from the highest index down |
| MediaSource.GroupSizes | dlls/winegstreamer/media_source.c:1512-1534 | the three loops together visit every stream exactly once |
| MediaSource.StreamMapIsPermutation | dlls/winegstreamer/media_source.c:1497-1535 | the stream map is a permutation of the demuxer's streams, and the identity for anything but MP4 |
| MediaSource.StreamMapAt | dlls/winegstreamer/media_source.c:1512-1534 | each position of an MP4 stream map lies in the part written by one of the three loops, and holds a stream of that loop's group |
| MediaSource.StreamMapOrder | dlls/winegstreamer/media_source.c:1512-1534 | in an MP4 stream map, streams below VIDEO come first, then VIDEO and above, then UNKNOWN; within a group the indices decrease |
| MediaSource.MapStreamGroup | dlls/winegstreamer/media_source.c:1512-1519 | one loop appends the streams of its group, highest first, after the positions already written, and leaves those positions as they were |
| MediaSource.GroupFromGrows | dlls/winegstreamer/media_source.c:1512-1534 | widening a loop's range never loses a stream of its group |
| MediaSource.InitStreamMap | dlls/winegstreamer/media_source.c:1497-1535 | the stream map written in place is the one described above: the identity, or the three groups in order, each from the highest index down |
| MediaSource.PrefixStep | dlls/winegstreamer/media_source.c:1551-1564 | one more descriptor keeps an earlier first match of a type, and makes itself the last match when it has that type |
| MediaSource.FirstOfSpec | dlls/winegstreamer/media_source.c:1551-1564 | the first match is the lowest index with the type; no match means no index has the type |
| MediaSource.LastOfSpec | dlls/winegstreamer/media_source.c:1551-1564 | the last match is the highest index with the type; no match means no index has the type |
| MediaSource.ExclusiveUpTo | dlls/winegstreamer/media_source.c:1551-1572 | after k descriptors, a stream is flagged mutually exclusive exactly when it is below k, is AUDIO or VIDEO, and another stream below k has the same type |
| MediaSource.ExclusiveStep | dlls/winegstreamer/media_source.c:1551-1572 | descriptor k flags itself and the previous stream of its type exactly when it is AUDIO or VIDEO and has such a predecessor, and flags nothing else |
| MediaSource.LastBelow | dlls/winegstreamer/media_source.c:1548-1562 | the remembered last stream of a type lies below the current descriptor and has its type; when there is none, no earlier stream has it |
| MediaSource.TwinStep | dlls/winegstreamer/media_source.c:1551-1572 | a stream gains a same-type partner among the first k+1 streams exactly when it had one among the first k or stream k is one |
| MediaSource.WithActive | dlls/winegstreamer/media_source.c:1582-1595 | a stream is active afterwards exactly when it was already active or it is the chosen audio or video stream |
| MediaSource.ScanDescriptors | dlls/winegstreamer/media_source.c:1542-1580 | the loop leaves exactly the flags described above, and the first and last AUDIO and VIDEO streams |
| MediaSource.MediaSourceObject.ActiveFlags | dlls/winegstreamer/media_source.c:515-537 | one flag per stream, each equal to that stream's active flag |
| MediaSource.MediaSourceObject.EosFlags | dlls/winegstreamer/media_source.c:660-669 | one flag per stream, each equal to that stream's end-of-stream flag |
| MediaSource.MediaSourceObject.TokenQueues | dlls/winegstreamer/media_source.c:374-424 | one queue per stream, each equal to that stream's queued tokens |
| MediaSource.MediaSourceObject.constructor | dlls/winegstreamer/media_source.c:1681-1705 | a new source is STOPPED and has the given number of fresh streams, numbered from 1; each has an empty queue and is inactive and not at end of stream; no commands, events or released tokens exist yet |
| MediaSource.MediaSourceObject.GetCharacteristics | dlls/winegstreamer/media_source.c:1301-1318 | a shut-down source fails with MF_E_SHUTDOWN; otherwise it reports that it can seek and pause |
| MediaSource.MediaSourceObject.GetMediaSource | dlls/winegstreamer/media_source.c:902-946 | both calls succeed exactly while the source is not shut down, and otherwise fail with MF_E_SHUTDOWN |
| MediaSource.MediaSourceObject.CreatePresentationDescriptor | dlls/winegstreamer/media_source.c:1320-1355 | fails with MF_E_SHUTDOWN after shutdown and with E_OUTOFMEMORY when allocation fails; otherwise it selects exactly the active streams, in increasing order |
| MediaSource.MediaSourceObject.Start | dlls/winegstreamer/media_source.c:1357-1386 | errors come in this order: shutdown, a time format other than GUID_NULL, allocation; only on success is a start command with the caller's selection and position posted; nothing else changes |
| MediaSource.MediaSourceObject.Stop | dlls/winegstreamer/media_source.c:1388-1409 | fails after shutdown or when allocation fails; otherwise posts a stop command; nothing else changes |
| MediaSource.MediaSourceObject.Pause | dlls/winegstreamer/media_source.c:1411-1434 | always returns S_OK; posts a pause command only while running and when allocation succeeds; nothing else changes |
| MediaSource.MediaSourceObject.Shutdown | dlls/winegstreamer/media_source.c:1436-1478 | the first call succeeds and every later call fails with MF_E_SHUTDOWN; either way the source is shut down afterwards, and no command, event or released token is added |
| MediaSource.MediaSourceObject.RequestSample | dlls/winegstreamer/media_source.c:948-980 | errors come in this order: shutdown, an inactive stream, end of stream, allocation; only on success is a request carrying the token posted for that stream |
| MediaSource.MediaSourceObject.FlushTokenQueue | dlls/winegstreamer/media_source.c:393-424 | when sending, every queued token is re-posted in order as a sample request; otherwise every non-NULL token is released in order; either way the queue is freed and the flags are kept |
| MediaSource.MediaSourceObject.FlushNext | dlls/winegstreamer/media_source.c:550-551 | flushing one more stream keeps the per-stream flushing state for all streams up to it |
| MediaSource.MediaSourceObject.FlushFrom | dlls/winegstreamer/media_source.c:550-551 | flushing the remaining streams brings that state to every stream |
| MediaSource.MediaSourceObject.FlushAll | dlls/winegstreamer/media_source.c:550-551 | every stream's queue is emptied and freed with its flags kept; the requests are re-posted, or the non-NULL tokens released, stream after stream |
| MediaSource.MediaSourceObject.ExecutePause | dlls/winegstreamer/media_source.c:557-577 | a shut-down source fails with MF_E_SHUTDOWN and is unchanged; otherwise it is PAUSED, having sent MEStreamPaused for each active stream and then MESourcePaused; the queues are kept |
| MediaSource.MediaSourceObject.QueueStoppedEvents | dlls/winegstreamer/media_source.c:589-595 | one MEStreamStopped is sent per active stream, in stream order, and nothing else changes |
| MediaSource.MediaSourceObject.RunStop | dlls/winegstreamer/media_source.c:589-602 | the source is STOPPED and has sent the stream events and then MESourceStopped; every queue is emptied with its non-NULL tokens released; the stream flags are kept |
| MediaSource.MediaSourceObject.ExecuteStop | dlls/winegstreamer/media_source.c:579-603 | a shut-down source fails with MF_E_SHUTDOWN and is unchanged; otherwise it is STOPPED, having sent MEStreamStopped for each active stream and then MESourceStopped; every queued non-NULL token is released; the queues end empty and no request is re-posted; the active and end-of-stream flags are kept |
| MediaSource.MediaSourceObject.StartNext | dlls/winegstreamer/media_source.c:516-537 | one more stream is selected or deselected and announced, and the rest are untouched |
| MediaSource.MediaSourceObject.StartFrom | dlls/winegstreamer/media_source.c:516-537 | every remaining stream is selected or deselected and announced, in stream order |
| MediaSource.MediaSourceObject.StartStreams | dlls/winegstreamer/media_source.c:516-537 | the active flags become the selection and the end-of-stream flags follow EosAfterStart; the queues are kept; the events are exactly the start announcements |
| MediaSource.MediaSourceObject.RunStart | dlls/winegstreamer/media_source.c:515-554 | the source is RUNNING; the streams are selected and announced; the queues are re-posted when there is no position, and their tokens released otherwise; last, MESourceSeeked or MESourceStarted is sent |
| MediaSource.MediaSourceObject.ExecuteStart | dlls/winegstreamer/media_source.c:450-555 | a shut-down source fails with MF_E_SHUTDOWN and a failed allocation with E_OUTOFMEMORY, both with nothing changed; otherwise the source is RUNNING, the active streams are exactly the selected ones, and end-of-stream flags are cleared when there is a position; the events are the start announcements (updated or new, seeked or started) and then MESourceSeeked or MESourceStarted; the queued tokens are re-posted when there is no position (never from STOPPED) and released otherwise |
| MediaSource.MediaSourceObject.SendEos | dlls/winegstreamer/media_source.c:652-674 | the stream reaches end of stream and sends MEEndOfStream; MEEndOfPresentation follows exactly when every active stream has reached its end |
| MediaSource.MediaSourceObject.StoreToken | dlls/winegstreamer/media_source.c:727-728 | the token is added to the end of that stream's queue exactly when there was room or the queue could grow; every other stream is unchanged |
| MediaSource.MediaSourceObject.ExecuteRequestSample | dlls/winegstreamer/media_source.c:726-734 | while PAUSED the token is queued (when the queue can take it) and no event is sent; while RUNNING, a buffer is sent as a sample carrying the token, and without a buffer the stream ends, adding MEEndOfPresentation when every active stream has ended; in any other state nothing changes |
| MediaSource.MediaSourceObject.Invoke | dlls/winegstreamer/media_source.c:693-742 | the new state is NextState of the old state and the command; a shut-down source is never changed; events, posted commands and released tokens are only ever added to |
| MediaSource.MediaSourceObject.ProcessNext | dlls/winegstreamer/media_source.c:693-742 | the oldest posted command is taken off the queue and run, and the state follows NextState |
| MediaSource.MediaSourceObject.InitDescriptors | dlls/winegstreamer/media_source.c:1537-1596 | AUDIO and VIDEO descriptors that share their type with another are flagged mutually exclusive; the last AUDIO and VIDEO streams (for MP4) or the first ones (otherwise) become active; the other flags and the queues are unchanged |
| MediaSource.MediaSourceObject.ActivateStreams | dlls/winegstreamer/media_source.c:1582-1595 | the chosen audio and video streams, when there are any, become active, and nothing else changes |
| MediaSource.MediaSourceObject.Activate | dlls/winegstreamer/media_source.c:1585-1594 | only the given stream's active flag is set, and nothing else changes |

## Left out

- Floating point: Float32Array, Float64Array, the float getters and setters of DataView, IEEE-754 rounding, -0, and SameValue on NaN and -0. Finite numbers are exact reals, and a value comparison in `defineProperty` is plain equality of values.
- ToNumber of strings and objects: numeric arguments of the ECMAScript modules are already `Number` values. A missing argument is an `Option` parameter.
- The receiver checks of the view methods (a DataView method called on a typed array, a typed-array method called on a DataView, an ArrayBuffer expected): the model's receivers always have the right class.
- Typed arrays as objects: their `defineProperty`, `freeze` and `toString` behaviour, and byte orders other than little-endian for typed-array elements.
- Es5Descriptors.DefineProperty: an accessor descriptor that also has `value` is rejected with PROP_DESC_MISMATCH, as the tests expect. The tests mark that error number as not yet matched by the engine (`todo_wine_if`, `dlls/mshtml/tests/es5.js:623`). The model states the expected error, not the engine's current one.
- Es5Bytes.WrapSpec: states the wrap of an element write as a congruence modulo 2^bits plus the range of the result, rather than through a bit-level truncation.
- Prototype chains: a dynamic property's prototype reference is resolved one level deep. The engine's answer for the prototype's property is a parameter.
- Dispex.PropFlags: PROPF_PROXY_ACCESSOR is taken to be 0x2000. That flag is defined outside these sources.
- WideStrings: `wcsicmp` folds ASCII letters only; full Unicode case folding is not modelled.
- Type libraries, ITypeInfo, invoking builtin functions, VARIANT conversion, reference counting and cycle collection in mshtml.
- D3dx9Helpers.MakePow2Bounds: `make_pow2(0)` evaluates `1u << 32`, which is undefined in C. The model states the result only for 1 to 2^31.
- D3dx9Helpers.GetInt: covers only the integer and boolean paths, as do GetBool and SetNumber. The float paths (`get_float` and the float cases of `set_number`) are not modelled.
- D3dx11TestHelpers.DxgiFormat: the constructors are not in DXGI_FORMAT enumerator order. Only the identity of each format matters to the tables.
- D3dx11Layout.InitBufferColor: writes each pixel as four little-endian bytes into a byte array instead of as a 32-bit store.
- The D3D11 device work of the d3dx11 tests: texture creation, loading, readback, and the thread pump.
- Allocation failures (malloc, realloc, calloc and the creation of async operations, actions and threads) are boolean parameters of the operations that meet them. Header constants defined outside these sources are named constants.
- Dispex.DynamicData: the object's dynamic data is taken as already allocated. The lazy allocation in `get_dynamic_data` (dlls/mshtml/dispex.c:771-784) is not modelled. Its calloc failure, which makes get_dynamic_prop return E_OUTOFMEMORY before any lookup, is not a parameter. Its `populate_props` hook, which can add entries before the first lookup, is not modelled either. The constructor starts with an empty table, and every other operation takes the table as it finds it.
- Size arithmetic on unbounded integers: these members compute sizes the C code holds in 32-bit UINTs or DWORDs, and none wraps them:
  - D3dx11Layout.RoundUpToBlock: `(w + 3) & ~3`, at dlls/d3dx11_43/tests/d3dx11.c:1992-1993;
  - D3dx11Layout.RowBytes: `(tmp_width * bpp + 7) / 8`, at line 5344;
  - D3dx11Layout.LevelStep: `SysMemPitch * tmp_height`, at line 5345;
  - D3dx11Layout.InitBufferColor: `total_pixels * 4`, at lines 5359-5364;
  - D3dx11TestHelpers.ExpectedMipLevels: the sizes it rounds;
  - MshtmlHelpers.StrnDupW: `len + 1`, at dlls/mshtml/mshtml_private.h:1641. In C, a len of 0xffffffff wraps this to 0 and makes a zero-size allocation;
  - SpeechRecognizer.AccumulatePackets: `frames * blockAlign`, at dlls/windows.media.speech/recognizer.c:914 and 958.
  For the test sizes and the audio packets involved, which are far below 2^32, the results agree with the C code.
- The speech recognizer:
  - the Unix-side recognition calls;
  - audio-client I/O;
  - the `remove_*` handler calls;
  - `CancelAsync`;
  - the async action objects;
  - the worker thread itself. Its packet-accumulation step is modelled over a packet size supplied as a parameter.
- The media source:
  - the lazy creation of the demuxer in `media_source_start` (lines 464-486) and its failures;
  - MF_E_INVALIDSTREAMNUMBER from `media_stream_get_wg_parser_stream` (lines 361-372), which the stream start paths return at lines 435-436 and 525-527. The model's streams always have a demuxer stream;
  - seeking the demuxer;
  - the read thread's I/O and concurrency. Only its read-size clamp is modelled;
  - sending samples, which depends on the demuxer's buffers, given as a parameter;
  - stream release and event-queue shutdown in `Shutdown`;
  - descriptor language and name tags;
  - the allocation paths of `media_source_create`;
  - failures of event queueing and of posting work items. The source only logs these;
  - IMFRateSupport and SetRate, which use float rates.
- MediaSource.MediaSourceObject.Invoke: states the state transition, that logs only grow, and that a shut-down source is untouched. The detailed effects of each command are stated by ExecuteStart, ExecutePause, ExecuteStop and ExecuteRequestSample.
- The wow64 backend:
  - the FPU and extended-state areas, which the context copy does not write;
  - `BTCpuSetContext` and the syscall thunks written in assembly;
  - `NtProtectVirtualMemory` and `RtlCaptureContext`. Their effects are inputs to the model.
- The object manager, handles and wake-ups of the wineserver. Only the completion queue and its wait predicate are modelled.

## Findings

| source | as written | input that shows it | evidently intended | confidence | as-written member | corrected member |
|---|---|---|---|---|---|---|
| dlls/winegstreamer/media_source.c:778-781 | `offset + size >= file_size` is computed in 64 bits and can wrap | offset = 2^64 - 2, size = 4, file_size = 2^64 - 1: the sum wraps to 2, the clamp is skipped, and the read ends 3 bytes past the file | a read that starts inside the file never ends past it | low, not executed: files this large do not occur in practice | MediaSource.ReadSizeAsWrittenOverruns | MediaSource.ReadSize |
| dlls/mshtml/dispex.c:577-580 | `dispid_cmp` returns the difference of two DISPIDs, which can overflow `int` | 0x100000 against -0x7ffee888: the difference wraps negative, so the larger DISPID sorts first | the sign of the comparison of the two DISPIDs | low, not executed: a wrong sort needs a positive DISPID above 0x11777 and a DISPID as low as -0x7ffee888 (near INT_MIN) in the same table, and it is not established that such a pair occurs | Dispex.DispidCmpAsWrittenMisorders | Dispex.DispidCmpSpec |
