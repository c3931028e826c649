/**
 * The x86-on-x64 CPU backend (dlls/wow64cpu/cpu.c): converting a 64-bit
 * thread context that was captured while running 32-bit code into the 32-bit
 * context record, resetting a faulting thread to a consistent state, the
 * turbo-thunk switch and the far-jump thunk that enters 64-bit mode.
 */
module Wow64Cpu {
  import opened Words
  import opened Wrappers

  /** Context flag values from the i386 context headers. */
  const CONTEXT_i386: bv32 := 0x10000
  const CONTEXT_I386_CONTROL: bv32 := 0x10001
  const CONTEXT_I386_INTEGER: bv32 := 0x10002
  const CONTEXT_I386_SEGMENTS: bv32 := 0x10004
  const CONTEXT_I386_FLOATING_POINT: bv32 := 0x10008
  const CONTEXT_I386_DEBUG_REGISTERS: bv32 := 0x10010
  const CONTEXT_I386_EXTENDED_REGISTERS: bv32 := 0x10020
  const CONTEXT_I386_ALL: bv32 := 0x1003f

  /** The trap flag (0x100) and the alignment-check flag (0x40000) of EFLAGS. */
  const EFLAGS_TRAP_AND_ALIGN: bv32 := 0x40100

  const STATUS_SUCCESS: u32 := 0
  const STATUS_NOT_SUPPORTED: u32 := 0xC00000BB
  const STATUS_INVALID_ADDRESS: u32 := 0xC0000141

  /** The registers of AMD64_CONTEXT that the conversion reads or the reset rewrites. */
  datatype Amd64Context = Amd64Context(
    rax: u64, rbx: u64, rcx: u64, rdx: u64, rsi: u64, rdi: u64,
    rsp: u64, rbp: u64, rip: u64, r14: u64,
    eflags: bv32, segCs: u16,
    dr0: u64, dr1: u64, dr2: u64, dr3: u64, dr6: u64, dr7: u64)

  /**
   * I386_CONTEXT, with its registers grouped the way the CONTEXT_I386_* flags
   * select them; `floatSave` stands for the floating-point and extended
   * areas, which the conversion never writes.
   */
  datatype I386Context = I386Context(
    contextFlags: bv32,
    integer: IntegerRegs,
    control: ControlRegs,
    segments: SegmentRegs,
    debug: DebugRegs,
    floatSave: seq<u8>)

  datatype IntegerRegs = IntegerRegs(eax: u32, ebx: u32, ecx: u32, edx: u32, esi: u32, edi: u32)
  datatype ControlRegs = ControlRegs(esp: u32, ebp: u32, eip: u32, eflags: bv32, segCs: u32, segSs: u32)
  datatype SegmentRegs = SegmentRegs(segDs: u32, segEs: u32, segFs: u32, segGs: u32)
  datatype DebugRegs = DebugRegs(dr0: u32, dr1: u32, dr2: u32, dr3: u32, dr6: u32, dr7: u32)

  /** The selectors captured once at process initialisation (cs64_sel, ds64_sel, fs32_sel). */
  datatype Selectors = Selectors(cs64: u16, ds64: u16, fs32: u16)

  /** Assigning a 64-bit register to a DWORD keeps its low 32 bits. */
  function Low32(x: u64): u32
  {
    x % DWORD_RANGE
  }

  /** Whether the group bit of `group` is requested in `flags` once the CONTEXT_i386 bit is masked off. */
  predicate Requested(flags: bv32, group: bv32)
  {
    (flags & !CONTEXT_i386) & group != 0
  }

  /** The integer group as read from the 64-bit registers. */
  function IntegerFrom(ctx64: Amd64Context): IntegerRegs
  {
    IntegerRegs(Low32(ctx64.rax), Low32(ctx64.rbx), Low32(ctx64.rcx), Low32(ctx64.rdx), Low32(ctx64.rsi), Low32(ctx64.rdi))
  }

  /** The control group: the stack selector is always the flat 64-bit data selector. */
  function ControlFrom(ctx64: Amd64Context, sel: Selectors): ControlRegs
  {
    ControlRegs(Low32(ctx64.rsp), Low32(ctx64.rbp), Low32(ctx64.rip), ctx64.eflags, ctx64.segCs, sel.ds64)
  }

  /** The segment group: DS, ES and GS are the flat data selector, FS the 32-bit TEB selector. */
  function SegmentsFrom(sel: Selectors): SegmentRegs
  {
    SegmentRegs(sel.ds64, sel.ds64, sel.fs32, sel.ds64)
  }

  /** The debug group: the low halves of DR0-DR3, DR6 and DR7. */
  function DebugFrom(ctx64: Amd64Context): DebugRegs
  {
    DebugRegs(Low32(ctx64.dr0), Low32(ctx64.dr1), Low32(ctx64.dr2), Low32(ctx64.dr3), Low32(ctx64.dr6), Low32(ctx64.dr7))
  }

  /**
   * copy_context_64to32: writes ContextFlags, then each requested group;
   * everything else of `ctx32` is left as it was.
   */
  method CopyContext64To32(ctx32: I386Context, flags: bv32, ctx64: Amd64Context, sel: Selectors)
    returns (r: I386Context)
    ensures r.contextFlags == flags
    ensures r.integer == if Requested(flags, CONTEXT_I386_INTEGER) then IntegerFrom(ctx64) else ctx32.integer
    ensures r.control == if Requested(flags, CONTEXT_I386_CONTROL) then ControlFrom(ctx64, sel) else ctx32.control
    ensures r.segments == if Requested(flags, CONTEXT_I386_SEGMENTS) then SegmentsFrom(sel) else ctx32.segments
    ensures r.debug == if Requested(flags, CONTEXT_I386_DEBUG_REGISTERS) then DebugFrom(ctx64) else ctx32.debug
    ensures r.floatSave == ctx32.floatSave
  {
    r := ctx32.(contextFlags := flags);
    if Requested(flags, CONTEXT_I386_INTEGER) {
      r := r.(integer := IntegerFrom(ctx64));
    }
    if Requested(flags, CONTEXT_I386_CONTROL) {
      r := r.(control := ControlFrom(ctx64, sel));
    }
    if Requested(flags, CONTEXT_I386_SEGMENTS) {
      r := r.(segments := SegmentsFrom(sel));
    }
    if Requested(flags, CONTEXT_I386_DEBUG_REGISTERS) {
      r := r.(debug := DebugFrom(ctx64));
    }
  }

  /**
   * The CONTEXT_i386 marker bit alone requests no group, each group flag
   * requests its own group and no other, the floating-point and extended
   * flags request none of the four copied groups, and CONTEXT_I386_ALL
   * requests all four.
   */
  lemma GroupFlagsAreIndependent()
    ensures !Requested(CONTEXT_i386, CONTEXT_I386_INTEGER) && !Requested(CONTEXT_i386, CONTEXT_I386_CONTROL)
    ensures !Requested(CONTEXT_i386, CONTEXT_I386_SEGMENTS) && !Requested(CONTEXT_i386, CONTEXT_I386_DEBUG_REGISTERS)
    ensures Requested(CONTEXT_I386_INTEGER, CONTEXT_I386_INTEGER) && !Requested(CONTEXT_I386_INTEGER, CONTEXT_I386_CONTROL)
    ensures !Requested(CONTEXT_I386_INTEGER, CONTEXT_I386_SEGMENTS) && !Requested(CONTEXT_I386_INTEGER, CONTEXT_I386_DEBUG_REGISTERS)
    ensures Requested(CONTEXT_I386_CONTROL, CONTEXT_I386_CONTROL) && !Requested(CONTEXT_I386_CONTROL, CONTEXT_I386_SEGMENTS)
    ensures Requested(CONTEXT_I386_SEGMENTS, CONTEXT_I386_SEGMENTS) && !Requested(CONTEXT_I386_SEGMENTS, CONTEXT_I386_DEBUG_REGISTERS)
    ensures Requested(CONTEXT_I386_DEBUG_REGISTERS, CONTEXT_I386_DEBUG_REGISTERS)
    ensures !Requested(CONTEXT_I386_FLOATING_POINT, CONTEXT_I386_INTEGER) && !Requested(CONTEXT_I386_EXTENDED_REGISTERS, CONTEXT_I386_CONTROL)
    ensures Requested(CONTEXT_I386_ALL, CONTEXT_I386_INTEGER) && Requested(CONTEXT_I386_ALL, CONTEXT_I386_CONTROL)
    ensures Requested(CONTEXT_I386_ALL, CONTEXT_I386_SEGMENTS) && Requested(CONTEXT_I386_ALL, CONTEXT_I386_DEBUG_REGISTERS)
  {
  }

  /** `EFlags &= ~(0x100|0x40000)`. */
  function ClearTrapAndAlign(eflags: bv32): bv32
  {
    eflags & !EFLAGS_TRAP_AND_ALIGN
  }

  /** The reset clears the trap and alignment-check flags and keeps every other EFLAGS bit. */
  lemma ClearTrapAndAlignIsExact(eflags: bv32)
    ensures ClearTrapAndAlign(eflags) & EFLAGS_TRAP_AND_ALIGN == 0
    ensures ClearTrapAndAlign(eflags) | (eflags & EFLAGS_TRAP_AND_ALIGN) == eflags
  {
  }

  /**
   * BTCpuResetToConsistentState: the 32-bit context handed to the thread is a
   * full copy with the trap and alignment-check flags cleared, and the 64-bit
   * context is rewritten so that it resumes in the 64-bit syscall thunk with
   * the stack pointer taken from R14.  `wow` is the uninitialised local record
   * and `syscallThunk` the address of syscall_32to64.
   */
  method ResetToConsistentState(context: Amd64Context, wow: I386Context, sel: Selectors, syscallThunk: u64)
    returns (status: u32, wowContext: I386Context, newContext: Amd64Context)
    ensures status == STATUS_SUCCESS
    ensures wowContext.contextFlags == CONTEXT_I386_ALL
    ensures wowContext.integer == IntegerFrom(context) && wowContext.debug == DebugFrom(context)
    ensures wowContext.control == ControlFrom(context, sel).(eflags := ClearTrapAndAlign(context.eflags))
    ensures wowContext.segments == SegmentsFrom(sel)
    ensures wowContext.floatSave == wow.floatSave
    ensures newContext == context.(rip := syscallThunk, segCs := sel.cs64, rsp := context.r14)
  {
    GroupFlagsAreIndependent();
    wowContext := CopyContext64To32(wow, CONTEXT_I386_ALL, context, sel);
    wowContext := wowContext.(control := wowContext.control.(eflags := ClearTrapAndAlign(wowContext.control.eflags)));
    newContext := context.(rip := syscallThunk);
    newContext := newContext.(segCs := sel.cs64);
    newContext := newContext.(rsp := newContext.r14);
    status := STATUS_SUCCESS;
  }

  /** BTCpuTurboThunkControl: turbo thunks are not implemented. */
  function TurboThunkControl(enable: u32): (status: u32)
    ensures status == STATUS_NOT_SUPPORTED <==> enable != 0
    ensures status == STATUS_SUCCESS <==> enable == 0
  {
    if enable != 0 then STATUS_NOT_SUPPORTED else STATUS_SUCCESS
  }

  /** The packed `struct thunk_32to64`: one opcode byte, a DWORD target, a WORD selector. */
  datatype Thunk = Thunk(ljmp: u8, addr: u32, cs: u16)

  /**
   * BTCpuProcessInit: a syscall_32to64 above 4G cannot be reached by the far
   * jump, so initialisation is refused; otherwise the thunk is a `ljmp` to
   * its address through the 64-bit code selector `sel.cs64` captured from the
   * current context.
   */
  function ProcessInit(syscallAddr: u64, sel: Selectors): (r: (u32, Option<Thunk>))
    ensures r.0 == STATUS_INVALID_ADDRESS <==> syscallAddr >= DWORD_RANGE
    ensures r.0 == STATUS_SUCCESS <==> syscallAddr < DWORD_RANGE
    ensures r.1.Some? <==> r.0 == STATUS_SUCCESS
    ensures r.1.Some? ==> var b := ThunkBytes(r.1.value);
      b[0] == 0xea && ParseThunk(b).addr == syscallAddr && ParseThunk(b).cs == sel.cs64
  {
    if syscallAddr >= DWORD_RANGE then (STATUS_INVALID_ADDRESS, None)
    else
      var t := Thunk(0xea, syscallAddr, sel.cs64);
      ThunkLayoutRoundTrip(t);
      (STATUS_SUCCESS, Some(t))
  }

  /** The in-memory image of the packed structure (pshpack1, little endian). */
  function ThunkBytes(t: Thunk): (b: seq<u8>)
    ensures |b| == 7
  {
    [t.ljmp,
     t.addr % 0x100, (t.addr / 0x100) % 0x100, (t.addr / 0x1_0000) % 0x100, t.addr / 0x100_0000,
     t.cs % 0x100, t.cs / 0x100]
  }

  /** Reading the seven bytes back as the packed structure. */
  function ParseThunk(b: seq<u8>): Thunk
    requires |b| == 7
  {
    Thunk(b[0], b[1] as int + b[2] as int * 0x100 + b[3] as int * 0x1_0000 + b[4] as int * 0x100_0000,
          b[5] as int + b[6] as int * 0x100)
  }

  /** The byte image determines the thunk: a far jump opcode, then the target, then the selector. */
  lemma ThunkLayoutRoundTrip(t: Thunk)
    ensures ParseThunk(ThunkBytes(t)) == t
  {
    var a: int := t.addr;
    var a1, a2, a3 := a / 0x100, a / 0x1_0000, a / 0x100_0000;
    assert a1 / 0x100 == a2;
    assert a2 / 0x100 == a3;
    assert a == a % 0x100 + a1 * 0x100;
    assert a1 == a1 % 0x100 + a2 * 0x100;
    assert a2 == a2 % 0x100 + a3 * 0x100;
    var c: int := t.cs;
    assert c == c % 0x100 + (c / 0x100) * 0x100;
  }
}
