/**
 * The continuous speech-recognition session of windows.media.speech
 * (dlls/windows.media.speech/recognizer.c): the Start/Stop/Pause/Resume
 * guards on the worker flags and the recognizer state, the state getter and
 * handler registration NULL checks, the case-insensitive lookup of a
 * recognised phrase among the list constraints, the bounded accumulation of
 * captured audio packets in the worker, and the capture format.
 */
module SpeechRecognizer {
  import opened Words
  import opened Wrappers
  import opened WideStrings

  /** HRESULTs of the session, by name (values from winerror.h and corerror.h). */
  datatype HResult =
    | S_OK
    | E_POINTER
    | E_INVALIDARG
    | E_OUTOFMEMORY
    | COR_E_INVALIDOPERATION
    | COR_E_KEYNOTFOUND
    /** HRESULT_FROM_WIN32 of a thread-creation error code. */
    | FromWin32(code: nat)

  /** SpeechRecognizerState (windows.media.speechrecognition.idl); Idle is the zero value. */
  datatype RecognizerState =
    | Idle | Capturing | Processing | SoundStarted | SoundEnded | SpeechDetected | Paused

  /** A registered event handler, or NULL. */
  datatype HandlerRef = NullHandler | Handler(id: nat)

  /** An element of the constraints vector: a list constraint with its commands, or any other kind. */
  datatype Constraint = ListConstraint(commands: seq<string>) | OtherConstraint

  /** Where a phrase was found: the constraint's index and the command's index in its list. */
  datatype Match = Match(constraint: nat, index: nat)

  /** The state the session reports for the given worker flags. */
  function StateOf(running: bool, paused: bool): RecognizerState
  {
    if !running then Idle else if paused then Paused else Capturing
  }

  /** struct session: the worker flags, the reported state, the handler lists and the constraints. */
  class Session {
    var recognizerState: RecognizerState
    var workerRunning: bool
    var workerPaused: bool
    /** worker_thread is not NULL. */
    var hasWorkerThread: bool
    var completedHandlers: seq<nat>
    var resultHandlers: seq<nat>
    var constraints: seq<Constraint>

    /**
     * A running worker has a thread and a stopped one has none, only a running
     * worker can be paused, and the reported state follows the two flags.
     */
    predicate Valid()
      reads this
    {
      (workerPaused ==> workerRunning)
      && hasWorkerThread == workerRunning
      && recognizerState == StateOf(workerRunning, workerPaused)
    }

    /** A zero-filled session: idle, no worker, no handlers, no constraints. */
    constructor ()
      ensures Valid()
      ensures recognizerState == Idle && !workerRunning && !workerPaused && !hasWorkerThread
      ensures completedHandlers == [] && resultHandlers == [] && constraints == []
    {
      recognizerState := Idle;
      workerRunning := false;
      workerPaused := false;
      hasWorkerThread := false;
      completedHandlers := [];
      resultHandlers := [];
      constraints := [];
    }

    /**
     * session_StartAsync. `actionOk` is whether the async action could be
     * created, `threadOk` whether CreateThread succeeded and `lastError` its
     * error code otherwise; `action` is whether an action is handed back.
     */
    method StartAsync(actionOk: bool, threadOk: bool, lastError: nat) returns (hr: HResult, action: bool)
      requires Valid()
      modifies this
      ensures Valid()
      ensures action <==> hr == S_OK
      ensures !actionOk ==> hr == E_OUTOFMEMORY && unchanged(this)
      ensures actionOk && old(workerRunning || hasWorkerThread) ==> hr == COR_E_INVALIDOPERATION && unchanged(this)
      ensures actionOk && !old(workerRunning || hasWorkerThread) && !threadOk ==>
        hr == FromWin32(lastError) && unchanged(this)
      ensures actionOk && !old(workerRunning || hasWorkerThread) && threadOk ==>
        hr == S_OK && workerRunning && hasWorkerThread && !workerPaused && recognizerState == Capturing
      ensures completedHandlers == old(completedHandlers) && resultHandlers == old(resultHandlers)
      ensures constraints == old(constraints)
    {
      if !actionOk {
        return E_OUTOFMEMORY, false;
      }
      if workerRunning || hasWorkerThread {
        hr := COR_E_INVALIDOPERATION;
      } else if !threadOk {
        hr := FromWin32(lastError);
        workerRunning := false;
      } else {
        hasWorkerThread := true;
        workerRunning := true;
        recognizerState := Capturing;
        hr := S_OK;
      }
      action := hr == S_OK;
    }

    /**
     * session_StopAsync: only a running worker with a thread is stopped; the
     * call then waits for the thread to exit, so it returns with no thread.
     */
    method StopAsync(actionOk: bool) returns (hr: HResult, action: bool)
      requires Valid()
      modifies this
      ensures Valid()
      ensures action <==> hr == S_OK
      ensures !actionOk ==> hr == E_OUTOFMEMORY && unchanged(this)
      ensures actionOk && !(old(workerRunning) && old(hasWorkerThread)) ==>
        hr == COR_E_INVALIDOPERATION && unchanged(this)
      ensures actionOk && old(workerRunning) && old(hasWorkerThread) ==>
        hr == S_OK && !workerRunning && !workerPaused && !hasWorkerThread && recognizerState == Idle
      ensures completedHandlers == old(completedHandlers) && resultHandlers == old(resultHandlers)
      ensures constraints == old(constraints)
    {
      if !actionOk {
        return E_OUTOFMEMORY, false;
      }
      hr := S_OK;
      if workerRunning && hasWorkerThread {
        workerRunning := false;
        workerPaused := false;
        recognizerState := Idle;
      } else {
        hr := COR_E_INVALIDOPERATION;
      }
      if hr == S_OK {
        // The worker has been joined; worker_thread goes back to NULL.
        hasWorkerThread := false;
      }
      action := hr == S_OK;
    }

    /** session_PauseAsync: pauses a running worker; succeeds whenever the action exists. */
    method PauseAsync(actionOk: bool) returns (hr: HResult, action: bool)
      requires Valid()
      modifies this
      ensures Valid()
      ensures action <==> hr == S_OK
      ensures hr == (if actionOk then S_OK else E_OUTOFMEMORY)
      ensures actionOk && old(workerRunning) ==> workerPaused && recognizerState == Paused
      ensures !actionOk || !old(workerRunning) ==> unchanged(this)
      ensures workerRunning == old(workerRunning) && hasWorkerThread == old(hasWorkerThread)
      ensures completedHandlers == old(completedHandlers) && resultHandlers == old(resultHandlers)
      ensures constraints == old(constraints)
    {
      action := false;
      if !actionOk {
        return E_OUTOFMEMORY, action;
      }
      action := true;
      if workerRunning {
        workerPaused := true;
        recognizerState := Paused;
      }
      hr := S_OK;
    }

    /** session_Resume: resumes a running worker; always succeeds. */
    method Resume() returns (hr: HResult)
      requires Valid()
      modifies this
      ensures Valid()
      ensures hr == S_OK
      ensures old(workerRunning) ==> !workerPaused && recognizerState == Capturing
      ensures !old(workerRunning) ==> unchanged(this)
      ensures workerRunning == old(workerRunning) && hasWorkerThread == old(hasWorkerThread)
      ensures completedHandlers == old(completedHandlers) && resultHandlers == old(resultHandlers)
      ensures constraints == old(constraints)
    {
      if workerRunning {
        workerPaused := false;
        recognizerState := Capturing;
      }
      hr := S_OK;
    }

    /**
     * recognizer2_get_State on the recognizer's session: `outNull` is whether
     * the out pointer is NULL; `st` is what is stored through it.
     */
    method GetState(outNull: bool) returns (hr: HResult, st: RecognizerState)
      requires Valid()
      ensures hr == E_POINTER <==> outNull
      ensures hr == S_OK <==> !outNull
      ensures !outNull ==> st == recognizerState && st == StateOf(workerRunning, workerPaused)
    {
      if outNull {
        return E_POINTER, Idle;
      }
      hr, st := S_OK, recognizerState;
    }

    /**
     * session_add_Completed. The handler list helper appends, or fails with
     * E_OUTOFMEMORY when `appendOk` is false.
     */
    method AddCompleted(handler: HandlerRef, appendOk: bool) returns (hr: HResult)
      modifies this
      ensures handler.NullHandler? ==> hr == E_INVALIDARG
      ensures handler.Handler? && appendOk ==> hr == S_OK
      ensures handler.Handler? && !appendOk ==> hr == E_OUTOFMEMORY
      ensures completedHandlers == if hr == S_OK then old(completedHandlers) + [handler.id] else old(completedHandlers)
      ensures recognizerState == old(recognizerState) && workerRunning == old(workerRunning)
      ensures workerPaused == old(workerPaused) && hasWorkerThread == old(hasWorkerThread)
      ensures resultHandlers == old(resultHandlers) && constraints == old(constraints)
    {
      if handler.NullHandler? {
        return E_INVALIDARG;
      }
      if !appendOk {
        return E_OUTOFMEMORY;
      }
      completedHandlers := completedHandlers + [handler.id];
      hr := S_OK;
    }

    /** session_add_ResultGenerated: as AddCompleted, on the result handler list. */
    method AddResultGenerated(handler: HandlerRef, appendOk: bool) returns (hr: HResult)
      modifies this
      ensures handler.NullHandler? ==> hr == E_INVALIDARG
      ensures handler.Handler? && appendOk ==> hr == S_OK
      ensures handler.Handler? && !appendOk ==> hr == E_OUTOFMEMORY
      ensures resultHandlers == if hr == S_OK then old(resultHandlers) + [handler.id] else old(resultHandlers)
      ensures recognizerState == old(recognizerState) && workerRunning == old(workerRunning)
      ensures workerPaused == old(workerPaused) && hasWorkerThread == old(hasWorkerThread)
      ensures completedHandlers == old(completedHandlers) && constraints == old(constraints)
    {
      if handler.NullHandler? {
        return E_INVALIDARG;
      }
      if !appendOk {
        return E_OUTOFMEMORY;
      }
      resultHandlers := resultHandlers + [handler.id];
      hr := S_OK;
    }

    /**
     * session_find_constraint_by_string: walks the constraints and, inside
     * each list constraint, its commands, stopping at the first command equal
     * to `str` up to case. `m` locates it and `command` is the stored command
     * (the duplicated HSTRING); without one the result is COR_E_KEYNOTFOUND.
     */
    method FindConstraintByString(str: string) returns (hr: HResult, m: Option<Match>, command: string)
      ensures m == FirstMatch(constraints, str)
      ensures hr == (if m.Some? then S_OK else COR_E_KEYNOTFOUND)
      ensures m.Some? ==>
        && m.value.constraint < |constraints|
        && m.value.index < |CommandsOf(constraints[m.value.constraint])|
        && command == CommandsOf(constraints[m.value.constraint])[m.value.index]
        && CaseEqual(str, command)
    {
      var cs := constraints;
      m := None;
      command := [];
      var c := 0;
      while c < |cs| && m.None?
        invariant 0 <= c <= |cs|
        invariant m.None? ==> FirstMatchFrom(cs, str, c) == FirstMatch(cs, str)
        invariant m.Some? ==> m == FirstMatch(cs, str) && m.value.constraint < |cs|
        invariant m.Some? ==> (m.value.index < |CommandsOf(cs[m.value.constraint])|
          && command == CommandsOf(cs[m.value.constraint])[m.value.index])
        decreases |cs| - c
      {
        if cs[c].ListConstraint? {
          var cmds := cs[c].commands;
          var k := 0;
          while k < |cmds| && m.None?
            invariant 0 <= k <= |cmds|
            invariant m.None? ==> FirstCommandFrom(cmds, str, k) == FirstCommandFrom(cmds, str, 0)
            invariant m.Some? ==> (m == Some(Match(c, m.value.index)) && m.value.index < |cmds|
              && FirstCommandFrom(cmds, str, 0) == Some(m.value.index) && command == cmds[m.value.index])
            decreases |cmds| - k
          {
            if CaseEqual(str, cmds[k]) {
              m := Some(Match(c, k));
              command := cmds[k];
            }
            k := k + 1;
          }
        }
        c := c + 1;
      }
      hr := if m.Some? then S_OK else COR_E_KEYNOTFOUND;
      if m.Some? {
        FirstMatchSound(cs, str);
      }
    }
  }

  /** The commands a constraint contributes: none unless it is a list constraint. */
  function CommandsOf(c: Constraint): seq<string>
  {
    if c.ListConstraint? then c.commands else []
  }

  /** The index of the first command at or after k that equals `str` up to case. */
  function FirstCommandFrom(cmds: seq<string>, str: string, k: nat): Option<nat>
    requires k <= |cmds|
    decreases |cmds| - k
  {
    if k == |cmds| then None
    else if CaseEqual(str, cmds[k]) then Some(k)
    else FirstCommandFrom(cmds, str, k + 1)
  }

  /** The first match in constraint order, then command order, from constraint c on. */
  function FirstMatchFrom(cs: seq<Constraint>, str: string, c: nat): Option<Match>
    requires c <= |cs|
    decreases |cs| - c
  {
    if c == |cs| then None
    else match FirstCommandFrom(CommandsOf(cs[c]), str, 0)
      case Some(k) => Some(Match(c, k))
      case None => FirstMatchFrom(cs, str, c + 1)
  }

  function FirstMatch(cs: seq<Constraint>, str: string): Option<Match>
  {
    FirstMatchFrom(cs, str, 0)
  }

  /** Whether `str` equals, up to case, command k of constraint c. */
  predicate MatchesAt(cs: seq<Constraint>, str: string, c: int, k: int)
  {
    0 <= c < |cs| && 0 <= k < |CommandsOf(cs[c])| && CaseEqual(str, CommandsOf(cs[c])[k])
  }

  /** FirstCommandFrom finds a matching command and none of those before it from k on, or reports that none matches. */
  lemma {:induction false} FirstCommandFromSpec(cmds: seq<string>, str: string, k: nat)
    requires k <= |cmds|
    ensures FirstCommandFrom(cmds, str, k).Some? ==>
      var j := FirstCommandFrom(cmds, str, k).value;
      k <= j < |cmds| && CaseEqual(str, cmds[j])
      && forall i :: k <= i < j ==> !CaseEqual(str, cmds[i])
    ensures FirstCommandFrom(cmds, str, k).None? ==> forall i :: k <= i < |cmds| ==> !CaseEqual(str, cmds[i])
    decreases |cmds| - k
  {
    if k < |cmds| && !CaseEqual(str, cmds[k]) {
      FirstCommandFromSpec(cmds, str, k + 1);
    }
  }

  /** FirstMatchFrom finds a match with no match before it from constraint c on, or reports there is none. */
  lemma {:induction false} FirstMatchFromSpec(cs: seq<Constraint>, str: string, c: nat)
    requires c <= |cs|
    ensures FirstMatchFrom(cs, str, c).Some? ==>
      var m := FirstMatchFrom(cs, str, c).value;
      c <= m.constraint && MatchesAt(cs, str, m.constraint, m.index)
      && (forall c', k' :: c <= c' < m.constraint ==> !MatchesAt(cs, str, c', k'))
      && (forall k' :: k' < m.index ==> !MatchesAt(cs, str, m.constraint, k'))
    ensures FirstMatchFrom(cs, str, c).None? ==> forall c', k' :: c <= c' ==> !MatchesAt(cs, str, c', k')
    decreases |cs| - c
  {
    if c < |cs| {
      FirstCommandFromSpec(CommandsOf(cs[c]), str, 0);
      if FirstCommandFrom(CommandsOf(cs[c]), str, 0).None? {
        FirstMatchFromSpec(cs, str, c + 1);
      }
    }
  }

  /**
   * The lookup is correct: a result names a command equal to `str` up to case
   * with no such command earlier in constraint-then-command order, and no
   * result means no command anywhere matches.
   */
  lemma FirstMatchSound(cs: seq<Constraint>, str: string)
    ensures FirstMatch(cs, str).Some? ==>
      var m := FirstMatch(cs, str).value;
      MatchesAt(cs, str, m.constraint, m.index)
      && (forall c', k' :: c' < m.constraint ==> !MatchesAt(cs, str, c', k'))
      && (forall k' :: k' < m.index ==> !MatchesAt(cs, str, m.constraint, k'))
    ensures FirstMatch(cs, str).None? <==> forall c', k' :: !MatchesAt(cs, str, c', k')
  {
    FirstMatchFromSpec(cs, str, 0);
  }

  /** Phrases equal up to case find the same command in one list. */
  lemma {:induction false} FirstCommandIgnoresCase(cmds: seq<string>, a: string, b: string, k: nat)
    requires k <= |cmds|
    requires CaseEqual(a, b)
    ensures FirstCommandFrom(cmds, a, k) == FirstCommandFrom(cmds, b, k)
    decreases |cmds| - k
  {
    if k < |cmds| {
      FirstCommandIgnoresCase(cmds, a, b, k + 1);
    }
  }

  lemma {:induction false} FirstMatchFromIgnoresCase(cs: seq<Constraint>, a: string, b: string, c: nat)
    requires c <= |cs|
    requires CaseEqual(a, b)
    ensures FirstMatchFrom(cs, a, c) == FirstMatchFrom(cs, b, c)
    decreases |cs| - c
  {
    if c < |cs| {
      FirstCommandIgnoresCase(CommandsOf(cs[c]), a, b, 0);
      FirstMatchFromIgnoresCase(cs, a, b, c + 1);
    }
  }

  /** Two phrases that differ only in the case of ASCII letters find the same command. */
  lemma FirstMatchIgnoresCase(cs: seq<Constraint>, a: string, b: string)
    requires CaseEqual(a, b)
    ensures FirstMatch(cs, a) == FirstMatch(cs, b)
  {
    FirstMatchFromIgnoresCase(cs, a, b, 0);
  }

  // ---------------------------------------------------------------------
  // Audio packet accumulation in the session worker.

  /** A buffer returned by IAudioCaptureClient_GetBuffer: its frame count and its bytes. */
  datatype Packet = Packet(frames: nat, data: seq<u8>)

  /** Every packet holds frames * blockAlign bytes. */
  predicate WellFormed(packets: seq<Packet>, blockAlign: nat)
  {
    forall i :: 0 <= i < |packets| ==> |packets[i].data| == packets[i].frames * blockAlign
  }

  /** The packets' bytes, concatenated. */
  function Flatten(packets: seq<Packet>): seq<u8>
  {
    if packets == [] then [] else Flatten(packets[..|packets| - 1]) + packets[|packets| - 1].data
  }

  /** The frame counts passed to ReleaseBuffer for packets that were copied. */
  function FramesOf(packets: seq<Packet>): seq<nat>
  {
    if packets == [] then [] else FramesOf(packets[..|packets| - 1]) + [packets[|packets| - 1].frames]
  }

  /**
   * The packet loop of session_worker_thread_cb. `packets` are the buffers
   * GetBuffer hands out (with S_OK) before it reports no more data; `tmpBuf`
   * is the tmp_buf_size-byte accumulation buffer. Packets are copied in order
   * while the offset is below the buffer size; the first packet that does not
   * fit is released with 0 frames and deferred (the audio event is signalled
   * again). `released` lists the ReleaseBuffer frame counts.
   */
  method AccumulatePackets(packets: seq<Packet>, blockAlign: nat, tmpBuf: array<u8>)
    returns (offset: nat, consumed: nat, deferred: bool, released: seq<nat>)
    requires WellFormed(packets, blockAlign)
    modifies tmpBuf
    ensures consumed <= |packets|
    ensures offset == |Flatten(packets[..consumed])| && offset <= tmpBuf.Length
    ensures tmpBuf[..offset] == Flatten(packets[..consumed])
    ensures deferred ==> consumed < |packets| && offset + |packets[consumed].data| > tmpBuf.Length
    ensures !deferred ==> consumed == |packets| || offset == tmpBuf.Length
    ensures released == FramesOf(packets[..consumed]) + (if deferred then [0] else [])
  {
    offset, consumed, deferred, released := 0, 0, false, [];
    while offset < tmpBuf.Length && consumed < |packets|
      invariant consumed <= |packets|
      invariant offset == |Flatten(packets[..consumed])| && offset <= tmpBuf.Length
      invariant tmpBuf[..offset] == Flatten(packets[..consumed])
      invariant released == FramesOf(packets[..consumed])
      decreases |packets| - consumed
    {
      var p := packets[consumed];
      var packetSize := p.frames * blockAlign;
      if offset + packetSize > tmpBuf.Length {
        deferred := true;
        released := released + [0];
        return;
      }
      CopyInto(tmpBuf, offset, p.data);
      assert packets[..consumed + 1][..consumed] == packets[..consumed];
      offset := offset + packetSize;
      consumed := consumed + 1;
      released := released + [p.frames];
    }
  }

  // ---------------------------------------------------------------------
  // Capture format.

  /** The PCM fields of a WAVEFORMATEX. */
  datatype WaveFormat = WaveFormat(samplesPerSec: u32, channels: u16, bitsPerSample: u16,
                                   blockAlign: u16, avgBytesPerSec: u32)

  /**
   * The format set up in recognizer_factory_create_audio_capture for a given
   * rate, channel count and sample width: nBlockAlign is truncated to a WORD
   * and nAvgBytesPerSec is a 32-bit product.
   */
  function PcmFormat(rate: u32, channels: u16, bits: u16): (f: WaveFormat)
    ensures f.samplesPerSec == rate && f.channels == channels && f.bitsPerSample == bits
  {
    var align := ((bits as int + 7) / 8 * channels as int) % WORD_RANGE;
    WaveFormat(rate, channels, bits, align, (rate as int * align) % DWORD_RANGE)
  }

  /** The session's capture format: 16 kHz, mono, 16-bit PCM. */
  function CaptureFormat(): (f: WaveFormat)
    ensures f.samplesPerSec == 16000 && f.channels == 1 && f.bitsPerSample == 16
  {
    PcmFormat(16000, 1, 16)
  }

  /**
   * Without truncation, a frame holds the fewest whole bytes per channel that
   * fit a sample, and a second holds `rate` frames.
   */
  lemma PcmFormatSpec(rate: u32, channels: u16, bits: u16)
    requires 0 < channels
    requires ((bits as int + 7) / 8) * channels as int < WORD_RANGE
    requires rate as int * (((bits as int + 7) / 8) * channels as int) < DWORD_RANGE
    ensures var f := PcmFormat(rate, channels, bits);
      var perChannel := f.blockAlign as int / channels as int;
      f.blockAlign as int == perChannel * channels as int
      && perChannel * 8 >= bits as int
      && (perChannel - 1) * 8 < bits as int
      && f.avgBytesPerSec as int == rate as int * f.blockAlign as int
  {
    var q := (bits as int + 7) / 8;
    var a := q * channels as int;
    assert a % WORD_RANGE == a;
    var avg := rate as int * a;
    assert avg % DWORD_RANGE == avg;
    DivUnique(a, channels as int, q, 0);
  }

  /** The capture format has 2-byte frames and 32000 bytes per second. */
  lemma CaptureFormatValues()
    ensures CaptureFormat().blockAlign == 2 && CaptureFormat().avgBytesPerSec == 32000
  {
  }
}
