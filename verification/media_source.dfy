/**
 * Control logic of the winegstreamer media source
 * (dlls/winegstreamer/media_source.c): per-stream sample-request token
 * queues, the STOPPED/PAUSED/RUNNING/SHUTDOWN state machine driven by
 * asynchronous commands, end-of-stream and end-of-presentation
 * detection, the read-size clamp of the read thread, and the mapping
 * from media-source streams to demuxer streams.
 */
module MediaSource {
  import opened Words
  import opened Wrappers

  /** HRESULTs of the media source, by name (their values are those of mferror.h and winerror.h). */
  datatype HResult =
    | S_OK
    | MF_E_SHUTDOWN
    | MF_E_MEDIA_SOURCE_WRONGSTATE
    | MF_E_END_OF_STREAM
    | MF_E_UNSUPPORTED_TIME_FORMAT
    | MF_E_INVALID_STATE_TRANSITION
    | E_OUTOFMEMORY

  /** A sample-request token (an `IUnknown *` that may be NULL). */
  datatype TokenRef = NullToken | Token(id: nat)

  /** The source's state enumeration. */
  datatype SourceState = SourceOpening | SourceStopped | SourcePaused | SourceRunning | SourceShutdown

  /** The start position PROPVARIANT: VT_EMPTY or a VT_I8 time. */
  datatype Position = Empty | Time(t: int)

  /** A queued source_async_command. */
  datatype Command =
    | StartCmd(selected: seq<bool>, position: Position)
    | PauseCmd
    | StopCmd
    | RequestSampleCmd(stream: nat, token: TokenRef)

  /** Events sent to the source's or a stream's event queue; stream events carry the stream index. */
  datatype Event =
    | MENewStream(stream: nat) | MEUpdatedStream(stream: nat)
    | MEStreamStarted(stream: nat) | MEStreamSeeked(stream: nat)
    | MESourceStarted | MESourceSeeked
    | MEStreamPaused(stream: nat) | MESourcePaused
    | MEStreamStopped(stream: nat) | MESourceStopped
    | MEMediaSample(stream: nat, token: TokenRef)
    | MEEndOfStream(stream: nat) | MEEndOfPresentation

  /** struct media_stream: its token queue (buffer, count and capacity) and its flags. */
  class MediaStream {
    /** The allocated token buffer; empty stands for NULL. */
    var tokenQueue: seq<TokenRef>
    var tokenQueueCount: nat
    var tokenQueueCap: nat
    var active: bool
    var eos: bool
    /** The stream identifier; the stream at index i of its source has identifier i + 1. */
    const streamId: nat

    predicate Valid()
      reads this
    {
      |tokenQueue| == tokenQueueCap && tokenQueueCount <= tokenQueueCap
    }

    /** The queued tokens, oldest first. */
    function Tokens(): seq<TokenRef>
      reads this
      requires Valid()
    {
      tokenQueue[..tokenQueueCount]
    }

    /** The stream has these flags and queued tokens, and no buffer when `freed`. */
    predicate Holds(active: bool, eos: bool, tokens: seq<TokenRef>, freed: bool)
      reads this
    {
      Valid() && this.active == active && this.eos == eos && Tokens() == tokens
      && (freed ==> tokenQueueCap == 0)
    }

    /** A stream as created: no queue, inactive, not at end of stream. */
    constructor (streamId: nat)
      ensures this.streamId == streamId
      ensures Valid() && Tokens() == [] && tokenQueueCap == 0 && !active && !eos
    {
      this.streamId := streamId;
      tokenQueue := [];
      tokenQueueCount := 0;
      tokenQueueCap := 0;
      active := false;
      eos := false;
    }

    /**
     * The per-stream step of media_source_start: the end-of-stream flag is
     * cleared when the start has a position, and the stream is active
     * exactly when it is selected; its token queue is untouched.
     */
    method Select(selected: bool, resetEos: bool)
      requires Valid()
      modifies this
      ensures Holds(selected, !resetEos && old(eos), old(Tokens()), false)
      ensures tokenQueueCap == old(tokenQueueCap)
    {
      if resetEos {
        eos := false;
      }
      active := selected;
    }

    /**
     * enqueue_token: a full queue grows to cap * 2 + 1 entries, keeping
     * its tokens in order; when that allocation (`allocOk`) fails the
     * capacity is reset to the count and nothing is queued.
     */
    method EnqueueToken(token: TokenRef, allocOk: bool) returns (ok: bool)
      requires Valid()
      modifies this
      ensures Valid() && active == old(active) && eos == old(eos)
      ensures ok <==> allocOk || old(tokenQueueCount < tokenQueueCap)
      ensures ok ==> Tokens() == old(Tokens()) + [token]
      ensures !ok ==> Tokens() == old(Tokens()) && tokenQueueCap == old(tokenQueueCap)
      ensures ok && old(tokenQueueCount == tokenQueueCap) ==> tokenQueueCap == old(tokenQueueCap) * 2 + 1
      ensures old(tokenQueueCount < tokenQueueCap) ==> tokenQueueCap == old(tokenQueueCap)
    {
      if tokenQueueCount == tokenQueueCap {
        tokenQueueCap := tokenQueueCap * 2 + 1;
        if allocOk {
          tokenQueue := tokenQueue + seq(tokenQueueCap - |tokenQueue|, _ => NullToken);
        } else {
          tokenQueueCap := tokenQueueCount;
          return false;
        }
      }
      tokenQueue := tokenQueue[tokenQueueCount := token];
      tokenQueueCount := tokenQueueCount + 1;
      return true;
    }
  }

  /** The non-NULL tokens of a queue, in order: those flush_token_queue releases. */
  function NonNullTokens(tokens: seq<TokenRef>): seq<TokenRef>
  {
    if tokens == [] then []
    else
      var last := tokens[|tokens| - 1];
      NonNullTokens(tokens[..|tokens| - 1]) + (if last == NullToken then [] else [last])
  }

  /** Releasing keeps exactly the non-NULL tokens of the queue, never more than it holds. */
  lemma {:induction false} NonNullTokensSpec(tokens: seq<TokenRef>)
    ensures |NonNullTokens(tokens)| <= |tokens|
    ensures forall t :: t in NonNullTokens(tokens) <==> t in tokens && t != NullToken
  {
    if tokens != [] {
      var prefix := tokens[..|tokens| - 1];
      NonNullTokensSpec(prefix);
      assert tokens == prefix + [tokens[|tokens| - 1]];
    }
  }

  /** The sample requests flush_token_queue re-posts for stream `stream`, one per token, in order. */
  function RequestsFor(stream: nat, tokens: seq<TokenRef>): seq<Command>
  {
    if tokens == [] then []
    else RequestsFor(stream, tokens[..|tokens| - 1]) + [RequestSampleCmd(stream, tokens[|tokens| - 1])]
  }

  /** Re-posting yields one request per queued token, carrying that token, in queue order. */
  lemma {:induction false} RequestsForSpec(stream: nat, tokens: seq<TokenRef>)
    ensures |RequestsFor(stream, tokens)| == |tokens|
    ensures forall k :: 0 <= k < |tokens| ==> RequestsFor(stream, tokens)[k] == RequestSampleCmd(stream, tokens[k])
  {
    if tokens != [] {
      RequestsForSpec(stream, tokens[..|tokens| - 1]);
    }
  }

  /** The indices of the set flags, in increasing order. */
  function TrueIndices(flags: seq<bool>): seq<nat>
  {
    if flags == [] then []
    else TrueIndices(flags[..|flags| - 1]) + (if flags[|flags| - 1] then [|flags| - 1] else [])
  }

  /** TrueIndices lists every set flag's index, and only those, in strictly increasing order. */
  lemma {:induction false} TrueIndicesSpec(flags: seq<bool>)
    ensures forall i :: i in TrueIndices(flags) <==> 0 <= i < |flags| && flags[i]
    ensures forall k, l :: 0 <= k < l < |TrueIndices(flags)| ==> TrueIndices(flags)[k] < TrueIndices(flags)[l]
  {
    if flags != [] {
      var n := |flags| - 1;
      var prefix := TrueIndices(flags[..n]);
      TrueIndicesSpec(flags[..n]);
      assert forall k :: 0 <= k < |prefix| ==> prefix[k] in prefix;
    }
  }

  /** The per-stream events of a pause: MEStreamPaused for each active stream, in stream order. */
  function PausedEvents(active: seq<bool>): seq<Event>
  {
    if active == [] then []
    else
      var n := |active| - 1;
      PausedEvents(active[..n]) + (if active[n] then [MEStreamPaused(n)] else [])
  }

  /** A pause announces exactly the active streams, one MEStreamPaused each, in stream order. */
  lemma {:induction false} PausedEventsSpec(active: seq<bool>)
    ensures |PausedEvents(active)| == |TrueIndices(active)|
    ensures forall k :: 0 <= k < |PausedEvents(active)| ==> PausedEvents(active)[k] == MEStreamPaused(TrueIndices(active)[k])
  {
    if active != [] {
      PausedEventsSpec(active[..|active| - 1]);
    }
  }

  /** The per-stream events of a stop: MEStreamStopped for each active stream, in stream order. */
  function StoppedEvents(active: seq<bool>): seq<Event>
  {
    if active == [] then []
    else
      var n := |active| - 1;
      StoppedEvents(active[..n]) + (if active[n] then [MEStreamStopped(n)] else [])
  }

  /** A stop announces exactly the active streams, one MEStreamStopped each, in stream order. */
  lemma {:induction false} StoppedEventsSpec(active: seq<bool>)
    ensures |StoppedEvents(active)| == |TrueIndices(active)|
    ensures forall k :: 0 <= k < |StoppedEvents(active)| ==> StoppedEvents(active)[k] == MEStreamStopped(TrueIndices(active)[k])
  {
    if active != [] {
      StoppedEventsSpec(active[..|active| - 1]);
    }
  }

  /** Concatenation of the non-NULL tokens of the first `n` queues, queue after queue. */
  function AllNonNullTokens(queues: seq<seq<TokenRef>>, n: nat): seq<TokenRef>
    requires n <= |queues|
  {
    if n == 0 then [] else AllNonNullTokens(queues, n - 1) + NonNullTokens(queues[n - 1])
  }

  /** `n` empty token queues. */
  function EmptyQueues(n: nat): (r: seq<seq<TokenRef>>)
    ensures |r| == n && forall i :: 0 <= i < n ==> r[i] == []
  {
    seq(n, _ => [])
  }

  /** The sample requests re-posted for the first `n` queues, queue after queue. */
  function AllRequests(queues: seq<seq<TokenRef>>, n: nat): seq<Command>
    requires n <= |queues|
  {
    if n == 0 then [] else AllRequests(queues, n - 1) + RequestsFor(n - 1, queues[n - 1])
  }

  /**
   * The per-stream events of a start for the first `n` streams, in stream
   * order: for each selected stream, MEUpdatedStream if it was already
   * active (MENewStream otherwise), then MEStreamSeeked when seeking
   * (MEStreamStarted otherwise).
   */
  function StartEvents(selected: seq<bool>, wasActive: seq<bool>, seek: bool, n: nat): seq<Event>
    requires n <= |selected| == |wasActive|
  {
    if n == 0 then []
    else
      StartEvents(selected, wasActive, seek, n - 1)
      + (if selected[n - 1] then
           [if wasActive[n - 1] then MEUpdatedStream(n - 1) else MENewStream(n - 1),
            if seek then MEStreamSeeked(n - 1) else MEStreamStarted(n - 1)]
         else [])
  }

  /**
   * The per-stream events a start for the first `n` streams may announce:
   * for a selected stream below `n`, MEUpdatedStream if it was active
   * (MENewStream otherwise) and MEStreamSeeked when seeking
   * (MEStreamStarted otherwise).
   */
  predicate Announced(selected: seq<bool>, wasActive: seq<bool>, seek: bool, n: nat, e: Event)
    requires n <= |selected| == |wasActive|
  {
    match e
    case MEUpdatedStream(i) => i < n && selected[i] && wasActive[i]
    case MENewStream(i) => i < n && selected[i] && !wasActive[i]
    case MEStreamSeeked(i) => i < n && selected[i] && seek
    case MEStreamStarted(i) => i < n && selected[i] && !seek
    case _ => false
  }

  /** The events of a start are exactly the announced ones. */
  lemma {:induction false} StartEventsMembers(selected: seq<bool>, wasActive: seq<bool>, seek: bool, n: nat)
    requires n <= |selected| == |wasActive|
    ensures forall e :: e in StartEvents(selected, wasActive, seek, n) <==> Announced(selected, wasActive, seek, n, e)
  {
    if n > 0 {
      StartEventsMembers(selected, wasActive, seek, n - 1);
      var prev := StartEvents(selected, wasActive, seek, n - 1);
      var last := if selected[n - 1] then
           [if wasActive[n - 1] then MEUpdatedStream(n - 1) else MENewStream(n - 1),
            if seek then MEStreamSeeked(n - 1) else MEStreamStarted(n - 1)]
         else [];
      assert StartEvents(selected, wasActive, seek, n) == prev + last;
      forall e
        ensures e in prev + last <==> Announced(selected, wasActive, seek, n, e)
      {
        assert e in prev + last <==> e in prev || e in last;
      }
    }
  }

  /**
   * A start announces exactly the selected streams: a selected stream gets
   * MEUpdatedStream when it was active and MENewStream otherwise, and
   * MEStreamSeeked or MEStreamStarted as the start seeks or not; an
   * unselected stream gets nothing.
   */
  lemma StartEventsSpec(selected: seq<bool>, wasActive: seq<bool>, seek: bool, n: nat)
    requires n <= |selected| == |wasActive|
    ensures forall i :: 0 <= i < n ==>
              (MEUpdatedStream(i) in StartEvents(selected, wasActive, seek, n) <==> selected[i] && wasActive[i])
              && (MENewStream(i) in StartEvents(selected, wasActive, seek, n) <==> selected[i] && !wasActive[i])
              && (MEStreamSeeked(i) in StartEvents(selected, wasActive, seek, n) <==> selected[i] && seek)
              && (MEStreamStarted(i) in StartEvents(selected, wasActive, seek, n) <==> selected[i] && !seek)
    ensures forall e :: e in StartEvents(selected, wasActive, seek, n) ==>
              (e.MENewStream? || e.MEUpdatedStream? || e.MEStreamStarted? || e.MEStreamSeeked?) && e.stream < n
  {
    StartEventsMembers(selected, wasActive, seek, n);
  }

  /** The start position media_source_start uses: a start from STOPPED without a position seeks to 0. */
  function StartPosition(state: SourceState, position: Position): Position
  {
    if state == SourceStopped && position == Empty then Time(0) else position
  }

  /** Whether a start reports seeking: it does not start from STOPPED and has a position. */
  predicate IsSeek(state: SourceState, position: Position)
  {
    state != SourceStopped && position != Empty
  }

  /**
   * Starting from STOPPED always uses a time position, so the token queues
   * are released rather than re-posted and every end-of-stream flag is reset;
   * re-posting happens only when a paused or running source restarts without
   * a position, which is also exactly when it neither seeks nor resets.
   */
  lemma StartPositionCases(state: SourceState, position: Position)
    ensures state == SourceStopped ==> StartPosition(state, position).Time? && !IsSeek(state, position)
    ensures StartPosition(state, position).Empty? <==> state != SourceStopped && position == Empty
    ensures IsSeek(state, position) ==> StartPosition(state, position) == position
  {
  }

  /** Whether each stream counts as previously active for a start: never when `starting` from STOPPED. */
  function WasActive(starting: bool, active: seq<bool>): (r: seq<bool>)
    ensures |r| == |active| && forall i :: 0 <= i < |r| ==> r[i] == (!starting && active[i])
  {
    seq(|active|, i requires 0 <= i < |active| => !starting && active[i])
  }

  /** The end-of-stream flags after a start: cleared when the start has a position, kept otherwise. */
  function EosAfterStart(position: Position, eos: seq<bool>): (r: seq<bool>)
    ensures |r| == |eos| && forall i :: 0 <= i < |r| ==> r[i] == (position.Empty? && eos[i])
  {
    seq(|eos|, i requires 0 <= i < |eos| => position.Empty? && eos[i])
  }

  /** The state an asynchronous command leaves the source in; `allocOk` is whether a start could allocate. */
  function NextState(state: SourceState, cmd: Command, allocOk: bool): SourceState
  {
    if state == SourceShutdown then SourceShutdown
    else match cmd
      case StartCmd(_, _) => if allocOk then SourceRunning else state
      case PauseCmd => SourcePaused
      case StopCmd => SourceStopped
      case RequestSampleCmd(_, _) => state
  }

  /** The state after running `cmds` in order, the k-th with allocation outcome `allocs[k]`. */
  function StateAfter(state: SourceState, cmds: seq<Command>, allocs: seq<bool>): SourceState
    requires |cmds| == |allocs|
    decreases |cmds|
  {
    if cmds == [] then state else StateAfter(NextState(state, cmds[0], allocs[0]), cmds[1..], allocs[1..])
  }

  /** Once shut down the source stays shut down whatever commands run afterwards. */
  lemma {:induction false} ShutdownIsFinal(cmds: seq<Command>, allocs: seq<bool>)
    requires |cmds| == |allocs|
    decreases |cmds|
    ensures StateAfter(SourceShutdown, cmds, allocs) == SourceShutdown
  {
    if cmds != [] {
      ShutdownIsFinal(cmds[1..], allocs[1..]);
    }
  }

  /** Only a shutdown reaches SHUTDOWN: no command moves a live source there. */
  lemma {:induction false} OnlyShutdownReachesShutdown(state: SourceState, cmds: seq<Command>, allocs: seq<bool>)
    requires |cmds| == |allocs| && state != SourceShutdown
    decreases |cmds|
    ensures StateAfter(state, cmds, allocs) != SourceShutdown
  {
    if cmds != [] {
      OnlyShutdownReachesShutdown(NextState(state, cmds[0], allocs[0]), cmds[1..], allocs[1..]);
    }
  }

  /** Every active stream has reached its end. */
  predicate Ended(active: seq<bool>, eos: seq<bool>)
    requires |active| == |eos|
  {
    forall k :: 0 <= k < |active| && active[k] ==> eos[k]
  }

  /**
   * The read-size clamp of read_thread as written: `offset + size` is a
   * 64-bit sum that wraps, and `file_size - offset` is stored in 32 bits.
   */
  function ReadSizeAsWritten(offset: u64, size: u32, fileSize: u64): u32
  {
    if offset >= fileSize then 0
    else if (offset + size) % QWORD_RANGE >= fileSize then (fileSize - offset) % DWORD_RANGE
    else size
  }

  /** An offset within 4 GiB of 2^64 wraps the sum and the read runs past the end of the file. */
  lemma ReadSizeAsWrittenOverruns()
    ensures var offset, size, fileSize := QWORD_RANGE - 2, 4, QWORD_RANGE - 1;
            offset < fileSize && offset + ReadSizeAsWritten(offset, size, fileSize) > fileSize
  {
  }

  /** The read-size clamp with the comparison done without wrapping. */
  function ReadSize(offset: u64, size: u32, fileSize: u64): (r: u32)
    ensures r <= size
    ensures offset < fileSize ==> offset + r <= fileSize && (r == size || offset + r == fileSize)
    ensures offset >= fileSize ==> r == 0
  {
    if offset >= fileSize then 0
    else if size >= fileSize - offset then fileSize - offset
    else size
  }

  /** Whenever the 64-bit sum does not wrap, the clamp as written and the corrected clamp agree. */
  lemma ReadSizeAgrees(offset: u64, size: u32, fileSize: u64)
    requires offset + size < QWORD_RANGE
    ensures ReadSizeAsWritten(offset, size, fileSize) == ReadSize(offset, size, fileSize)
  {
  }

  const MFMEDIASOURCE_CAN_SEEK: u32 := 0x2
  const MFMEDIASOURCE_CAN_PAUSE: u32 := 0x4

  /** The wg_major_type values the media source compares against. */
  const WG_MAJOR_TYPE_UNKNOWN: nat := 0
  const WG_MAJOR_TYPE_AUDIO: nat := 1
  const WG_MAJOR_TYPE_VIDEO: nat := 5

  /**
   * The group media_source_init_stream_map puts an MP4 stream of this
   * major type in: 0 for known types below VIDEO, 1 for VIDEO and above,
   * 2 for UNKNOWN.
   */
  function MapGroup(major: nat): (g: nat)
    ensures g < 3
    ensures g == 2 <==> major == WG_MAJOR_TYPE_UNKNOWN
    ensures g == 0 ==> major < WG_MAJOR_TYPE_VIDEO
    ensures g == 1 ==> major >= WG_MAJOR_TYPE_VIDEO
  {
    if major == WG_MAJOR_TYPE_UNKNOWN then 2 else if major < WG_MAJOR_TYPE_VIDEO then 0 else 1
  }

  /** The indices in [j, |majors|) whose stream is in group `g`, highest first. */
  function GroupFrom(majors: seq<nat>, g: nat, j: nat): seq<nat>
    requires j <= |majors|
    decreases |majors| - j
  {
    if j == |majors| then [] else GroupFrom(majors, g, j + 1) + (if MapGroup(majors[j]) == g then [j] else [])
  }

  /** GroupFrom lists exactly the indices of group `g` from `j` on, in strictly decreasing order. */
  lemma {:induction false} GroupFromSpec(majors: seq<nat>, g: nat, j: nat)
    requires j <= |majors|
    decreases |majors| - j
    ensures |GroupFrom(majors, g, j)| <= |majors| - j
    ensures forall i :: i in GroupFrom(majors, g, j) <==> j <= i < |majors| && MapGroup(majors[i]) == g
    ensures forall k, l :: 0 <= k < l < |GroupFrom(majors, g, j)| ==> GroupFrom(majors, g, j)[k] > GroupFrom(majors, g, j)[l]
  {
    if j < |majors| {
      GroupFromSpec(majors, g, j + 1);
      var rest := GroupFrom(majors, g, j + 1);
      assert forall k :: 0 <= k < |rest| ==> rest[k] in rest;
    }
  }

  /** Every stream from `j` on is in exactly one of the three groups. */
  lemma {:induction false} GroupSizes(majors: seq<nat>, j: nat)
    requires j <= |majors|
    decreases |majors| - j
    ensures |GroupFrom(majors, 0, j)| + |GroupFrom(majors, 1, j)| + |GroupFrom(majors, 2, j)| == |majors| - j
  {
    if j < |majors| {
      GroupSizes(majors, j + 1);
    }
  }

  /** The stream map media_source_init_stream_map builds: position k holds the demuxer stream of stream k. */
  function StreamMap(majors: seq<nat>, isMp4: bool): seq<nat>
  {
    if !isMp4 then seq(|majors|, i => i)
    else GroupFrom(majors, 0, 0) + GroupFrom(majors, 1, 0) + GroupFrom(majors, 2, 0)
  }

  /** The stream map is a permutation of 0 .. |majors| - 1, and the identity for anything but MP4. */
  lemma StreamMapIsPermutation(majors: seq<nat>, isMp4: bool)
    ensures |StreamMap(majors, isMp4)| == |majors|
    ensures forall i :: i in StreamMap(majors, isMp4) <==> 0 <= i < |majors|
    ensures forall k, l :: 0 <= k < l < |majors| ==> StreamMap(majors, isMp4)[k] != StreamMap(majors, isMp4)[l]
    ensures !isMp4 ==> forall k :: 0 <= k < |majors| ==> StreamMap(majors, isMp4)[k] == k
  {
    if isMp4 {
      var g0, g1, g2 := GroupFrom(majors, 0, 0), GroupFrom(majors, 1, 0), GroupFrom(majors, 2, 0);
      GroupSizes(majors, 0);
      GroupFromSpec(majors, 0, 0);
      GroupFromSpec(majors, 1, 0);
      GroupFromSpec(majors, 2, 0);
      var m := StreamMap(majors, isMp4);
      assert m == g0 + g1 + g2;
      forall i | 0 <= i < |majors|
        ensures i in m
      {
        var g := MapGroup(majors[i]);
        if g == 0 {
          assert i in g0;
        } else if g == 1 {
          assert i in g1;
        } else {
          assert i in g2;
        }
      }
      forall k, l | 0 <= k < l < |majors|
        ensures m[k] != m[l]
      {
        StreamMapOrder(majors, k, l);
      }
    } else {
      var m := StreamMap(majors, isMp4);
      forall i | 0 <= i < |majors|
        ensures i in m
      {
        assert m[i] == i;
      }
    }
  }

  /** Where the part for group `g` of an MP4 stream map starts; group 3 stands for the end of the map. */
  function GroupStart(majors: seq<nat>, g: nat): nat
  {
    if g == 0 then 0
    else if g == 1 then |GroupFrom(majors, 0, 0)|
    else if g == 2 then |GroupFrom(majors, 0, 0)| + |GroupFrom(majors, 1, 0)|
    else |GroupFrom(majors, 0, 0)| + |GroupFrom(majors, 1, 0)| + |GroupFrom(majors, 2, 0)|
  }

  /** Position `x` of an MP4 stream map lies in the part for some group `g`, and holds a stream of that group. */
  lemma StreamMapAt(majors: seq<nat>, x: nat) returns (g: nat)
    requires x < |StreamMap(majors, true)|
    ensures g < 3 && GroupStart(majors, g) <= x < GroupStart(majors, g + 1)
    ensures StreamMap(majors, true)[x] == GroupFrom(majors, g, 0)[x - GroupStart(majors, g)]
    ensures StreamMap(majors, true)[x] < |majors| && MapGroup(majors[StreamMap(majors, true)[x]]) == g
  {
    var g0, g1, g2 := GroupFrom(majors, 0, 0), GroupFrom(majors, 1, 0), GroupFrom(majors, 2, 0);
    var m := StreamMap(majors, true);
    assert m == g0 + g1 + g2;
    if x < |g0| {
      g := 0;
      GroupFromSpec(majors, 0, 0);
      assert m[x] == g0[x] && g0[x] in g0;
    } else if x < |g0| + |g1| {
      g := 1;
      GroupFromSpec(majors, 1, 0);
      assert m[x] == g1[x - |g0|] && g1[x - |g0|] in g1;
    } else {
      g := 2;
      GroupFromSpec(majors, 2, 0);
      assert m[x] == g2[x - |g0| - |g1|] && g2[x - |g0| - |g1|] in g2;
    }
  }

  /**
   * In an MP4 stream map the groups come in order (below VIDEO, VIDEO and
   * above, UNKNOWN) and each group runs from its highest index down.
   */
  lemma StreamMapOrder(majors: seq<nat>, k: nat, l: nat)
    requires k < l < |StreamMap(majors, true)|
    ensures StreamMap(majors, true)[k] < |majors| && StreamMap(majors, true)[l] < |majors|
    ensures MapGroup(majors[StreamMap(majors, true)[k]]) <= MapGroup(majors[StreamMap(majors, true)[l]])
    ensures MapGroup(majors[StreamMap(majors, true)[k]]) == MapGroup(majors[StreamMap(majors, true)[l]]) ==>
              StreamMap(majors, true)[k] > StreamMap(majors, true)[l]
  {
    var gk := StreamMapAt(majors, k);
    var gl := StreamMapAt(majors, l);
    if gk == gl {
      GroupFromSpec(majors, gk, 0);
    }
  }

  /**
   * One loop of media_source_init_stream_map: from the highest index
   * down, each stream of group `g` is written at the next free position
   * `n` of the map, starting at `n0`.
   */
  method MapStreamGroup(majors: seq<nat>, g: nat, streamMap: array<nat>, n0: nat) returns (n: nat)
    requires streamMap.Length == |majors| && n0 + |GroupFrom(majors, g, 0)| <= |majors|
    modifies streamMap
    ensures n == n0 + |GroupFrom(majors, g, 0)|
    ensures streamMap[..n] == old(streamMap[..n0]) + GroupFrom(majors, g, 0)
  {
    n := n0;
    var j := |majors|;
    while j > 0
      invariant 0 <= j <= |majors|
      invariant n == n0 + |GroupFrom(majors, g, j)| && |GroupFrom(majors, g, j)| <= |GroupFrom(majors, g, 0)|
      invariant streamMap[..n0] == old(streamMap[..n0])
      invariant streamMap[n0..n] == GroupFrom(majors, g, j)
    {
      j := j - 1;
      GroupFromGrows(majors, g, j);
      if MapGroup(majors[j]) == g {
        streamMap[n] := j;
        n := n + 1;
      }
    }
    assert streamMap[..n] == streamMap[..n0] + streamMap[n0..n];
  }

  /** Extending the range down to 0 never shortens a group. */
  lemma {:induction false} GroupFromGrows(majors: seq<nat>, g: nat, j: nat)
    requires j <= |majors|
    ensures |GroupFrom(majors, g, j)| <= |GroupFrom(majors, g, 0)|
  {
    if j > 0 {
      GroupFromGrows(majors, g, j - 1);
    }
  }

  /** The first index of `majors` holding `t`, if any. */
  function FirstOf(majors: seq<nat>, t: nat): Option<nat>
  {
    if majors == [] then None
    else
      var before := FirstOf(majors[..|majors| - 1], t);
      if before.Some? then before else if majors[|majors| - 1] == t then Some(|majors| - 1) else None
  }

  /** The last index of `majors` holding `t`, if any. */
  function LastOf(majors: seq<nat>, t: nat): Option<nat>
  {
    if majors == [] then None
    else if majors[|majors| - 1] == t then Some(|majors| - 1)
    else LastOf(majors[..|majors| - 1], t)
  }

  /** Extending a prefix by one descriptor: FirstOf keeps an earlier find, LastOf takes the new one when it matches. */
  lemma PrefixStep(majors: seq<nat>, i: nat, t: nat)
    requires i < |majors|
    ensures FirstOf(majors[..i + 1], t) ==
      if FirstOf(majors[..i], t).Some? then FirstOf(majors[..i], t) else if majors[i] == t then Some(i) else None
    ensures LastOf(majors[..i + 1], t) == if majors[i] == t then Some(i) else LastOf(majors[..i], t)
  {
    assert majors[..i + 1][..i] == majors[..i];
  }

  /** FirstOf finds the lowest index holding `t`, and nothing when no index does. */
  lemma {:induction false} FirstOfSpec(majors: seq<nat>, t: nat)
    ensures FirstOf(majors, t).None? ==> forall j :: 0 <= j < |majors| ==> majors[j] != t
    ensures FirstOf(majors, t).Some? ==>
              FirstOf(majors, t).value < |majors| && majors[FirstOf(majors, t).value] == t
              && forall j :: 0 <= j < FirstOf(majors, t).value ==> majors[j] != t
  {
    if majors != [] {
      FirstOfSpec(majors[..|majors| - 1], t);
    }
  }

  /** LastOf finds the highest index holding `t`, and nothing when no index does. */
  lemma {:induction false} LastOfSpec(majors: seq<nat>, t: nat)
    ensures LastOf(majors, t).None? ==> forall j :: 0 <= j < |majors| ==> majors[j] != t
    ensures LastOf(majors, t).Some? ==>
              LastOf(majors, t).value < |majors| && majors[LastOf(majors, t).value] == t
              && forall j :: LastOf(majors, t).value < j < |majors| ==> majors[j] != t
  {
    if majors != [] {
      LastOfSpec(majors[..|majors| - 1], t);
    }
  }

  /** Whether media_source_init_descriptors groups streams of this major type: plain AUDIO and VIDEO. */
  predicate Groupable(major: nat)
  {
    major == WG_MAJOR_TYPE_AUDIO || major == WG_MAJOR_TYPE_VIDEO
  }

  /** Some other stream below `k` has the same major type as stream `i`. */
  predicate HasTwinBelow(majors: seq<nat>, k: nat, i: nat)
    requires k <= |majors| && i < |majors|
  {
    exists j :: 0 <= j < k && j != i && majors[j] == majors[i]
  }

  /**
   * The MF_SD_MUTUALLY_EXCLUSIVE flags after the first `k` descriptors:
   * an AUDIO or VIDEO stream below `k` is flagged when another stream
   * below `k` has the same type.
   */
  function ExclusiveUpTo(majors: seq<nat>, k: nat): (r: seq<bool>)
    requires k <= |majors|
    ensures |r| == |majors|
    ensures forall i :: 0 <= i < |majors| ==> r[i] == (i < k && Groupable(majors[i]) && HasTwinBelow(majors, k, i))
  {
    seq(|majors|, i requires 0 <= i < |majors| => i < k && Groupable(majors[i]) && HasTwinBelow(majors, k, i))
  }

  /**
   * Descriptor `k` adds its flag and that of the last earlier stream of
   * its type, when it is AUDIO or VIDEO and has one.
   */
  lemma ExclusiveStep(majors: seq<nat>, k: nat, last: Option<nat>)
    requires k < |majors| && last == LastOf(majors[..k], majors[k])
    ensures last.Some? ==> last.value < k
    ensures ExclusiveUpTo(majors, k + 1) ==
              if Groupable(majors[k]) && last.Some? then ExclusiveUpTo(majors, k)[last.value := true][k := true]
              else ExclusiveUpTo(majors, k)
  {
    LastBelow(majors, k, last);
    var before, after := ExclusiveUpTo(majors, k), ExclusiveUpTo(majors, k + 1);
    var expected := if Groupable(majors[k]) && last.Some? then before[last.value := true][k := true] else before;
    forall i | 0 <= i < |majors|
      ensures after[i] == expected[i]
    {
      TwinStep(majors, k, i);
      if i < k && majors[i] == majors[k] && last.Some? && last.value != i {
        assert HasTwinBelow(majors, k, i) by {
          assert majors[last.value] == majors[i];
        }
      } else if i == k && last.Some? {
        assert HasTwinBelow(majors, k + 1, k) by {
          assert majors[last.value] == majors[k];
        }
      }
    }
  }

  /** LastOf on the first `k` descriptors, read as indices into the whole sequence. */
  lemma LastBelow(majors: seq<nat>, k: nat, last: Option<nat>)
    requires k < |majors| && last == LastOf(majors[..k], majors[k])
    ensures last.Some? ==> last.value < k && majors[last.value] == majors[k]
    ensures last.None? ==> forall j :: 0 <= j < k ==> majors[j] != majors[k]
  {
    LastOfSpec(majors[..k], majors[k]);
    if last.Some? {
      assert majors[..k][last.value] == majors[last.value];
    } else {
      forall j | 0 <= j < k
        ensures majors[j] != majors[k]
      {
        assert majors[..k][j] == majors[j];
      }
    }
  }

  /** Stream `i` gains a twin below `k + 1` exactly when it had one below `k` or stream `k` is one. */
  lemma TwinStep(majors: seq<nat>, k: nat, i: nat)
    requires k < |majors| && i < |majors|
    ensures HasTwinBelow(majors, k + 1, i) == (HasTwinBelow(majors, k, i) || (k != i && majors[k] == majors[i]))
  {
    if HasTwinBelow(majors, k + 1, i) && !(k != i && majors[k] == majors[i]) {
      var j :| 0 <= j < k + 1 && j != i && majors[j] == majors[i];
      assert j < k;
    }
  }

  /** The flags media_source_init_descriptors sets once every descriptor is seen. */
  function ExclusiveFlags(majors: seq<nat>): seq<bool>
  {
    ExclusiveUpTo(majors, |majors|)
  }

  /** The stream of type `t` media_source_init_descriptors selects: the last for MP4, the first otherwise. */
  function Chosen(majors: seq<nat>, isMp4: bool, t: nat): Option<nat>
  {
    if isMp4 then LastOf(majors, t) else FirstOf(majors, t)
  }

  /** The active flags with streams `audio` and `video`, when present, made active. */
  function WithActive(active: seq<bool>, audio: Option<nat>, video: Option<nat>): (r: seq<bool>)
    ensures |r| == |active|
    ensures forall i :: 0 <= i < |active| ==> r[i] == (active[i] || audio == Some(i) || video == Some(i))
  {
    seq(|active|, i requires 0 <= i < |active| => active[i] || audio == Some(i) || video == Some(i))
  }

  /**
   * The descriptor loop of media_source_init_descriptors: it flags
   * mutually exclusive AUDIO and VIDEO descriptors and finds the first and
   * last stream of each of the two types.
   */
  method ScanDescriptors(majors: seq<nat>)
    returns (exclusive: seq<bool>, firstAudio: Option<nat>, lastAudio: Option<nat>,
             firstVideo: Option<nat>, lastVideo: Option<nat>)
    ensures exclusive == ExclusiveFlags(majors)
    ensures firstAudio == FirstOf(majors, WG_MAJOR_TYPE_AUDIO) && lastAudio == LastOf(majors, WG_MAJOR_TYPE_AUDIO)
    ensures firstVideo == FirstOf(majors, WG_MAJOR_TYPE_VIDEO) && lastVideo == LastOf(majors, WG_MAJOR_TYPE_VIDEO)
  {
    firstAudio, lastAudio, firstVideo, lastVideo := None, None, None, None;
    exclusive := seq(|majors|, _ => false);
    var i := 0;
    while i < |majors|
      invariant 0 <= i <= |majors|
      invariant firstAudio == FirstOf(majors[..i], WG_MAJOR_TYPE_AUDIO) && lastAudio == LastOf(majors[..i], WG_MAJOR_TYPE_AUDIO)
      invariant firstVideo == FirstOf(majors[..i], WG_MAJOR_TYPE_VIDEO) && lastVideo == LastOf(majors[..i], WG_MAJOR_TYPE_VIDEO)
      invariant exclusive == ExclusiveUpTo(majors, i)
    {
      var exclude: Option<nat> := None;
      if majors[i] == WG_MAJOR_TYPE_AUDIO {
        if firstAudio == None {
          firstAudio := Some(i);
        }
        exclude := lastAudio;
        lastAudio := Some(i);
      } else if majors[i] == WG_MAJOR_TYPE_VIDEO {
        if firstVideo == None {
          firstVideo := Some(i);
        }
        exclude := lastVideo;
        lastVideo := Some(i);
      }
      ExclusiveStep(majors, i, LastOf(majors[..i], majors[i]));
      PrefixStep(majors, i, WG_MAJOR_TYPE_AUDIO);
      PrefixStep(majors, i, WG_MAJOR_TYPE_VIDEO);
      if exclude.Some? {
        exclusive := exclusive[exclude.value := true][i := true];
      }
      i := i + 1;
    }
    assert majors[..i] == majors;
  }

  /**
   * media_source_init_stream_map: the identity for anything but MP4;
   * for MP4, known types below VIDEO, then VIDEO and above, then UNKNOWN,
   * each from the highest index down.  `majors[i]` is the major type of
   * demuxer stream i.
   */
  method InitStreamMap(majors: seq<nat>, isMp4: bool, streamMap: array<nat>)
    requires streamMap.Length == |majors|
    modifies streamMap
    ensures streamMap[..] == StreamMap(majors, isMp4)
  {
    if !isMp4 {
      var j := |majors|;
      while j > 0
        invariant 0 <= j <= |majors|
        invariant forall k :: j <= k < |majors| ==> streamMap[k] == k
      {
        j := j - 1;
        streamMap[j] := j;
      }
      return;
    }
    GroupSizes(majors, 0);
    var a := MapStreamGroup(majors, 0, streamMap, 0);
    var b := MapStreamGroup(majors, 1, streamMap, a);
    var c := MapStreamGroup(majors, 2, streamMap, b);
    assert streamMap[..] == streamMap[..c];
  }

  /** struct media_source: its state, streams, async command queue and event log. */
  class MediaSourceObject {
    var state: SourceState
    /** The streams, fixed when the source is created. */
    const streams: seq<MediaStream>
    /** Commands posted to the async command work queue, oldest first. */
    var workQueue: seq<Command>
    /** Events queued on the source and stream event queues, oldest first. */
    var events: seq<Event>
    /** Tokens released by flush_token_queue. */
    var releasedTokens: seq<TokenRef>

    predicate Valid()
      reads streams
    {
      forall i :: 0 <= i < |streams| ==> streams[i].streamId == i + 1 && streams[i].Valid()
    }

    /** The active flag of each stream. */
    function ActiveFlags(): (r: seq<bool>)
      reads streams
      ensures |r| == |streams| && forall i :: 0 <= i < |r| ==> r[i] == streams[i].active
    {
      seq(|streams|, i requires 0 <= i < |streams| reads streams => streams[i].active)
    }

    /** The end-of-stream flag of each stream. */
    function EosFlags(): (r: seq<bool>)
      reads streams
      ensures |r| == |streams| && forall i :: 0 <= i < |r| ==> r[i] == streams[i].eos
    {
      seq(|streams|, i requires 0 <= i < |streams| reads streams => streams[i].eos)
    }

    /** The queued tokens of each stream. */
    function TokenQueues(): (r: seq<seq<TokenRef>>)
      reads streams
      requires Valid()
      ensures |r| == |streams| && forall i :: 0 <= i < |r| ==> r[i] == streams[i].Tokens()
    {
      seq(|streams|, i requires 0 <= i < |streams| && streams[i].Valid() reads streams => streams[i].Tokens())
    }

    /**
     * Stream `j` holds `active[j]`, `eos[j]` and `queues[j]` for every `j`
     * (with its queue freed when `freed`), stream identifiers in order.
     */
    ghost predicate Snapshot(active: seq<bool>, eos: seq<bool>, queues: seq<seq<TokenRef>>, freed: bool)
      reads streams
    {
      |active| == |eos| == |queues| == |streams|
      && forall j :: 0 <= j < |streams| ==>
           streams[j].streamId == j + 1 && streams[j].Holds(active[j], eos[j], queues[j], freed)
    }

    /** A valid source's streams hold its flag and token-queue snapshots. */
    lemma ValidStreamsHold()
      requires Valid()
      ensures Snapshot(ActiveFlags(), EosFlags(), TokenQueues(), false)
    {
    }

    /** Streams holding given flags and queues make a valid source with exactly those snapshots. */
    lemma StreamsHoldSnapshots(active: seq<bool>, eos: seq<bool>, queues: seq<seq<TokenRef>>, freed: bool)
      requires Snapshot(active, eos, queues, freed)
      ensures Valid() && ActiveFlags() == active && EosFlags() == eos && TokenQueues() == queues
    {
    }

    /** Every active stream has reached its end. */
    predicate AllActiveAtEos()
      reads streams
    {
      forall i :: 0 <= i < |streams| && streams[i].active ==> streams[i].eos
    }

    /** A stopped source with `streamCount` fresh, inactive streams. */
    constructor (streamCount: nat)
      ensures Valid() && state == SourceStopped && |streams| == streamCount && fresh(streams)
      ensures workQueue == [] && events == [] && releasedTokens == []
      ensures forall i :: 0 <= i < |streams| ==> streams[i].Tokens() == [] && !streams[i].active && !streams[i].eos
    {
      state := SourceStopped;
      workQueue := [];
      events := [];
      releasedTokens := [];
      var created: seq<MediaStream> := [];
      while |created| < streamCount
        invariant |created| <= streamCount
        invariant forall i :: 0 <= i < |created| ==> fresh(created[i]) && created[i].streamId == i + 1 && created[i].Valid()
        invariant forall i :: 0 <= i < |created| ==> created[i].Tokens() == [] && !created[i].active && !created[i].eos
      {
        var s := new MediaStream(|created| + 1);
        created := created + [s];
      }
      streams := created;
    }

    /** media_source_GetCharacteristics: the source can seek and pause until it is shut down. */
    method GetCharacteristics() returns (hr: HResult, characteristics: u32)
      ensures hr == (if state == SourceShutdown then MF_E_SHUTDOWN else S_OK)
      ensures hr == S_OK ==> characteristics == 0x6
    {
      characteristics := 0;
      if state == SourceShutdown {
        hr := MF_E_SHUTDOWN;
      } else {
        hr := S_OK;
        characteristics := MFMEDIASOURCE_CAN_SEEK + MFMEDIASOURCE_CAN_PAUSE;
      }
    }

    /** media_stream_GetMediaSource and media_stream_GetStreamDescriptor: available until shutdown. */
    method GetMediaSource() returns (hr: HResult)
      ensures hr == S_OK <==> state != SourceShutdown
      ensures hr != S_OK ==> hr == MF_E_SHUTDOWN
    {
      if state == SourceShutdown {
        hr := MF_E_SHUTDOWN;
      } else {
        hr := S_OK;
      }
    }

    /**
     * media_source_CreatePresentationDescriptor: the descriptor selects
     * exactly the active streams.  `allocOk` is whether creating the
     * descriptor succeeded.
     */
    method CreatePresentationDescriptor(allocOk: bool) returns (hr: HResult, selected: seq<nat>)
      ensures state == SourceShutdown ==> hr == MF_E_SHUTDOWN
      ensures state != SourceShutdown ==> hr == (if allocOk then S_OK else E_OUTOFMEMORY)
      ensures hr == S_OK ==> forall i :: i in selected <==> 0 <= i < |streams| && streams[i].active
      ensures hr == S_OK ==> forall k, l :: 0 <= k < l < |selected| ==> selected[k] < selected[l]
    {
      selected := [];
      if state == SourceShutdown {
        return MF_E_SHUTDOWN, [];
      }
      if !allocOk {
        return E_OUTOFMEMORY, [];
      }
      var flags := ActiveFlags();
      var i := 0;
      while i < |streams|
        invariant 0 <= i <= |streams|
        invariant selected == TrueIndices(flags[..i])
      {
        if streams[i].active {
          selected := selected + [i];
        }
        assert flags[..i + 1][..i] == flags[..i];
        i := i + 1;
      }
      assert flags[..i] == flags;
      TrueIndicesSpec(flags);
      hr := S_OK;
    }

    /**
     * media_source_Start: posts a start command when the source is not
     * shut down and the time format is GUID_NULL.  `allocOk` is whether
     * creating the command succeeded.
     */
    method Start(timeFormatIsNull: bool, selected: seq<bool>, position: Position, allocOk: bool) returns (hr: HResult)
      modifies this
      ensures state == old(state) && events == old(events)
      ensures releasedTokens == old(releasedTokens)
      ensures hr == (if state == SourceShutdown then MF_E_SHUTDOWN
                     else if !timeFormatIsNull then MF_E_UNSUPPORTED_TIME_FORMAT
                     else if !allocOk then E_OUTOFMEMORY
                     else S_OK)
      ensures workQueue == if hr == S_OK then old(workQueue) + [StartCmd(selected, position)] else old(workQueue)
    {
      if state == SourceShutdown {
        hr := MF_E_SHUTDOWN;
      } else if !timeFormatIsNull {
        hr := MF_E_UNSUPPORTED_TIME_FORMAT;
      } else if !allocOk {
        hr := E_OUTOFMEMORY;
      } else {
        workQueue := workQueue + [StartCmd(selected, position)];
        hr := S_OK;
      }
    }

    /** media_source_Stop: posts a stop command unless the source is shut down. */
    method Stop(allocOk: bool) returns (hr: HResult)
      modifies this
      ensures state == old(state) && events == old(events)
      ensures releasedTokens == old(releasedTokens)
      ensures hr == (if state == SourceShutdown then MF_E_SHUTDOWN else if !allocOk then E_OUTOFMEMORY else S_OK)
      ensures workQueue == if hr == S_OK then old(workQueue) + [StopCmd] else old(workQueue)
    {
      if state == SourceShutdown {
        hr := MF_E_SHUTDOWN;
      } else if !allocOk {
        hr := E_OUTOFMEMORY;
      } else {
        workQueue := workQueue + [StopCmd];
        hr := S_OK;
      }
    }

    /**
     * media_source_Pause: posts a pause command only while running; the
     * failure codes it computes are discarded and it always reports S_OK.
     */
    method Pause(allocOk: bool) returns (hr: HResult)
      modifies this
      ensures state == old(state) && events == old(events)
      ensures releasedTokens == old(releasedTokens)
      ensures hr == S_OK
      ensures workQueue == if state == SourceRunning && allocOk then old(workQueue) + [PauseCmd] else old(workQueue)
    {
      var status: HResult;
      if state == SourceShutdown {
        status := MF_E_SHUTDOWN;
      } else if state != SourceRunning {
        status := MF_E_INVALID_STATE_TRANSITION;
      } else if !allocOk {
        status := E_OUTOFMEMORY;
      } else {
        workQueue := workQueue + [PauseCmd];
        status := S_OK;
      }
      hr := S_OK;
    }

    /**
     * media_source_Shutdown: the first call moves to SHUTDOWN; any later
     * call fails with MF_E_SHUTDOWN.
     */
    method Shutdown() returns (hr: HResult)
      modifies this
      ensures hr == (if old(state) == SourceShutdown then MF_E_SHUTDOWN else S_OK)
      ensures state == SourceShutdown
      ensures workQueue == old(workQueue) && events == old(events) && releasedTokens == old(releasedTokens)
    {
      if state == SourceShutdown {
        return MF_E_SHUTDOWN;
      }
      state := SourceShutdown;
      hr := S_OK;
    }

    /**
     * media_stream_RequestSample on stream `stream`: errors in the order
     * shutdown, inactive stream, end of stream; otherwise a request
     * command carrying the token is posted.
     */
    method RequestSample(stream: nat, token: TokenRef, allocOk: bool) returns (hr: HResult)
      requires stream < |streams|
      modifies this
      ensures state == old(state) && events == old(events)
      ensures releasedTokens == old(releasedTokens)
      ensures hr == (if state == SourceShutdown then MF_E_SHUTDOWN
                     else if !streams[stream].active then MF_E_MEDIA_SOURCE_WRONGSTATE
                     else if streams[stream].eos then MF_E_END_OF_STREAM
                     else if !allocOk then E_OUTOFMEMORY
                     else S_OK)
      ensures workQueue == if hr == S_OK then old(workQueue) + [RequestSampleCmd(stream, token)] else old(workQueue)
    {
      if state == SourceShutdown {
        hr := MF_E_SHUTDOWN;
      } else if !streams[stream].active {
        hr := MF_E_MEDIA_SOURCE_WRONGSTATE;
      } else if streams[stream].eos {
        hr := MF_E_END_OF_STREAM;
      } else if !allocOk {
        hr := E_OUTOFMEMORY;
      } else {
        workQueue := workQueue + [RequestSampleCmd(stream, token)];
        hr := S_OK;
      }
    }

    /**
     * flush_token_queue on stream `i`: with `send` every queued token is
     * re-posted as a sample request, otherwise every non-NULL token is
     * released; the queue is then freed.
     */
    method FlushTokenQueue(i: nat, send: bool)
      requires i < |streams| && streams[i].Valid()
      modifies this, streams[i]
      ensures state == old(state) && events == old(events)
      ensures streams[i].Holds(old(streams[i].active), old(streams[i].eos), [], true)
      ensures send ==> workQueue == old(workQueue) + RequestsFor(i, old(streams[i].Tokens()))
      ensures send ==> releasedTokens == old(releasedTokens)
      ensures !send ==> releasedTokens == old(releasedTokens) + NonNullTokens(old(streams[i].Tokens()))
      ensures !send ==> workQueue == old(workQueue)
    {
      var stream := streams[i];
      ghost var tokens := stream.Tokens();
      var k := 0;
      while k < stream.tokenQueueCount
        modifies this
        invariant 0 <= k <= stream.tokenQueueCount
        invariant state == old(state) && events == old(events)
        invariant send ==> workQueue == old(workQueue) + RequestsFor(i, tokens[..k])
        invariant send ==> releasedTokens == old(releasedTokens)
        invariant !send ==> releasedTokens == old(releasedTokens) + NonNullTokens(tokens[..k])
        invariant !send ==> workQueue == old(workQueue)
      {
        var token := stream.tokenQueue[k];
        if send {
          workQueue := workQueue + [RequestSampleCmd(i, token)];
        } else if token != NullToken {
          releasedTokens := releasedTokens + [token];
        }
        assert tokens[..k + 1][..k] == tokens[..k];
        k := k + 1;
      }
      assert tokens[..k] == tokens;
      stream.tokenQueue := [];
      stream.tokenQueueCount := 0;
      stream.tokenQueueCap := 0;
    }

    /** The state FlushAll has reached after flushing the first `i` streams. */
    ghost predicate FlushedUpTo(i: nat, send: bool, queues: seq<seq<TokenRef>>, active: seq<bool>, eos: seq<bool>,
                                requests0: seq<Command>, released0: seq<TokenRef>)
      reads this, streams
    {
      i <= |streams| == |queues| == |active| == |eos|
      && (forall j :: 0 <= j < |streams| ==> streams[j].streamId == j + 1)
      && (forall j :: 0 <= j < i ==> streams[j].Holds(active[j], eos[j], [], true))
      && (forall j :: i <= j < |streams| ==> streams[j].Holds(active[j], eos[j], queues[j], false))
      && (send ==> workQueue == requests0 + AllRequests(queues, i) && releasedTokens == released0)
      && (!send ==> workQueue == requests0 && releasedTokens == released0 + AllNonNullTokens(queues, i))
    }

    /** One iteration of FlushAll: flushes stream `i`. */
    method FlushNext(i: nat, send: bool, ghost queues: seq<seq<TokenRef>>, ghost active: seq<bool>, ghost eos: seq<bool>,
                     ghost requests0: seq<Command>, ghost released0: seq<TokenRef>)
      requires i < |streams| && FlushedUpTo(i, send, queues, active, eos, requests0, released0)
      modifies this, streams[i]
      ensures state == old(state) && events == old(events)
      ensures FlushedUpTo(i + 1, send, queues, active, eos, requests0, released0)
    {
      assert streams[i].Holds(active[i], eos[i], queues[i], false);
      FlushTokenQueue(i, send);
    }

    /** The loop of FlushAll, from stream `i` on. */
    method FlushFrom(i: nat, send: bool, ghost queues: seq<seq<TokenRef>>, ghost active: seq<bool>, ghost eos: seq<bool>,
                     ghost requests0: seq<Command>, ghost released0: seq<TokenRef>)
      requires FlushedUpTo(i, send, queues, active, eos, requests0, released0)
      modifies this, streams
      ensures state == old(state) && events == old(events)
      ensures FlushedUpTo(|streams|, send, queues, active, eos, requests0, released0)
    {
      var k := i;
      while k < |streams|
        invariant i <= k <= |streams|
        invariant state == old(state) && events == old(events)
        invariant FlushedUpTo(k, send, queues, active, eos, requests0, released0)
      {
        FlushNext(k, send, queues, active, eos, requests0, released0);
        k := k + 1;
      }
    }

    /**
     * flush_token_queue applied to every stream in order, with the same
     * `send`, on streams holding `active`, `eos` and `queues`.
     */
    method FlushAll(send: bool, ghost active: seq<bool>, ghost eos: seq<bool>, ghost queues: seq<seq<TokenRef>>)
      requires Snapshot(active, eos, queues, false)
      modifies this, streams
      ensures state == old(state) && events == old(events)
      ensures Snapshot(active, eos, EmptyQueues(|streams|), true)
      ensures send ==> workQueue == old(workQueue) + AllRequests(queues, |streams|)
      ensures send ==> releasedTokens == old(releasedTokens)
      ensures !send ==> releasedTokens == old(releasedTokens) + AllNonNullTokens(queues, |streams|)
      ensures !send ==> workQueue == old(workQueue)
    {
      FlushFrom(0, send, queues, active, eos, workQueue, releasedTokens);
    }

    /** media_source_pause: MEStreamPaused for each active stream, then PAUSED and MESourcePaused. */
    method ExecutePause() returns (hr: HResult)
      requires Valid()
      modifies this
      ensures old(events) <= events
      ensures workQueue == old(workQueue) && releasedTokens == old(releasedTokens)
      ensures old(state) == SourceShutdown ==> hr == MF_E_SHUTDOWN && unchanged(this)
      ensures old(state) != SourceShutdown ==>
                hr == S_OK && state == SourcePaused
                && events == old(events) + PausedEvents(old(ActiveFlags())) + [MESourcePaused]
    {
      if state == SourceShutdown {
        return MF_E_SHUTDOWN;
      }
      ghost var flags := ActiveFlags();
      var i := 0;
      while i < |streams|
        modifies this
        invariant 0 <= i <= |streams|
        invariant state == old(state)
        invariant workQueue == old(workQueue) && releasedTokens == old(releasedTokens)
        invariant events == old(events) + PausedEvents(flags[..i])
      {
        if streams[i].active {
          events := events + [MEStreamPaused(i)];
        }
        assert flags[..i + 1][..i] == flags[..i];
        i := i + 1;
      }
      assert flags[..i] == flags;
      state := SourcePaused;
      events := events + [MESourcePaused];
      hr := S_OK;
    }

    /** The first loop of media_source_stop: MEStreamStopped for each active stream. */
    method QueueStoppedEvents()
      modifies this
      ensures state == old(state) && workQueue == old(workQueue) && releasedTokens == old(releasedTokens)
      ensures events == old(events) + StoppedEvents(ActiveFlags())
    {
      ghost var flags := ActiveFlags();
      var i := 0;
      while i < |streams|
        invariant 0 <= i <= |streams|
        invariant state == old(state) && workQueue == old(workQueue) && releasedTokens == old(releasedTokens)
        invariant events == old(events) + StoppedEvents(flags[..i])
      {
        if streams[i].active {
          events := events + [MEStreamStopped(i)];
        }
        assert flags[..i + 1][..i] == flags[..i];
        i := i + 1;
      }
      assert flags[..i] == flags;
    }

    /** The part of media_source_stop after its shutdown check, on streams holding `active`, `eos` and `queues`. */
    method RunStop(ghost active: seq<bool>, ghost eos: seq<bool>, ghost queues: seq<seq<TokenRef>>)
      requires Snapshot(active, eos, queues, false)
      modifies this, streams
      ensures workQueue == old(workQueue) && state == SourceStopped
      ensures events == old(events) + StoppedEvents(active) + [MESourceStopped]
      ensures releasedTokens == old(releasedTokens) + AllNonNullTokens(queues, |streams|)
      ensures Snapshot(active, eos, EmptyQueues(|streams|), true)
    {
      StreamsHoldSnapshots(active, eos, queues, false);
      QueueStoppedEvents();
      state := SourceStopped;
      FlushAll(false, active, eos, queues);
      events := events + [MESourceStopped];
    }

    /**
     * media_source_stop: MEStreamStopped for each active stream, then
     * STOPPED, every token queue flushed without re-posting, and
     * MESourceStopped.
     */
    method ExecuteStop() returns (hr: HResult)
      requires Valid()
      modifies this, streams
      ensures old(events) <= events && old(releasedTokens) <= releasedTokens
      ensures Valid() && workQueue == old(workQueue)
      ensures old(state) == SourceShutdown ==> hr == MF_E_SHUTDOWN && unchanged(this) && unchanged(streams)
      ensures old(state) != SourceShutdown ==>
                hr == S_OK && state == SourceStopped
                && events == old(events) + StoppedEvents(old(ActiveFlags())) + [MESourceStopped]
                && releasedTokens == old(releasedTokens) + AllNonNullTokens(old(TokenQueues()), |streams|)
                && TokenQueues() == EmptyQueues(|streams|)
      ensures ActiveFlags() == old(ActiveFlags()) && EosFlags() == old(EosFlags())
    {
      if state == SourceShutdown {
        return MF_E_SHUTDOWN;
      }
      ghost var active, eos, queues := ActiveFlags(), EosFlags(), TokenQueues();
      ValidStreamsHold();
      RunStop(active, eos, queues);
      StreamsHoldSnapshots(active, eos, EmptyQueues(|streams|), true);
      hr := S_OK;
    }

    /** The state media_source_start has reached after updating the first `i` streams. */
    ghost predicate StartedUpTo(i: nat, selected: seq<bool>, wasActive: seq<bool>, newEos: seq<bool>, seek: bool,
                                active0: seq<bool>, eos0: seq<bool>, queues: seq<seq<TokenRef>>, events0: seq<Event>)
      reads this, streams
    {
      i <= |streams| == |selected| == |wasActive| == |newEos| == |active0| == |eos0| == |queues|
      && (forall j :: 0 <= j < |streams| ==> streams[j].streamId == j + 1)
      && (forall j :: 0 <= j < i ==> streams[j].Holds(selected[j], newEos[j], queues[j], false))
      && (forall j :: i <= j < |streams| ==> streams[j].Holds(active0[j], eos0[j], queues[j], false))
      && events == events0 + StartEvents(selected, wasActive, seek, i)
    }

    /** One iteration of the stream loop of media_source_start, on stream `i`. */
    method StartNext(i: nat, selected: seq<bool>, starting: bool, seek: bool, resetEos: bool,
                     ghost wasActive: seq<bool>, ghost newEos: seq<bool>,
                     ghost active0: seq<bool>, ghost eos0: seq<bool>, ghost queues: seq<seq<TokenRef>>, ghost events0: seq<Event>)
      requires i < |streams| && StartedUpTo(i, selected, wasActive, newEos, seek, active0, eos0, queues, events0)
      requires wasActive[i] == (!starting && active0[i]) && newEos[i] == (!resetEos && eos0[i])
      modifies this, streams[i]
      ensures state == old(state) && workQueue == old(workQueue) && releasedTokens == old(releasedTokens)
      ensures StartedUpTo(i + 1, selected, wasActive, newEos, seek, active0, eos0, queues, events0)
    {
      var stream := streams[i];
      assert stream.Holds(active0[i], eos0[i], queues[i], false);
      var wasActiveNow := !starting && stream.active;
      assert wasActiveNow == wasActive[i];
      stream.Select(selected[i], resetEos);
      if selected[i] {
        events := events + [if wasActiveNow then MEUpdatedStream(i) else MENewStream(i),
                            if seek then MEStreamSeeked(i) else MEStreamStarted(i)];
      }
      assert events == events0 + StartEvents(selected, wasActive, seek, i + 1);
      assert forall j :: 0 <= j < |streams| && j != i ==> streams[j] != stream;
    }

    /** The stream loop of media_source_start, from stream `i` on. */
    method StartFrom(i: nat, selected: seq<bool>, starting: bool, seek: bool, resetEos: bool,
                     ghost wasActive: seq<bool>, ghost newEos: seq<bool>,
                     ghost active0: seq<bool>, ghost eos0: seq<bool>, ghost queues: seq<seq<TokenRef>>, ghost events0: seq<Event>)
      requires StartedUpTo(i, selected, wasActive, newEos, seek, active0, eos0, queues, events0)
      requires forall j :: 0 <= j < |wasActive| ==> wasActive[j] == (!starting && active0[j])
      requires forall j :: 0 <= j < |newEos| ==> newEos[j] == (!resetEos && eos0[j])
      modifies this, streams
      ensures state == old(state) && workQueue == old(workQueue) && releasedTokens == old(releasedTokens)
      ensures StartedUpTo(|streams|, selected, wasActive, newEos, seek, active0, eos0, queues, events0)
    {
      var k := i;
      while k < |streams|
        invariant i <= k <= |streams|
        invariant state == old(state) && workQueue == old(workQueue) && releasedTokens == old(releasedTokens)
        invariant StartedUpTo(k, selected, wasActive, newEos, seek, active0, eos0, queues, events0)
      {
        StartNext(k, selected, starting, seek, resetEos, wasActive, newEos, active0, eos0, queues, events0);
        k := k + 1;
      }
    }

    /**
     * The stream loop of media_source_start on streams holding `active`,
     * `eos` and `queues`: every stream is selected or deselected, keeps its
     * token queue, and is announced.
     */
    method StartStreams(selected: seq<bool>, starting: bool, seek: bool, pos: Position,
                        ghost active: seq<bool>, ghost eos: seq<bool>, ghost queues: seq<seq<TokenRef>>)
      requires Snapshot(active, eos, queues, false) && |selected| == |streams|
      modifies this, streams
      ensures state == old(state) && workQueue == old(workQueue) && releasedTokens == old(releasedTokens)
      ensures Snapshot(selected, EosAfterStart(pos, eos), queues, false)
      ensures events == old(events) + StartEvents(selected, WasActive(starting, active), seek, |streams|)
    {
      StartFrom(0, selected, starting, seek, pos.Time?, WasActive(starting, active), EosAfterStart(pos, eos),
                active, eos, queues, events);
    }

    /**
     * The part of media_source_start after its checks, on streams holding
     * `active`, `eos` and `queues`: `starting` is whether the source was
     * STOPPED, `seek` whether it reports seeking and `pos` the start
     * position in use.
     */
    method RunStart(selected: seq<bool>, starting: bool, seek: bool, pos: Position,
                    ghost active: seq<bool>, ghost eos: seq<bool>, ghost queues: seq<seq<TokenRef>>)
      requires Snapshot(active, eos, queues, false) && |selected| == |streams|
      modifies this, streams
      ensures state == SourceRunning
      ensures Snapshot(selected, EosAfterStart(pos, eos), EmptyQueues(|streams|), true)
      ensures events == old(events) + StartEvents(selected, WasActive(starting, active), seek, |streams|)
                        + [if seek then MESourceSeeked else MESourceStarted]
      ensures pos.Empty? ==> workQueue == old(workQueue) + AllRequests(queues, |streams|)
      ensures pos.Empty? ==> releasedTokens == old(releasedTokens)
      ensures pos.Time? ==> releasedTokens == old(releasedTokens) + AllNonNullTokens(queues, |streams|)
      ensures pos.Time? ==> workQueue == old(workQueue)
    {
      state := SourceRunning;
      StartStreams(selected, starting, seek, pos, active, eos, queues);
      FlushAll(pos.Empty?, selected, EosAfterStart(pos, eos), queues);
      events := events + [if seek then MESourceSeeked else MESourceStarted];
    }

    /**
     * media_source_start: from any state but SHUTDOWN the source runs,
     * the selected streams become exactly the active ones, each announced
     * as new or updated and as started or seeked, end-of-stream flags are
     * cleared when there is a start position, the token queues are
     * re-posted (no position) or released (a position), and the source
     * reports MESourceSeeked or MESourceStarted.  `allocOk` is whether
     * allocating the descriptor table succeeded.
     */
    method ExecuteStart(selected: seq<bool>, position: Position, allocOk: bool) returns (hr: HResult)
      requires Valid() && |selected| == |streams|
      modifies this, streams
      ensures Valid()
      ensures old(events) <= events && old(workQueue) <= workQueue && old(releasedTokens) <= releasedTokens
      ensures hr == (if old(state) == SourceShutdown then MF_E_SHUTDOWN else if !allocOk then E_OUTOFMEMORY else S_OK)
      ensures hr != S_OK ==> unchanged(this) && unchanged(streams)
      ensures hr == S_OK ==>
                state == SourceRunning && ActiveFlags() == selected
                && EosFlags() == EosAfterStart(StartPosition(old(state), position), old(EosFlags()))
                && TokenQueues() == EmptyQueues(|streams|)
                && events == old(events)
                             + StartEvents(selected, WasActive(old(state) == SourceStopped, old(ActiveFlags())),
                                           IsSeek(old(state), position), |streams|)
                             + [if IsSeek(old(state), position) then MESourceSeeked else MESourceStarted]
      ensures hr == S_OK && StartPosition(old(state), position).Empty? ==>
                workQueue == old(workQueue) + AllRequests(old(TokenQueues()), |streams|)
                && releasedTokens == old(releasedTokens)
      ensures hr == S_OK && StartPosition(old(state), position).Time? ==>
                releasedTokens == old(releasedTokens) + AllNonNullTokens(old(TokenQueues()), |streams|)
                && workQueue == old(workQueue)
    {
      if state == SourceShutdown {
        return MF_E_SHUTDOWN;
      }
      var starting := state == SourceStopped;
      var seek := !starting && position != Empty;
      var pos := if state == SourceStopped && position == Empty then Time(0) else position;
      if !allocOk {
        return E_OUTOFMEMORY;
      }
      ghost var active, eos, queues := ActiveFlags(), EosFlags(), TokenQueues();
      ValidStreamsHold();
      RunStart(selected, starting, seek, pos, active, eos, queues);
      StreamsHoldSnapshots(selected, EosAfterStart(pos, eos), EmptyQueues(|streams|), true);
      hr := S_OK;
    }

    /**
     * media_stream_send_eos on stream `i` of streams holding `active`,
     * `eos` and `queues`: the stream reaches its end and reports
     * MEEndOfStream, and the source reports MEEndOfPresentation when every
     * active stream has then reached its end.
     */
    method SendEos(i: nat, ghost active: seq<bool>, ghost eos: seq<bool>, ghost queues: seq<seq<TokenRef>>)
      requires Snapshot(active, eos, queues, false) && i < |streams|
      modifies this, streams[i]
      ensures state == old(state) && workQueue == old(workQueue) && releasedTokens == old(releasedTokens)
      ensures Snapshot(active, eos[i := true], queues, false)
      ensures events == old(events) + [MEEndOfStream(i)]
                        + (if Ended(active, eos[i := true]) then [MEEndOfPresentation] else [])
    {
      streams[i].eos := true;
      events := events + [MEEndOfStream(i)];
      ghost var ended := eos[i := true];
      assert Snapshot(active, ended, queues, false);
      var j := 0;
      while j < |streams|
        invariant 0 <= j <= |streams|
        invariant forall k :: 0 <= k < j && active[k] ==> ended[k]
      {
        if streams[j].active && !streams[j].eos {
          return;
        }
        j := j + 1;
      }
      events := events + [MEEndOfPresentation];
    }

    /** enqueue_token on stream `i` of streams holding `active`, `eos` and `queues`. */
    method StoreToken(i: nat, token: TokenRef, allocOk: bool,
                      ghost active: seq<bool>, ghost eos: seq<bool>, ghost queues: seq<seq<TokenRef>>) returns (ok: bool)
      requires Snapshot(active, eos, queues, false) && i < |streams|
      modifies streams[i]
      ensures ok <==> allocOk || old(streams[i].tokenQueueCount < streams[i].tokenQueueCap)
      ensures Snapshot(active, eos, if ok then queues[i := queues[i] + [token]] else queues, false)
    {
      ok := streams[i].EnqueueToken(token, allocOk);
    }

    /**
     * The sample-request case of source_async_commands_Invoke for stream
     * `i`: while PAUSED the token is stored, while RUNNING a buffer from
     * the demuxer (`hasBuffer`) is sent as a sample carrying the token and
     * otherwise the stream ends; in any other state the request is
     * dropped.  `allocOk` is whether growing a full token queue succeeded.
     */
    method ExecuteRequestSample(i: nat, token: TokenRef, allocOk: bool, hasBuffer: bool)
      requires Valid() && i < |streams|
      modifies this, streams[i]
      ensures Valid() && state == old(state) && workQueue == old(workQueue) && releasedTokens == old(releasedTokens)
      ensures old(events) <= events
      ensures ActiveFlags() == old(ActiveFlags())
      ensures EosFlags() == if old(state) == SourceRunning && !hasBuffer then old(EosFlags())[i := true] else old(EosFlags())
      ensures old(state) == SourcePaused && (allocOk || old(streams[i].tokenQueueCount < streams[i].tokenQueueCap)) ==>
                TokenQueues() == old(TokenQueues())[i := old(streams[i].Tokens()) + [token]]
      ensures !(old(state) == SourcePaused && (allocOk || old(streams[i].tokenQueueCount < streams[i].tokenQueueCap))) ==>
                TokenQueues() == old(TokenQueues())
      ensures old(state) == SourceRunning && hasBuffer ==> events == old(events) + [MEMediaSample(i, token)]
      ensures old(state) == SourceRunning && !hasBuffer ==>
                events == old(events) + [MEEndOfStream(i)] + (if Ended(ActiveFlags(), EosFlags()) then [MEEndOfPresentation] else [])
      ensures old(state) != SourceRunning ==> events == old(events)
      ensures old(state) != SourcePaused && old(state) != SourceRunning ==> unchanged(this) && unchanged(streams)
    {
      ghost var active, eos, queues := ActiveFlags(), EosFlags(), TokenQueues();
      ValidStreamsHold();
      if state == SourcePaused {
        var ok := StoreToken(i, token, allocOk, active, eos, queues);
        StreamsHoldSnapshots(active, eos, if ok then queues[i := queues[i] + [token]] else queues, false);
      } else if state == SourceRunning {
        if hasBuffer {
          events := events + [MEMediaSample(i, token)];
        } else {
          SendEos(i, active, eos, queues);
          StreamsHoldSnapshots(active, eos[i := true], queues, false);
        }
      }
    }

    /** A command this source can run: a start names one flag per stream, a request an existing stream. */
    predicate Fits(cmd: Command)
    {
      match cmd
      case StartCmd(selected, _) => |selected| == |streams|
      case RequestSampleCmd(stream, _) => stream < |streams|
      case _ => true
    }

    /**
     * source_async_commands_Invoke: runs one command.  The state follows
     * NextState, the event log, work queue and released tokens only grow,
     * and a shut-down source is left as it is.  `allocOk` is the command's
     * allocation outcome and `hasBuffer` whether the demuxer has a buffer
     * for a sample request.
     */
    method Invoke(cmd: Command, allocOk: bool, hasBuffer: bool)
      requires Valid() && Fits(cmd)
      modifies this, streams
      ensures Valid() && state == NextState(old(state), cmd, allocOk)
      ensures old(events) <= events && old(workQueue) <= workQueue && old(releasedTokens) <= releasedTokens
      ensures old(state) == SourceShutdown ==> unchanged(this) && unchanged(streams)
    {
      match cmd
      case StartCmd(selected, position) =>
        var hr := ExecuteStart(selected, position, allocOk);
      case PauseCmd =>
        var hr := ExecutePause();
      case StopCmd =>
        var hr := ExecuteStop();
      case RequestSampleCmd(stream, token) =>
        ExecuteRequestSample(stream, token, allocOk, hasBuffer);
    }

    /** The command work queue delivering its oldest command to source_async_commands_Invoke. */
    method ProcessNext(allocOk: bool, hasBuffer: bool) returns (cmd: Command)
      requires Valid() && workQueue != [] && Fits(workQueue[0])
      modifies this, streams
      ensures cmd == old(workQueue[0])
      ensures Valid() && state == NextState(old(state), cmd, allocOk)
      ensures old(workQueue[1..]) <= workQueue
    {
      cmd := workQueue[0];
      workQueue := workQueue[1..];
      Invoke(cmd, allocOk, hasBuffer);
    }

    /**
     * media_source_init_descriptors: AUDIO and VIDEO descriptors that share
     * their type with another are flagged MF_SD_MUTUALLY_EXCLUSIVE, and the
     * last (MP4) or first (otherwise) AUDIO and VIDEO streams are made
     * active.  `majors[i]` is the major type of descriptor i.
     */
    method InitDescriptors(majors: seq<nat>, isMp4: bool) returns (exclusive: seq<bool>)
      requires Valid() && |majors| == |streams|
      modifies streams
      ensures exclusive == ExclusiveFlags(majors)
      ensures Valid() && EosFlags() == old(EosFlags()) && TokenQueues() == old(TokenQueues())
      ensures forall i :: 0 <= i < |streams| ==>
                streams[i].active == (old(streams[i].active) || Chosen(majors, isMp4, WG_MAJOR_TYPE_AUDIO) == Some(i)
                                      || Chosen(majors, isMp4, WG_MAJOR_TYPE_VIDEO) == Some(i))
    {
      var firstAudio, lastAudio, firstVideo, lastVideo;
      exclusive, firstAudio, lastAudio, firstVideo, lastVideo := ScanDescriptors(majors);
      var audio := if isMp4 then lastAudio else firstAudio;
      var video := if isMp4 then lastVideo else firstVideo;
      FirstOfSpec(majors, WG_MAJOR_TYPE_AUDIO);
      LastOfSpec(majors, WG_MAJOR_TYPE_AUDIO);
      FirstOfSpec(majors, WG_MAJOR_TYPE_VIDEO);
      LastOfSpec(majors, WG_MAJOR_TYPE_VIDEO);
      ghost var active, eos, queues := ActiveFlags(), EosFlags(), TokenQueues();
      ValidStreamsHold();
      ActivateStreams(audio, video, active, eos, queues);
      StreamsHoldSnapshots(WithActive(active, audio, video), eos, queues, false);
    }

    /** The last part of media_source_init_descriptors: streams `audio` and `video`, when present, become active. */
    method ActivateStreams(audio: Option<nat>, video: Option<nat>,
                           ghost active: seq<bool>, ghost eos: seq<bool>, ghost queues: seq<seq<TokenRef>>)
      requires Snapshot(active, eos, queues, false)
      requires audio.Some? ==> audio.value < |streams|
      requires video.Some? ==> video.value < |streams|
      modifies streams
      ensures Snapshot(WithActive(active, audio, video), eos, queues, false)
    {
      ghost var now := active;
      if audio.Some? {
        Activate(audio.value, now, eos, queues);
        now := now[audio.value := true];
      }
      if video.Some? {
        Activate(video.value, now, eos, queues);
        now := now[video.value := true];
      }
      assert now == WithActive(active, audio, video);
    }

    /** Makes stream `i` of streams holding `active`, `eos` and `queues` active. */
    method Activate(i: nat, ghost active: seq<bool>, ghost eos: seq<bool>, ghost queues: seq<seq<TokenRef>>)
      requires Snapshot(active, eos, queues, false) && i < |streams|
      modifies streams[i]
      ensures Snapshot(active[i := true], eos, queues, false)
    {
      streams[i].active := true;
    }
  }
}
