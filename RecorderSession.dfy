/** The recording session controller of `src/hooks/useAudioRecorder.ts`:
    the hook's refs and React state become the fields of one object, and
    every callback the browser would invoke (a timer tick, a socket event,
    a recogniser result, the recorder's `stop` event, the end of the
    refinement request) becomes a method driven by that event. Which
    transcription sources are configured, and whether the browser offers a
    speech recogniser, are fixed when the object is made. */
module RecorderSession {
  import opened Wrappers
  import opened Text
  import opened TranscriptMerge

  /** A recorded chunk, as the bytes of its Blob. */
  type Blob = seq<bv8>

  /** A PCM16 frame posted by the worklet. */
  type PcmFrame = seq<int>

  /** What the hook knows about one of its sockets: none held, or the
      `readyState` of the one it holds. */
  datatype Sock = NoSocket | Connecting | Open | Closed

  /** A number as `Number(...)` yields it. */
  datatype JsNumber = Finite(v: real) | NaN | PosInf | NegInf

  /** `micGain`: 2 when the configured value is not a finite number,
      otherwise the value clamped into [1, 6]. */
  function MicGain(raw: JsNumber): (r: real)
    ensures 1.0 <= r <= 6.0
    ensures !raw.Finite? ==> r == 2.0
    ensures raw.Finite? && 1.0 <= raw.v <= 6.0 ==> r == raw.v
    ensures raw.Finite? && raw.v < 1.0 ==> r == 1.0
    ensures raw.Finite? && raw.v > 6.0 ==> r == 6.0
  {
    match raw
    case Finite(v) =>
      var lo := if v > 1.0 then v else 1.0;
      if lo < 6.0 then lo else 6.0
    case _ => 2.0
  }

  /** The level the meter shows for a root-mean-square amplitude:
      `rms * 2.8` clamped into [0, 1]. */
  function MeterLevel(rms: real): (r: real)
    ensures 0.0 <= r <= 1.0
    ensures 0.0 <= rms * 2.8 <= 1.0 ==> r == rms * 2.8
    ensures rms * 2.8 >= 1.0 ==> r == 1.0
    ensures rms * 2.8 <= 0.0 ==> r == 0.0
  {
    var x := rms * 2.8;
    var lo := if x > 0.0 then x else 0.0;
    if lo < 1.0 then lo else 1.0
  }

  /** A louder signal never shows a lower level. */
  lemma MeterLevelMonotonic(a: real, b: real)
    requires a <= b
    ensures MeterLevel(a) <= MeterLevel(b)
  {
    assert a * 2.8 <= b * 2.8;
  }

  /** How `stopRecording`'s promise stands when the call returns: settled
      with null at once, or waiting for the recorder's `stop` event. */
  datatype StopOutcome = ResolvedNull | AwaitingOnStop

  class Recorder {
    /** `useLocalWs`: the `/ws/transcribe` endpoint is configured. */
    const useLocalWs: bool
    /** `useVoskWs`: the `/ws/vosk` endpoint is configured. */
    const useVoskWs: bool
    /** The browser offers a speech recogniser. */
    const hasRecognizer: bool
    /** The `/transcribe` refinement endpoint is configured. */
    const refineConfigured: bool

    // React state
    var isRecording: bool
    var duration: nat
    var transcript: string
    var audioLevel: real
    var isRefining: bool

    // the media recorder and its chunks
    var recorderCreated: bool
    var recorderActive: bool
    var onstopPending: bool
    var chunks: seq<Blob>

    var timerRunning: bool
    var meterRunning: bool
    /** `speechStartedRef`: the browser recogniser was started by the hook. */
    var speechStarted: bool

    // the /ws/vosk stream
    var voskSocket: Sock
    var voskConnected: bool
    var voskFinal: string
    var voskPartial: string
    var voskSent: seq<PcmFrame>
    var voskStopSent: bool
    /** Pending 1200 ms fallback timers. */
    var graceTimers: nat

    // the /ws/transcribe chunk stream
    var chunkSocket: Sock
    var chunkSent: seq<Blob>
    var chunkStopSent: bool

    /** Refinement requests not yet settled. */
    var refinePending: nat

    /** What holds between events: an unconfigured stream never has a
        socket, a connection or a fallback timer; the browser recogniser
        is never started while a chunk socket is configured or while the
        Vosk stream is connected, so the two never transcribe at once. */
    predicate Valid()
      reads this
    {
      (!useVoskWs ==> voskSocket == NoSocket && !voskConnected && graceTimers == 0 && voskSent == []) &&
      (!useLocalWs ==> chunkSocket == NoSocket && chunkSent == []) &&
      (speechStarted ==> hasRecognizer && !useLocalWs) &&
      (voskConnected ==> !speechStarted) &&
      (isRecording ==> recorderCreated) &&
      (recorderActive ==> recorderCreated) &&
      (onstopPending ==> recorderCreated)
    }

    constructor (useLocalWs: bool, useVoskWs: bool, hasRecognizer: bool, refineConfigured: bool)
      ensures Valid()
      ensures this.useLocalWs == useLocalWs && this.useVoskWs == useVoskWs
      ensures this.hasRecognizer == hasRecognizer && this.refineConfigured == refineConfigured
      ensures !isRecording && duration == 0 && transcript == [] && audioLevel == 0.0 && !isRefining
      ensures !recorderCreated && !recorderActive && !onstopPending && chunks == []
      ensures !timerRunning && !meterRunning && !speechStarted
      ensures voskSocket == NoSocket && !voskConnected && voskFinal == [] && voskPartial == []
      ensures voskSent == [] && !voskStopSent && graceTimers == 0
      ensures chunkSocket == NoSocket && chunkSent == [] && !chunkStopSent && refinePending == 0
    {
      this.useLocalWs := useLocalWs;
      this.useVoskWs := useVoskWs;
      this.hasRecognizer := hasRecognizer;
      this.refineConfigured := refineConfigured;
      isRecording, duration, transcript, audioLevel, isRefining := false, 0, [], 0.0, false;
      recorderCreated, recorderActive, onstopPending, chunks := false, false, false, [];
      timerRunning, meterRunning, speechStarted := false, false, false;
      voskSocket, voskConnected, voskFinal, voskPartial := NoSocket, false, [], [];
      voskSent, voskStopSent, graceTimers := [], false, 0;
      chunkSocket, chunkSent, chunkStopSent := NoSocket, [], false;
      refinePending := 0;
    }

    /** `startRecording`. When the microphone or the recorder cannot be
        obtained the error is only logged and nothing changes. Otherwise
        the chunk list is emptied, a chunk socket is opened when
        configured, recording starts with the duration at 0, the level
        meter and the one-second timer run, and the recogniser starts at
        once only when no socket endpoint is configured; with the Vosk
        endpoint, its socket is opened and a 1200 ms fallback timer set. */
    method Start(deviceOk: bool)
      requires Valid()
      modifies this`chunks, this`recorderCreated, this`recorderActive, this`isRecording, this`duration
      modifies this`timerRunning, this`meterRunning, this`isRefining, this`chunkSocket
      modifies this`voskSocket, this`voskConnected, this`graceTimers, this`speechStarted
      ensures Valid()
      ensures !deviceOk ==> unchanged(this)
      ensures deviceOk ==> chunks == [] && recorderCreated && recorderActive && isRecording && duration == 0
      ensures deviceOk ==> timerRunning && meterRunning
      ensures isRefining == (old(isRefining) || (deviceOk && (useLocalWs || useVoskWs)))
      ensures chunkSocket == if deviceOk && useLocalWs then Connecting else old(chunkSocket)
      ensures voskSocket == if deviceOk && useVoskWs then Connecting else old(voskSocket)
      ensures voskConnected == if deviceOk && useVoskWs then false else old(voskConnected)
      ensures graceTimers == if deviceOk && useVoskWs then old(graceTimers) + 1 else old(graceTimers)
      ensures speechStarted == (old(speechStarted) || (deviceOk && hasRecognizer && !useLocalWs && !useVoskWs))
    {
      if !deviceOk {
        return;
      }
      chunks := [];
      if useLocalWs {
        OpenChunkSocket();
      }
      BeginRecording();
      if useVoskWs {
        StartVoskStreaming();
      }
      timerRunning := true;
      if hasRecognizer && !useLocalWs && !useVoskWs {
        speechStarted := true;
      }
    }

    /** A chunk socket is opened: waiting for it to connect. */
    method OpenChunkSocket()
      requires Valid() && useLocalWs
      modifies this`isRefining, this`chunkSocket
      ensures Valid()
      ensures isRefining && chunkSocket == Connecting
    {
      isRefining := true;
      chunkSocket := Connecting;
    }

    /** The recorder is created and started, the duration restarts at 0 and
        the level meter runs. */
    method BeginRecording()
      requires Valid()
      modifies this`recorderCreated, this`recorderActive, this`isRecording, this`duration, this`meterRunning
      ensures Valid()
      ensures recorderCreated && recorderActive && isRecording && duration == 0 && meterRunning
    {
      recorderCreated, recorderActive := true, true;
      isRecording, duration := true, 0;
      meterRunning := true;
    }

    /** The synchronous part of `startVoskStreaming`: waiting for the
        socket it opens, not yet connected, with the 1200 ms fallback timer
        set by the caller. */
    method StartVoskStreaming()
      requires Valid() && useVoskWs
      modifies this`isRefining, this`voskSocket, this`voskConnected, this`graceTimers
      ensures Valid()
      ensures isRefining && voskSocket == Connecting && !voskConnected && graceTimers == old(graceTimers) + 1
    {
      isRefining := true;
      voskSocket := Connecting;
      voskConnected := false;
      graceTimers := graceTimers + 1;
    }

    /** The one-second interval adds one to the duration. */
    method Tick()
      requires Valid() && timerRunning
      modifies this`duration
      ensures Valid()
      ensures duration == old(duration) + 1
    {
      duration := duration + 1;
    }

    /** A level-meter frame with the measured root-mean-square amplitude. */
    method MeterTick(rms: real)
      requires Valid() && meterRunning
      modifies this`audioLevel
      ensures Valid()
      ensures audioLevel == MeterLevel(rms) && 0.0 <= audioLevel <= 1.0
    {
      audioLevel := MeterLevel(rms);
    }

    /** The 1200 ms fallback: the browser recogniser starts only when the
        Vosk stream has not connected, a recogniser exists and no chunk
        socket is configured. Whether recording is still on is not
        checked. */
    method GraceTimeout()
      requires Valid() && graceTimers > 0
      modifies this`graceTimers, this`speechStarted
      ensures Valid()
      ensures graceTimers == old(graceTimers) - 1
      ensures speechStarted == (old(speechStarted) || (!voskConnected && hasRecognizer && !useLocalWs))
    {
      graceTimers := graceTimers - 1;
      if !voskConnected && hasRecognizer && !useLocalWs {
        speechStarted := true;
      }
    }

    /** `ws.onopen` of the Vosk socket: connected, no longer waiting, and a
        recogniser the fallback started is stopped. */
    method VoskOpen()
      requires Valid() && voskSocket == Connecting
      modifies this`voskSocket, this`voskConnected, this`isRefining, this`speechStarted
      ensures Valid()
      ensures voskSocket == Open && voskConnected && !isRefining && !speechStarted
    {
      voskSocket := Open;
      voskConnected := true;
      isRefining := false;
      if hasRecognizer && speechStarted {
        speechStarted := false;
      }
    }

    /** `ws.onerror` / `ws.onclose` of a Vosk socket. The handlers stay
        attached to a socket the hook has already let go of, so the event
        also arrives after `stopVoskStreaming` or from a socket an earlier
        recording opened (`current` is false); either way it clears the
        connected flag and `isRefining`, whatever set them, but only the
        socket the hook holds changes its own state. */
    method VoskDown(current: bool)
      requires Valid()
      modifies this`voskConnected, this`isRefining, this`voskSocket
      ensures Valid()
      ensures !voskConnected && !isRefining
      ensures voskSocket == if current && old(voskSocket) != NoSocket then Closed else old(voskSocket)
    {
      voskConnected := false;
      isRefining := false;
      if current && voskSocket != NoSocket {
        voskSocket := Closed;
      }
    }

    /** A `partial` message (`text` is `None` when it is not a string):
        the partial is remembered and the transcript shows the final text
        followed by it; the final text is not touched. */
    method VoskPartial(text: Option<string>)
      requires Valid() && voskSocket == Open
      modifies this`voskPartial, this`transcript
      ensures Valid()
      ensures text.None? ==> unchanged(this)
      ensures text.Some? ==> voskPartial == text.value && transcript == Combined(voskFinal, text.value)
    {
      if text.Some? {
        voskPartial := text.value;
        var shown := Combined(voskFinal, text.value);
        SetTranscriptValue(shown);
      }
    }

    /** A `final` message: the text is merged into the final text unless it
        is blank or already at its end, the partial is cleared and the
        transcript shows exactly the final text. */
    method VoskFinal(text: Option<string>)
      requires Valid() && voskSocket == Open
      modifies this`voskFinal, this`voskPartial, this`transcript
      ensures Valid()
      ensures text.None? ==> unchanged(this)
      ensures text.Some? ==> voskFinal == MergeFinal(old(voskFinal), text.value) && voskPartial == [] && transcript == voskFinal
    {
      if text.Some? {
        var next := MergeFinal(voskFinal, text.value);
        PublishFinal(next);
      }
    }

    /** The final text becomes `next`, the partial is cleared and the
        transcript shows the final text. */
    method PublishFinal(next: string)
      requires Valid()
      modifies this`voskFinal, this`voskPartial, this`transcript
      ensures Valid()
      ensures voskFinal == next && voskPartial == [] && transcript == next
    {
      voskFinal := next;
      voskPartial := [];
      transcript := voskFinal;
    }

    /** An `error` message from the server: the stream counts as not
        connected. No fallback timer is armed by it. */
    method VoskErrorMessage()
      requires Valid() && voskSocket == Open
      modifies this`voskConnected
      ensures Valid()
      ensures !voskConnected
    {
      voskConnected := false;
    }

    /** A frame from the PCM worklet is sent only while the Vosk socket is
        open. */
    method WorkletFrame(frame: PcmFrame)
      requires Valid() && useVoskWs
      modifies this`voskSent
      ensures Valid()
      ensures voskSent == if voskSocket == Open then old(voskSent) + [frame] else old(voskSent)
    {
      if voskSocket == Open {
        voskSent := voskSent + [frame];
      }
    }

    /** `recognition.onresult` with the results from `resultIndex` on. */
    method RecognizerResult(window: seq<RecResult>)
      requires Valid()
      modifies this`transcript
      ensures Valid()
      ensures transcript == NativeUpdate(old(transcript), window)
    {
      var next := NativeUpdate(transcript, window);
      SetTranscriptValue(next);
    }

    /** `ondataavailable`: a non-empty chunk is kept, and sent over the
        chunk socket when that is configured and open. */
    method DataAvailable(data: Blob)
      requires Valid()
      modifies this`chunks, this`chunkSent
      ensures Valid()
      ensures chunks == if data == [] then old(chunks) else old(chunks) + [data]
      ensures chunkSent == if data != [] && useLocalWs && chunkSocket == Open then old(chunkSent) + [data] else old(chunkSent)
    {
      if |data| > 0 {
        chunks := chunks + [data];
        if useLocalWs && chunkSocket == Open {
          chunkSent := chunkSent + [data];
        }
      }
    }

    /** `onopen` of the chunk socket. */
    method ChunkOpen()
      requires Valid() && chunkSocket == Connecting
      modifies this`chunkSocket, this`isRefining
      ensures Valid()
      ensures chunkSocket == Open && !isRefining
    {
      chunkSocket := Open;
      isRefining := false;
    }

    /** `onerror` / `onclose` of a chunk socket, which may be one the hook
        has already let go of (`current` is false): `isRefining` is cleared
        either way, and only the socket the hook holds changes its state. */
    method ChunkDown(current: bool)
      requires Valid()
      modifies this`isRefining, this`chunkSocket
      ensures Valid()
      ensures !isRefining
      ensures chunkSocket == if current && old(chunkSocket) != NoSocket then Closed else old(chunkSocket)
    {
      isRefining := false;
      if current && chunkSocket != NoSocket {
        chunkSocket := Closed;
      }
    }

    /** A `partial` or `final` message on the chunk socket replaces the
        transcript with its text when that is a string. */
    method ChunkMessage(text: Option<string>)
      requires Valid() && chunkSocket == Open
      modifies this`transcript
      ensures Valid()
      ensures transcript == if text.Some? then text.value else old(transcript)
    {
      if text.Some? {
        transcript := text.value;
      }
    }

    /** `setTranscriptValue`. */
    method SetTranscriptValue(text: string)
      requires Valid()
      modifies this`transcript
      ensures Valid()
      ensures transcript == text
    {
      transcript := text;
    }

    /** `stopLevelMeter`: the meter stops and shows 0. */
    method StopLevelMeter()
      requires Valid()
      modifies this`meterRunning, this`audioLevel
      ensures Valid()
      ensures !meterRunning && audioLevel == 0.0
    {
      meterRunning := false;
      audioLevel := 0.0;
    }

    /** `stopVoskStreaming`: the final and partial text are cleared; a held
        socket is sent `stop` when it is open, then closed and let go of. */
    method StopVoskStreaming()
      requires Valid()
      modifies this`voskFinal, this`voskPartial, this`voskSocket, this`voskStopSent
      ensures Valid()
      ensures voskFinal == [] && voskPartial == [] && voskSocket == NoSocket
      ensures voskStopSent == (old(voskStopSent) || old(voskSocket) == Open)
    {
      voskFinal := [];
      voskPartial := [];
      if voskSocket != NoSocket {
        if voskSocket == Open {
          voskStopSent := true;
        }
        voskSocket := NoSocket;
      }
    }

    /** `stopRecording`. With no recorder ever created the promise settles
        with null and nothing changes. Otherwise the timer, the recogniser,
        the meter and the Vosk stream are stopped, the recorder is asked to
        stop (its `stop` event then settles the promise; a recorder that is
        no longer recording fires none), and the chunk socket is sent
        `stop` when open, closed and let go of. */
    method Stop() returns (outcome: StopOutcome)
      requires Valid()
      modifies this`timerRunning, this`speechStarted, this`meterRunning, this`audioLevel
      modifies this`voskFinal, this`voskPartial, this`voskSocket, this`voskStopSent
      modifies this`recorderActive, this`onstopPending, this`chunkSocket, this`chunkStopSent
      ensures Valid()
      ensures outcome == if old(recorderCreated) then AwaitingOnStop else ResolvedNull
      ensures !old(recorderCreated) ==> unchanged(this)
      ensures old(recorderCreated) ==> !timerRunning && !speechStarted && !meterRunning && audioLevel == 0.0
      ensures old(recorderCreated) ==> !recorderActive && onstopPending == (old(onstopPending) || old(recorderActive))
      ensures old(recorderCreated) ==> chunkSocket == NoSocket && chunkStopSent == (old(chunkStopSent) || old(chunkSocket) == Open)
      ensures old(recorderCreated) && useVoskWs ==> voskFinal == [] && voskPartial == [] && voskSocket == NoSocket
      ensures voskStopSent == (old(voskStopSent) || (old(recorderCreated) && useVoskWs && old(voskSocket) == Open))
      ensures !useVoskWs ==> voskFinal == old(voskFinal) && voskPartial == old(voskPartial) && voskSocket == old(voskSocket)
    {
      if !recorderCreated {
        return ResolvedNull;
      }
      StopTimerAndRecognizer();
      StopLevelMeter();
      if useVoskWs {
        StopVoskStreaming();
      }
      RequestRecorderStop();
      StopChunkSocket();
      outcome := AwaitingOnStop;
    }

    /** The one-second timer stops, and so does the browser recogniser
        when there is one. */
    method StopTimerAndRecognizer()
      requires Valid()
      modifies this`timerRunning, this`speechStarted
      ensures Valid()
      ensures !timerRunning && speechStarted == (old(speechStarted) && !hasRecognizer)
    {
      timerRunning := false;
      if hasRecognizer {
        speechStarted := false;
      }
    }

    /** `mediaRecorder.stop()`: a recording recorder stops and will fire its
        `stop` event; one already inactive fires none. */
    method RequestRecorderStop()
      requires Valid() && recorderCreated
      modifies this`recorderActive, this`onstopPending
      ensures Valid()
      ensures !recorderActive && onstopPending == (old(onstopPending) || old(recorderActive))
    {
      onstopPending := onstopPending || recorderActive;
      recorderActive := false;
    }

    /** The end of `stopRecording`: a held chunk socket is sent `stop` when
        open, then closed and let go of. */
    method StopChunkSocket()
      requires Valid()
      modifies this`chunkSocket, this`chunkStopSent
      ensures Valid()
      ensures chunkSocket == NoSocket && chunkStopSent == (old(chunkStopSent) || old(chunkSocket) == Open)
    {
      if chunkSocket != NoSocket {
        if chunkSocket == Open {
          chunkStopSent := true;
        }
        chunkSocket := NoSocket;
      }
    }

    /** The recorder's `stop` event: recording is off, the trailing interim
        marker is stripped, refinement is requested when configured, and the
        promise settles with the Blob of every chunk kept since the start. */
    method RecorderStopped() returns (blob: seq<Blob>)
      requires Valid() && onstopPending
      modifies this`onstopPending, this`isRecording, this`transcript, this`isRefining, this`refinePending
      ensures Valid()
      ensures blob == chunks
      ensures !onstopPending && !isRecording && transcript == BaseText(old(transcript))
      ensures isRefining == (old(isRefining) || refineConfigured)
      ensures refinePending == if refineConfigured then old(refinePending) + 1 else old(refinePending)
    {
      var stripped := BaseText(transcript);
      EndRecording(stripped);
      blob := chunks;
    }

    /** Recording is off, the transcript becomes `text`, and refinement is
        requested when configured. */
    method EndRecording(text: string)
      requires Valid() && onstopPending
      modifies this`onstopPending, this`isRecording, this`transcript, this`isRefining, this`refinePending
      ensures Valid()
      ensures !onstopPending && !isRecording && transcript == text
      ensures isRefining == (old(isRefining) || refineConfigured)
      ensures refinePending == if refineConfigured then old(refinePending) + 1 else old(refinePending)
    {
      onstopPending := false;
      isRecording := false;
      transcript := text;
      if refineConfigured {
        isRefining := true;
        refinePending := refinePending + 1;
      }
    }

    /** The refinement request settles: a non-empty string `text` in the
        reply replaces the transcript with its stripped value; a failure or
        any other reply leaves it; `isRefining` is cleared either way. */
    method RefineDone(reply: Option<string>)
      requires Valid() && refinePending > 0
      modifies this`refinePending, this`isRefining, this`transcript
      ensures Valid()
      ensures refinePending == old(refinePending) - 1 && !isRefining
      ensures transcript == if reply.Some? && reply.value != [] then Trim(reply.value) else old(transcript)
    {
      var next := if reply.Some? && reply.value != [] then Trim(reply.value) else transcript;
      SettleRefine(next);
    }

    /** One refinement request is settled, `isRefining` is cleared and the
        transcript becomes `text`. */
    method SettleRefine(text: string)
      requires Valid() && refinePending > 0
      modifies this`refinePending, this`isRefining, this`transcript
      ensures Valid()
      ensures refinePending == old(refinePending) - 1 && !isRefining && transcript == text
    {
      refinePending := refinePending - 1;
      transcript := text;
      isRefining := false;
    }

    /** `resetTranscript`. */
    method Reset()
      requires Valid()
      modifies this`transcript, this`duration, this`audioLevel, this`isRefining, this`voskFinal, this`voskPartial
      ensures Valid()
      ensures transcript == [] && duration == 0 && audioLevel == 0.0 && !isRefining
      ensures voskFinal == [] && voskPartial == []
    {
      transcript := [];
      duration := 0;
      audioLevel := 0.0;
      isRefining := false;
      voskFinal := [];
      voskPartial := [];
    }
  }
}
