/** The transcription server (`backend/main.py`): the overlap-aware text
    merge, the receive loops of the `/ws/transcribe` and `/ws/vosk` sockets,
    and the input checks of the `/transcribe` upload. The recognisers, the
    audio conversion, the clock and the socket transport are outside the
    model: each inbound message carries what they would have produced. */
module Backend {
  import opened Wrappers
  import opened Text

  // ----- merge_with_overlap -----

  /** Default `max_overlap`: how many trailing characters of the base are
      searched for an overlap. */
  const MAX_OVERLAP: nat := 80
  /** The search loop stops before 5, so the shortest overlap tried is 6. */
  const MIN_OVERLAP: nat := 6

  /** The last `k` characters of `tail` equal, ignoring case, the first `k`
      characters of `a`. */
  predicate OverlapAt(tail: string, a: string, k: nat)
  {
    k <= |tail| && k <= |a| && ToLower(tail[|tail| - k..]) == ToLower(a[..k])
  }

  /** The descending search `for k in range(upper, 5, -1)` with its `break`:
      the first (largest) overlap length from `k` down to 6, or 0. */
  function BestOverlap(tail: string, a: string, k: nat): (r: nat)
    ensures r == 0 || (MIN_OVERLAP <= r <= k && OverlapAt(tail, a, r))
    ensures forall j :: r < j <= k && MIN_OVERLAP <= j ==> !OverlapAt(tail, a, j)
  {
    if k < MIN_OVERLAP then 0
    else if OverlapAt(tail, a, k) then k
    else BestOverlap(tail, a, k - 1)
  }

  /** `merge_with_overlap(base, addition)`: both texts stripped, an empty
      one yields the other, otherwise they are joined around their overlap. */
  function MergeWithOverlap(base: string, addition: string): (r: string)
    ensures Trim(base) == [] ==> r == Trim(addition)
    ensures Trim(base) != [] && Trim(addition) == [] ==> r == Trim(base)
    ensures Trimmed(r) && StartsWith(r, Trim(base))
    ensures Trim(addition) != [] ==> r != []
  {
    var b := Trim(base);
    var a := Trim(addition);
    if b == [] then a
    else if a == [] then b
    else OverlapJoin(b, a)
  }

  /** The merge of two stripped, non-empty texts: the base followed by the
      addition without the overlap the search finds, or after a space when
      there is none; the outer `strip()` changes nothing. */
  function OverlapJoin(b: string, a: string): (r: string)
    requires Trimmed(b) && Trimmed(a) && b != [] && a != []
    ensures Trimmed(r) && r != [] && StartsWith(r, b)
  {
    var tail := Last(b, MAX_OVERLAP);
    var best := BestOverlap(tail, a, if |tail| < |a| then |tail| else |a|);
    JoinedShape(b, a, best);
    Trim(Joined(b, a, best))
  }

  /** The text before the outer `strip()`: the base and the addition without
      its first `best` characters, or after a space when `best` is 0. */
  function Joined(b: string, a: string, best: nat): string
    requires best <= |a|
  {
    if best > 0 then b + a[best..] else b + " " + a
  }

  lemma JoinedShape(b: string, a: string, best: nat)
    requires Trimmed(b) && Trimmed(a) && b != [] && a != [] && best <= |a|
    ensures Trimmed(Joined(b, a, best)) && Joined(b, a, best) != [] && StartsWith(Joined(b, a, best), b)
  {
    var s := Joined(b, a, best);
    if best > 0 {
      assert s == b + a[best..];
      assert Trimmed(s) && s != [] && s[..|b|] == b by {
        TrimmedOverlapJoin(b, a, best);
      }
    } else {
      assert s == b + " " + a;
      assert Trimmed(s) && s != [] && s[..|b|] == b by {
        TrimmedJoin(b, a);
      }
    }
  }

  /** A trimmed base followed by the rest of a trimmed addition needs no
      further stripping. */
  lemma TrimmedOverlapJoin(b: string, a: string, k: nat)
    requires Trimmed(b) && Trimmed(a) && b != [] && k <= |a|
    ensures Trimmed(b + a[k..]) && Trim(b + a[k..]) == b + a[k..]
  {
    var s := b + a[k..];
    assert s[0] == b[0];
    assert s[|s| - 1] == (if k == |a| then b[|b| - 1] else a[|a| - 1]);
    assert Trimmed(s);
  }

  /** The longest overlap of at least 6 characters between the end of `b`
      (within its last 80 characters) and the start of `a`, ignoring case. */
  predicate LongestOverlap(b: string, a: string, k: nat)
  {
    MIN_OVERLAP <= k && OverlapAt(Last(b, MAX_OVERLAP), a, k) &&
    forall j :: k < j <= |a| ==> !OverlapAt(Last(b, MAX_OVERLAP), a, j)
  }

  /** No overlap of at least 6 characters exists. */
  predicate NoOverlap(b: string, a: string)
  {
    forall k :: MIN_OVERLAP <= k <= |a| ==> !OverlapAt(Last(b, MAX_OVERLAP), a, k)
  }

  /** What the merge of two non-empty texts is, independently of how the
      search runs: the addition after a space when no overlap exists,
      otherwise the base followed by the addition without its longest
      overlap. */
  lemma OverlapJoinSpec(b: string, a: string) returns (k: nat)
    requires Trimmed(b) && Trimmed(a) && b != [] && a != []
    ensures k == 0 ==> NoOverlap(b, a) && OverlapJoin(b, a) == b + " " + a
    ensures k != 0 ==> LongestOverlap(b, a, k) && k <= |a| && OverlapJoin(b, a) == b + a[k..]
  {
    var tail := Last(b, MAX_OVERLAP);
    var upper := if |tail| < |a| then |tail| else |a|;
    k := BestOverlap(tail, a, upper);
    assert forall j :: upper < j ==> !OverlapAt(tail, a, j);
    if k > 0 {
      TrimmedOverlapJoin(b, a, k);
    } else {
      TrimmedJoin(b, a);
    }
  }

  /** An addition of 6 to 80 characters that, ignoring case, is already the
      end of the base leaves the base unchanged. */
  lemma MergeRepeatAtEnd(base: string, addition: string)
    requires Trim(base) != []
    requires MIN_OVERLAP <= |Trim(addition)| <= MAX_OVERLAP
    requires EndsWith(ToLower(Trim(base)), ToLower(Trim(addition)))
    ensures MergeWithOverlap(base, addition) == Trim(base)
  {
    var b, a := Trim(base), Trim(addition);
    WholeOverlap(b, a);
    var k := OverlapJoinSpec(b, a);
    NothingLeft(b, a);
  }

  /** An addition that is the end of the base overlaps it entirely. */
  lemma WholeOverlap(b: string, a: string)
    requires |a| <= MAX_OVERLAP && EndsWith(ToLower(b), ToLower(a))
    ensures OverlapAt(Last(b, MAX_OVERLAP), a, |a|)
    ensures forall j :: |a| < j ==> !OverlapAt(Last(b, MAX_OVERLAP), a, j)
  {
    var tail := Last(b, MAX_OVERLAP);
    var n := |a|;
    assert tail == b[|b| - |tail|..];
    ToLowerSlice(b, |b| - n, |b|);
    assert tail[|tail| - n..] == b[|b| - n..];
    assert a[..n] == a;
  }

  lemma NothingLeft(b: string, a: string)
    ensures b + a[|a|..] == b
  {
    assert a[|a|..] == [];
  }

  /** Overlaps of five characters or fewer are never collapsed: when the
      only shared text is that short, the addition is appended whole after a
      space. */
  lemma MergeShortOverlapKept(base: string, addition: string)
    requires Trim(base) != [] && Trim(addition) != []
    requires NoOverlap(Trim(base), Trim(addition))
    ensures MergeWithOverlap(base, addition) == Trim(base) + " " + Trim(addition)
  {
    var k := OverlapJoinSpec(Trim(base), Trim(addition));
  }

  /** When an overlap of length `j` (at least 6) exists, the merge removes
      at least `j` characters of the addition: the longest overlap wins. */
  lemma MergeLongestWins(base: string, addition: string, j: nat) returns (k: nat)
    requires Trim(base) != [] && Trim(addition) != []
    requires MIN_OVERLAP <= j && OverlapAt(Last(Trim(base), MAX_OVERLAP), Trim(addition), j)
    ensures j <= k <= |Trim(addition)| && MergeWithOverlap(base, addition) == Trim(base) + Trim(addition)[k..]
  {
    k := OverlapJoinSpec(Trim(base), Trim(addition));
  }

  // ----- control frames -----

  /** A text frame whose stripped, lower-cased content is `stop`, `close`
      or `fim` ends a receive loop. */
  predicate IsControlWord(text: string)
  {
    var t := ToLower(Trim(text));
    t == "stop" || t == "close" || t == "fim"
  }

  /** What the client sends back over either socket. */
  datatype Outbound = Ready | Partial(text: string) | Final(text: string) | ErrorMsg(message: string)

  // ----- /ws/transcribe -----

  /** One received message of `/ws/transcribe`. A binary frame carries its
      length, whether the throttle interval has passed since the last
      transcribed chunk, and the transcription of the chunk (`None` when
      conversion or transcription raised). */
  datatype ChunkMsg =
    | ChunkDisconnect
    | ChunkText(text: string)
    | ChunkBinary(size: nat, due: bool, transcript: Option<string>)

  /** The loop variables of `ws_transcribe`: the accumulated text, the
      messages sent so far and whether the loop has been left. */
  datatype ChunkState = ChunkState(accumulated: string, sent: seq<Outbound>, done: bool)

  /** One pass of the receive loop. */
  function ChunkStep(s: ChunkState, m: ChunkMsg): (r: ChunkState)
    ensures s.done ==> r == s
  {
    if s.done then s
    else match m
      case ChunkDisconnect => s.(done := true)
      case ChunkText(t) => if IsControlWord(t) then s.(done := true) else s
      case ChunkBinary(size, due, transcript) =>
        if size == 0 || !due || transcript.None? then s
        else ChunkTranscribed(s, Trim(transcript.value))
  }

  /** A chunk transcribed to the stripped `text`: a non-empty text is merged
      into the accumulated text, which is then sent as a partial. */
  function ChunkTranscribed(s: ChunkState, text: string): ChunkState
  {
    if text == [] then s
    else
      var acc := MergeWithOverlap(s.accumulated, text);
      s.(accumulated := acc, sent := s.sent + [Partial(acc)])
  }

  /** The loop state after receiving `msgs`, starting right after `ready`. */
  function ChunkRun(msgs: seq<ChunkMsg>): (r: ChunkState)
  {
    if msgs == [] then ChunkState([], [Ready], false)
    else ChunkStep(ChunkRun(msgs[..|msgs| - 1]), msgs[|msgs| - 1])
  }

  /** Everything the handler sends for the messages `msgs`: `ready`, the
      partials, and a `final` with the accumulated text once the loop is
      left. When the messages run out without a disconnect or a control
      word the handler is still waiting and has sent no final. */
  function ChunkSession(msgs: seq<ChunkMsg>): seq<Outbound>
  {
    var s := ChunkRun(msgs);
    if s.done then s.sent + [Final(s.accumulated)] else s.sent
  }

  /** `ws_transcribe` over the received messages. `modelLoaded` is false
      when `get_model()` raises (faster-whisper did not import, or the model
      could not be built): that call comes before the `try`, so the handler
      ends having sent nothing. Otherwise the loop runs. */
  method TranscribeSocket(modelLoaded: bool, msgs: seq<ChunkMsg>) returns (sent: seq<Outbound>)
    ensures !modelLoaded ==> sent == []
    ensures modelLoaded ==> sent == ChunkSession(msgs)
  {
    if !modelLoaded {
      sent := [];
      return;
    }
    var accumulated: string := [];
    sent := [Ready];
    var i := 0;
    var done := false;
    while i < |msgs| && !done
      invariant 0 <= i <= |msgs|
      invariant ChunkRun(msgs[..i]) == ChunkState(accumulated, sent, done)
      invariant done ==> ChunkRun(msgs) == ChunkRun(msgs[..i])
      decreases |msgs| - i
    {
      assert msgs[..i + 1][..i] == msgs[..i];
      accumulated, sent, done := ChunkReceive(accumulated, sent, msgs[i]);
      i := i + 1;
      if done {
        ChunkRunDone(msgs, i);
      }
    }
    if i == |msgs| {
      assert msgs[..i] == msgs;
    }
    if done {
      sent := sent + [Final(accumulated)];
    }
  }

  /** One pass of the `ws_transcribe` loop, on a message received while
      the loop runs. */
  method ChunkReceive(accumulated: string, sent: seq<Outbound>, m: ChunkMsg) returns (accumulated': string, sent': seq<Outbound>, done: bool)
    ensures ChunkState(accumulated', sent', done) == ChunkStep(ChunkState(accumulated, sent, false), m)
  {
    accumulated', sent', done := accumulated, sent, false;
    match m {
      case ChunkDisconnect =>
        done := true;
      case ChunkText(t) =>
        if IsControlWord(t) {
          done := true;
        }
      case ChunkBinary(size, due, transcript) =>
        if size > 0 && due && transcript.Some? {
          var text := Trim(transcript.value);
          assert ChunkStep(ChunkState(accumulated, sent, false), m) == ChunkTranscribed(ChunkState(accumulated, sent, false), text);
          if text != [] {
            accumulated' := MergeWithOverlap(accumulated, text);
            sent' := sent + [Partial(accumulated')];
          }
        }
    }
  }

  /** Once the loop is left, later messages change nothing. */
  lemma {:induction false} ChunkRunDone(msgs: seq<ChunkMsg>, i: nat)
    requires i <= |msgs| && ChunkRun(msgs[..i]).done
    ensures ChunkRun(msgs) == ChunkRun(msgs[..i])
    decreases |msgs| - i
  {
    if i < |msgs| {
      assert msgs[..i + 1][..i] == msgs[..i];
      ChunkRunDone(msgs, i + 1);
    } else {
      assert msgs[..i] == msgs;
    }
  }

  /** A control word ends the loop: the session is the same whatever is
      received afterwards, and it closes with a `final`. */
  lemma ChunkControlEnds(msgs: seq<ChunkMsg>, word: string, rest: seq<ChunkMsg>)
    requires IsControlWord(word)
    ensures ChunkSession(msgs + [ChunkText(word)] + rest) == ChunkSession(msgs + [ChunkText(word)])
    ensures ChunkRun(msgs + [ChunkText(word)]).done
  {
    var pre := msgs + [ChunkText(word)];
    var all := pre + rest;
    assert all[..|pre|] == pre;
    assert pre[..|pre| - 1] == msgs;
    ChunkRunDone(all, |pre|);
  }

  /** Text frames other than control words and empty binary frames are
      ignored. */
  lemma ChunkIgnored(msgs: seq<ChunkMsg>, m: ChunkMsg)
    requires (m.ChunkText? && !IsControlWord(m.text)) || (m.ChunkBinary? && m.size == 0)
    ensures ChunkRun(msgs + [m]) == ChunkRun(msgs)
  {
    assert (msgs + [m])[..|msgs|] == msgs;
  }

  /** The accumulated text is always stripped. */
  lemma {:induction false} ChunkAccumulatedTrimmed(msgs: seq<ChunkMsg>)
    ensures Trimmed(ChunkRun(msgs).accumulated)
    decreases |msgs|
  {
    if msgs != [] {
      ChunkAccumulatedTrimmed(msgs[..|msgs| - 1]);
    }
  }

  /** A received message only ever extends the accumulated text, so every
      partial starts with the one before it. */
  lemma ChunkAccumulatedGrows(msgs: seq<ChunkMsg>, m: ChunkMsg)
    ensures StartsWith(ChunkRun(msgs + [m]).accumulated, ChunkRun(msgs).accumulated)
  {
    assert (msgs + [m])[..|msgs|] == msgs;
    ChunkAccumulatedTrimmed(msgs);
    ChunkStepGrows(ChunkRun(msgs), m);
  }

  lemma ChunkStepGrows(s: ChunkState, m: ChunkMsg)
    requires Trimmed(s.accumulated)
    ensures StartsWith(ChunkStep(s, m).accumulated, s.accumulated)
  {
    var r := ChunkStep(s, m);
    if !s.done && m.ChunkBinary? && m.size != 0 && m.due && m.transcript.Some? && Trim(m.transcript.value) != [] {
      var text := Trim(m.transcript.value);
      assert r.accumulated == MergeWithOverlap(s.accumulated, text);
      assert Trim(s.accumulated) == s.accumulated;
    } else {
      assert r.accumulated == s.accumulated;
      assert s.accumulated[..|s.accumulated|] == s.accumulated;
    }
  }

  /** The handler's own messages: `ready` first, then partials, each with
      a non-empty text. */
  predicate ChunkSentWellFormed(sent: seq<Outbound>)
  {
    |sent| >= 1 && sent[0] == Ready &&
    forall k :: 1 <= k < |sent| ==> sent[k].Partial? && sent[k].text != []
  }

  lemma {:induction false} ChunkSentInvariant(msgs: seq<ChunkMsg>)
    ensures ChunkSentWellFormed(ChunkRun(msgs).sent)
    decreases |msgs|
  {
    if msgs != [] {
      ChunkSentInvariant(msgs[..|msgs| - 1]);
      ChunkStepSent(ChunkRun(msgs[..|msgs| - 1]), msgs[|msgs| - 1]);
    }
  }

  lemma ChunkStepSent(s: ChunkState, m: ChunkMsg)
    requires ChunkSentWellFormed(s.sent)
    ensures ChunkSentWellFormed(ChunkStep(s, m).sent)
  {
    if !s.done && m.ChunkBinary? && m.size > 0 && m.due && m.transcript.Some? {
      ChunkTranscribedSent(s, Trim(m.transcript.value));
    }
  }

  lemma ChunkTranscribedSent(s: ChunkState, text: string)
    requires ChunkSentWellFormed(s.sent) && Trimmed(text)
    ensures ChunkSentWellFormed(ChunkTranscribed(s, text).sent)
  {
    if text != [] {
      assert Trim(text) == text;
      var acc := MergeWithOverlap(s.accumulated, text);
      assert acc != [];
      assert ChunkTranscribed(s, text).sent == s.sent + [Partial(acc)];
      PartialSnoc(s.sent, acc);
    }
  }

  lemma PartialSnoc(sent: seq<Outbound>, text: string)
    requires ChunkSentWellFormed(sent) && text != []
    ensures ChunkSentWellFormed(sent + [Partial(text)])
  {
  }

  // ----- /ws/vosk -----

  /** What the streaming recogniser reports for one audio frame: either an
      accepted utterance with its `text`, or a `partial`. A missing field
      is the empty string. */
  datatype VoskOutcome = Accepted(text: string) | Pending(partial: string)

  /** One received message of `/ws/vosk`. */
  datatype VoskMsg =
    | VoskDisconnect
    | VoskText(text: string)
    | VoskBinary(size: nat, outcome: VoskOutcome)

  /** The loop variables of `ws_vosk`. */
  datatype VoskState = VoskState(lastPartial: string, frames: nat, sent: seq<Outbound>, done: bool)

  /** One pass of the receive loop: a control word or a disconnect leaves
      it, other text frames and empty binary frames are skipped, and an
      audio frame is counted and fed to the recogniser. */
  function VoskStep(s: VoskState, m: VoskMsg): (r: VoskState)
    ensures s.done ==> r == s
  {
    if s.done then s
    else match m
      case VoskDisconnect => s.(done := true)
      case VoskText(t) => if IsControlWord(t) then s.(done := true) else s
      case VoskBinary(size, outcome) =>
        if size == 0 then s
        else VoskFrame(s.(frames := s.frames + 1), outcome)
  }

  /** What the recogniser's verdict on a counted audio frame does. */
  function VoskFrame(s: VoskState, outcome: VoskOutcome): VoskState
  {
    match outcome
    case Accepted(raw) => VoskAccepted(s, Trim(raw))
    case Pending(raw) => VoskPending(s, Trim(raw))
  }

  /** An accepted utterance with the stripped `text`: a non-empty one is
      sent as a final and the last partial forgotten. */
  function VoskAccepted(s: VoskState, text: string): VoskState
  {
    if text != [] then s.(sent := s.sent + [Final(text)], lastPartial := []) else s
  }

  /** A stripped `partial`: sent only when non-empty and different from the
      last partial sent. */
  function VoskPending(s: VoskState, partial: string): VoskState
  {
    if partial != [] && partial != s.lastPartial then
      s.(lastPartial := partial, sent := s.sent + [Partial(partial)])
    else s
  }

  function VoskRun(msgs: seq<VoskMsg>): (r: VoskState)
  {
    if msgs == [] then VoskState([], 0, [Ready], false)
    else VoskStep(VoskRun(msgs[..|msgs| - 1]), msgs[|msgs| - 1])
  }

  /** Everything `ws_vosk` sends: an error alone when the model cannot be
      loaded; otherwise `ready`, the loop's messages and, once the loop is
      left, the flushed final (sent even when empty). */
  function VoskSession(modelLoaded: bool, loadError: string, msgs: seq<VoskMsg>, flush: string): seq<Outbound>
  {
    if !modelLoaded then [ErrorMsg(loadError)]
    else
      var s := VoskRun(msgs);
      if s.done then s.sent + [Final(Trim(flush))] else s.sent
  }

  /** The handler of `/ws/vosk`. */
  method VoskSocket(modelLoaded: bool, loadError: string, msgs: seq<VoskMsg>, flush: string) returns (sent: seq<Outbound>)
    ensures sent == VoskSession(modelLoaded, loadError, msgs, flush)
  {
    if !modelLoaded {
      return [ErrorMsg(loadError)];
    }
    var lastPartial: string := [];
    var frames: nat := 0;
    sent := [Ready];
    var i := 0;
    var done := false;
    while i < |msgs| && !done
      invariant 0 <= i <= |msgs|
      invariant VoskRun(msgs[..i]) == VoskState(lastPartial, frames, sent, done)
      invariant done ==> VoskRun(msgs) == VoskRun(msgs[..i])
      decreases |msgs| - i
    {
      assert msgs[..i + 1][..i] == msgs[..i];
      lastPartial, frames, sent, done := VoskReceive(lastPartial, frames, sent, msgs[i]);
      i := i + 1;
      if done {
        VoskRunDone(msgs, i);
      }
    }
    if i == |msgs| {
      assert msgs[..i] == msgs;
    }
    if done {
      sent := sent + [Final(Trim(flush))];
    }
  }

  /** One pass of the `ws_vosk` loop, on a message received while the
      loop runs. */
  method VoskReceive(lastPartial: string, frames: nat, sent: seq<Outbound>, m: VoskMsg)
    returns (lastPartial': string, frames': nat, sent': seq<Outbound>, done: bool)
    ensures VoskState(lastPartial', frames', sent', done) == VoskStep(VoskState(lastPartial, frames, sent, false), m)
  {
    lastPartial', frames', sent', done := lastPartial, frames, sent, false;
    ghost var s0 := VoskState(lastPartial, frames, sent, false);
    match m {
      case VoskDisconnect =>
        done := true;
      case VoskText(t) =>
        if IsControlWord(t) {
          done := true;
        }
      case VoskBinary(size, outcome) =>
        if size > 0 {
          frames' := frames + 1;
          ghost var s1 := VoskState(lastPartial, frames', sent, false);
          assert VoskStep(s0, m) == VoskFrame(s1, outcome);
          match outcome {
            case Accepted(raw) =>
              var text := Trim(raw);
              lastPartial', sent' := SendFinal(lastPartial, sent, text);
              assert VoskFrame(s1, outcome) == VoskAccepted(s1, text);
            case Pending(raw) =>
              var partial := Trim(raw);
              lastPartial', sent' := SendPartial(lastPartial, sent, partial);
              assert VoskFrame(s1, outcome) == VoskPending(s1, partial);
          }
        }
    }
  }

  /** The accepted branch of one receive step. */
  method SendFinal(lastPartial: string, sent: seq<Outbound>, text: string)
    returns (lastPartial': string, sent': seq<Outbound>)
    ensures forall frames: nat :: VoskState(lastPartial', frames, sent', false) == VoskAccepted(VoskState(lastPartial, frames, sent, false), text)
  {
    lastPartial', sent' := lastPartial, sent;
    if text != [] {
      sent' := sent + [Final(text)];
      lastPartial' := [];
    }
  }

  /** The partial branch of one receive step. */
  method SendPartial(lastPartial: string, sent: seq<Outbound>, partial: string)
    returns (lastPartial': string, sent': seq<Outbound>)
    ensures forall frames: nat :: VoskState(lastPartial', frames, sent', false) == VoskPending(VoskState(lastPartial, frames, sent, false), partial)
  {
    lastPartial', sent' := lastPartial, sent;
    if partial != [] && partial != lastPartial {
      lastPartial' := partial;
      sent' := sent + [Partial(partial)];
    }
  }

  /** Once the loop is left, later messages change nothing. */
  lemma {:induction false} VoskRunDone(msgs: seq<VoskMsg>, i: nat)
    requires i <= |msgs| && VoskRun(msgs[..i]).done
    ensures VoskRun(msgs) == VoskRun(msgs[..i])
    decreases |msgs| - i
  {
    if i < |msgs| {
      assert msgs[..i + 1][..i] == msgs[..i];
      VoskRunDone(msgs, i + 1);
    } else {
      assert msgs[..i] == msgs;
    }
  }

  /** No two partials in a row carry the same text. */
  predicate NoRepeatedPartial(sent: seq<Outbound>)
  {
    forall k :: 0 <= k < |sent| - 1 && sent[k].Partial? && sent[k + 1].Partial? ==> sent[k].text != sent[k + 1].text
  }

  /** The loop's own messages: `ready` first, then non-empty partials and
      finals, no partial repeating the one just before it; the remembered
      partial is the last message whenever that message is a partial. */
  predicate VoskInvariant(s: VoskState)
  {
    VoskSentInvariant(s.sent, s.lastPartial)
  }

  predicate VoskSentInvariant(sent: seq<Outbound>, lastPartial: string)
  {
    |sent| >= 1 && sent[0] == Ready &&
    (forall k :: 1 <= k < |sent| ==> (sent[k].Partial? || sent[k].Final?) && sent[k].text != []) &&
    NoRepeatedPartial(sent) &&
    (sent[|sent| - 1].Partial? ==> lastPartial == sent[|sent| - 1].text)
  }

  lemma VoskStepInvariant(s: VoskState, m: VoskMsg)
    requires VoskInvariant(s)
    ensures VoskInvariant(VoskStep(s, m))
  {
    var r := VoskStep(s, m);
    if !s.done && m.VoskBinary? && m.size > 0 {
      var s1 := s.(frames := s.frames + 1);
      assert VoskInvariant(s1);
      assert r == VoskFrame(s1, m.outcome);
      match m.outcome {
        case Accepted(raw) => VoskAcceptedInvariant(s1, Trim(raw));
        case Pending(raw) => VoskPendingInvariant(s1, Trim(raw));
      }
    } else {
      assert r.sent == s.sent && r.lastPartial == s.lastPartial;
    }
  }

  lemma VoskAcceptedInvariant(s: VoskState, text: string)
    requires VoskInvariant(s)
    ensures VoskInvariant(VoskAccepted(s, text))
  {
    if text != [] {
      VoskInvariantSnoc(s.sent, Final(text));
    }
  }

  lemma VoskPendingInvariant(s: VoskState, partial: string)
    requires VoskInvariant(s)
    ensures VoskInvariant(VoskPending(s, partial))
  {
    if partial != [] && partial != s.lastPartial {
      VoskInvariantSnoc(s.sent, Partial(partial));
    }
  }

  /** Appending a non-empty message that does not repeat a partial just sent. */
  lemma VoskInvariantSnoc(sent: seq<Outbound>, x: Outbound)
    requires |sent| >= 1 && sent[0] == Ready && NoRepeatedPartial(sent)
    requires forall k :: 1 <= k < |sent| ==> (sent[k].Partial? || sent[k].Final?) && sent[k].text != []
    requires (x.Partial? || x.Final?) && x.text != []
    requires x.Partial? && sent[|sent| - 1].Partial? ==> sent[|sent| - 1].text != x.text
    ensures var t := sent + [x];
      t[0] == Ready && NoRepeatedPartial(t) &&
      forall k :: 1 <= k < |t| ==> (t[k].Partial? || t[k].Final?) && t[k].text != []
  {
  }

  lemma {:induction false} VoskRunInvariant(msgs: seq<VoskMsg>)
    ensures VoskInvariant(VoskRun(msgs))
    decreases |msgs|
  {
    if msgs != [] {
      VoskRunInvariant(msgs[..|msgs| - 1]);
      VoskStepInvariant(VoskRun(msgs[..|msgs| - 1]), msgs[|msgs| - 1]);
    }
  }

  /** After a non-empty final the last partial is forgotten, so the same
      partial text is sent again. */
  lemma VoskPartialAfterFinal(msgs: seq<VoskMsg>, n1: nat, final: string, n2: nat, partial: string)
    requires !VoskRun(msgs).done && n1 > 0 && n2 > 0 && Trim(final) != [] && Trim(partial) != []
    ensures VoskRun(msgs + [VoskBinary(n1, Accepted(final))]).lastPartial == []
    ensures VoskRun(msgs + [VoskBinary(n1, Accepted(final))] + [VoskBinary(n2, Pending(partial))]).sent ==
      VoskRun(msgs).sent + [Final(Trim(final)), Partial(Trim(partial))]
  {
    var a := VoskBinary(n1, Accepted(final));
    var b := VoskBinary(n2, Pending(partial));
    var s := VoskRun(msgs);
    VoskRunSnoc(msgs, a);
    FinalForgetsPartial(s, n1, final);
    var s1 := VoskStep(s, a);
    VoskRunSnoc(msgs + [a], b);
    PartialAfterReset(s1, n2, partial);
    assert VoskStep(s1, b).sent == s.sent + [Final(Trim(final))] + [Partial(Trim(partial))];
  }

  /** A non-empty accepted utterance is sent and clears the last partial. */
  lemma FinalForgetsPartial(s: VoskState, n: nat, final: string)
    requires !s.done && n > 0 && Trim(final) != []
    ensures VoskStep(s, VoskBinary(n, Accepted(final))).lastPartial == []
    ensures VoskStep(s, VoskBinary(n, Accepted(final))).sent == s.sent + [Final(Trim(final))]
    ensures !VoskStep(s, VoskBinary(n, Accepted(final))).done
  {
  }

  /** With no last partial, a non-empty partial is sent. */
  lemma PartialAfterReset(s: VoskState, n: nat, partial: string)
    requires !s.done && n > 0 && s.lastPartial == [] && Trim(partial) != []
    ensures VoskStep(s, VoskBinary(n, Pending(partial))).sent == s.sent + [Partial(Trim(partial))]
  {
  }

  /** One more message is one more step of the loop. */
  lemma VoskRunSnoc(msgs: seq<VoskMsg>, m: VoskMsg)
    ensures VoskRun(msgs + [m]) == VoskStep(VoskRun(msgs), m)
  {
    assert (msgs + [m])[..|msgs|] == msgs;
  }

  /** A repeated partial is not sent again while no final came between. */
  lemma VoskRepeatSuppressed(msgs: seq<VoskMsg>, n: nat, partial: string)
    requires n > 0 && VoskRun(msgs).lastPartial == Trim(partial)
    ensures VoskRun(msgs + [VoskBinary(n, Pending(partial))]).sent == VoskRun(msgs).sent
  {
    assert (msgs + [VoskBinary(n, Pending(partial))])[..|msgs|] == msgs;
  }

  // ----- /transcribe -----

  /** The rejection of an HTTP request. */
  datatype HttpError = HttpError(status: nat, detail: string)

  /** The upload content types the endpoint accepts. */
  predicate AcceptedType(contentType: string)
  {
    contentType in ["audio/webm", "video/webm", "audio/wav", "audio/x-wav", "audio/mpeg"]
  }

  /** Python's `f"{content_type}"` of an optional header value. */
  function ShowContentType(contentType: Option<string>): string
  {
    match contentType
    case None => "None"
    case Some(t) => t
  }

  /** The body FastAPI answers with when a handler raises an exception
      that is not an `HTTPException`. */
  const INTERNAL_ERROR: string := "Internal Server Error"

  /** The checks `/transcribe` makes before transcribing: an unsupported
      content type is rejected with status 400; then `get_model()` runs, and
      when it raises (`modelLoaded` is false: faster-whisper did not import,
      or the model could not be built) the request fails with status 500;
      then an empty body is rejected with status 400. An accepted upload is
      converted to WAV unless it already is one. The result is whether
      conversion is needed. */
  function ValidateUpload(contentType: Option<string>, modelLoaded: bool, data: seq<bv8>): (r: Result<bool, HttpError>)
    ensures r.Ok? <==> contentType.Some? && AcceptedType(contentType.value) && modelLoaded && data != []
    ensures r.Err? ==> (r.error.status == 500 <==> contentType.Some? && AcceptedType(contentType.value) && !modelLoaded)
    ensures r.Err? ==> r.error.status == 400 || r.error.status == 500
    ensures (contentType.None? || !AcceptedType(contentType.value)) ==>
      r == Err(HttpError(400, "Tipo não suportado: " + ShowContentType(contentType)))
    ensures contentType.Some? && AcceptedType(contentType.value) && !modelLoaded ==>
      r == Err(HttpError(500, INTERNAL_ERROR))
    ensures contentType.Some? && AcceptedType(contentType.value) && modelLoaded && data == [] ==>
      r == Err(HttpError(400, "Arquivo vazio"))
    ensures r.Ok? ==> (r.value <==> contentType.value != "audio/wav" && contentType.value != "audio/x-wav")
  {
    if contentType.None? || !AcceptedType(contentType.value) then
      Err(HttpError(400, "Tipo não suportado: " + ShowContentType(contentType)))
    else if !modelLoaded then Err(HttpError(500, INTERNAL_ERROR))
    else if data == [] then Err(HttpError(400, "Arquivo vazio"))
    else Ok(!(contentType.value == "audio/wav" || contentType.value == "audio/x-wav"))
  }
}
