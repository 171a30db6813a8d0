/** The pure transcript-merging rules of the recorder hook
    (`src/hooks/useAudioRecorder.ts`): the streaming `final` de-duplication
    against an 80-character tail, the `partial` + final combination shown
    while speaking, and the bracketed interim marker of the browser's own
    speech recogniser. */
module TranscriptMerge {
  import opened Text

  /** How many trailing characters of the accumulated text a new final is
      compared with. */
  const TAIL_CHARS: nat := 80

  // ----- streaming finals -----

  /** True when the lower-cased last 80 characters of `base` end with the
      lower-cased `incoming`, i.e. the final was already delivered. */
  predicate AlreadyAtEnd(base: string, incoming: string)
  {
    EndsWith(ToLower(Last(base, TAIL_CHARS)), ToLower(incoming))
  }

  /** New value of the accumulated final text when a `final` message with
      the string `text` arrives. A blank final leaves it as it is; a final
      that is already at the end of the (trimmed) text is dropped; otherwise
      it is appended after one space. */
  function MergeFinal(current: string, text: string): (r: string)
    ensures Trim(text) == [] ==> r == current
    ensures Trim(text) != [] && Trim(current) == [] ==> r == Trim(text)
    ensures Trim(text) != [] && Trim(current) != [] ==>
      r == (if AlreadyAtEnd(Trim(current), Trim(text)) then Trim(current) else Trim(current) + " " + Trim(text))
    ensures Trim(text) != [] ==> Trimmed(r) && StartsWith(r, Trim(current))
  {
    var incoming := Trim(text);
    if incoming == [] then current else AppendFinal(Trim(current), incoming)
  }

  /** The non-blank case of `MergeFinal`, on the trimmed text and final. */
  function AppendFinal(base: string, incoming: string): (r: string)
    requires Trimmed(base) && Trimmed(incoming) && incoming != []
    ensures base == [] ==> r == incoming
    ensures base != [] ==> r == (if AlreadyAtEnd(base, incoming) then base else base + " " + incoming)
    ensures Trimmed(r) && StartsWith(r, base)
  {
    if base == [] then
      assert incoming[..0] == [];
      incoming
    else if AlreadyAtEnd(base, incoming) then
      assert base[..|base|] == base;
      base
    else
      TrimmedJoin(base, incoming);
      assert (base + " " + incoming)[..|base|] == base;
      Trim(base + " " + incoming)
  }

  /** A final longer than the compared tail can never be taken for a repeat:
      it is always appended. */
  lemma MergeFinalLong(current: string, text: string)
    requires Trim(current) != [] && |Trim(text)| > TAIL_CHARS
    ensures MergeFinal(current, text) == Trim(current) + " " + Trim(text)
  {
    assert !AlreadyAtEnd(Trim(current), Trim(text));
  }

  /** Delivering the same final twice does not duplicate it, as long as it
      fits in the compared tail. */
  lemma {:induction false} MergeFinalIdempotent(current: string, text: string)
    requires |Trim(text)| <= TAIL_CHARS
    ensures MergeFinal(MergeFinal(current, text), text) == MergeFinal(current, text)
  {
    var inc := Trim(text);
    if inc != [] {
      var base := Trim(current);
      var r := MergeFinal(current, text);
      if base == [] {
        EndsWithSelf(inc);
        EndsWithLastLower(inc, inc);
      } else if !AlreadyAtEnd(base, inc) {
        assert r[|r| - |inc|..] == inc;
        EndsWithLastLower(r, inc);
      }
      MergeFinalRepeat(r, text);
    }
  }

  /** A final that is already at the end of a trimmed text leaves it as it is. */
  lemma MergeFinalRepeat(r: string, text: string)
    requires Trimmed(r) && r != [] && Trim(text) != [] && AlreadyAtEnd(r, Trim(text))
    ensures MergeFinal(r, text) == r
  {
    assert Trim(r) == r;
  }

  /** A suffix of at most 80 characters is found again in the lower-cased tail. */
  lemma EndsWithLastLower(r: string, inc: string)
    requires EndsWith(r, inc) && |inc| <= TAIL_CHARS
    ensures AlreadyAtEnd(r, inc)
  {
    var tail := Last(r, TAIL_CHARS);
    assert tail == r[|r| - |tail|..];
    assert tail[|tail| - |inc|..] == inc;
    ToLowerSlice(tail, |tail| - |inc|, |tail|);
  }

  // ----- partial + final -----

  /** What is shown while a partial is pending:
      trim(final + (partial ? ' ' + partial : '')). */
  function Combined(final: string, partial: string): (r: string)
    ensures partial == [] ==> r == Trim(final)
    ensures Trimmed(r)
  {
    assert final + [] == final;
    Trim(final + (if partial != [] then " " + partial else []))
  }

  /** The accumulated final text always leads what is shown. */
  lemma CombinedKeepsFinal(final: string, partial: string)
    requires Trimmed(final)
    ensures StartsWith(Combined(final, partial), final)
  {
    var s := final + (if partial != [] then " " + partial else []);
    if final != [] {
      assert s[..|final|] == final;
      assert !IsSpace(s[0]);
      assert TrimStart(s) == s;
      assert !IsSpace(s[|final| - 1]);
      assert |TrimEnd(s)| >= |final|;
    }
  }

  /** With both parts trimmed and non-empty, they are joined by one space. */
  lemma CombinedJoin(final: string, partial: string)
    requires Trimmed(final) && Trimmed(partial) && final != [] && partial != []
    ensures Combined(final, partial) == final + " " + partial
  {
    TrimmedJoin(final, partial);
    assert final + " " + partial == final + (" " + partial);
  }

  // ----- the browser recogniser's interim marker -----

  /** `/\[.*\]$/` matches from position `p`: a `[` there, a `]` as the last
      character after it, and no line terminator in between. */
  predicate MarkerAt(s: string, p: nat)
  {
    p + 1 < |s| && s[p] == '[' && s[|s| - 1] == ']' &&
    forall k :: p < k < |s| - 1 ==> !IsLineTerminator(s[k])
  }

  /** The leftmost match position at or after `i`, as the regular
      expression search finds it. */
  function FindMarker(s: string, i: nat): (r: Match)
    ensures r.MatchAt? ==> i <= r.pos && MarkerAt(s, r.pos) && forall q :: i <= q < r.pos ==> !MarkerAt(s, q)
    ensures r.NoMatch? ==> forall q :: i <= q ==> !MarkerAt(s, q)
    decreases |s| - i
  {
    if i + 1 >= |s| then NoMatch
    else if MarkerAt(s, i) then MatchAt(i)
    else FindMarker(s, i + 1)
  }

  /** Outcome of the marker search. */
  datatype Match = NoMatch | MatchAt(pos: nat)

  /** `s.replace(/\[.*\]$/, '')`: drops everything from the leftmost
      matching `[`, or nothing when there is no match. */
  function StripMarker(s: string): (r: string)
    ensures |r| <= |s| && r == s[..|r|]
    ensures r == s <==> forall q :: !MarkerAt(s, q)
  {
    match FindMarker(s, 0)
    case MatchAt(p) => s[..p]
    case NoMatch => s
  }

  /** `prev.replace(/\[.*\]$/, '').trim()`: the recogniser's base text. */
  function BaseText(prev: string): (r: string)
    ensures Trimmed(r)
  {
    Trim(StripMarker(prev))
  }

  /** One result of a recogniser event window. */
  datatype RecResult = RecResult(text: string, isFinal: bool)

  /** The finals of the window, each followed by one space. */
  function FinalPart(window: seq<RecResult>): (r: string)
    ensures r == [] <==> forall k :: 0 <= k < |window| ==> !window[k].isFinal
  {
    if window == [] then []
    else (if window[0].isFinal then window[0].text + " " else []) + FinalPart(window[1..])
  }

  /** The interim texts of the window, concatenated. */
  function InterimPart(window: seq<RecResult>): string
  {
    if window == [] then []
    else (if window[0].isFinal then [] else window[0].text) + InterimPart(window[1..])
  }

  /** The base text followed, when there is interim text, by one
      ` [interim]` marker. */
  function WithMarker(base: string, interim: string): string
  {
    if interim != [] then base + " [" + interim + "]" else base
  }

  /** `recognition.onresult`: the transcript after one event whose results
      from `resultIndex` on are `window`. */
  function NativeUpdate(prev: string, window: seq<RecResult>): (r: string)
    ensures (exists k :: 0 <= k < |window| && window[k].isFinal) ==>
      r == Trim(BaseText(prev) + " " + FinalPart(window))
    ensures (forall k :: 0 <= k < |window| ==> !window[k].isFinal) ==>
      r == WithMarker(BaseText(prev), InterimPart(window))
  {
    var finals := FinalPart(window);
    var base := BaseText(prev);
    if finals != [] then Trim(base + " " + finals)
    else WithMarker(base, InterimPart(window))
  }

  /** A text in which the marker search cannot start: no `[`. */
  predicate NoBracket(s: string)
  {
    forall k :: 0 <= k < |s| ==> s[k] != '['
  }

  /** The marker added by an interim-only update is exactly what the next
      update strips again, provided the earlier text has no `[` and the
      interim text no line break. */
  lemma StripAddedMarker(base: string, interim: string)
    requires NoBracket(base) && interim != []
    requires forall k :: 0 <= k < |interim| ==> !IsLineTerminator(interim[k])
    ensures StripMarker(base + " [" + interim + "]") == base + " "
  {
    var s := base + " [" + interim + "]";
    var p := |base| + 1;
    assert s[p] == '[';
    assert forall k :: p < k < |s| - 1 ==> s[k] == interim[k - p - 1];
    assert MarkerAt(s, p);
    assert forall q: nat :: q < p ==> !MarkerAt(s, q) by {
      forall q: nat | q < p
        ensures !MarkerAt(s, q)
      {
        if q < |base| {
          assert s[q] == base[q];
        } else {
          assert s[q] == ' ';
        }
      }
    }
    assert s[..p] == base + " ";
  }

  /** Interim updates replace each other: at most one `[interim]` suffix is
      ever shown, and the text before it is kept. */
  lemma InterimReplaced(prev: string, w1: seq<RecResult>, w2: seq<RecResult>)
    requires NoBracket(BaseText(prev))
    requires forall k :: 0 <= k < |w1| ==> !w1[k].isFinal
    requires forall k :: 0 <= k < |InterimPart(w1)| ==> !IsLineTerminator(InterimPart(w1)[k])
    ensures NativeUpdate(NativeUpdate(prev, w1), w2) == NativeUpdate(prev, w2)
  {
    InterimKeepsBase(prev, w1);
    SameBaseSameUpdate(NativeUpdate(prev, w1), prev, w2);
  }

  /** An interim-only update leaves the base text the next update sees
      as it was. */
  lemma InterimKeepsBase(prev: string, w1: seq<RecResult>)
    requires NoBracket(BaseText(prev))
    requires forall k :: 0 <= k < |w1| ==> !w1[k].isFinal
    requires forall k :: 0 <= k < |InterimPart(w1)| ==> !IsLineTerminator(InterimPart(w1)[k])
    ensures BaseText(NativeUpdate(prev, w1)) == BaseText(prev)
  {
    var base := BaseText(prev);
    var interim := InterimPart(w1);
    assert NativeUpdate(prev, w1) == WithMarker(base, interim);
    if interim != [] {
      MarkedBase(base, interim);
    } else {
      PlainBase(base);
    }
  }

  /** The base text of a trimmed, bracket-free text followed by an interim
      marker is that text. */
  lemma MarkedBase(base: string, interim: string)
    requires Trimmed(base) && NoBracket(base) && interim != []
    requires forall k :: 0 <= k < |interim| ==> !IsLineTerminator(interim[k])
    ensures BaseText(base + " [" + interim + "]") == base
  {
    StripAddedMarker(base, interim);
    TrimAfterSpace(base);
  }

  /** A trimmed, bracket-free text is its own base text. */
  lemma PlainBase(base: string)
    requires Trimmed(base) && NoBracket(base)
    ensures BaseText(base) == base
  {
    assert StripMarker(base) == base by {
      forall q: nat ensures !MarkerAt(base, q) {
        if q < |base| { assert base[q] != '['; }
      }
    }
  }

  /** An update depends on the earlier transcript only through its base text. */
  lemma SameBaseSameUpdate(x: string, y: string, w: seq<RecResult>)
    requires BaseText(x) == BaseText(y)
    ensures NativeUpdate(x, w) == NativeUpdate(y, w)
  {
  }

  /** Trimming a trimmed text followed by one space gives the text back. */
  lemma TrimAfterSpace(base: string)
    requires Trimmed(base)
    ensures Trim(base + " ") == base
  {
    var s := base + " ";
    if base == [] {
      assert Trim(s) == [];
    } else {
      assert s[..|base|] == base;
      assert TrimStart(s) == s;
      assert TrimEnd(s) == TrimEnd(s[..|s| - 1]);
      assert s[..|s| - 1] == base;
    }
  }
}
