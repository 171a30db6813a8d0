/** The record button of `src/components/AudioRecorder.tsx`: the elapsed
    time label and what the button and the captions do in each state. */
module AudioRecorderView {
  import opened Wrappers
  import opened Text
  import opened RecorderSession

  /** `s.padStart(2, '0')`. */
  function PadStart2(s: string): (r: string)
    ensures |r| == if |s| < 2 then 2 else |s|
    ensures EndsWith(r, s)
    ensures forall k :: 0 <= k < |r| - |s| ==> r[k] == '0'
  {
    if |s| >= 2 then s else if |s| == 1 then "0" + s else "00"
  }

  /** `formatDuration`: whole minutes, a colon, and the seconds on two digits. */
  function FormatDuration(seconds: nat): string
  {
    NatToString(seconds / 60) + ":" + PadStart2(NatToString(seconds % 60))
  }

  /** Leading zeros do not change the value of a digit string. */
  lemma {:induction false} ParseNatLeadingZero(s: string)
    requires forall k :: 0 <= k < |s| ==> IsDigit(s[k])
    ensures ParseNat("0" + s) == ParseNat(s)
    decreases |s|
  {
    if s == [] {
      assert ("0" + s)[..0] == [];
    } else {
      assert ("0" + s)[..|"0" + s| - 1] == "0" + s[..|s| - 1];
      ParseNatLeadingZero(s[..|s| - 1]);
    }
  }

  /** Padding a decimal rendering keeps its value and its digits. */
  lemma PadKeepsValue(s: string)
    requires forall k :: 0 <= k < |s| ==> IsDigit(s[k])
    ensures forall k :: 0 <= k < |PadStart2(s)| ==> IsDigit(PadStart2(s)[k])
    ensures ParseNat(PadStart2(s)) == ParseNat(s)
  {
    if |s| == 1 {
      ParseNatLeadingZero(s);
    } else if s == [] {
      ParseNatLeadingZero("");
      ParseNatLeadingZero("0");
      assert "0" + "0" == "00" && "0" + "" == "0";
    }
  }

  /** The seconds part renders on one or two digits. */
  lemma SecondsShort(n: nat)
    requires n < 60
    ensures |NatToString(n)| <= 2
  {
    var sec := NatToString(n);
    if |sec| > 2 {
      ParseNatToString(n);
      ParseNatBound(sec);
    }
  }

  /** A label split at its colon. */
  lemma SplitAtColon(m: string, p: string)
    requires |p| == 2
    ensures var t := m + ":" + p;
      |t| - 3 == |m| && t[|m|] == ':' && t[..|m|] == m && t[|m| + 1..] == p
  {
  }

  /** `t` reads back as whole minutes, a colon and two digits of seconds
      below 60 that make up `duration`. */
  ghost predicate ReadsAs(t: string, duration: nat)
  {
    var c := |t| - 3;
    c >= 1 && t[c] == ':' &&
    (forall k :: 0 <= k < c ==> IsDigit(t[k])) &&
    (forall k :: c < k < |t| ==> IsDigit(t[k])) &&
    ParseNat(t[c + 1..]) < 60 &&
    ParseNat(t[..c]) * 60 + ParseNat(t[c + 1..]) == duration
  }

  /** Reading the label back: minutes before the colon, two digits of
      seconds after it, with minutes * 60 + seconds the input and seconds
      below 60. Minutes are not capped nor carried into hours. */
  lemma FormatDurationRoundTrip(seconds: nat)
    ensures ReadsAs(FormatDuration(seconds), seconds)
  {
    var m := NatToString(seconds / 60);
    var sec := NatToString(seconds % 60);
    SecondsShort(seconds % 60);
    var p := PadStart2(sec);
    PadKeepsValue(sec);
    ParseNatToString(seconds / 60);
    ParseNatToString(seconds % 60);
    assert FormatDuration(seconds) == m + ":" + p;
    LabelParts(m, p, seconds);
  }

  /** The label's parts read back: minutes before the colon, seconds after. */
  lemma LabelParts(m: string, p: string, seconds: nat)
    requires |m| >= 1 && |p| == 2
    requires forall k :: 0 <= k < |m| ==> IsDigit(m[k])
    requires forall k :: 0 <= k < |p| ==> IsDigit(p[k])
    requires ParseNat(m) == seconds / 60 && ParseNat(p) == seconds % 60
    ensures var t := m + ":" + p;
      var c := |t| - 3;
      c >= 1 && t[c] == ':' &&
      (forall k :: 0 <= k < c ==> IsDigit(t[k])) &&
      (forall k :: c < k < |t| ==> IsDigit(t[k])) &&
      ParseNat(t[..c]) * 60 + ParseNat(t[c + 1..]) == seconds &&
      ParseNat(t[c + 1..]) < 60
  {
    SplitAtColon(m, p);
    MinutesAndSeconds(seconds, ParseNat(m), ParseNat(p));
  }

  lemma MinutesAndSeconds(seconds: nat, minutes: nat, rest: nat)
    requires minutes == seconds / 60 && rest == seconds % 60
    ensures minutes * 60 + rest == seconds && rest < 60
  {
  }

  /** A string of three or more digits without a leading zero is at least 100. */
  lemma ParseNatBound(s: string)
    requires |s| >= 3 && s[0] != '0'
    requires forall k :: 0 <= k < |s| ==> IsDigit(s[k])
    ensures ParseNat(s) >= 100
  {
    ParseNatAtLeast(s);
  }

  /** A digit string not starting with '0' is worth at least 10^(|s|-1). */
  lemma {:induction false} ParseNatAtLeast(s: string)
    requires |s| >= 1 && s[0] != '0'
    requires forall k :: 0 <= k < |s| ==> IsDigit(s[k])
    ensures ParseNat(s) >= Pow10(|s| - 1)
    decreases |s|
  {
    if |s| > 1 {
      ParseNatAtLeast(s[..|s| - 1]);
    } else {
      assert s[..0] == [];
    }
  }

  function Pow10(n: nat): nat
  {
    if n == 0 then 1 else 10 * Pow10(n - 1)
  }

  /** One hour reads "60:00". */
  lemma OneHour()
    ensures FormatDuration(3600) == "60:00"
  {
    Sixty();
    assert NatToString(0) == "0";
    assert PadStart2("0") == "00";
  }

  lemma Sixty()
    ensures NatToString(60) == "60"
  {
    assert NatToString(6) == "6";
    assert DigitChar(0) == '0';
  }

  // ----- the button -----

  datatype Action = StartRecording | StopRecording

  /** What the screen shows: the button's action, the running time (only
      while recording) and whether the idle hint shows. */
  datatype RecorderView = RecorderView(action: Action, timer: string, showTimer: bool, showHint: bool)

  function View(isRecording: bool, duration: nat): RecorderView
  {
    RecorderView(
      if isRecording then StopRecording else StartRecording,
      FormatDuration(duration),
      isRecording,
      !isRecording)
  }

  /** The button stops exactly what the timer is timing, the timer and the
      hint are never shown together, and the timer reads back as the
      recording's duration. */
  lemma ViewSpec(isRecording: bool, duration: nat)
    ensures var v := View(isRecording, duration);
      (v.action == StopRecording <==> v.showTimer) && v.showTimer != v.showHint &&
      (v.showTimer <==> isRecording) && ReadsAs(v.timer, duration)
  {
    FormatDurationRoundTrip(duration);
  }

  /** The button's `onClick` on the recorder the hook holds: while recording
      it asks the recorder to stop (the button changes once the recorder's
      `stop` event arrives), otherwise it starts a recording, after which the
      button stops it and the timer shows "0:00"; without a microphone
      nothing changes. */
  method Press(rec: Recorder, deviceOk: bool) returns (stopped: Option<StopOutcome>)
    requires rec.Valid()
    modifies rec
    ensures rec.Valid()
    ensures old(rec.isRecording) ==>
      stopped == Some(AwaitingOnStop) && !rec.timerRunning && !rec.recorderActive &&
      rec.onstopPending == (old(rec.onstopPending) || old(rec.recorderActive)) &&
      View(rec.isRecording, rec.duration) == View(old(rec.isRecording), old(rec.duration))
    ensures !old(rec.isRecording) && deviceOk ==>
      stopped.None? && View(rec.isRecording, rec.duration) == RecorderView(StopRecording, "0:00", true, false)
    ensures !old(rec.isRecording) && !deviceOk ==> stopped.None? && unchanged(rec)
  {
    if View(rec.isRecording, rec.duration).action == StopRecording {
      var outcome := rec.Stop();
      stopped := Some(outcome);
    } else {
      rec.Start(deviceOk);
      stopped := None;
      if deviceOk {
        assert NatToString(0) == "0";
        assert PadStart2("0") == "00";
      }
    }
  }
}
