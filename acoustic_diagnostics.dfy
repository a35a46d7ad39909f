/** The acoustic diagnostics screen (`src/components/AcousticDiagnostics.tsx`):
    the `mm:ss` timer text and the analysis button's handler. */
module AcousticDiagnostics {
  import opened Wrappers
  import opened Strings
  import opened Js

  const AnalysisFailure := "Analysis failed"

  /** `n.toString().padStart(2, '0')`: digits only, at least two of them,
      exactly two when the number is below 100, reading back as the number. */
  function Pad2(n: nat): (r: string)
    ensures AllDigits(r) && |r| >= 2
    ensures |r| == 2 <==> n < 100
    ensures DigitsValue(r) == n
  {
    NatToStringLength(n);
    NatToStringValue(n);
    PadStartDigitsValue(NatToString(n), 2);
    PadStart(NatToString(n), 2, '0')
  }

  /** `formatTime`: whole minutes, a colon, and the remaining seconds, each
      padded to two digits. The text is at least five characters long, and
      exactly five below 100 minutes. */
  function FormatTime(seconds: nat): (r: string)
    ensures |r| >= 5
    ensures |r| == 5 <==> seconds < 6000
  {
    Pad2(seconds / 60) + ":" + Pad2(seconds % 60)
  }

  /** The text splits at its one colon into a minutes field and a seconds
      field. The seconds field is always two digits showing 00 to 59; the
      minutes field has two digits below 100 minutes and more from then on;
      and the two fields read back give the seconds formatted. */
  lemma FormatTimeFields(seconds: nat)
    ensures var t := FormatTime(seconds);
      var m := Pad2(seconds / 60);
      var s := Pad2(seconds % 60);
      t == m + ":" + s
      && AllDigits(m) && AllDigits(s)
      && |s| == 2 && DigitsValue(s) < 60
      && (|m| == 2 <==> seconds < 6000)
      && DigitsValue(m) * 60 + DigitsValue(s) == seconds
  {
  }

  /** Reading `mm:ss` text back: minutes times sixty plus seconds. */
  function ParseTime(t: string): Option<nat>
  {
    var parts := Split(t, ':');
    if |parts| == 2 && AllDigits(parts[0]) && AllDigits(parts[1]) then
      Some(DigitsValue(parts[0]) * 60 + DigitsValue(parts[1]))
    else None
  }

  /** Formatting loses nothing: the text reads back as the same number of
      seconds. */
  lemma ParseFormatTime(seconds: nat)
    ensures ParseTime(FormatTime(seconds)) == Some(seconds)
  {
    FormatTimeFields(seconds);
    var m := Pad2(seconds / 60);
    var s := Pad2(seconds % 60);
    assert ':' !in m by {
      assert forall i :: 0 <= i < |m| ==> IsDigit(m[i]);
    }
    assert ':' !in s by {
      assert forall i :: 0 <= i < |s| ==> IsDigit(s[i]);
    }
    SplitAtOne(m, s);
  }

  /** Splitting `a + ":" + b` with colon-free `a` and `b` gives the two. */
  lemma SplitAtOne(a: string, b: string)
    requires ':' !in a && ':' !in b
    ensures Split(a + ":" + b, ':') == [a, b]
  {
    var t := a + ":" + b;
    assert forall j :: 0 <= j < |a| ==> t[j] == a[j];
    assert t[|a|] == ':';
    assert IndexOf(t, ':') == |a|;
    assert t[..|a|] == a;
    assert t[|a| + 1..] == b;
    SplitWithoutSeparator(b, ':');
  }

  /** The screen's analysis state. */
  class Panel {
    var analyzing: bool
    /** The parsed reply as `setResult` stored it; `None` is the initial
        `null`. The screen tests the stored value for truthiness, so a reply
        that parses to `null` (`Some(JNull)`), or to another falsy value,
        shows as no result: `Some` alone does not mean a result is shown. */
    var result: Option<Json>
    var error: Option<string>

    constructor ()
      ensures !analyzing && result == None && error == None
    {
      analyzing := false;
      result := None;
      error := None;
    }

    /** `handleAnalyze`, run to completion: `analysis` is what
        `analyzeAudio` settled to for the recording (the parsed reply, or
        the thrown error's message). Without a recording nothing happens. */
    method HandleAnalyze(audioBlob: Option<Blob>, analysis: Result<Json, string>)
      modifies this
      ensures audioBlob.None? ==>
        (analyzing == old(analyzing) && result == old(result) && error == old(error))
      ensures audioBlob.Some? ==> (
        !analyzing
        && result == (if analysis.Success? then Some(analysis.value) else old(result))
        && error == (if analysis.Failure? then Some(OrElse(Some(analysis.error), AnalysisFailure)) else None))
    {
      if audioBlob.None? {
        return;
      }
      analyzing := true;
      error := None;
      match analysis {
        case Success(data) =>
          result := Some(data);
        case Failure(m) =>
          error := Some(OrElse(Some(m), AnalysisFailure));
      }
      analyzing := false;
    }
  }
}
