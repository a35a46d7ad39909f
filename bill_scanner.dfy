/** The bill scanner screen (`src/components/BillScanner.tsx`): the
    comparison of a scanned bill's consumption with the previous bill or a
    fixed average, the badge colour chosen from it, and the component state
    that the file picker, the clear button and the scan button update.
    The bill analysis and the Firestore query are inputs: their awaited
    results are parameters of `HandleScan`. */
module BillScanner {
  import opened Wrappers
  import opened Strings
  import opened Js
  import opened JsNumber

  /** The baseline used when there is no usable previous figure. */
  const FallbackUnits: real := 10000.0

  // ---------------------------------------------------------------------
  // The comparison
  // ---------------------------------------------------------------------

  /** `s.replace(/,/g, '')`. */
  function StripCommas(s: string): (r: string)
    ensures ',' !in r && |r| <= |s|
  {
    if s == [] then []
    else (if s[0] == ',' then [] else [s[0]]) + StripCommas(s[1..])
  }

  /** Deleting commas works piece by piece. */
  lemma {:induction false} StripCommasAppend(a: string, b: string)
    ensures StripCommas(a + b) == StripCommas(a) + StripCommas(b)
    decreases |a|
  {
    if a == [] {
      assert a + b == b;
    } else {
      assert (a + b)[0] == a[0];
      assert (a + b)[1..] == a[1..] + b;
      StripCommasAppend(a[1..], b);
    }
  }

  /** Text without commas is left as it is, so deleting twice is deleting
      once. */
  lemma {:induction false} StripCommasIdentity(s: string)
    requires ',' !in s
    ensures StripCommas(s) == s
    decreases |s|
  {
    if s != [] {
      assert s[0] in s;
      assert forall c :: c in s[1..] ==> c in s;
      StripCommasIdentity(s[1..]);
    }
  }

  /** Only commas are deleted: the characters kept, in order, are exactly
      the pieces between the commas. */
  lemma {:induction false} StripCommasJoinsPieces(s: string)
    ensures StripCommas(s) == Concat(Split(s, ','))
    decreases |s|
  {
    var k := IndexOf(s, ',');
    if k == |s| {
      StripCommasIdentity(s);
      SplitWithoutSeparator(s, ',');
      ConcatCons(s, []);
      assert [s] + [] == [s];
    } else {
      var w := s[..k];
      var t := s[k + 1..];
      assert ',' !in w;
      assert s == w + ([','] + t);
      calc {
        StripCommas(s);
      == { StripCommasAppend(w, [','] + t); }
        StripCommas(w) + StripCommas([','] + t);
      == { StripCommasIdentity(w); StripCommasOfComma(t); }
        w + StripCommas(t);
      == { StripCommasJoinsPieces(t); }
        w + Concat(Split(t, ','));
      == { ConcatCons(w, Split(t, ',')); }
        Concat([w] + Split(t, ','));
      == { assert Split(s, ',') == [w] + Split(t, ','); }
        Concat(Split(s, ','));
      }
    }
  }

  /** A leading comma is deleted. */
  lemma StripCommasOfComma(t: string)
    ensures StripCommas([','] + t) == StripCommas(t)
  {
    assert ([','] + t)[1..] == t;
  }

  lemma ConcatCons(w: string, rest: seq<string>)
    ensures Concat([w] + rest) == w + Concat(rest)
  {
    assert ([w] + rest)[1..] == rest;
  }

  /** The pieces glued together without separator. */
  function Concat(pieces: seq<string>): string
  {
    if pieces == [] then [] else pieces[0] + Concat(pieces[1..])
  }

  /** What the query for the user's latest bill found: nothing, or a bill
      whose `totalUnits` is a number or missing. */
  datatype History = NoHistory | LastBill(totalUnits: Option<real>)

  /** `lastBill.totalUnits || 10000`, or the fixed average without history:
      never zero, and either 10000 or the previous bill's own figure. */
  function Baseline(h: History): (r: real)
    ensures r != 0.0
    ensures r == FallbackUnits || h == LastBill(Some(r))
  {
    match h
    case NoHistory => FallbackUnits
    case LastBill(Some(u)) => if u != 0.0 then u else FallbackUnits
    case LastBill(None) => FallbackUnits
  }

  /** The baseline is the previous bill's figure when it is present and
      non-zero, and 10000 otherwise; it is never zero. */
  lemma BaselineChoice(h: History)
    ensures Baseline(h) != 0.0
    ensures Baseline(h) == (if h.LastBill? && h.totalUnits.Some? && h.totalUnits.value != 0.0
                            then h.totalUnits.value else FallbackUnits)
  {
  }

  /** `n - b` for a finite, non-zero `b`. */
  function Minus(n: Number, b: real): Number
  {
    match n
    case Finite(x) => Finite(x - b)
    case _ => n
  }

  /** `n > 0`, which is false for `NaN`. */
  predicate IsPositive(n: Number)
  {
    match n
    case Finite(x) => x > 0.0
    case Infinite(negative) => !negative
    case NaN => false
  }

  /** `Math.abs((n / b) * 100)` for a finite, non-zero `b`. */
  function AbsPercent(n: Number, b: real): Number
    requires b != 0.0
  {
    match n
    case Finite(x) => Finite(if x / b >= 0.0 then 100.0 * (x / b) else -100.0 * (x / b))
    case Infinite(_) => Infinite(false)
    case NaN => NaN
  }

  /** The badge text: a trend label and the number shown before `%`. */
  datatype Comparison = Comparison(trend: string, percent: Number)

  /** The consumption the reply states, after deleting its commas; text
      without a comma is read as it stands. */
  function CurrentUnits(consumption: string): (r: Number)
    ensures ',' !in consumption ==> r == ParseFloat(consumption)
  {
    if ',' !in consumption then StripCommasIdentity(consumption); ParseFloat(StripCommas(consumption))
    else ParseFloat(StripCommas(consumption))
  }

  /** The comparison for a bill whose `totalConsumption` is `consumption`:
      its badge is red exactly when the stated consumption exceeds the
      baseline. */
  function Compare(consumption: string, h: History): (r: Comparison)
    ensures RedBadge(r.trend) <==> Exceeds(CurrentUnits(consumption), Baseline(h))
  {
    RedBadgeIffExceeds(CurrentUnits(consumption), h);
    CompareUnits(CurrentUnits(consumption), h)
  }

  /** The comparison for a parsed current consumption. The percentage is
      `NaN` exactly for an unreadable consumption, infinite exactly for an
      infinite one, and never negative. */
  function CompareUnits(current: Number, h: History): (r: Comparison)
    ensures r.percent.NaN? <==> current.NaN?
    ensures r.percent.Infinite? <==> current.Infinite?
    ensures (r.percent.Finite? ==> r.percent.value >= 0.0) && (r.percent.Infinite? ==> !r.percent.negative)
  {
    var baseline := Baseline(h);
    var diff := Minus(current, baseline);
    var up := IsPositive(diff);
    var trend :=
      if h.LastBill? then (if up then "Increased" else "Decreased")
      else (if up then "Above Avg" else "Below Avg");
    Comparison(trend, AbsPercent(diff, baseline))
  }

  /** `current > baseline`, with `NaN` never greater. */
  predicate Exceeds(current: Number, baseline: real)
  {
    match current
    case Finite(x) => x > baseline
    case Infinite(negative) => !negative
    case NaN => false
  }

  /** The trend is "Increased" (with history) or "Above Avg" (without)
      exactly when the current consumption is strictly greater than the
      baseline, and "Decreased" or "Below Avg" otherwise. */
  lemma TrendRule(current: Number, h: History)
    ensures var up := Exceeds(current, Baseline(h));
      CompareUnits(current, h).trend ==
        if h.LastBill? then (if up then "Increased" else "Decreased")
        else (if up then "Above Avg" else "Below Avg")
  {
  }

  /** A consumption equal to the baseline counts as a decrease. */
  lemma EqualIsDecrease(h: History)
    ensures CompareUnits(Finite(Baseline(h)), h).trend == if h.LastBill? then "Decreased" else "Below Avg"
    ensures CompareUnits(Finite(Baseline(h)), h).percent == Finite(0.0)
  {
    BaselineChoice(h);
  }

  /** An unreadable consumption always reads as a decrease, with a `NaN`
      percentage. */
  lemma NaNIsDecrease(h: History)
    ensures CompareUnits(NaN, h).trend == if h.LastBill? then "Decreased" else "Below Avg"
    ensures CompareUnits(NaN, h).percent == NaN
  {
  }

  /** For a finite consumption the percentage is the magnitude of the
      relative change, as a percentage of the baseline. */
  lemma PercentIsMagnitude(current: Number, h: History)
    ensures current.Finite? ==>
      var b := Baseline(h);
      var change := 100.0 * (current.value - b) / b;
      CompareUnits(current, h).percent == Finite(if change >= 0.0 then change else -change)
  {
    if current.Finite? {
      ScaledQuotient(current.value - Baseline(h), Baseline(h));
    }
  }

  lemma ScaledQuotient(d: real, b: real)
    requires b != 0.0
    ensures 100.0 * d / b == 100.0 * (d / b)
  {
  }

  /** The trend text has the red badge when it mentions an increase or
      being above average: when "Increase" or "Above" occurs in it at some
      position. */
  predicate RedBadge(trend: string)
    ensures RedBadge(trend) <==>
      exists k: nat :: OccursAt(trend, "Increase", k) || OccursAt(trend, "Above", k)
  {
    ContainsIffOccurs(trend, "Increase");
    ContainsIffOccurs(trend, "Above");
    Contains(trend, "Increase") || Contains(trend, "Above")
  }

  /** The badge is red exactly for an increase or an above-average bill,
      which is exactly when the consumption exceeds the baseline. */
  lemma RedBadgeIffExceeds(current: Number, h: History)
    ensures RedBadge(CompareUnits(current, h).trend) <==> Exceeds(current, Baseline(h))
  {
    TrendRule(current, h);
    RedLabels();
    GreenLabels();
  }

  lemma RedLabels()
    ensures RedBadge("Increased") && RedBadge("Above Avg")
  {
    assert IsPrefix("Increase", "Increased");
    assert IsPrefix("Above", "Above Avg");
  }

  lemma GreenLabels()
    ensures !RedBadge("Decreased") && !RedBadge("Below Avg")
  {
    DecreasedIsGreen();
    BelowAvgIsGreen();
  }

  lemma DecreasedIsGreen()
    ensures !Contains("Decreased", "Increase") && !Contains("Decreased", "Above")
  {
    NotContainsWhenFirstCharAbsent("Decreased", "Increase");
    NotContainsWhenFirstCharAbsent("Decreased", "Above");
  }

  lemma BelowAvgIsGreen()
    ensures !Contains("Below Avg", "Increase") && !Contains("Below Avg", "Above")
  {
    NotContainsWhenFirstCharAbsent("Below Avg", "Increase");
    BelowAvgNotAbove();
  }

  /** "Below Avg" holds an `A`, but too late for "Above" to fit. */
  lemma BelowAvgNotAbove()
    ensures !Contains("Below Avg", "Above")
  {
    var t := "Below Avg";
    ContainsIffOccurs(t, "Above");
    forall k: nat | k + 5 <= |t|
      ensures !OccursAt(t, "Above", k)
    {
      assert t[k..k + 5][0] == t[k];
      assert t[k] != 'A';
    }
  }

  /** A bill stating "1,200 units" against the fixed average is 88% below
      it. */
  lemma ExampleAgainstAverage()
    ensures Compare("1,200 units", NoHistory) == Comparison("Below Avg", Finite(88.0))
  {
    ExampleUnits();
    assert CompareUnits(Finite(1200.0), NoHistory) == Comparison("Below Avg", Finite(88.0));
  }

  /** The same bill after a 1000-unit bill is a 20% increase. */
  lemma ExampleAgainstPreviousBill()
    ensures Compare("1,200 units", LastBill(Some(1000.0))) == Comparison("Increased", Finite(20.0))
  {
    ExampleUnits();
    assert CompareUnits(Finite(1200.0), LastBill(Some(1000.0))) == Comparison("Increased", Finite(20.0));
  }

  lemma ExampleUnits()
    ensures CurrentUnits("1,200 units") == Finite(1200.0)
  {
    calc {
      CurrentUnits("1,200 units");
    ==
      ParseFloat(StripCommas("1,200 units"));
    == { ExampleCommas(); }
      ParseFloat("1200" + " units");
    == { ExampleDigits(); ParseFloatOfDigits("1200", " units"); }
      Finite(DigitsValue("1200") as real);
    == { ExampleDigits(); }
      Finite(1200.0);
    }
  }

  lemma ExampleCommas()
    ensures StripCommas("1,200 units") == "1200" + " units"
  {
    ExampleSplit();
    StripCommasAppend("1,", "200 units");
    ExampleTail();
    ExampleHead();
    ExampleGlue();
  }

  lemma ExampleSplit()
    ensures "1,200 units" == "1," + "200 units"
  {
  }

  lemma ExampleHead()
    ensures StripCommas("1,") == "1"
  {
  }

  lemma ExampleTail()
    ensures StripCommas("200 units") == "200 units"
  {
    StripCommasIdentity("200 units");
  }

  lemma ExampleGlue()
    ensures "1" + "200 units" == "1200" + " units"
  {
  }

  lemma ExampleDigits()
    ensures AllDigits("1200") && DigitsValue("1200") == 1200
  {
    assert "1200"[..3] == "120";
    assert "120"[..2] == "12";
    assert "12"[..1] == "1";
  }

  // ---------------------------------------------------------------------
  // The component state
  // ---------------------------------------------------------------------

  /** `data.totalConsumption.replace`, read on the parsed reply: the text,
      or the message of the `TypeError` thrown when the value is `null`, is
      missing, or is not a string. */
  function ConsumptionText(data: Json): (r: Result<string, string>)
    ensures r.Success? <==> Member(data, "totalConsumption").Some? && Member(data, "totalConsumption").value.JString?
  {
    if data.JNull? then Failure("Cannot read properties of null (reading 'totalConsumption')")
    else
      match Member(data, "totalConsumption")
      case None => Failure("Cannot read properties of undefined (reading 'replace')")
      case Some(JString(s)) => Success(s)
      case Some(JNull) => Failure("Cannot read properties of null (reading 'replace')")
      case Some(_) => Failure("data.totalConsumption.replace is not a function")
  }

  /** The text shown after "Details:" for a thrown error's message. */
  function ScanFailure(message: string): string
  {
    OrElse(Some(message), "Scan failed")
  }

  /** The `error` a scan leaves, given a selected file. A scan fails only
      for a failed analysis, or, for a signed-in user, a failed query or an
      unusable consumption field; its message is never empty. */
  function ScanError(signedIn: bool, analysis: Result<Json, string>, history: Result<History, string>): (r: Option<string>)
    ensures r.None? <==>
      analysis.Success? && (signedIn ==> history.Success? && ConsumptionText(analysis.value).Success?)
    ensures r.Some? ==> r.value != ""
  {
    match analysis
    case Failure(m) => Some(ScanFailure(m))
    case Success(data) =>
      if !signedIn then None
      else
        match history
        case Failure(m) => Some(ScanFailure(m))
        case Success(_) =>
          match ConsumptionText(data)
          case Failure(m) => Some(ScanFailure(m))
          case Success(_) => None
  }

  /** The comparison a scan sets, if any. One is only ever produced for a
      signed-in user, after the analysis succeeded and the history query
      returned, when the reply's `totalConsumption` is a string. */
  function ScanComparison(signedIn: bool, analysis: Result<Json, string>, history: Result<History, string>): (r: Option<Comparison>)
    ensures r.Some? ==>
      signedIn && analysis.Success? && history.Success?
      && Member(analysis.value, "totalConsumption").Some?
      && Member(analysis.value, "totalConsumption").value.JString?
  {
    if analysis.Success? && signedIn && history.Success? && ConsumptionText(analysis.value).Success? then
      Some(Compare(ConsumptionText(analysis.value).value, history.value))
    else None
  }

  /** A consumption text read from the reply is its `totalConsumption`
      string. */
  lemma ConsumptionTextIsMember(data: Json)
    ensures ConsumptionText(data).Success? ==>
      ConsumptionText(data).value == Member(data, "totalConsumption").value.s
  {
  }

  /** The comparison compares the consumption the analysis reported. */
  lemma ComparisonOfReportedConsumption(signedIn: bool, analysis: Result<Json, string>, history: Result<History, string>)
    ensures ScanComparison(signedIn, analysis, history).Some? ==>
      ScanComparison(signedIn, analysis, history).value
        == Compare(Member(analysis.value, "totalConsumption").value.s, history.value)
  {
    if ScanComparison(signedIn, analysis, history).Some? {
      var text := ConsumptionText(analysis.value);
      assert ScanComparison(signedIn, analysis, history) == Some(Compare(text.value, history.value));
      ConsumptionTextIsMember(analysis.value);
    }
  }

  /** A scan produces a comparison exactly when the user is signed in and
      the scan leaves no error. */
  lemma ComparisonIffNoError(signedIn: bool, analysis: Result<Json, string>, history: Result<History, string>)
    ensures ScanComparison(signedIn, analysis, history).Some? <==> signedIn && ScanError(signedIn, analysis, history).None?
  {
  }

  /** A scan whose analysis throws `m` reports it and sets no comparison. */
  lemma AnalysisThrows(signedIn: bool, m: string, history: Result<History, string>)
    ensures ScanError(signedIn, Failure(m), history) == Some(ScanFailure(m))
    ensures ScanComparison(signedIn, Failure(m), history) == None
  {
  }

  /** A signed-in scan whose history query throws `m` reports it and sets
      no comparison. */
  lemma HistoryThrows(data: Json, m: string)
    ensures ScanError(true, Success(data), Failure(m)) == Some(ScanFailure(m))
    ensures ScanComparison(true, Success(data), Failure(m)) == None
  {
  }

  /** A signed-in scan whose consumption field throws `m` reports it and
      sets no comparison. */
  lemma ConsumptionThrows(data: Json, h: History, m: string)
    requires ConsumptionText(data) == Failure(m)
    ensures ScanError(true, Success(data), Success(h)) == Some(ScanFailure(m))
    ensures ScanComparison(true, Success(data), Success(h)) == None
  {
  }

  /** A scan that runs to the end reports no error, and sets the comparison
      for a signed-in user. */
  lemma ScanCompletes(signedIn: bool, analysis: Result<Json, string>, history: Result<History, string>)
    requires analysis.Success? && (signedIn ==> history.Success? && ConsumptionText(analysis.value).Success?)
    ensures ScanError(signedIn, analysis, history) == None
    ensures ScanComparison(signedIn, analysis, history) ==
      if signedIn then Some(Compare(ConsumptionText(analysis.value).value, history.value)) else None
  {
  }

  /** The scanner's state. */
  class Scanner {
    var file: Option<Blob>
    var preview: Option<string>
    var loading: bool
    /** The parsed reply as `setResult` stored it; `None` is the initial
        `null`. The screen tests the stored value for truthiness, so a reply
        that parses to `null` (`Some(JNull)`), or to another falsy value,
        shows as no result: `Some` alone does not mean a result is shown. */
    var result: Option<Json>
    var comparison: Option<Comparison>
    var error: Option<string>

    constructor ()
      ensures file == None && preview == None && !loading
      ensures result == None && comparison == None && error == None
    {
      file := None;
      preview := None;
      loading := false;
      result := None;
      comparison := None;
      error := None;
    }

    /** `handleFileChange`: a picked file is selected and previewed at
        `objectUrl`, and the previous result, comparison and error are
        cleared; picking nothing changes nothing. */
    method HandleFileChange(files: seq<Blob>, objectUrl: string)
      modifies this
      ensures |files| > 0 ==> (file == Some(files[0]) && preview == Some(objectUrl)
        && result == None && comparison == None && error == None && loading == old(loading))
      ensures |files| == 0 ==> (file == old(file) && preview == old(preview) && loading == old(loading)
        && result == old(result) && comparison == old(comparison) && error == old(error))
    {
      if |files| > 0 {
        var selected := files[0];
        file := Some(selected);
        preview := Some(objectUrl);
        result := None;
        comparison := None;
        error := None;
      }
    }

    /** The clear button: file, preview and result go; the comparison and
        the error stay. */
    method ClearSelection()
      modifies this
      ensures file == None && preview == None && result == None
      ensures loading == old(loading) && comparison == old(comparison) && error == old(error)
    {
      file := None;
      preview := None;
      result := None;
    }

    /** `handleScan`, run to completion: `analysis` is what `analyzeBill`
        settled to (the parsed reply or the thrown error's message), and
        `history` what the query for the latest bill settled to. Without a
        file nothing happens. */
    method HandleScan(signedIn: bool, analysis: Result<Json, string>, history: Result<History, string>)
      modifies this
      ensures old(file).None? ==> (file == old(file) && preview == old(preview) && loading == old(loading)
        && result == old(result) && comparison == old(comparison) && error == old(error))
      ensures old(file).Some? ==> (
        file == old(file) && preview == old(preview) && !loading
        && result == (if analysis.Success? then Some(analysis.value) else old(result))
        && comparison == (if ScanComparison(signedIn, analysis, history).Some?
                          then ScanComparison(signedIn, analysis, history) else old(comparison))
        && error == ScanError(signedIn, analysis, history))
    {
      if file.None? {
        return;
      }
      loading := true;
      error := None;
      match analysis {
        case Failure(m) =>
          error := Some(ScanFailure(m));
          AnalysisThrows(signedIn, m, history);
        case Success(data) =>
          result := Some(data);
          if signedIn {
            CompareWithLastBill(data, history);
          } else {
            ScanCompletes(signedIn, analysis, history);
          }
      }
      loading := false;
    }

    /** The signed-in part of the `try` block of `handleScan`, after the
        reply `data` was stored: `history` is what the query for the latest
        bill settled to. A thrown query or consumption field sets the error;
        otherwise the comparison is set. */
    method CompareWithLastBill(data: Json, history: Result<History, string>)
      modifies this
      ensures file == old(file) && preview == old(preview) && loading == old(loading) && result == old(result)
      ensures comparison == (if ScanComparison(true, Success(data), history).Some?
                             then ScanComparison(true, Success(data), history) else old(comparison))
      ensures error == (if ScanError(true, Success(data), history).Some?
                        then ScanError(true, Success(data), history) else old(error))
    {
      match history {
        case Failure(m) =>
          error := Some(ScanFailure(m));
          HistoryThrows(data, m);
        case Success(h) =>
          var text := ConsumptionText(data);
          match text {
            case Failure(m) =>
              error := Some(ScanFailure(m));
              ConsumptionThrows(data, h, m);
            case Success(consumption) =>
              comparison := Some(Compare(consumption, h));
              ScanCompletes(true, Success(data), history);
          }
      }
    }
  }
}
