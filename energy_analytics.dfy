/** The energy analytics card (`src/components/EnergyAnalytics.tsx`): the
    chart data with its sample fallback, the fetch of the user's energy
    logs, and the data handed to the report generator. The Firestore query
    is an input: its awaited result is a parameter of `FetchData`. */
module EnergyAnalytics {
  import opened Wrappers
  import opened Js

  /** One point of the chart: a week or a log entry. Fields a document
      lacks are `None`. */
  datatype ChartEntry = ChartEntry(
    name: string,
    actualCost: Option<real>,
    predictedCost: Option<real>,
    potentialSavings: Option<real>,
    units: Option<real>)

  /** Four weeks of made-up costs, shown until real logs exist. They carry
      no `units`. */
  const SampleData: seq<ChartEntry> := [
    ChartEntry("Week 1", Some(45000.0), Some(44000.0), Some(2000.0), None),
    ChartEntry("Week 2", Some(52000.0), Some(48000.0), Some(4000.0), None),
    ChartEntry("Week 3", Some(49000.0), Some(47000.0), Some(3500.0), None),
    ChartEntry("Week 4", Some(58000.0), Some(51000.0), Some(7000.0), None)
  ]

  const SampleTotalUnits: real := 12500.0
  const SamplePeakPenalties: real := 45000.0
  const DefaultCompanyName := "Your Factory"

  const ActionPlan: seq<string> := [
    "Shift 20% load to 10 PM - 5 AM to save ₹15,000.",
    "Inspect Motor #4 for bearing faults (found by Acoustic AI).",
    "Optimize compressor usage during peak hours."
  ]

  /** `curr.units || 0`. */
  function UnitsOf(e: ChartEntry): real
  {
    if e.units.Some? then e.units.value else 0.0
  }

  /** `entries.reduce((acc, curr) => acc + (curr.units || 0), 0)`, folded
      from the left. Entries without units contribute nothing, and with
      non-negative units the total is never negative. */
  function SumUnits(entries: seq<ChartEntry>): (r: real)
    ensures (forall i :: 0 <= i < |entries| ==> entries[i].units.None? || entries[i].units.value >= 0.0) ==> r >= 0.0
    ensures (forall i :: 0 <= i < |entries| ==> entries[i].units.None?) ==> r == 0.0
  {
    if entries == [] then 0.0 else SumUnits(entries[..|entries| - 1]) + UnitsOf(entries[|entries| - 1])
  }

  /** The sum over two runs of entries is the sum of their sums. */
  lemma {:induction false} SumUnitsAppend(a: seq<ChartEntry>, b: seq<ChartEntry>)
    ensures SumUnits(a + b) == SumUnits(a) + SumUnits(b)
    decreases |b|
  {
    if b == [] {
      assert a + b == a;
    } else {
      var init := b[..|b| - 1];
      assert (a + b)[..|a + b| - 1] == a + init;
      assert (a + b)[|a + b| - 1] == b[|b| - 1];
      SumUnitsAppend(a, init);
    }
  }

  /** The sample weeks sum to zero units: the sample total of 12500 is a
      fixed figure, not one derived from them. */
  lemma SampleUnitsSumToZero()
    ensures SumUnits(SampleData) == 0.0
  {
  }

  /** The object passed to `generateReport`. */
  datatype Report = Report(companyName: string, totalUnits: real, peakPenalties: real, actionPlan: seq<string>)

  /** `reportData`, from the profile's company name and the card's state. */
  function ReportData(companyName: Option<string>, isSampleData: bool, chartData: seq<ChartEntry>): (r: Report)
    ensures r.actionPlan == ActionPlan && |r.actionPlan| == 3
  {
    Report(
      OrElse(companyName, DefaultCompanyName),
      if isSampleData then SampleTotalUnits else SumUnits(chartData),
      if isSampleData then SamplePeakPenalties else 0.0,
      ActionPlan)
  }

  /** In sample mode the report shows the fixed sample figures whatever the
      chart holds; with real data it totals the logged units and reports no
      peak penalties. The company defaults to "Your Factory" when the
      profile has none or an empty one. */
  lemma ReportFigures(companyName: Option<string>, isSampleData: bool, chartData: seq<ChartEntry>, more: seq<ChartEntry>)
    ensures var r := ReportData(companyName, isSampleData, chartData);
      (isSampleData ==> r == ReportData(companyName, true, more))
      && (!isSampleData ==>
            (r.peakPenalties == 0.0
             && ReportData(companyName, false, chartData + more).totalUnits == r.totalUnits + SumUnits(more)))
      && (r.companyName == DefaultCompanyName <==> companyName.None? || companyName.value == "" || companyName.value == DefaultCompanyName)
  {
    SumUnitsAppend(chartData, more);
  }

  /** The card's state. */
  class Analytics {
    var chartData: seq<ChartEntry>
    var isSampleData: bool
    var loading: bool

    constructor ()
      ensures chartData == SampleData && isSampleData && loading
    {
      chartData := SampleData;
      isSampleData := true;
      loading := true;
    }

    /** `fetchData`, run to completion: `fetched` is what the query for the
        user's first logs by date settled to. Without a user nothing is
        fetched and the card keeps loading. Logs replace the chart and end
        sample mode; no logs, or a failed query, keep the chart as it was. */
    method FetchData(signedIn: bool, fetched: Result<seq<ChartEntry>, string>)
      modifies this
      ensures !signedIn ==> chartData == old(chartData) && isSampleData == old(isSampleData) && loading == old(loading)
      ensures signedIn ==> !loading
      ensures signedIn && fetched.Success? && fetched.value != [] ==> chartData == fetched.value && !isSampleData
      ensures signedIn && fetched.Success? && fetched.value == [] ==> chartData == old(chartData) && isSampleData
      ensures signedIn && fetched.Failure? ==> chartData == old(chartData) && isSampleData == old(isSampleData)
    {
      if !signedIn {
        return;
      }
      match fetched {
        case Success(docs) =>
          if docs != [] {
            chartData := docs;
            isSampleData := false;
          } else {
            isSampleData := true;
          }
        case Failure(_) =>
      }
      loading := false;
    }

    /** The report for the current state. */
    function CurrentReport(companyName: Option<string>): (r: Report)
      reads this
      ensures isSampleData ==> r.totalUnits == SampleTotalUnits && r.peakPenalties == SamplePeakPenalties
      ensures !isSampleData ==> r.totalUnits == SumUnits(chartData) && r.peakPenalties == 0.0
    {
      ReportData(companyName, isSampleData, chartData)
    }
  }
}
