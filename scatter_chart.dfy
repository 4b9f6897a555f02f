/** The rows behind the payload/outcome scatter chart (3.dashboard.py,
    lines 67-75), with the plotting call left out. */
module ScatterChart {
  import opened Frame
  import opened LaunchData

  /** The range slider's value `[min, max]`. */
  datatype PayloadRange = PayloadRange(low: real, high: real)

  /** The mask `(payload > low) & (payload < high)`: an open interval. */
  function PayloadMask(range: PayloadRange): LaunchRecord -> bool
  {
    (r: LaunchRecord) => range.low < r.payload < range.high
  }

  /** `scatter(selection, range)`: the rows strictly inside the payload range,
      then, unless every site is selected, those of the selected site. */
  function Scatter(selection: string, range: PayloadRange, ds: Dataset): (r: Dataset)
    ensures |r| <= |ds|
    ensures forall i :: 0 <= i < |r| ==> Plotted(r[i], selection, range)
  {
    var filtered := Where(ds, PayloadMask(range));
    if selection == AllSites then filtered
    else Where(filtered, SiteMask(selection))
  }

  /** A row is plotted when its payload lies strictly inside the range and it
      belongs to the selected site, or every site is selected. */
  predicate Plotted(r: LaunchRecord, selection: string, range: PayloadRange)
  {
    range.low < r.payload < range.high && (selection == AllSites || r.site == selection)
  }

  function PlottedMask(selection: string, range: PayloadRange): LaunchRecord -> bool
  {
    (r: LaunchRecord) => Plotted(r, selection, range)
  }

  /** The two masks of the callback select, in one pass, the rows that meet
      both conditions. */
  lemma {:induction false} ScatterIsOneMask(selection: string, range: PayloadRange, ds: Dataset)
    ensures Scatter(selection, range, ds) == Where(ds, PlottedMask(selection, range))
  {
    if selection == AllSites {
      WhereSameMask(ds, PayloadMask(range), PlottedMask(selection, range));
    } else {
      WhereWhere(ds, PayloadMask(range), SiteMask(selection));
      WhereSameMask(ds, Both(PayloadMask(range), SiteMask(selection)), PlottedMask(selection, range));
    }
  }

  /** Exactly the plotted rows are kept, each with all of its copies; a row
      whose payload equals either end of the range is never kept. */
  lemma {:induction false} ScatterKeepsExactlyPlotted(selection: string, range: PayloadRange, ds: Dataset, r: LaunchRecord)
    ensures Occurrences(Scatter(selection, range, ds), r) == if Plotted(r, selection, range) then Occurrences(ds, r) else 0
    ensures r in Scatter(selection, range, ds) <==> r in ds && Plotted(r, selection, range)
  {
    ScatterIsOneMask(selection, range, ds);
    WhereOccurrences(ds, PlottedMask(selection, range), r);
    WhereMembership(ds, PlottedMask(selection, range), r);
  }

  /** The plotted rows keep their order in the table. */
  lemma {:induction false} ScatterKeepsOrder(selection: string, range: PayloadRange, ds: Dataset)
    ensures IsSubsequence(Scatter(selection, range, ds), ds)
  {
    ScatterIsOneMask(selection, range, ds);
    WhereIsSubsequence(ds, PlottedMask(selection, range));
  }

  /** For one site, filtering by payload then by site is the same as
      filtering by site then by payload. */
  lemma {:induction false} ScatterFiltersCommute(selection: string, range: PayloadRange, ds: Dataset)
    requires selection != AllSites
    ensures Scatter(selection, range, ds) == Where(SiteRecords(ds, selection), PayloadMask(range))
  {
    WhereCommutes(ds, PayloadMask(range), SiteMask(selection));
  }

  /** An empty or inverted range plots nothing. */
  lemma {:induction false} ScatterEmptyRange(selection: string, range: PayloadRange, ds: Dataset)
    requires range.low >= range.high
    ensures Scatter(selection, range, ds) == []
  {
    WhereNone(ds, PayloadMask(range));
  }

  /** With the slider at its initial value `[min_payload, max_payload]`, the
      lightest and heaviest launches are left out of the chart. */
  lemma {:induction false} InitialRangeDropsExtremes(selection: string, ds: Dataset, r: LaunchRecord)
    requires ds != []
    requires r.payload == MinPayload(ds).value || r.payload == MaxPayload(ds).value
    ensures r !in Scatter(selection, PayloadRange(MinPayload(ds).value, MaxPayload(ds).value), ds)
  {
    ScatterKeepsExactlyPlotted(selection, PayloadRange(MinPayload(ds).value, MaxPayload(ds).value), ds, r);
  }

  /** Launches at 500, 1500 and 800 kg with the slider at [500, 1500]: the
      two launches on the ends of the range are not plotted. */
  lemma BoundaryExample()
    ensures var ds := [LaunchRecord("A", 500.0, "v1", 1), LaunchRecord("A", 1500.0, "v2", 0), LaunchRecord("B", 800.0, "v1", 1)];
      && Scatter(AllSites, PayloadRange(500.0, 1500.0), ds) == [ds[2]]
      && Scatter(AllSites, PayloadRange(400.0, 1600.0), ds) == ds
      && Scatter("A", PayloadRange(400.0, 1600.0), ds) == ds[..2]
  {
  }
}
