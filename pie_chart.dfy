/** The data behind the success pie chart (3.dashboard.py, lines 51-60), with
    the plotting call left out: for "All Sites" the successes per site, for
    one site its outcome counts with the labels "Failure" and "Success". */
module PieChart {
  import opened Frame
  import opened LexOrder
  import opened Counts
  import opened Results
  import opened LaunchData

  /** One row of `df.groupby(['Launch Site'])["class"].sum().reset_index()`. */
  datatype SiteTotal = SiteTotal(site: string, successes: nat)

  /** The `Launch Site` column of the grouped frame. */
  function SitesOf(g: seq<SiteTotal>): seq<string>
  {
    if g == [] then [] else [g[0].site] + SitesOf(g[1..])
  }

  /** Sum of the grouped frame's `class` column. */
  function TotalOf(g: seq<SiteTotal>): nat
  {
    if g == [] then 0 else g[0].successes + TotalOf(g[1..])
  }

  /** The total of the first row for `site`, or 0 when there is none. */
  function Lookup(g: seq<SiteTotal>, site: string): nat
  {
    if g == [] then 0
    else if g[0].site == site then g[0].successes
    else Lookup(g[1..], site)
  }

  /** Every row's site comes after `lo`. */
  ghost predicate AllAbove(lo: string, g: seq<SiteTotal>)
  {
    forall k :: 0 <= k < |g| ==> LexLess(lo, g[k].site)
  }

  /** Rows in strictly increasing site order, as `groupby` sorts its keys. */
  ghost predicate SortedBySite(g: seq<SiteTotal>)
  {
    g == [] || (AllAbove(g[0].site, g[1..]) && SortedBySite(g[1..]))
  }

  /** Adds `v` to the row for `site`, inserting that row at its place in
      site order when it is missing. */
  function AddTo(g: seq<SiteTotal>, site: string, v: nat): (r: seq<SiteTotal>)
    ensures forall s :: s in SitesOf(r) <==> s in SitesOf(g) || s == site
    ensures TotalOf(r) == TotalOf(g) + v
  {
    if g == [] then [SiteTotal(site, v)]
    else if g[0].site == site then [SiteTotal(site, g[0].successes + v)] + g[1..]
    else if LexLess(site, g[0].site) then [SiteTotal(site, v)] + g
    else
      var r := [g[0]] + AddTo(g[1..], site, v);
      assert r[1..] == AddTo(g[1..], site, v);
      r
  }

  lemma {:induction false} AddToAbove(lo: string, g: seq<SiteTotal>, site: string, v: nat)
    requires AllAbove(lo, g) && LexLess(lo, site)
    ensures AllAbove(lo, AddTo(g, site, v))
  {
    if g != [] && g[0].site != site && !LexLess(site, g[0].site) {
      AddToAbove(lo, g[1..], site, v);
      var r := AddTo(g, site, v);
      assert r[1..] == AddTo(g[1..], site, v);
    }
  }

  /** A site below every row's site has no row. */
  lemma {:induction false} AboveHasNoRow(lo: string, g: seq<SiteTotal>)
    requires AllAbove(lo, g)
    ensures lo !in SitesOf(g) && Lookup(g, lo) == 0
  {
    if g != [] {
      LexIrreflexive(lo);
      AboveHasNoRow(lo, g[1..]);
    }
  }

  lemma {:induction false} AddToKeepsOrder(g: seq<SiteTotal>, site: string, v: nat)
    requires SortedBySite(g)
    ensures SortedBySite(AddTo(g, site, v))
  {
    if g == [] {
    } else if g[0].site == site {
      assert AddTo(g, site, v)[1..] == g[1..];
    } else if LexLess(site, g[0].site) {
      forall k | 0 <= k < |g|
        ensures LexLess(site, g[k].site)
      {
        if k > 0 {
          LexTransitive(site, g[0].site, g[k].site);
        }
      }
      assert AddTo(g, site, v)[1..] == g;
    } else {
      LexTotal(site, g[0].site);
      AddToKeepsOrder(g[1..], site, v);
      AddToAbove(g[0].site, g[1..], site, v);
      assert AddTo(g, site, v)[1..] == AddTo(g[1..], site, v);
    }
  }

  /** Adding to one site's row changes that site's total and no other. */
  lemma {:induction false} AddToLookup(g: seq<SiteTotal>, site: string, v: nat, k: string)
    requires SortedBySite(g)
    ensures Lookup(AddTo(g, site, v), k) == Lookup(g, k) + (if k == site then v else 0)
  {
    if g == [] {
    } else if g[0].site == site {
    } else if LexLess(site, g[0].site) {
      if k == site {
        forall j | 0 <= j < |g|
          ensures LexLess(site, g[j].site)
        {
          if j > 0 {
            LexTransitive(site, g[0].site, g[j].site);
          }
        }
        AboveHasNoRow(site, g);
      }
    } else {
      AddToLookup(g[1..], site, v, k);
    }
  }

  /** `groupby(['Launch Site'])["class"].sum()`: one row per site present,
      in site order, holding the sum of `class` over that site's rows. */
  function GroupSuccesses(ds: Dataset): (g: seq<SiteTotal>)
    ensures SortedBySite(g)
    ensures forall s :: s in SitesOf(g) <==> s in SiteColumn(ds)
    ensures TotalOf(g) == SuccessCount(ds)
  {
    if ds == [] then []
    else
      var rest := GroupSuccesses(ds[1..]);
      AddToKeepsOrder(rest, ds[0].site, ds[0].outcome);
      assert SiteColumn(ds) == [ds[0].site] + SiteColumn(ds[1..]);
      AddTo(rest, ds[0].site, ds[0].outcome)
  }

  lemma {:induction false} GroupSuccessesLookup(ds: Dataset, site: string)
    ensures Lookup(GroupSuccesses(ds), site) == SuccessCount(SiteRecords(ds, site))
  {
    if ds != [] {
      GroupSuccessesLookup(ds[1..], site);
      AddToLookup(GroupSuccesses(ds[1..]), ds[0].site, ds[0].outcome, site);
      if ds[0].site == site {
        var r := SiteRecords(ds, site);
        assert r[0] == ds[0] && r[1..] == SiteRecords(ds[1..], site);
      }
    }
  }

  /** In rows sorted by site, a row's total is the one found for its site. */
  lemma {:induction false} LookupAt(g: seq<SiteTotal>, i: nat)
    requires SortedBySite(g) && i < |g|
    ensures Lookup(g, g[i].site) == g[i].successes
  {
    if i > 0 {
      LexIrreflexive(g[0].site);
      assert LexLess(g[0].site, g[1..][i - 1].site);
      LookupAt(g[1..], i - 1);
    }
  }

  /** The "All Sites" pie: one slice per site present in the table, in site
      order, each the number of that site's successful launches; together
      they make up every success in the table. */
  lemma {:induction false} AllSitesPie(ds: Dataset)
    ensures var g := GroupSuccesses(ds);
      && SortedBySite(g)
      && (forall s :: s in SitesOf(g) <==> s in SiteColumn(ds))
      && (forall i :: 0 <= i < |g| ==> g[i].successes == SuccessCount(SiteRecords(ds, g[i].site)))
      && TotalOf(g) == SuccessCount(ds)
  {
    var g := GroupSuccesses(ds);
    forall i | 0 <= i < |g|
      ensures g[i].successes == SuccessCount(SiteRecords(ds, g[i].site))
    {
      LookupAt(g, i);
      GroupSuccessesLookup(ds, g[i].site);
    }
  }

  /** Three launches from two sites, listed with site "B" first: the grouped
      rows come out in site order, each with its successes. */
  lemma AllSitesExample()
    ensures GroupSuccesses([LaunchRecord("B", 800.0, "v1", 1), LaunchRecord("A", 500.0, "v1", 1), LaunchRecord("A", 1500.0, "v2", 0)])
      == [SiteTotal("A", 1), SiteTotal("B", 1)]
  {
  }

  /** A row of the single-site frame: an outcome, how many launches had it,
      and the `name` assigned at line 58. A frame with no rows takes its rows
      from the assigned list instead: each carries a name and a NaN count,
      and the index, where the outcome was kept, becomes the list positions
      0 and 1. Those rows are `NameOnly`. */
  datatype Slice =
    | Slice(outcome: Outcome, count: nat, name: string)
    | NameOnly(name: string)

  datatype PieError =
    | LengthMismatch(values: nat, rows: nat)  // pandas' "Length of values does not match length of index"
    | NoLaunches(site: string)

  /** The list assigned to the `name` column. */
  const PieNames: seq<string> := ["Failure", "Success"]

  /** `frame["name"] = names`. A frame without rows first takes one row per
      name, with NaN in its other columns. Otherwise the names go to the rows
      by position, and the assignment fails unless there are as many names
      as rows. */
  function AssignNames(counts: seq<Tally<Outcome>>, names: seq<string>): (r: Result<seq<Slice>, PieError>)
    ensures r.Err? <==> |counts| > 0 && |names| != |counts|
    ensures r.Err? ==> r.error == LengthMismatch(|names|, |counts|)
    ensures r.Ok? ==> |r.value| == |names|
    ensures r.Ok? ==> forall i :: 0 <= i < |r.value| ==> r.value[i].name == names[i]
    ensures r.Ok? && |counts| == 0 ==> forall i :: 0 <= i < |r.value| ==> r.value[i].NameOnly?
    ensures r.Ok? && |counts| > 0 ==> forall i :: 0 <= i < |r.value| ==>
              r.value[i] == Slice(counts[i].value, counts[i].count, names[i])
  {
    if |counts| == 0 then Ok(seq(|names|, i requires 0 <= i < |names| => NameOnly(names[i])))
    else if |names| != |counts| then Err(LengthMismatch(|names|, |counts|))
    else Ok(seq(|counts|, i requires 0 <= i < |counts| => Slice(counts[i].value, counts[i].count, names[i])))
  }

  /** The single-site branch as written: `value_counts()` of the site's
      `class` column, then the names "Failure" and "Success" by position. */
  function SitePie(ds: Dataset, site: string): (r: Result<seq<Slice>, PieError>)
    ensures r.Err? ==> r.error == LengthMismatch(2, 1)
    ensures r.Ok? ==> |r.value| == 2 && r.value[0].name == "Failure" && r.value[1].name == "Success"
  {
    var col := OutcomeColumn(SiteRecords(ds, site));
    BinaryValueCounts(col, ValueCounts(col));
    AssignNames(ValueCounts(col), PieNames)
  }

  /** Number of the site's launches with the given outcome. */
  function OutcomeCount(ds: Dataset, site: string, o: Outcome): nat
  {
    Occurrences(OutcomeColumn(SiteRecords(ds, site)), o)
  }

  /** Distinct values of a binary column: at most two, and two exactly when
      both outcomes occur. */
  lemma {:induction false} BinaryValueCounts(col: seq<Outcome>, vc: seq<Tally<Outcome>>)
    requires IsValueCounts(col, vc)
    ensures |vc| == (if 0 in col then 1 else 0) + (if 1 in col then 1 else 0)
  {
    var present: set<Outcome> := set x | x in Values(vc);
    DistinctCardinality(Values(vc));
    var zero: set<Outcome> := if 0 in col then {0} else {};
    var one: set<Outcome> := if 1 in col then {1} else {};
    assert present == zero + one;
  }

  /** The single-site pie fails exactly when the site has launches of one
      outcome only: two names for one row. A site with no launches gets the
      two names with no counts, and a site with both outcomes gets counts. */
  lemma {:induction false} SitePieSucceedsIff(ds: Dataset, site: string)
    ensures SitePie(ds, site).Err? <==> (OutcomeCount(ds, site, 0) > 0) != (OutcomeCount(ds, site, 1) > 0)
    ensures SitePie(ds, site).Err? ==> SitePie(ds, site).error == LengthMismatch(2, 1)
    ensures SitePie(ds, site) == Ok([NameOnly("Failure"), NameOnly("Success")]) <==> site !in SiteColumn(ds)
  {
    var rows := SiteRecords(ds, site);
    var col := OutcomeColumn(rows);
    var vc := ValueCounts(col);
    BinaryValueCounts(col, vc);
    SiteRecordsEmpty(ds, site);
    OutcomesSplit(rows);
    if site !in SiteColumn(ds) {
      assert |vc| == 0;
      var s := SitePie(ds, site).value;
      assert s == [s[0], s[1]];
    } else {
      assert |vc| > 0;
      if SitePie(ds, site).Ok? {
        assert SitePie(ds, site).value[0].Slice?;
      }
    }
  }

  /** When it exists, the single-site pie has the rows of `value_counts()`:
      the two outcomes with their exact counts, the larger count first and
      named "Failure", the other named "Success"; the counts add up to the
      site's number of launches. */
  lemma {:induction false} SitePieSlices(ds: Dataset, site: string)
    requires OutcomeCount(ds, site, 0) > 0 && OutcomeCount(ds, site, 1) > 0
    ensures SitePie(ds, site).Ok?
    ensures var s := SitePie(ds, site).value;
      && |s| == 2
      && s[0].Slice? && s[1].Slice?
      && s[0].name == "Failure" && s[1].name == "Success"
      && s[0].outcome != s[1].outcome
      && s[0].count == OutcomeCount(ds, site, s[0].outcome)
      && s[1].count == OutcomeCount(ds, site, s[1].outcome)
      && s[0].count >= s[1].count
      && s[0].count + s[1].count == |SiteRecords(ds, site)|
  {
    var col := OutcomeColumn(SiteRecords(ds, site));
    var vc := ValueCounts(col);
    BinaryValueCounts(col, vc);
    OutcomesSplit(SiteRecords(ds, site));
    assert {vc[0].value, vc[1].value} == {0, 1};
    var s := SitePie(ds, site).value;
    assert s[0] == Slice(vc[0].value, vc[0].count, "Failure");
    assert s[1] == Slice(vc[1].value, vc[1].count, "Success");
  }

  /** The name "Failure" follows the count, not the outcome: when both
      outcomes occur with different counts, the more frequent one is named
      "Failure", so at a site with more successes than failures the
      successes are called "Failure". */
  lemma {:induction false} SitePieWhenCountsDiffer(ds: Dataset, site: string)
    ensures var failures, successes := OutcomeCount(ds, site, 0), OutcomeCount(ds, site, 1);
      successes > failures > 0 ==>
        SitePie(ds, site) == Ok([Slice(1, successes, "Failure"), Slice(0, failures, "Success")])
    ensures var failures, successes := OutcomeCount(ds, site, 0), OutcomeCount(ds, site, 1);
      failures > successes > 0 ==>
        SitePie(ds, site) == Ok([Slice(0, failures, "Failure"), Slice(1, successes, "Success")])
  {
    if OutcomeCount(ds, site, 0) > 0 && OutcomeCount(ds, site, 1) > 0 {
      SitePieSlices(ds, site);
      var s := SitePie(ds, site).value;
      assert s == [s[0], s[1]];
    }
  }

  /** A site with two successes and one failure: its pie calls the two
      successes "Failure" and the one failure "Success". */
  lemma MislabelledExample(ds: Dataset)
    requires ds == [LaunchRecord("A", 500.0, "v1", 1), LaunchRecord("A", 800.0, "v1", 1), LaunchRecord("A", 1500.0, "v2", 0)]
    ensures SitePie(ds, "A") == Ok([Slice(1, 2, "Failure"), Slice(0, 1, "Success")])
  {
    assert OutcomeCount(ds, "A", 1) == 2 && OutcomeCount(ds, "A", 0) == 1 by {
      WhereAll(ds, SiteMask("A"));
      var col: seq<Outcome> := [1, 1, 0];
      assert OutcomeColumn(ds) == col;
      assert col[1..][1..][1..] == [];
    }
    SitePieWhenCountsDiffer(ds, "A");
  }

  /** A site whose launches all succeeded: no pie, the name assignment fails. */
  lemma SingleOutcomeExample(ds: Dataset)
    requires ds == [LaunchRecord("B", 800.0, "v1", 1)]
    ensures SitePie(ds, "B") == Err(LengthMismatch(2, 1))
  {
    assert OutcomeCount(ds, "B", 1) == 1 && OutcomeCount(ds, "B", 0) == 0 by {
      WhereAll(ds, SiteMask("B"));
      var col: seq<Outcome> := [1];
      assert OutcomeColumn(ds) == col;
      assert col[1..] == [];
    }
    SitePieSucceedsIff(ds, "B");
  }

  /** A site that is not in the table: the name assignment gives two rows
      with names and no counts, which draw an empty pie. */
  lemma UnknownSiteExample(ds: Dataset)
    requires ds == [LaunchRecord("A", 500.0, "v1", 1)]
    ensures SitePie(ds, "Z") == Ok([NameOnly("Failure"), NameOnly("Success")])
  {
    assert "Z" !in SiteColumn(ds) by {
      assert SiteColumn(ds) == ["A"];
    }
    SitePieSucceedsIff(ds, "Z");
  }

  /** The single-site pie as evidently intended: "Failure" counts the failed
      launches and "Success" the successful ones, both present even when one
      is zero; a site without launches is reported as such. */
  function SitePieByOutcome(ds: Dataset, site: string): (r: Result<seq<Slice>, PieError>)
    ensures r.Err? ==> r.error == NoLaunches(site)
    ensures r.Ok? ==> && |r.value| == 2
                      && r.value[0].Slice? && r.value[0].outcome == 0 && r.value[0].name == "Failure"
                      && r.value[1].Slice? && r.value[1].outcome == 1 && r.value[1].name == "Success"
                      && r.value[0].count + r.value[1].count == |SiteRecords(ds, site)|
  {
    OutcomesSplit(SiteRecords(ds, site));
    if SiteRecords(ds, site) == [] then Err(NoLaunches(site))
    else Ok([Slice(0, OutcomeCount(ds, site, 0), "Failure"), Slice(1, OutcomeCount(ds, site, 1), "Success")])
  }

  /** The intended pie exists exactly for the sites of the table. */
  lemma {:induction false} SitePieByOutcomeExists(ds: Dataset, site: string)
    ensures SitePieByOutcome(ds, site).Ok? <==> site in SiteColumn(ds)
  {
    SiteRecordsEmpty(ds, site);
  }

  /** The intended pie's "Failure" slice is the failures and its "Success"
      slice the successes (the same number the "All Sites" pie shows for
      that site); together they are all of the site's launches. */
  lemma {:induction false} SitePieByOutcomeCorrect(ds: Dataset, site: string)
    requires site in SiteColumn(ds)
    ensures var s := SitePieByOutcome(ds, site);
      && s.Ok? && |s.value| == 2
      && s.value[0].name == "Failure" && s.value[0].outcome == 0 && s.value[0].count == OutcomeCount(ds, site, 0)
      && s.value[1].name == "Success" && s.value[1].outcome == 1 && s.value[1].count == Lookup(GroupSuccesses(ds), site)
      && s.value[0].count + s.value[1].count == |SiteRecords(ds, site)|
  {
    var rows := SiteRecords(ds, site);
    SiteRecordsEmpty(ds, site);
    OutcomesSplit(rows);
    SuccessesAreOnes(rows);
    GroupSuccessesLookup(ds, site);
  }

  /** A site has rows exactly when its name appears in the site column. */
  lemma {:induction false} SiteRecordsEmpty(ds: Dataset, site: string)
    ensures SiteRecords(ds, site) == [] <==> site !in SiteColumn(ds)
  {
    if site in SiteColumn(ds) {
      var i :| 0 <= i < |ds| && SiteColumn(ds)[i] == site;
      assert ds[i] in ds;
      WhereMembership(ds, SiteMask(site), ds[i]);
    }
    if SiteRecords(ds, site) != [] {
      var r := SiteRecords(ds, site)[0];
      WhereMembership(ds, SiteMask(site), r);
      var i :| 0 <= i < |ds| && ds[i] == r;
      assert SiteColumn(ds)[i] == site;
    }
  }

  /** Where failures outnumber successes, and both occur, the program's
      positional naming happens to give the intended pie. */
  lemma {:induction false} AgreesWhenFailuresDominate(ds: Dataset, site: string)
    requires OutcomeCount(ds, site, 0) > OutcomeCount(ds, site, 1) > 0
    ensures SitePie(ds, site) == SitePieByOutcome(ds, site)
  {
    SitePieWhenCountsDiffer(ds, site);
    SiteRecordsEmpty(ds, site);
    assert SiteRecords(ds, site) != [];
  }

  /** What the callback hands to the pie renderer. */
  datatype PieData = SiteTotals(totals: seq<SiteTotal>) | OutcomeSlices(slices: seq<Slice>)

  /** `pie_chart(selection)`: "All Sites" groups the whole table by site;
      any other value is taken as one site's name. */
  function PieChart(selection: string, ds: Dataset): (r: Result<PieData, PieError>)
    ensures selection == AllSites ==> r == Ok(SiteTotals(GroupSuccesses(ds))) && TotalOf(r.value.totals) == SuccessCount(ds)
    ensures selection != AllSites ==>
              (r.Err? <==> (OutcomeCount(ds, selection, 0) > 0) != (OutcomeCount(ds, selection, 1) > 0))
    ensures selection != AllSites && r.Err? ==> r.error == LengthMismatch(2, 1)
    ensures selection != AllSites && SitePie(ds, selection).Ok? ==> r == Ok(OutcomeSlices(SitePie(ds, selection).value))
    ensures selection != AllSites && selection !in SiteColumn(ds) ==>
              r == Ok(OutcomeSlices([NameOnly("Failure"), NameOnly("Success")]))
  {
    if selection == AllSites then Ok(SiteTotals(GroupSuccesses(ds)))
    else
      var pie := SitePie(ds, selection);
      SitePieSucceedsIff(ds, selection);
      if pie.Ok? then Ok(OutcomeSlices(pie.value)) else Err(pie.error)
  }
}
