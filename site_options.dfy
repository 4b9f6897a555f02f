/** The options of the launch-site dropdown, built once at start-up
    (3.dashboard.py, lines 21-24): the "All Sites" entry, then one entry per
    index value of `df["Launch Site"].value_counts()`. */
module SiteOptions {
  import opened Frame
  import opened Counts
  import opened LaunchData

  /** A `{'label': ..., 'value': ...}` entry of the dropdown; `caption` holds the label. */
  datatype DropdownOption = DropdownOption(caption: string, value: string)

  function SiteOption(site: string): DropdownOption
  {
    DropdownOption(site, site)
  }

  /** `entries` lists every site of the table once, as a site option, in
      order of non-increasing number of launches. */
  ghost predicate ListsEachSiteOnce(ds: Dataset, entries: seq<DropdownOption>)
  {
    && (forall s :: s in SiteColumn(ds) ==> SiteOption(s) in entries)
    && (forall i :: 0 <= i < |entries| ==> entries[i] == SiteOption(entries[i].value) && entries[i].value in SiteColumn(ds))
    && NoDuplicates(entries)
    && (forall i :: 0 <= i < |entries| - 1 ==>
          Occurrences(SiteColumn(ds), entries[i].value) >= Occurrences(SiteColumn(ds), entries[i + 1].value))
  }

  /** The options built from the index of a `value_counts()` result. */
  function IndexOptions(index: seq<string>): seq<DropdownOption>
  {
    seq(|index|, i requires 0 <= i < |index| => SiteOption(index[i]))
  }

  /** Appends one option per index value of the site column's
      `value_counts()` after the "All Sites" option. */
  method LaunchSiteOptions(ds: Dataset) returns (options: seq<DropdownOption>)
    ensures |options| >= 1 && options[0] == SiteOption(AllSites)
    ensures ListsEachSiteOnce(ds, options[1..])
  {
    var counts := ValueCounts(SiteColumn(ds));
    var index := Values(counts);
    options := [SiteOption(AllSites)];
    for k := 0 to |index|
      invariant |options| == k + 1
      invariant options[0] == SiteOption(AllSites)
      invariant forall i :: 0 <= i < k ==> options[i + 1] == SiteOption(index[i])
    {
      options := options + [SiteOption(index[k])];
    }
    assert options[1..] == IndexOptions(index);
    ValueCountsIndexOptions(SiteColumn(ds), ds, counts);
  }

  /** One option per index value of the site column's `value_counts()`
      lists each site once, most launches first. */
  lemma {:induction false} ValueCountsIndexOptions(col: seq<string>, ds: Dataset, vc: seq<Tally<string>>)
    requires col == SiteColumn(ds) && IsValueCounts(col, vc)
    ensures ListsEachSiteOnce(ds, IndexOptions(Values(vc)))
  {
    var entries := IndexOptions(Values(vc));
    forall s | s in col
      ensures SiteOption(s) in entries
    {
      var i :| 0 <= i < |vc| && Values(vc)[i] == s;
      assert entries[i] == SiteOption(s);
    }
  }
}
