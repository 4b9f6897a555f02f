/** Optional values and results with an error. */
module Results {

  datatype Option<T> = None | Some(value: T)

  datatype Result<T, E> = Ok(value: T) | Err(error: E)
}

/** The launch table the dashboard loads once at start-up, and the payload
    bounds it derives from it (3.dashboard.py, lines 12-15). */
module LaunchData {
  import opened Frame
  import opened Results

  /** The `class` column: 1 for a successful launch, 0 for a failure. */
  type Outcome = c: int | c == 0 || c == 1

  /** One row of the table, restricted to the columns the dashboard reads:
      `Launch Site`, `Payload Mass (kg)`, `Booster Version` and `class`. */
  datatype LaunchRecord = LaunchRecord(site: string, payload: real, booster: string, outcome: Outcome)

  /** The table, in file order. */
  type Dataset = seq<LaunchRecord>

  /** The dropdown value that stands for every site. */
  const AllSites: string := "All Sites"

  /** `df["Launch Site"]`. */
  function SiteColumn(ds: Dataset): seq<string>
  {
    seq(|ds|, i requires 0 <= i < |ds| => ds[i].site)
  }

  /** `df["class"]`. */
  function OutcomeColumn(ds: Dataset): seq<Outcome>
  {
    seq(|ds|, i requires 0 <= i < |ds| => ds[i].outcome)
  }

  /** The mask `df["Launch Site"] == site`. */
  function SiteMask(site: string): LaunchRecord -> bool
  {
    (r: LaunchRecord) => r.site == site
  }

  /** `df[df["Launch Site"] == site]`. */
  function SiteRecords(ds: Dataset, site: string): (r: Dataset)
    ensures |r| <= |ds|
    ensures forall i :: 0 <= i < |r| ==> r[i].site == site
  {
    Where(ds, SiteMask(site))
  }

  /** `df["class"].sum()`: the number of successful launches. */
  function SuccessCount(ds: Dataset): (n: nat)
    ensures n <= |ds|
  {
    if ds == [] then 0 else ds[0].outcome + SuccessCount(ds[1..])
  }

  /** Summing the binary `class` column counts its ones. */
  lemma {:induction false} SuccessesAreOnes(ds: Dataset)
    ensures SuccessCount(ds) == Occurrences(OutcomeColumn(ds), 1)
  {
    if ds != [] {
      SuccessesAreOnes(ds[1..]);
      assert OutcomeColumn(ds)[1..] == OutcomeColumn(ds[1..]);
    }
  }

  /** Every launch is either a failure or a success. */
  lemma {:induction false} OutcomesSplit(ds: Dataset)
    ensures Occurrences(OutcomeColumn(ds), 0) + Occurrences(OutcomeColumn(ds), 1) == |ds|
  {
    if ds != [] {
      OutcomesSplit(ds[1..]);
      assert OutcomeColumn(ds)[1..] == OutcomeColumn(ds[1..]);
    }
  }

  /** `df['Payload Mass (kg)'].max()`; `None` stands for the NaN that pandas
      returns for an empty column. */
  function MaxPayload(ds: Dataset): (m: Option<real>)
    ensures m.None? <==> ds == []
    ensures m.Some? ==> forall i :: 0 <= i < |ds| ==> ds[i].payload <= m.value
    ensures m.Some? ==> exists i :: 0 <= i < |ds| && ds[i].payload == m.value
  {
    if ds == [] then None
    else
      match MaxPayload(ds[1..])
      case None => Some(ds[0].payload)
      case Some(rest) =>
        Some(if ds[0].payload >= rest then ds[0].payload else rest)
  }

  /** `df['Payload Mass (kg)'].min()`; `None` stands for NaN as above. */
  function MinPayload(ds: Dataset): (m: Option<real>)
    ensures m.None? <==> ds == []
    ensures m.Some? ==> forall i :: 0 <= i < |ds| ==> m.value <= ds[i].payload
    ensures m.Some? ==> exists i :: 0 <= i < |ds| && ds[i].payload == m.value
  {
    if ds == [] then None
    else
      match MinPayload(ds[1..])
      case None => Some(ds[0].payload)
      case Some(rest) =>
        Some(if ds[0].payload <= rest then ds[0].payload else rest)
  }
}
