/**
 * The analytics service: read-only reductions over the scored district
 * table — national summary, filtered listing, lookup by identifier, state
 * rollup, top-N ranking, flag summary and risk distribution.
 */
module Analytics {
  import opened Wrappers
  import opened Records
  import Seqs
  import PyNum
  import Generator

  const CriticalLabel: string := "Critical"
  const HighLabel: string := "High"
  const MediumLabel: string := "Medium"
  const LowLabel: string := "Low"

  /** The four risk labels, as the category keys they are compared with. */
  const TierKeys: seq<Option<string>> :=
    [Some(CriticalLabel), Some(HighLabel), Some(MediumLabel), Some(LowLabel)]

  /** Errors an endpoint answers with instead of a result. */
  datatype ApiError = NotFound | InvalidLimit {

    /** The HTTP status the error is reported with. */
    function Status(): int
    {
      match this
      case NotFound => 404
      case InvalidLimit => 422
    }
  }

  // ---------------------------------------------------------------------------
  // National summary
  // ---------------------------------------------------------------------------

  /** The summary response; `avgAlhs` is `None` where pandas gives NaN. */
  datatype SummaryStats = SummaryStats(
    totalDistricts: nat,
    criticalDistricts: nat,
    highRiskDistricts: nat,
    mediumRiskDistricts: nat,
    lowRiskDistricts: nat,
    avgAlhs: Option<real>,
    totalFlags: int,
    totalPopulation: int)

  function TierCount(s: SummaryStats): nat
  {
    s.criticalDistricts + s.highRiskDistricts + s.mediumRiskDistricts + s.lowRiskDistricts
  }

  /**
   * `get_summary_stats`: each tier count is the number of rows carrying
   * that label, so together they count at most every row, and exactly every
   * row when each row has one of the four labels.
   */
  function SummaryStatsOf(t: seq<District>): (s: SummaryStats)
    ensures s.totalDistricts == |t|
    ensures s.criticalDistricts == |Seqs.FilterKey(t, CategoryOf, Some(CriticalLabel))|
    ensures s.highRiskDistricts == |Seqs.FilterKey(t, CategoryOf, Some(HighLabel))|
    ensures s.mediumRiskDistricts == |Seqs.FilterKey(t, CategoryOf, Some(MediumLabel))|
    ensures s.lowRiskDistricts == |Seqs.FilterKey(t, CategoryOf, Some(LowLabel))|
    ensures TierCount(s) <= s.totalDistricts
    ensures (forall i :: 0 <= i < |t| ==> t[i].riskCategory in TierKeys) ==> TierCount(s) == s.totalDistricts
    ensures s.avgAlhs.None? <==> |t| == 0
    ensures s.avgAlhs == Seqs.Mean(t, AlhsOf)
    ensures s.totalFlags == Seqs.Sum(t, FlagsOf)
    ensures s.totalPopulation == Seqs.Sum(t, PopulationOf)
  {
    var s := SummaryStats(
      |t|,
      Seqs.CountKey(t, CategoryOf, Some(CriticalLabel)),
      Seqs.CountKey(t, CategoryOf, Some(HighLabel)),
      Seqs.CountKey(t, CategoryOf, Some(MediumLabel)),
      Seqs.CountKey(t, CategoryOf, Some(LowLabel)),
      Seqs.Mean(t, AlhsOf),
      Seqs.Sum(t, FlagsOf),
      Seqs.Sum(t, PopulationOf));
    TierCountBound(t);
    s
  }

  /** On well-formed rows the national average ALHS is a score on the 0..100 scale. */
  lemma SummaryAverageIsScore(t: seq<District>)
    requires AllWellFormed(t)
    ensures SummaryStatsOf(t).avgAlhs.Some? ==> 0.0 <= SummaryStatsOf(t).avgAlhs.value <= 100.0
  {
    if |t| > 0 {
      forall i | 0 <= i < |t| ensures 0.0 <= AlhsOf(t[i]) <= 100.0 {
        assert WellFormed(t[i]);
      }
      Seqs.MeanBounds(t, AlhsOf, 0.0, 100.0);
    }
  }

  lemma TierCountBound(t: seq<District>)
    ensures TierCountOf(t) <= |t|
    ensures (forall i :: 0 <= i < |t| ==> t[i].riskCategory in TierKeys) ==> TierCountOf(t) == |t|
  {
    var ks := TierKeys;
    assert Seqs.NoDup(ks);
    Seqs.GroupSum(t, CategoryOf, ks, Seqs.One);
    Seqs.CountKeyIsSum(t, CategoryOf, ks[0]);
    Seqs.CountKeyIsSum(t, CategoryOf, ks[1]);
    Seqs.CountKeyIsSum(t, CategoryOf, ks[2]);
    Seqs.CountKeyIsSum(t, CategoryOf, ks[3]);
    assert ks[1..] == [ks[1], ks[2], ks[3]] && ks[1..][1..] == [ks[2], ks[3]];
    assert ks[1..][1..][1..] == [ks[3]] && ks[1..][1..][1..][1..] == [];
    calc {
      Seqs.SumGroups(t, CategoryOf, ks, Seqs.One);
      Seqs.SumKey(t, CategoryOf, ks[0], Seqs.One) + Seqs.SumGroups(t, CategoryOf, ks[1..], Seqs.One);
      Seqs.SumKey(t, CategoryOf, ks[0], Seqs.One) + Seqs.SumKey(t, CategoryOf, ks[1], Seqs.One)
      + Seqs.SumGroups(t, CategoryOf, ks[1..][1..], Seqs.One);
      Seqs.SumKey(t, CategoryOf, ks[0], Seqs.One) + Seqs.SumKey(t, CategoryOf, ks[1], Seqs.One)
      + Seqs.SumKey(t, CategoryOf, ks[2], Seqs.One) + Seqs.SumGroups(t, CategoryOf, ks[1..][1..][1..], Seqs.One);
      TierCountOf(t);
    }
    Seqs.SumKeyInLe(t, CategoryOf, ks, Seqs.One);
    Seqs.SumOne(t);
    if forall i :: 0 <= i < |t| ==> t[i].riskCategory in TierKeys {
      Seqs.SumKeyInAll(t, CategoryOf, ks, Seqs.One);
    }
  }

  function TierCountOf(t: seq<District>): nat
  {
    Seqs.CountKey(t, CategoryOf, Some(CriticalLabel)) + Seqs.CountKey(t, CategoryOf, Some(HighLabel))
    + Seqs.CountKey(t, CategoryOf, Some(MediumLabel)) + Seqs.CountKey(t, CategoryOf, Some(LowLabel))
  }

  /**
   * On a generated table every row with a positive score carries one of the
   * four labels, so the tier counts then cover every district.
   */
  lemma GeneratedTiersCover(ds: seq<Generator.Draws>, today: string)
    requires Generator.ValidDraws(ds)
    requires forall i :: 0 <= i < |ds| ==> Generator.ScoresOf(ds[i]).alhs > 0.0
    ensures TierCount(SummaryStatsOf(Generator.GenerateTable(ds, today))) == |ds|
  {
    var t := Generator.GenerateTable(ds, today);
    forall i | 0 <= i < |t|
      ensures t[i].riskCategory in TierKeys
    {
      assert WellFormed(t[i]);
      var c := Generator.CategoryLabel(t[i].alhs);
      assert c.Some?;
      assert c.value in {"Low", "Medium", "High", "Critical"};
    }
  }

  /**
   * The right-closed bins leave a score of exactly 0 unlabelled: a district
   * whose three indices all clip to zero is counted in no tier.
   */
  lemma ZeroScoreUnlabelled(today: string)
    ensures var d := Generator.GenerateDistrict(
              0, Generator.Draws(0.0, -200.0, -200.0, -200.0, 0.0, 0.0, 0.0, 0.0, 1000.0, 0), today);
            d.alhs == 0.0 && d.riskCategory.None?
            && TierCount(SummaryStatsOf([d])) == 0 < SummaryStatsOf([d]).totalDistricts
  {
    var draws := Generator.Draws(0.0, -200.0, -200.0, -200.0, 0.0, 0.0, 0.0, 0.0, 1000.0, 0);
    FloorDrawsScoreZero(draws);
    var d := Generator.GenerateDistrict(0, draws, today);
    assert d.alhs == 0.0;
    UnlabelledUncounted(d);
  }

  /** A district without a risk label is counted in none of the four tiers. */
  lemma UnlabelledUncounted(d: District)
    requires d.riskCategory.None?
    ensures TierCount(SummaryStatsOf([d])) == 0 < SummaryStatsOf([d]).totalDistricts
  {
    forall c: string ensures Seqs.CountKey([d], CategoryOf, Some(c)) == 0 {
      assert CategoryOf([d][0]) != Some(c);
    }
  }

  /** Noise far below the scale clips every sub-index, and so the composite, to 0. */
  lemma FloorDrawsScoreZero(d: Generator.Draws)
    requires d.baseRisk == 0.0 && d.ehiNoise <= -100.0 && d.dsiNoise <= -100.0 && d.bciNoise <= -100.0
    ensures Generator.ScoresOf(d).alhs == 0.0
  {
    var ehi := Generator.Clip(d.baseRisk * 100.0 + d.ehiNoise);
    assert ehi == 0.0;
    var dsi := Generator.Clip(ehi * 0.7 + d.dsiNoise);
    assert dsi == 0.0;
    var bci := Generator.Clip((ehi * 0.4 + dsi * 0.4) + d.bciNoise);
    assert bci == 0.0;
  }

  // ---------------------------------------------------------------------------
  // Filtered listing
  // ---------------------------------------------------------------------------

  /**
   * The optional parameters of the listing.  As in Python, a parameter that
   * is missing or falsy (the empty string, 0.0, 0) applies no constraint.
   */
  datatype Query = Query(
    state: Option<string>,
    riskCategory: Option<string>,
    minAlhs: Option<real>,
    limit: Option<int>)

  predicate TextGiven(o: Option<string>) { o.Some? && o.value != "" }
  predicate RealGiven(o: Option<real>) { o.Some? && o.value != 0.0 }
  predicate IntGiven(o: Option<int>) { o.Some? && o.value != 0 }

  /** The record passes every filter the query gives. */
  predicate Matches(q: Query, d: District)
  {
    && (TextGiven(q.state) ==> d.state == q.state.value)
    && (TextGiven(q.riskCategory) ==> d.riskCategory == Some(q.riskCategory.value))
    && (RealGiven(q.minAlhs) ==> d.alhs >= q.minAlhs.value)
  }

  /**
   * The rows of `t` that pass the query's filters, in table order.  The
   * source narrows by state, then by category, then by ALHS; filtering by
   * the conjunction keeps the same rows in the same order.
   */
  function Selected(t: seq<District>, q: Query): (r: seq<District>)
    ensures multiset(r) <= multiset(t)
    ensures forall i :: 0 <= i < |r| ==> Matches(q, r[i])
    ensures forall x :: x in t && Matches(q, x) ==> x in r
    ensures |r| == Seqs.Count(t, Matcher(q))
    ensures Seqs.Subsequence(r, t)
  {
    Seqs.Filter(t, Matcher(q))
  }

  /** `Matches` for one query, as a row predicate. */
  function Matcher(q: Query): District -> bool
  {
    d => Matches(q, d)
  }

  /** The limit applied to the listing: the query's, or none at all. */
  function ListLimit(t: seq<District>, q: Query): int
  {
    if IntGiven(q.limit) then q.limit.value else |Selected(t, q)|
  }

  /**
   * `get_districts`: the matching rows, largest ALHS first, cut by the
   * limit as pandas `head` does (a negative limit drops that many rows from
   * the end).  Rows with equal ALHS may come in any order.
   */
  function Districts(t: seq<District>, q: Query): (r: seq<District>)
    ensures multiset(r) <= multiset(Selected(t, q)) <= multiset(t)
    ensures forall i :: 0 <= i < |r| ==> Matches(q, r[i])
    ensures Seqs.SortedDesc(r, AlhsOf)
    ensures !IntGiven(q.limit) ==> multiset(r) == multiset(Selected(t, q))
    ensures IntGiven(q.limit) && q.limit.value > 0 ==> |r| == Seqs.Min(q.limit.value, |Selected(t, q)|)
    ensures IntGiven(q.limit) && q.limit.value < 0 ==> |r| == Seqs.Max(0, |Selected(t, q)| + q.limit.value)
    ensures Seqs.KeepsTop(Selected(t, q), r, AlhsOf)
  {
    var sel := Selected(t, q);
    var r := Seqs.Ranked(sel, AlhsOf, ListLimit(t, q));
    r
  }

  // ---------------------------------------------------------------------------
  // Lookup
  // ---------------------------------------------------------------------------

  /**
   * `get_district_by_id`: the first row with the identifier, or `NotFound`
   * (HTTP 404) when no row has it.
   */
  function DistrictById(t: seq<District>, id: string): (r: Result<District, ApiError>)
    ensures r.Ok? <==> exists i :: 0 <= i < |t| && t[i].id == id
    ensures r.Err? ==> r.error == NotFound
    ensures r.Ok? ==> exists i :: 0 <= i < |t| && t[i] == r.value && t[i].id == id
                        && forall j :: 0 <= j < i ==> t[j].id != id
  {
    if t == [] then Err(NotFound)
    else if t[0].id == id then Ok(t[0])
    else
      var r := DistrictById(t[1..], id);
      LookupPastHead(t, id);
      FirstPastHead(t, id, r);
      r
  }

  /** Past a head row with another identifier, the identifier occurs in the tail or nowhere. */
  lemma LookupPastHead(t: seq<District>, id: string)
    requires t != [] && t[0].id != id
    ensures (exists i :: 0 <= i < |t| && t[i].id == id) <==> (exists i :: 0 <= i < |t[1..]| && t[1..][i].id == id)
  {
    if exists i :: 0 <= i < |t| && t[i].id == id {
      var i :| 0 <= i < |t| && t[i].id == id;
      assert t[1..][i - 1].id == id;
    }
    if exists i :: 0 <= i < |t[1..]| && t[1..][i].id == id {
      var i :| 0 <= i < |t[1..]| && t[1..][i].id == id;
      assert t[i + 1].id == id;
    }
  }

  /** The first match in the tail, past a non-matching head, is the first match in the table. */
  lemma FirstPastHead(t: seq<District>, id: string, r: Result<District, ApiError>)
    requires t != [] && t[0].id != id
    requires r.Ok? ==> exists i :: 0 <= i < |t[1..]| && t[1..][i] == r.value && t[1..][i].id == id
                                   && forall j :: 0 <= j < i ==> t[1..][j].id != id
    ensures r.Ok? ==> exists i :: 0 <= i < |t| && t[i] == r.value && t[i].id == id
                                  && forall j :: 0 <= j < i ==> t[j].id != id
  {
    if r.Err? { return; }
    var d := r.value;
    var i :| 0 <= i < |t[1..]| && t[1..][i] == d && t[1..][i].id == id
             && forall j :: 0 <= j < i ==> t[1..][j].id != id;
    assert t[i + 1] == d;
    forall j | 0 <= j < i + 1 ensures t[j].id != id {
      if j > 0 { assert t[j] == t[1..][j - 1]; }
    }
  }

  /** In a table with unique identifiers, looking up a row's identifier finds that row. */
  lemma LookupFindsRow(t: seq<District>, i: int)
    requires Seqs.DistinctBy(t, IdOf)
    requires 0 <= i < |t|
    ensures DistrictById(t, t[i].id) == Ok(t[i])
  {
    var r := DistrictById(t, t[i].id);
    var k :| 0 <= k < |t| && t[k] == r.value && t[k].id == t[i].id
             && forall j :: 0 <= j < k ==> t[j].id != t[i].id;
    assert IdOf(t[k]) == IdOf(t[i]);
  }

  // ---------------------------------------------------------------------------
  // State rollup
  // ---------------------------------------------------------------------------

  /** One row of the state rollup. */
  datatype StateStats = StateStats(
    state: string,
    districtCount: int,
    avgAlhs: real,
    totalFlags: int,
    population: int,
    criticalCount: int)

  function RowState(s: StateStats): string { s.state }
  function RowAvg(s: StateStats): real { s.avgAlhs }
  function RowCount(s: StateStats): int { s.districtCount }
  function RowFlags(s: StateStats): int { s.totalFlags }
  function RowPopulation(s: StateStats): int { s.population }

  /** 1 for a district labelled Critical, else 0. */
  function CriticalBit(d: District): int
  {
    if d.riskCategory == Some(CriticalLabel) then 1 else 0
  }

  /** The row's average, weighted by its district count, gives back `total`. */
  predicate AveragesTo(s: StateStats, total: real)
  {
    s.avgAlhs * (s.districtCount as real) == total
  }

  predicate StateOccurs(t: seq<District>, k: string)
  {
    exists i :: 0 <= i < |t| && t[i].state == k
  }

  /** The rollup row of one state present in the table. */
  function StateRow(t: seq<District>, k: string): (s: StateStats)
    requires StateOccurs(t, k)
    ensures s.state == k
    ensures s.districtCount == Seqs.CountKey(t, StateOf, k) > 0
    ensures 0 <= s.criticalCount <= s.districtCount
    ensures AveragesTo(s, Seqs.SumKeyR(t, StateOf, k, AlhsOf))
    ensures (forall j :: 0 <= j < |t| && t[j].state == k ==> t[j].riskCategory != Some(CriticalLabel))
            ==> s.criticalCount == 0
    ensures s.criticalCount == Seqs.CountKey(t, StateTier, (k, Some(CriticalLabel)))
    ensures s.totalFlags == Seqs.SumKey(t, StateOf, k, FlagsOf)
    ensures s.population == Seqs.SumKey(t, StateOf, k, PopulationOf)
  {
    StateGroupFacts(t, k);
    CriticalCountIsCount(t, k);
    var count := Seqs.SumKey(t, StateOf, k, Seqs.One);
    var total := Seqs.SumKeyR(t, StateOf, k, AlhsOf);
    var s := StateStats(
      k,
      count,
      total / (count as real),
      Seqs.SumKey(t, StateOf, k, FlagsOf),
      Seqs.SumKey(t, StateOf, k, PopulationOf),
      Seqs.SumKey(t, StateOf, k, CriticalBit));
    MeanAveragesTo(s, total);
    s
  }

  /** A row whose average is its total over its count averages to that total. */
  lemma MeanAveragesTo(s: StateStats, total: real)
    requires s.districtCount > 0 && s.avgAlhs == total / (s.districtCount as real)
    ensures AveragesTo(s, total)
  {
    PyNum.DivTimes(total, s.districtCount as real);
  }

  /** A district's state together with its label. */
  function StateTier(d: District): (string, Option<string>)
  {
    (d.state, d.riskCategory)
  }

  /** Summing the critical indicator over a state counts its Critical districts. */
  lemma {:induction false} CriticalCountIsCount(t: seq<District>, k: string)
    ensures Seqs.SumKey(t, StateOf, k, CriticalBit) == Seqs.CountKey(t, StateTier, (k, Some(CriticalLabel)))
  {
    if t != [] {
      CriticalCountIsCount(t[1..], k);
    }
  }

  /** The district and critical counts of a state present in the table. */
  lemma StateGroupFacts(t: seq<District>, k: string)
    requires StateOccurs(t, k)
    ensures Seqs.SumKey(t, StateOf, k, Seqs.One) == Seqs.CountKey(t, StateOf, k) > 0
    ensures 0 <= Seqs.SumKey(t, StateOf, k, CriticalBit) <= Seqs.CountKey(t, StateOf, k)
    ensures (forall j :: 0 <= j < |t| && t[j].state == k ==> t[j].riskCategory != Some(CriticalLabel))
            ==> Seqs.SumKey(t, StateOf, k, CriticalBit) == 0
  {
    var i :| 0 <= i < |t| && t[i].state == k;
    assert StateOf(t[i]) == k;
    Seqs.CountKeyIsSum(t, StateOf, k);
    Seqs.SumKeyLeCount(t, StateOf, k, CriticalBit);
    if forall j :: 0 <= j < |t| && t[j].state == k ==> t[j].riskCategory != Some(CriticalLabel) {
      Seqs.SumKeyZero(t, StateOf, k, CriticalBit);
    }
  }

  /** Rollup rows for the states `ks`, in that order. */
  function StateRows(t: seq<District>, ks: seq<string>): (r: seq<StateStats>)
    requires forall k :: k in ks ==> StateOccurs(t, k)
    ensures |r| == |ks|
    ensures forall i :: 0 <= i < |r| ==> r[i] == StateRow(t, ks[i])
  {
    if ks == [] then [] else [StateRow(t, ks[0])] + StateRows(t, ks[1..])
  }

  lemma {:induction false} StateRowsSums(t: seq<District>, ks: seq<string>)
    requires forall k :: k in ks ==> StateOccurs(t, k)
    ensures Seqs.Sum(StateRows(t, ks), RowCount) == Seqs.SumGroups(t, StateOf, ks, Seqs.One)
    ensures Seqs.Sum(StateRows(t, ks), RowFlags) == Seqs.SumGroups(t, StateOf, ks, FlagsOf)
    ensures Seqs.Sum(StateRows(t, ks), RowPopulation) == Seqs.SumGroups(t, StateOf, ks, PopulationOf)
  {
    if ks != [] {
      StateRowsSums(t, ks[1..]);
      assert StateRows(t, ks)[1..] == StateRows(t, ks[1..]);
    }
  }

  /**
   * `get_state_stats`: one row per state that occurs in the table, ordered
   * by average ALHS, largest first.  Group-by loses nothing: the district
   * counts add up to the number of rows and the flag and population totals
   * to the table's totals.
   */
  function StateStatsOf(t: seq<District>): (r: seq<StateStats>)
    ensures Seqs.SortedDesc(r, RowAvg)
    ensures Seqs.DistinctBy(r, RowState)
    ensures CoversStates(t, r)
    ensures forall i :: 0 <= i < |r| ==> StateOccurs(t, r[i].state) && r[i] == StateRow(t, r[i].state)
    ensures forall i :: 0 <= i < |r| ==>
              && r[i].districtCount == Seqs.CountKey(t, StateOf, r[i].state) > 0
              && 0 <= r[i].criticalCount <= r[i].districtCount
              && AveragesTo(r[i], Seqs.SumKeyR(t, StateOf, r[i].state, AlhsOf))
    ensures forall i :: 0 <= i < |r| ==>
              ((forall j :: 0 <= j < |t| && t[j].state == r[i].state ==> t[j].riskCategory != Some(CriticalLabel))
               ==> r[i].criticalCount == 0)
    ensures Seqs.Sum(r, RowCount) == |t|
    ensures Seqs.Sum(r, RowFlags) == Seqs.Sum(t, FlagsOf)
    ensures Seqs.Sum(r, RowPopulation) == Seqs.Sum(t, PopulationOf)
  {
    var ks := Seqs.Keys(t, StateOf);
    KeysListStates(t);
    RollupSums(t, ks);
    RollupRows(t, ks);
    var r := Seqs.SortDesc(StateRows(t, ks), RowAvg);
    RowsAreRollups(t, r);
    r
  }

  /** The distinct states in order of first appearance list the table's states. */
  lemma KeysListStates(t: seq<District>)
    ensures IsStateListing(t, Seqs.Keys(t, StateOf))
  {
    var ks := Seqs.Keys(t, StateOf);
    forall k | k in ks ensures StateOccurs(t, k) {
      var i :| 0 <= i < |t| && StateOf(t[i]) == k;
    }
    forall i | 0 <= i < |t| ensures t[i].state in ks {
      assert StateOf(t[i]) in ks;
    }
  }

  /** Rows that are each the rollup of their state carry that rollup's guarantees. */
  lemma RowsAreRollups(t: seq<District>, r: seq<StateStats>)
    requires forall i :: 0 <= i < |r| ==> StateOccurs(t, r[i].state) && r[i] == StateRow(t, r[i].state)
    ensures forall i :: 0 <= i < |r| ==>
              && r[i].districtCount == Seqs.CountKey(t, StateOf, r[i].state) > 0
              && 0 <= r[i].criticalCount <= r[i].districtCount
              && AveragesTo(r[i], Seqs.SumKeyR(t, StateOf, r[i].state, AlhsOf))
    ensures forall i :: 0 <= i < |r| ==>
              ((forall j :: 0 <= j < |t| && t[j].state == r[i].state ==> t[j].riskCategory != Some(CriticalLabel))
               ==> r[i].criticalCount == 0)
  {
    forall i | 0 <= i < |r|
      ensures r[i].districtCount == Seqs.CountKey(t, StateOf, r[i].state) > 0
      ensures 0 <= r[i].criticalCount <= r[i].districtCount
      ensures AveragesTo(r[i], Seqs.SumKeyR(t, StateOf, r[i].state, AlhsOf))
      ensures (forall j :: 0 <= j < |t| && t[j].state == r[i].state ==> t[j].riskCategory != Some(CriticalLabel))
              ==> r[i].criticalCount == 0
    {
      var row := StateRow(t, r[i].state);
      assert r[i] == row;
    }
  }

  /** Every state of the table has a row in `r`. */
  ghost predicate CoversStates(t: seq<District>, r: seq<StateStats>)
  {
    forall k :: StateOccurs(t, k) ==> exists i :: 0 <= i < |r| && r[i].state == k
  }

  /** The keys are exactly the states of the table, each once. */
  predicate IsStateListing(t: seq<District>, ks: seq<string>)
  {
    && Seqs.NoDup(ks)
    && (forall k :: k in ks ==> StateOccurs(t, k))
    && (forall i :: 0 <= i < |t| ==> t[i].state in ks)
  }

  /** Grouping by state and sorting the groups loses no district, flag or inhabitant. */
  lemma RollupSums(t: seq<District>, ks: seq<string>)
    requires IsStateListing(t, ks)
    ensures Seqs.Sum(Seqs.SortDesc(StateRows(t, ks), RowAvg), RowCount) == |t|
    ensures Seqs.Sum(Seqs.SortDesc(StateRows(t, ks), RowAvg), RowFlags) == Seqs.Sum(t, FlagsOf)
    ensures Seqs.Sum(Seqs.SortDesc(StateRows(t, ks), RowAvg), RowPopulation) == Seqs.Sum(t, PopulationOf)
  {
    var rows := StateRows(t, ks);
    StateRowsSums(t, ks);
    Seqs.SortDescSum(rows, RowAvg, RowCount);
    Seqs.SortDescSum(rows, RowAvg, RowFlags);
    Seqs.SortDescSum(rows, RowAvg, RowPopulation);
    Seqs.GroupSum(t, StateOf, ks, Seqs.One);
    Seqs.GroupSum(t, StateOf, ks, FlagsOf);
    Seqs.GroupSum(t, StateOf, ks, PopulationOf);
    Seqs.SumKeyInAll(t, StateOf, ks, Seqs.One);
    Seqs.SumKeyInAll(t, StateOf, ks, FlagsOf);
    Seqs.SumKeyInAll(t, StateOf, ks, PopulationOf);
    Seqs.SumOne(t);
  }

  /** The sorted rollup has one row per state of the table, each the rollup of its state. */
  lemma RollupRows(t: seq<District>, ks: seq<string>)
    requires IsStateListing(t, ks)
    ensures Seqs.DistinctBy(Seqs.SortDesc(StateRows(t, ks), RowAvg), RowState)
    ensures forall i :: 0 <= i < |Seqs.SortDesc(StateRows(t, ks), RowAvg)| ==>
              && StateOccurs(t, Seqs.SortDesc(StateRows(t, ks), RowAvg)[i].state)
              && Seqs.SortDesc(StateRows(t, ks), RowAvg)[i]
                 == StateRow(t, Seqs.SortDesc(StateRows(t, ks), RowAvg)[i].state)
    ensures CoversStates(t, Seqs.SortDesc(StateRows(t, ks), RowAvg))
  {
    var rows := StateRows(t, ks);
    var r := Seqs.SortDesc(rows, RowAvg);
    assert Seqs.DistinctBy(rows, RowState);
    Seqs.SortDescDistinctBy(rows, RowAvg, RowState);
    PermutedRollups(t, ks, rows, r);
    PermutedCover(t, ks, rows, r);
  }

  /** Any reordering of the rollup rows still holds only rollups of states present. */
  lemma PermutedRollups(t: seq<District>, ks: seq<string>, rows: seq<StateStats>, r: seq<StateStats>)
    requires forall k :: k in ks ==> StateOccurs(t, k)
    requires rows == StateRows(t, ks) && multiset(r) == multiset(rows)
    ensures forall i :: 0 <= i < |r| ==> StateOccurs(t, r[i].state) && r[i] == StateRow(t, r[i].state)
  {
    forall i | 0 <= i < |r|
      ensures StateOccurs(t, r[i].state) && r[i] == StateRow(t, r[i].state)
    {
      assert r[i] in multiset(rows);
      var j :| 0 <= j < |rows| && rows[j] == r[i];
      assert rows[j] == StateRow(t, ks[j]);
    }
  }

  /** Any reordering of the rollup rows over all states has a row for every state present. */
  lemma PermutedCover(t: seq<District>, ks: seq<string>, rows: seq<StateStats>, r: seq<StateStats>)
    requires IsStateListing(t, ks)
    requires rows == StateRows(t, ks) && multiset(r) == multiset(rows)
    ensures CoversStates(t, r)
  {
    forall k | StateOccurs(t, k)
      ensures exists i :: 0 <= i < |r| && r[i].state == k
    {
      var m :| 0 <= m < |t| && t[m].state == k;
      var j :| 0 <= j < |ks| && ks[j] == k;
      assert rows[j].state == k;
      assert rows[j] in multiset(r);
      var i :| 0 <= i < |r| && r[i] == rows[j];
    }
  }

  // ---------------------------------------------------------------------------
  // Top-N ranking
  // ---------------------------------------------------------------------------

  const MinTopLimit: int := 1
  const MaxTopLimit: int := 50

  /**
   * `nlargest(n, 'alhs')`: the `n` rows with the largest ALHS, largest
   * first; among equal scores earlier rows come first and win the last
   * places.  pandas promises that tie order only when `n` is below the row
   * count; for larger `n` it sorts unstably, and the model still keeps
   * table order there.
   */
  function TopN(t: seq<District>, n: nat): (r: seq<District>)
    ensures |r| == Seqs.Min(n, |t|)
    ensures Seqs.SortedDesc(r, AlhsOf)
    ensures multiset(r) <= multiset(t)
    ensures Seqs.KeepsTop(t, r, AlhsOf)
    ensures forall v :: |Seqs.Tied(r, AlhsOf, v)| <= |Seqs.Tied(t, AlhsOf, v)|
    ensures forall v :: Seqs.Tied(r, AlhsOf, v) == Seqs.Tied(t, AlhsOf, v)[..|Seqs.Tied(r, AlhsOf, v)|]
  {
    Seqs.Ranked(t, AlhsOf, n)
  }

  /** The columns of a top-N entry. */
  datatype TopEntry = TopEntry(
    id: string,
    name: string,
    state: string,
    alhs: real,
    flagsCount: int,
    population: int,
    riskCategory: Option<string>)

  datatype TopResponse = TopResponse(count: nat, districts: seq<TopEntry>)

  function Entry(d: District): TopEntry
  {
    TopEntry(d.id, d.name, d.state, d.alhs, d.flagsCount, d.population, d.riskCategory)
  }

  function Entries(t: seq<District>): (r: seq<TopEntry>)
    ensures |r| == |t| && forall i :: 0 <= i < |t| ==> r[i] == Entry(t[i])
  {
    seq(|t|, i requires 0 <= i < |t| => Entry(t[i]))
  }

  /**
   * `get_top_risk_districts(limit)`: a limit outside 1..50 is rejected
   * (HTTP 422); otherwise the top-`limit` rows, and their number.
   */
  function TopRiskDistricts(t: seq<District>, limit: int): (r: Result<TopResponse, ApiError>)
    ensures r.Err? <==> !(MinTopLimit <= limit <= MaxTopLimit)
    ensures r.Err? ==> r.error == InvalidLimit
    ensures r.Ok? ==> r.value.count == |r.value.districts| == Seqs.Min(limit, |t|)
    ensures r.Ok? ==> r.value.districts == Entries(TopN(t, limit))
  {
    if limit < MinTopLimit || limit > MaxTopLimit then Err(InvalidLimit)
    else
      var top := Entries(TopN(t, limit));
      Ok(TopResponse(|top|, top))
  }

  // ---------------------------------------------------------------------------
  // Flag summary
  // ---------------------------------------------------------------------------

  datatype FlagSummary = FlagSummary(
    lowChildCompliance: int,
    infraStress: int,
    catchupSpike: int,
    futureSurge: int,
    totalFlags: int,
    districtsWithMultipleFlags: nat)

  predicate HasMultipleFlags(d: District) { d.flagsCount >= 2 }

  predicate LowChildRaised(d: District) { d.lowChildCompliance == 1 }
  predicate InfraRaised(d: District) { d.infraStress == 1 }
  predicate CatchupRaised(d: District) { d.catchupSpike == 1 }
  predicate SurgeRaised(d: District) { d.futureSurge == 1 }

  predicate AllWellFormed(t: seq<District>)
  {
    forall i :: 0 <= i < |t| ==> WellFormed(t[i])
  }

  /**
   * `get_flag_summary`: the column totals of the four flags and of the flag
   * count, and the number of districts with two flags or more.  On a
   * well-formed table each flag total counts the districts raising that
   * flag, and the flag totals add up to the total flag count.
   */
  function FlagSummaryOf(t: seq<District>): (f: FlagSummary)
    ensures f.districtsWithMultipleFlags == Seqs.Count(t, HasMultipleFlags) <= |t|
    ensures f.totalFlags == Seqs.Sum(t, FlagsOf)
    ensures f.lowChildCompliance == Seqs.Sum(t, LowChildOf)
    ensures f.infraStress == Seqs.Sum(t, InfraOf)
    ensures f.catchupSpike == Seqs.Sum(t, CatchupOf)
    ensures f.futureSurge == Seqs.Sum(t, SurgeOf)
    ensures AllWellFormed(t) ==>
              && f.lowChildCompliance == Seqs.Count(t, LowChildRaised)
              && f.infraStress == Seqs.Count(t, InfraRaised)
              && f.catchupSpike == Seqs.Count(t, CatchupRaised)
              && f.futureSurge == Seqs.Count(t, SurgeRaised)
    ensures AllWellFormed(t) ==>
              f.totalFlags == f.lowChildCompliance + f.infraStress + f.catchupSpike + f.futureSurge
  {
    var f := FlagSummary(
      Seqs.Sum(t, LowChildOf),
      Seqs.Sum(t, InfraOf),
      Seqs.Sum(t, CatchupOf),
      Seqs.Sum(t, SurgeOf),
      Seqs.Sum(t, FlagsOf),
      Seqs.Count(t, HasMultipleFlags));
    assert AllWellFormed(t) ==>
             && f.lowChildCompliance == Seqs.Count(t, LowChildRaised)
             && f.infraStress == Seqs.Count(t, InfraRaised)
             && f.catchupSpike == Seqs.Count(t, CatchupRaised)
             && f.futureSurge == Seqs.Count(t, SurgeRaised)
             && f.totalFlags == f.lowChildCompliance + f.infraStress + f.catchupSpike + f.futureSurge
    by {
      if AllWellFormed(t) {
        FlagColumnsAreCounts(t);
        FlagTotalsAgree(t);
      }
    }
    f
  }

  lemma {:induction false} FlagColumnsAreCounts(t: seq<District>)
    requires AllWellFormed(t)
    ensures Seqs.Sum(t, LowChildOf) == Seqs.Count(t, LowChildRaised)
    ensures Seqs.Sum(t, InfraOf) == Seqs.Count(t, InfraRaised)
    ensures Seqs.Sum(t, CatchupOf) == Seqs.Count(t, CatchupRaised)
    ensures Seqs.Sum(t, SurgeOf) == Seqs.Count(t, SurgeRaised)
  {
    if t != [] {
      assert forall i :: 0 <= i < |t[1..]| ==> t[1..][i] == t[i + 1];
      assert WellFormed(t[0]);
      FlagColumnsAreCounts(t[1..]);
    }
  }

  /** On a well-formed table the flag count column totals the four flag columns. */
  lemma {:induction false} FlagTotalsAgree(t: seq<District>)
    requires AllWellFormed(t)
    ensures Seqs.Sum(t, FlagsOf)
            == Seqs.Sum(t, LowChildOf) + Seqs.Sum(t, InfraOf) + Seqs.Sum(t, CatchupOf) + Seqs.Sum(t, SurgeOf)
  {
    if t != [] {
      assert forall i :: 0 <= i < |t[1..]| ==> t[1..][i] == t[i + 1];
      assert WellFormed(t[0]);
      FlagTotalsAgree(t[1..]);
    }
  }

  // ---------------------------------------------------------------------------
  // Risk distribution
  // ---------------------------------------------------------------------------

  /** `value_counts()` and the derived percentages, keyed by label. */
  datatype Distribution = Distribution(counts: map<string, nat>, percentages: map<string, real>)

  /** The labels that occur in the table (missing labels are not counted). */
  function LabelSet(t: seq<District>): set<string>
  {
    set i | 0 <= i < |t| && t[i].riskCategory.Some? :: t[i].riskCategory.value
  }

  predicate Labelled(d: District) { d.riskCategory.Some? }

  /**
   * `get_risk_distribution`: one entry per label that occurs, with the
   * number of rows carrying it and that number as a percentage of all rows.
   * An empty table gives two empty maps and divides by nothing.
   */
  function RiskDistribution(t: seq<District>): (d: Distribution)
    ensures d.counts.Keys == d.percentages.Keys
    ensures forall l :: l in d.counts <==> exists i :: 0 <= i < |t| && t[i].riskCategory == Some(l)
    ensures forall l :: l in d.counts ==> d.counts[l] == Seqs.CountKey(t, CategoryOf, Some(l)) > 0
    ensures forall l :: l in d.counts ==> IsPercentage(d.percentages[l], d.counts[l], |t|)
    ensures |t| == 0 ==> d.counts == map[] && d.percentages == map[]
  {
    var counts := LabelCounts(t);
    assert |t| == 0 ==> counts == map[];
    Distribution(counts, Percentages(counts, |t|))
  }

  /** `value_counts()`: every label that occurs, with the number of rows carrying it. */
  function LabelCounts(t: seq<District>): (m: map<string, nat>)
    ensures forall l :: l in m <==> exists i :: 0 <= i < |t| && t[i].riskCategory == Some(l)
    ensures forall l :: l in m ==> m[l] == Seqs.CountKey(t, CategoryOf, Some(l)) > 0
  {
    var m := map l | l in LabelSet(t) :: Seqs.CountKey(t, CategoryOf, Some(l));
    assert forall l :: l in m ==> m[l] > 0 by {
      forall l | l in m ensures m[l] > 0 {
        var i :| 0 <= i < |t| && t[i].riskCategory.Some? && t[i].riskCategory.value == l;
        assert CategoryOf(t[i]) == Some(l);
      }
    }
    m
  }

  /** `p` is `count` out of `n` as a percentage. */
  predicate IsPercentage(p: real, count: nat, n: nat)
  {
    p * (n as real) == (count as real) * 100.0
  }

  /** Each count as a percentage of `n` rows; nothing to divide when there are no rows. */
  function Percentages(counts: map<string, nat>, n: nat): (p: map<string, real>)
    ensures n == 0 ==> p == map[]
    ensures n > 0 ==> p.Keys == counts.Keys
    ensures n > 0 ==> forall l :: l in p ==> IsPercentage(p[l], counts[l], n)
  {
    if n == 0 then map[]
    else map l | l in counts :: (counts[l] as real) / (n as real) * 100.0
  }

  function SumCounts(ls: seq<string>, m: map<string, nat>): nat
    requires forall l :: l in ls ==> l in m
  {
    if ls == [] then 0 else m[ls[0]] + SumCounts(ls[1..], m)
  }

  function SumPercentages(ls: seq<string>, m: map<string, real>): real
    requires forall l :: l in ls ==> l in m
  {
    if ls == [] then 0.0 else m[ls[0]] + SumPercentages(ls[1..], m)
  }

  function Wrap(ls: seq<string>): (ks: seq<Option<string>>)
    ensures |ks| == |ls| && forall i :: 0 <= i < |ls| ==> ks[i] == Some(ls[i])
  {
    seq(|ls|, i requires 0 <= i < |ls| => Some(ls[i]))
  }

  lemma {:induction false} SumCountsIsGroups(t: seq<District>, ls: seq<string>)
    requires forall l :: l in ls ==> l in RiskDistribution(t).counts
    ensures SumCounts(ls, RiskDistribution(t).counts) == Seqs.SumGroups(t, CategoryOf, Wrap(ls), Seqs.One)
  {
    if ls != [] {
      assert Wrap(ls)[1..] == Wrap(ls[1..]);
      Seqs.CountKeyIsSum(t, CategoryOf, Some(ls[0]));
      SumCountsIsGroups(t, ls[1..]);
    }
  }

  lemma {:induction false} SumKeyInLabelled(t: seq<District>, ls: seq<string>)
    requires forall i :: 0 <= i < |t| && t[i].riskCategory.Some? ==> t[i].riskCategory.value in ls
    ensures Seqs.SumKeyIn(t, CategoryOf, Wrap(ls), Seqs.One) == Seqs.Count(t, Labelled)
  {
    if t != [] {
      assert forall i :: 0 <= i < |t[1..]| ==> t[1..][i] == t[i + 1];
      if t[0].riskCategory.Some? {
        var j :| 0 <= j < |ls| && ls[j] == t[0].riskCategory.value;
        assert Wrap(ls)[j] == CategoryOf(t[0]);
      }
      SumKeyInLabelled(t[1..], ls);
    }
  }

  lemma {:induction false} SumPercentagesScale(ls: seq<string>, counts: map<string, nat>, pct: map<string, real>, n: nat)
    requires n > 0
    requires forall l :: l in ls ==> l in counts && l in pct && IsPercentage(pct[l], counts[l], n)
    ensures IsPercentage(SumPercentages(ls, pct), SumCounts(ls, counts), n)
  {
    if ls != [] {
      SumPercentagesScale(ls[1..], counts, pct, n);
      var a := pct[ls[0]];
      var b := SumPercentages(ls[1..], pct);
      assert (a + b) * (n as real) == a * (n as real) + b * (n as real);
    }
  }

  /**
   * Adding the counts of every label once gives the number of labelled
   * rows: `value_counts` puts each labelled row under exactly one label.
   */
  lemma {:induction false} DistributionCounts(t: seq<District>, ls: seq<string>)
    requires Seqs.NoDup(ls)
    requires forall l :: l in ls <==> l in RiskDistribution(t).counts
    ensures SumCounts(ls, RiskDistribution(t).counts) == Seqs.Count(t, Labelled)
  {
    assert Seqs.NoDup(Wrap(ls));
    SumCountsIsGroups(t, ls);
    Seqs.GroupSum(t, CategoryOf, Wrap(ls), Seqs.One);
    assert forall i :: 0 <= i < |t| && t[i].riskCategory.Some? ==> t[i].riskCategory.value in ls by {
      forall i | 0 <= i < |t| && t[i].riskCategory.Some?
        ensures t[i].riskCategory.value in ls
      {
        assert t[i].riskCategory == Some(t[i].riskCategory.value);
      }
    }
    SumKeyInLabelled(t, ls);
  }

  /** When every row is labelled, the unrounded percentages add up to exactly 100. */
  lemma {:induction false} DistributionPercentages(t: seq<District>, ls: seq<string>)
    requires Seqs.NoDup(ls)
    requires forall l :: l in ls <==> l in RiskDistribution(t).counts
    requires |t| > 0
    requires forall i :: 0 <= i < |t| ==> Labelled(t[i])
    ensures SumPercentages(ls, RiskDistribution(t).percentages) == 100.0
  {
    var d := RiskDistribution(t);
    DistributionCounts(t, ls);
    CountAll(t);
    PercentagesTotal(ls, d.counts, d.percentages, |t|);
  }

  /** Percentages of counts that add up to `n` add up to 100. */
  lemma PercentagesTotal(ls: seq<string>, counts: map<string, nat>, pct: map<string, real>, n: nat)
    requires n > 0
    requires forall l :: l in ls ==> l in counts && l in pct && IsPercentage(pct[l], counts[l], n)
    requires SumCounts(ls, counts) == n
    ensures SumPercentages(ls, pct) == 100.0
  {
    SumPercentagesScale(ls, counts, pct, n);
    var p := SumPercentages(ls, pct);
    var c := SumCounts(ls, counts);
    assert IsPercentage(p, c, n);
    PyNum.WholeIsHundred(p, c as real, n as real);
  }

  lemma {:induction false} CountAll(t: seq<District>)
    requires forall i :: 0 <= i < |t| ==> Labelled(t[i])
    ensures Seqs.Count(t, Labelled) == |t|
  {
    if t != [] {
      assert forall i :: 0 <= i < |t[1..]| ==> t[1..][i] == t[i + 1];
      CountAll(t[1..]);
    }
  }
}
