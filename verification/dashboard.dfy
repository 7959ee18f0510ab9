/**
 * The dashboard service: column selection and cleaning of the source
 * extract (flag coercion, normalisation of the four score columns), and the
 * three read-only views over the cleaned table — the national or per-state
 * summary, the dataset listing, and the list of states.
 */
module Dashboard {
  import opened Wrappers
  import opened PyNum
  import Seqs
  import Normalize
  import LexOrder

  // ---------------------------------------------------------------------------
  // Column selection
  // ---------------------------------------------------------------------------

  /** The source columns the dashboard reads, in order. */
  const SourceNames: seq<string> := [
    "district", "state", "enrol_total_enrolments", "bio_total_bio_updates",
    "bio_FUTURE_SURGE_RISK", "bio_INFRA_STRESS", "bio_LOW_CHILD_COMPLIANCE",
    "bio_ADULT_SPIKE", "enrol_saturation_index", "demo_persistent_friction_score",
    "bio_Bio_Stress_Index", "Friction_Intensity_Score"
  ]

  /** The name the dashboard gives each of them, in the same order. */
  const TargetNames: seq<string> := [
    "District", "State", "Total_Enrolment", "Pending_Biometrics",
    "Flag_Future_Surge_Risk", "Flag_Infra_Stress", "Flag_Low_Child_Compliance",
    "Flag_Catch_Up_Spike", "Enrolment_Health_Index", "Demographic_Stability_Index",
    "Biometric_Compliance_Index", "ALHS_Score"
  ]

  /** Source column name, and the name the dashboard uses for it, in order. */
  const ColumnMapping: seq<(string, string)> := Zip(SourceNames, TargetNames)

  /** Pairs the elements of two sequences of equal length. */
  function Zip(a: seq<string>, b: seq<string>): (r: seq<(string, string)>)
    requires |a| == |b|
    ensures |r| == |a|
    ensures forall i :: 0 <= i < |r| ==> r[i] == (a[i], b[i])
  {
    seq(|a|, i requires 0 <= i < |a| => (a[i], b[i]))
  }

  /** The renamed side of a mapping, in mapping order. */
  function Targets(m: seq<(string, string)>): (r: seq<string>)
    ensures |r| == |m|
    ensures forall i :: 0 <= i < |m| ==> r[i] == m[i].1
  {
    if m == [] then [] else [m[0].1] + Targets(m[1..])
  }

  /**
   * `[c for c in mapping.keys() if c in df.columns]` followed by the rename:
   * the new names of exactly the mapped source columns that are present,
   * in mapping order.
   */
  function SelectColumns(m: seq<(string, string)>, present: set<string>): (cols: seq<string>)
    ensures forall c :: c in cols <==> exists i :: 0 <= i < |m| && m[i].0 in present && m[i].1 == c
    ensures Seqs.Subsequence(cols, Targets(m))
    ensures Seqs.NoDup(Targets(m)) ==> Seqs.NoDup(cols)
  {
    if m == [] then []
    else
      var rest := SelectColumns(m[1..], present);
      assert forall i :: 1 <= i < |m| ==> m[i] == m[1..][i - 1];
      assert Targets(m)[1..] == Targets(m[1..]);
      if m[0].0 in present then
        assert Seqs.NoDup(Targets(m)) ==> m[0].1 !in rest by {
          if Seqs.NoDup(Targets(m)) {
            HeadNotSelectedAgain(m, present, rest);
          }
        }
        assert Targets(m) == [m[0].1] + Targets(m[1..]);
        Seqs.SubsequenceCons(m[0].1, rest, Targets(m[1..]));
        [m[0].1] + rest
      else
        Seqs.SubsequenceSkip(rest, m[0].1, Targets(m[1..]));
        rest
  }

  /** With distinct new names, the first one is not among those selected from the rest. */
  lemma HeadNotSelectedAgain(m: seq<(string, string)>, present: set<string>, rest: seq<string>)
    requires m != [] && Seqs.NoDup(Targets(m))
    requires forall c :: c in rest ==>
               exists i :: 0 <= i < |m[1..]| && m[1..][i].0 in present && m[1..][i].1 == c
    ensures m[0].1 !in rest
  {
    forall c | c in rest
      ensures c != m[0].1
    {
      var i :| 0 <= i < |m[1..]| && m[1..][i].0 in present && m[1..][i].1 == c;
      assert Targets(m)[i + 1] == c;
      assert Targets(m)[0] != Targets(m)[i + 1];
    }
  }

  lemma MappingTargets()
    ensures Targets(ColumnMapping) == TargetNames
  {
    var ts := Targets(ColumnMapping);
    assert |ts| == |TargetNames|;
    forall i | 0 <= i < |ts| ensures ts[i] == TargetNames[i] {
      assert ts[i] == ColumnMapping[i].1;
    }
  }

  /**
   * The dashboard's mapping renames to twelve distinct names, so whichever
   * source columns are present, the kept columns have no duplicates.
   */
  lemma MappingSelectsDistinct(present: set<string>)
    ensures |Targets(ColumnMapping)| == 12
    ensures Seqs.NoDup(SelectColumns(ColumnMapping, present))
  {
    MappingTargets();
    TargetNamesDistinct();
  }

  lemma TargetNamesDistinct()
    ensures Seqs.NoDup(TargetNames)
  {
  }

  /** With every source column present, nothing is dropped. */
  lemma {:induction false} SelectAllColumns(m: seq<(string, string)>, present: set<string>)
    requires forall i :: 0 <= i < |m| ==> m[i].0 in present
    ensures SelectColumns(m, present) == Targets(m)
  {
    if m != [] {
      assert forall i :: 0 <= i < |m[1..]| ==> m[1..][i] == m[i + 1];
      SelectAllColumns(m[1..], present);
    }
  }

  // ---------------------------------------------------------------------------
  // Flag coercion
  // ---------------------------------------------------------------------------

  /** The texts a flag cell is mapped from, and the value each maps to. */
  const FlagTexts: map<string, int> :=
    map["True" := 1, "False" := 0, "1" := 1, "0" := 0, "1.0" := 1, "0.0" := 0]

  /** Flag texts that raise the flag. */
  const RaisedTexts: set<string> := {"True", "1", "1.0"}

  /**
   * A flag cell read as text and mapped to 0/1: a missing cell was filled
   * with 0 beforehand, and any text outside the map also becomes 0.
   */
  function CoerceFlag(cell: Option<string>): (b: int)
    ensures b == 0 || b == 1
    ensures b == 1 <==> cell.Some? && cell.value in RaisedTexts
  {
    var text := cell.GetOr("0");
    if text in FlagTexts then FlagTexts[text] else 0
  }

  // ---------------------------------------------------------------------------
  // Cleaning
  // ---------------------------------------------------------------------------

  /**
   * One row of the source extract after column selection.  Numeric and flag
   * cells may be missing; they are filled with 0.
   */
  datatype RawRow = RawRow(
    district: string,
    state: string,
    enrolments: Option<real>,
    bioUpdates: Option<real>,
    surgeText: Option<string>,
    infraText: Option<string>,
    lowChildText: Option<string>,
    spikeText: Option<string>,
    saturation: Option<real>,
    friction: Option<real>,
    bioStress: Option<real>,
    intensity: Option<real>)

  /** One row of the cleaned dashboard table. */
  datatype Row = Row(
    district: string,
    state: string,
    totalEnrolment: real,
    pendingBiometrics: real,
    futureSurge: int,
    infraStress: int,
    lowChildCompliance: int,
    catchUpSpike: int,
    ehi: real,
    dsi: real,
    bci: real,
    alhs: real)

  function Filled(x: Option<real>): real { x.GetOr(0.0) }

  function IntensityCol(raw: seq<RawRow>): (c: seq<real>)
    ensures |c| == |raw| && forall i :: 0 <= i < |raw| ==> c[i] == Filled(raw[i].intensity)
  {
    seq(|raw|, i requires 0 <= i < |raw| => Filled(raw[i].intensity))
  }

  function SaturationCol(raw: seq<RawRow>): (c: seq<real>)
    ensures |c| == |raw| && forall i :: 0 <= i < |raw| ==> c[i] == Filled(raw[i].saturation)
  {
    seq(|raw|, i requires 0 <= i < |raw| => Filled(raw[i].saturation))
  }

  function FrictionCol(raw: seq<RawRow>): (c: seq<real>)
    ensures |c| == |raw| && forall i :: 0 <= i < |raw| ==> c[i] == Filled(raw[i].friction)
  {
    seq(|raw|, i requires 0 <= i < |raw| => Filled(raw[i].friction))
  }

  function BioStressCol(raw: seq<RawRow>): (c: seq<real>)
    ensures |c| == |raw| && forall i :: 0 <= i < |raw| ==> c[i] == Filled(raw[i].bioStress)
  {
    seq(|raw|, i requires 0 <= i < |raw| => Filled(raw[i].bioStress))
  }

  /** All four scores of every row lie in [0, 1]. */
  predicate Normalized(t: seq<Row>)
  {
    forall i :: 0 <= i < |t| ==>
      && 0.0 <= t[i].ehi <= 1.0 && 0.0 <= t[i].dsi <= 1.0
      && 0.0 <= t[i].bci <= 1.0 && 0.0 <= t[i].alhs <= 1.0
  }

  /** `c` is a column of `n` values in [0, 1]. */
  predicate UnitColumn(c: seq<real>, n: nat)
  {
    |c| == n && forall i :: 0 <= i < n ==> 0.0 <= c[i] <= 1.0
  }

  /**
   * The enrolment and pending-biometrics cells of a cleaned row: the raw
   * value where there was one, 0 where the cell was missing.
   */
  predicate FilledFrom(r: Row, raw: RawRow)
  {
    && (raw.enrolments.Some? ==> r.totalEnrolment == raw.enrolments.value)
    && (raw.enrolments.None? ==> r.totalEnrolment == 0.0)
    && (raw.bioUpdates.Some? ==> r.pendingBiometrics == raw.bioUpdates.value)
    && (raw.bioUpdates.None? ==> r.pendingBiometrics == 0.0)
  }

  /** The cleaned rows, given the four already-normalised score columns. */
  function Assemble(raw: seq<RawRow>, ehi: seq<real>, dsi: seq<real>, bci: seq<real>, alhs: seq<real>): (t: seq<Row>)
    requires UnitColumn(ehi, |raw|) && UnitColumn(dsi, |raw|)
    requires UnitColumn(bci, |raw|) && UnitColumn(alhs, |raw|)
    ensures |t| == |raw|
    ensures Normalized(t)
    ensures forall i :: 0 <= i < |t| ==>
      && t[i].district == raw[i].district && t[i].state == raw[i].state
      && t[i].futureSurge == CoerceFlag(raw[i].surgeText)
      && t[i].infraStress == CoerceFlag(raw[i].infraText)
      && t[i].lowChildCompliance == CoerceFlag(raw[i].lowChildText)
      && t[i].catchUpSpike == CoerceFlag(raw[i].spikeText)
    ensures forall i :: 0 <= i < |t| ==> FilledFrom(t[i], raw[i])
    ensures forall i :: 0 <= i < |t| ==>
      t[i].alhs == alhs[i] && t[i].ehi == ehi[i] && t[i].dsi == dsi[i] && t[i].bci == bci[i]
  {
    seq(|raw|, i requires 0 <= i < |raw| =>
      Row(raw[i].district, raw[i].state,
          Filled(raw[i].enrolments), Filled(raw[i].bioUpdates),
          CoerceFlag(raw[i].surgeText), CoerceFlag(raw[i].infraText),
          CoerceFlag(raw[i].lowChildText), CoerceFlag(raw[i].spikeText),
          ehi[i], dsi[i], bci[i], alhs[i]))
  }

  /**
   * The cleaning step of `load_data`: fill missing cells with 0, coerce the
   * flags, normalise ALHS and EHI, and invert-normalise DSI and BCI
   * (high raw values there mean poor health).
   */
  function Clean(raw: seq<RawRow>): (t: seq<Row>)
    ensures |t| == |raw|
    ensures Normalized(t)
    ensures forall i :: 0 <= i < |t| ==>
      && t[i].district == raw[i].district && t[i].state == raw[i].state
      && t[i].futureSurge == CoerceFlag(raw[i].surgeText)
      && t[i].infraStress == CoerceFlag(raw[i].infraText)
      && t[i].lowChildCompliance == CoerceFlag(raw[i].lowChildText)
      && t[i].catchUpSpike == CoerceFlag(raw[i].spikeText)
    ensures forall i :: 0 <= i < |t| ==> FilledFrom(t[i], raw[i])
    ensures forall i :: 0 <= i < |t| ==>
      t[i].alhs == Normalize.Normalize(IntensityCol(raw))[i]
      && t[i].ehi == Normalize.Normalize(SaturationCol(raw))[i]
      && t[i].dsi == Normalize.Inverted(FrictionCol(raw))[i]
      && t[i].bci == Normalize.Inverted(BioStressCol(raw))[i]
  {
    var alhs := Normalize.Normalize(IntensityCol(raw));
    var ehi := Normalize.Normalize(SaturationCol(raw));
    var dsi := Normalize.Inverted(FrictionCol(raw));
    var bci := Normalize.Inverted(BioStressCol(raw));
    assert UnitColumn(alhs, |raw|) && UnitColumn(ehi, |raw|);
    assert UnitColumn(dsi, |raw|) && UnitColumn(bci, |raw|);
    Assemble(raw, ehi, dsi, bci, alhs)
  }

  /**
   * Cleaning keeps the ranking of districts by raw intensity in the ALHS
   * column and reverses the ranking by raw friction in the DSI column.
   */
  lemma CleanKeepsRanking(raw: seq<RawRow>, i: int, j: int)
    requires 0 <= i < |raw| && 0 <= j < |raw|
    ensures Filled(raw[i].intensity) <= Filled(raw[j].intensity) ==> Clean(raw)[i].alhs <= Clean(raw)[j].alhs
    ensures Filled(raw[i].friction) <= Filled(raw[j].friction) ==> Clean(raw)[j].dsi <= Clean(raw)[i].dsi
  {
    if Filled(raw[i].intensity) <= Filled(raw[j].intensity) {
      Normalize.NormalizeMonotone(IntensityCol(raw), i, j);
    }
    if Filled(raw[i].friction) <= Filled(raw[j].friction) {
      Normalize.InvertedAntitone(FrictionCol(raw), i, j);
    }
  }

  // ---------------------------------------------------------------------------
  // Views
  // ---------------------------------------------------------------------------

  /** The state value that means "no state filter". */
  const AllIndia: string := "All India"

  const CriticalCut: real := 0.7
  const ModerateCut: real := 0.4

  function StateOf(r: Row): string { r.state }
  function AlhsOf(r: Row): real { r.alhs }
  function BciOf(r: Row): real { r.bci }
  function PendingOf(r: Row): real { r.pendingBiometrics }
  function HealthOf(r: Row): real { 1.0 - r.alhs }

  predicate IsCritical(r: Row) { r.alhs > CriticalCut }
  predicate IsModerate(r: Row) { ModerateCut < r.alhs <= CriticalCut }

  /** The table a view reads: `None` before it was ever loaded. */
  predicate HasData(store: Option<seq<Row>>) { store.Some? && |store.value| > 0 }

  /** The rows a view with the given state filter looks at. */
  function Scope(t: seq<Row>, state: string): (r: seq<Row>)
    ensures state == AllIndia ==> r == t
    ensures state != AllIndia ==> forall i :: 0 <= i < |r| ==> r[i].state == state
    ensures state != AllIndia ==> forall i :: 0 <= i < |t| && t[i].state == state ==> t[i] in r
    ensures state != AllIndia ==> |r| == Seqs.CountKey(t, StateOf, state)
    ensures multiset(r) <= multiset(t)
    ensures Seqs.Subsequence(r, t)
  {
    assert state == AllIndia ==> Seqs.Subsequence(t, t) by {
      if state == AllIndia {
        Seqs.SubsequenceRefl(t);
      }
    }
    if state == AllIndia then t else Seqs.FilterKey(t, StateOf, state)
  }

  /**
   * The summary response.  The two averages are `None` where pandas would
   * produce NaN (the mean of no rows).
   */
  datatype SummaryView = SummaryView(
    criticalDistricts: nat,
    avgCompliance: Option<real>,
    pendingUpdates: int,
    systemHealth: Option<real>,
    highRiskDistricts: nat,
    moderateRiskDistricts: nat,
    totalDistricts: nat)

  const ZeroSummary: SummaryView := SummaryView(0, Some(0.0), 0, Some(0.0), 0, 0, 0)

  /**
   * `get_summary(state)`.  With no data every figure is zero.  Otherwise the
   * critical (ALHS > 0.7) and moderate (0.4 < ALHS <= 0.7) districts are
   * counted among the rows of the state, or of all states for "All India".
   */
  function Summary(store: Option<seq<Row>>, state: string): (s: SummaryView)
    ensures !HasData(store) ==> s == ZeroSummary
    ensures HasData(store) ==>
      && s.totalDistricts == |Scope(store.value, state)|
      && s.criticalDistricts == Seqs.Count(Scope(store.value, state), IsCritical)
      && s.moderateRiskDistricts == Seqs.Count(Scope(store.value, state), IsModerate)
      && (s.avgCompliance.None? <==> s.totalDistricts == 0)
      && (s.systemHealth.None? <==> s.totalDistricts == 0)
    ensures s.highRiskDistricts == s.criticalDistricts
    ensures s.criticalDistricts + s.moderateRiskDistricts <= s.totalDistricts
    ensures HasData(store) ==> s.pendingUpdates == Trunc(Seqs.SumR(Scope(store.value, state), PendingOf))
    ensures HasData(store) ==> s.avgCompliance == Seqs.Mean(Scope(store.value, state), BciOf)
    ensures HasData(store) && s.systemHealth.Some? ==>
              s.systemHealth.value == 1.0 - Seqs.Mean(Scope(store.value, state), AlhsOf).value
    ensures HasData(store) ==> s.systemHealth == Seqs.Mean(Scope(store.value, state), HealthOf)
    ensures HasData(store) && Normalized(store.value) && s.systemHealth.Some? ==>
              0.0 <= s.systemHealth.value <= 1.0
    ensures HasData(store) && Normalized(store.value) && s.avgCompliance.Some? ==>
              0.0 <= s.avgCompliance.value <= 1.0
  {
    if !HasData(store) then ZeroSummary
    else
      var rows := Scope(store.value, state);
      var critical := Seqs.Count(rows, IsCritical);
      var moderate := Seqs.Count(rows, IsModerate);
      Seqs.CountDisjoint(rows, IsCritical, IsModerate);
      var avgAlhs := Seqs.Mean(rows, AlhsOf);
      var health := if avgAlhs.Some? then Some(1.0 - avgAlhs.value) else None;
      var compliance := Seqs.Mean(rows, BciOf);
      SummaryAverages(store.value, state);
      SummaryView(
        critical,
        compliance,
        Trunc(Seqs.SumR(rows, PendingOf)),
        health,
        critical,
        moderate,
        |rows|)
  }

  /** The two averages of a summary: what health means, and the range of both. */
  lemma SummaryAverages(t: seq<Row>, state: string)
    ensures |Scope(t, state)| > 0 ==>
              Seqs.Mean(Scope(t, state), HealthOf) == Some(1.0 - Seqs.Mean(Scope(t, state), AlhsOf).value)
    ensures Normalized(t) && |Scope(t, state)| > 0 ==>
              && 0.0 <= Seqs.Mean(Scope(t, state), HealthOf).value <= 1.0
              && 0.0 <= Seqs.Mean(Scope(t, state), BciOf).value <= 1.0
  {
    var rows := Scope(t, state);
    if |rows| > 0 {
      Seqs.MeanComplement(rows, AlhsOf, HealthOf);
      if Normalized(t) {
        ScopeNormalized(t, state);
        Seqs.MeanBounds(rows, HealthOf, 0.0, 1.0);
        Seqs.MeanBounds(rows, BciOf, 0.0, 1.0);
      }
    }
  }

  /** A state's rows of a normalised table are normalised, with health in [0, 1]. */
  lemma ScopeNormalized(t: seq<Row>, state: string)
    requires Normalized(t)
    ensures Normalized(Scope(t, state))
    ensures forall i :: 0 <= i < |Scope(t, state)| ==> 0.0 <= HealthOf(Scope(t, state)[i]) <= 1.0
  {
    var r := Scope(t, state);
    forall i | 0 <= i < |r|
      ensures 0.0 <= r[i].alhs <= 1.0 && 0.0 <= r[i].ehi <= 1.0
      ensures 0.0 <= r[i].dsi <= 1.0 && 0.0 <= r[i].bci <= 1.0
    {
      assert r[i] in multiset(r);
      assert r[i] in t;
    }
  }

  /** `get_dataset(state)`: the rows of the state (all rows for "All India"). */
  function Dataset(store: Option<seq<Row>>, state: string): (r: seq<Row>)
    ensures !HasData(store) ==> r == []
    ensures HasData(store) && state == AllIndia ==> r == store.value
    ensures HasData(store) ==> multiset(r) <= multiset(store.value)
    ensures state != AllIndia ==> forall i :: 0 <= i < |r| ==> r[i].state == state
    ensures HasData(store) && state != AllIndia ==>
              forall i :: 0 <= i < |store.value| && store.value[i].state == state ==> store.value[i] in r
    ensures HasData(store) && state != AllIndia ==> |r| == Seqs.CountKey(store.value, StateOf, state)
    ensures HasData(store) ==> Seqs.Subsequence(r, store.value)
  {
    if !HasData(store) then [] else Scope(store.value, state)
  }

  function StateColumn(t: seq<Row>): (c: seq<string>)
    ensures |c| == |t| && forall i :: 0 <= i < |t| ==> c[i] == t[i].state
  {
    seq(|t|, i requires 0 <= i < |t| => t[i].state)
  }

  /** `get_states()`: the distinct states of the table in ascending order. */
  function States(store: Option<seq<Row>>): (r: seq<string>)
    ensures !HasData(store) ==> r == []
    ensures LexOrder.StrictlyAscending(r)
    ensures HasData(store) ==>
              forall s :: s in r <==> exists i :: 0 <= i < |store.value| && store.value[i].state == s
  {
    if !HasData(store) then []
    else
      var c := StateColumn(store.value);
      var r := LexOrder.SortedDistinct(c);
      assert forall s :: s in c <==> exists i :: 0 <= i < |store.value| && store.value[i].state == s by {
        forall s | s in c
          ensures exists i :: 0 <= i < |store.value| && store.value[i].state == s
        {
          var i :| 0 <= i < |c| && c[i] == s;
        }
      }
      r
  }

  /**
   * The state listing is the only ascending duplicate-free list of exactly
   * the states in the table.
   */
  lemma StatesCanonical(store: Option<seq<Row>>, l: seq<string>)
    requires HasData(store)
    requires LexOrder.StrictlyAscending(l)
    requires forall s :: s in l <==> exists i :: 0 <= i < |store.value| && store.value[i].state == s
    ensures l == States(store)
  {
    LexOrder.AscendingListingUnique(l, States(store));
  }
}
