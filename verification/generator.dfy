/**
 * The deterministic part of the sample-data generator: clipping the three
 * sub-indices to the 0..100 scale, the weighted composite score (ALHS),
 * threshold-gated early-warning flags, the flag count, district identifiers
 * and the right-closed risk bucketing.  Every random draw is a parameter.
 */
module Generator {
  import opened Wrappers
  import opened Records
  import opened PyNum
  import Seqs

  // ---------------------------------------------------------------------------
  // Sub-indices and the composite score
  // ---------------------------------------------------------------------------

  const ScaleMin: real := 0.0
  const ScaleMax: real := 100.0

  function Dist(x: real, y: real): real { Abs(x - y) }

  /** `np.clip(x, 0, 100)`: the point of the 0..100 scale nearest to `x`. */
  function Clip(x: real): (r: real)
    ensures ScaleMin <= r <= ScaleMax
    ensures forall y :: ScaleMin <= y <= ScaleMax ==> Dist(x, r) <= Dist(x, y)
  {
    if x < ScaleMin then ScaleMin else if x > ScaleMax then ScaleMax else x
  }

  /** Clipping keeps the order of its inputs and leaves in-range values alone. */
  lemma ClipMonotone(x: real, y: real)
    requires x <= y
    ensures Clip(x) <= Clip(y)
    ensures ScaleMin <= x <= ScaleMax ==> Clip(x) == x
  {
  }

  const EhiWeight: real := 0.3
  const DsiWeight: real := 0.3
  const BciWeight: real := 0.4

  function Min3(a: real, b: real, c: real): real
  {
    if a <= b && a <= c then a else if b <= c then b else c
  }

  function Max3(a: real, b: real, c: real): real
  {
    if a >= b && a >= c then a else if b >= c then b else c
  }

  /**
   * The Aadhaar Lifecycle Health Score: a weighted sum of the sub-indices
   * whose non-negative weights add up to one, so the score lies between the
   * smallest and the largest sub-index.
   */
  function Alhs(ehi: real, dsi: real, bci: real): (a: real)
    ensures Min3(ehi, dsi, bci) <= a <= Max3(ehi, dsi, bci)
  {
    EhiWeight * ehi + DsiWeight * dsi + BciWeight * bci
  }

  /** Raising any sub-index never lowers the composite score. */
  lemma AlhsMonotone(e1: real, d1: real, b1: real, e2: real, d2: real, b2: real)
    requires e1 <= e2 && d1 <= d2 && b1 <= b2
    ensures Alhs(e1, d1, b1) <= Alhs(e2, d2, b2)
  {
  }

  // ---------------------------------------------------------------------------
  // Draws and scores of one district
  // ---------------------------------------------------------------------------

  /** The states a generated district is assigned to. */
  const StateNames: seq<string> := [
    "Uttar Pradesh", "Maharashtra", "Bihar", "West Bengal", "Madhya Pradesh",
    "Tamil Nadu", "Rajasthan", "Karnataka", "Gujarat", "Andhra Pradesh",
    "Odisha", "Telangana", "Kerala", "Jharkhand", "Assam",
    "Punjab", "Chhattisgarh", "Haryana", "Delhi", "Jammu and Kashmir"
  ]

  /**
   * The random values drawn for one district, in place of the generator's
   * `np.random` calls: the beta-distributed base risk, the three normal
   * noise terms (mean included), the four uniform draws gating the flags,
   * the log-normal population and the index of the chosen state.
   */
  datatype Draws = Draws(
    baseRisk: real,
    ehiNoise: real,
    dsiNoise: real,
    bciNoise: real,
    childDraw: real,
    infraDraw: real,
    catchupDraw: real,
    surgeDraw: real,
    populationDraw: real,
    stateChoice: nat)

  datatype Scores = Scores(ehi: real, dsi: real, bci: real, alhs: real)

  /**
   * The correlated sub-indices of one district, each clipped to the scale,
   * and their composite.
   */
  function ScoresOf(d: Draws): (s: Scores)
    ensures ScaleMin <= s.ehi <= ScaleMax
    ensures ScaleMin <= s.dsi <= ScaleMax
    ensures ScaleMin <= s.bci <= ScaleMax
    ensures ScaleMin <= s.alhs <= ScaleMax
    ensures Min3(s.ehi, s.dsi, s.bci) <= s.alhs <= Max3(s.ehi, s.dsi, s.bci)
    ensures s.ehi == Clip(d.baseRisk * 100.0 + d.ehiNoise)
    ensures s.dsi == Clip(s.ehi * 0.7 + d.dsiNoise)
    ensures s.bci == Clip(s.ehi * 0.4 + s.dsi * 0.4 + d.bciNoise)
    ensures s.alhs == Alhs(s.ehi, s.dsi, s.bci)
  {
    var ehi := Clip(d.baseRisk * 100.0 + d.ehiNoise);
    var dsi := Clip(ehi * 0.7 + d.dsiNoise);
    var bci := Clip((ehi * 0.4 + dsi * 0.4) + d.bciNoise);
    Scores(ehi, dsi, bci, Alhs(ehi, dsi, bci))
  }

  /**
   * Risk propagates: with the same noise, a higher base risk never lowers
   * EHI, hence never lowers DSI or BCI, hence never lowers the composite.
   */
  lemma {:induction false} ScoresMonotone(d1: Draws, d2: Draws)
    requires d1.baseRisk <= d2.baseRisk
    requires d1.ehiNoise == d2.ehiNoise && d1.dsiNoise == d2.dsiNoise && d1.bciNoise == d2.bciNoise
    ensures ScoresOf(d1).ehi <= ScoresOf(d2).ehi
    ensures ScoresOf(d1).dsi <= ScoresOf(d2).dsi
    ensures ScoresOf(d1).bci <= ScoresOf(d2).bci
    ensures ScoresOf(d1).alhs <= ScoresOf(d2).alhs
  {
    var s1, s2 := ScoresOf(d1), ScoresOf(d2);
    ClipMonotone(d1.baseRisk * 100.0 + d1.ehiNoise, d2.baseRisk * 100.0 + d2.ehiNoise);
    ClipMonotone(s1.ehi * 0.7 + d1.dsiNoise, s2.ehi * 0.7 + d2.dsiNoise);
    ClipMonotone(s1.ehi * 0.4 + s1.dsi * 0.4 + d1.bciNoise, s2.ehi * 0.4 + s2.dsi * 0.4 + d2.bciNoise);
    AlhsMonotone(s1.ehi, s1.dsi, s1.bci, s2.ehi, s2.dsi, s2.bci);
  }

  // ---------------------------------------------------------------------------
  // Flags
  // ---------------------------------------------------------------------------

  const LowChildBciThreshold: real := 55.0
  const InfraAlhsThreshold: real := 50.0
  const CatchupDsiThreshold: real := 60.0
  const SurgeEhiThreshold: real := 65.0

  const LowChildDrawCut: real := 0.6
  const InfraDrawCut: real := 0.65
  const CatchupDrawCut: real := 0.7
  const SurgeDrawCut: real := 0.65

  datatype Flags = Flags(lowChild: bool, infra: bool, catchup: bool, surge: bool)

  /**
   * The four early-warning flags.  A flag is raised only when its metric
   * exceeds the threshold, and then exactly when its own draw exceeds its
   * cut: no flag depends on another flag or on another flag's draw.
   */
  function EvalFlags(s: Scores, d: Draws): (f: Flags)
    ensures f.lowChild ==> s.bci > LowChildBciThreshold
    ensures f.infra ==> s.alhs > InfraAlhsThreshold
    ensures f.catchup ==> s.dsi > CatchupDsiThreshold
    ensures f.surge ==> s.ehi > SurgeEhiThreshold
    ensures s.bci > LowChildBciThreshold ==> (f.lowChild <==> d.childDraw > LowChildDrawCut)
    ensures s.alhs > InfraAlhsThreshold ==> (f.infra <==> d.infraDraw > InfraDrawCut)
    ensures s.dsi > CatchupDsiThreshold ==> (f.catchup <==> d.catchupDraw > CatchupDrawCut)
    ensures s.ehi > SurgeEhiThreshold ==> (f.surge <==> d.surgeDraw > SurgeDrawCut)
  {
    Flags(
      s.bci > LowChildBciThreshold && d.childDraw > LowChildDrawCut,
      s.alhs > InfraAlhsThreshold && d.infraDraw > InfraDrawCut,
      s.dsi > CatchupDsiThreshold && d.catchupDraw > CatchupDrawCut,
      s.ehi > SurgeEhiThreshold && d.surgeDraw > SurgeDrawCut)
  }

  function Bit(b: bool): int { if b then 1 else 0 }

  predicate IsTrue(b: bool) { b }

  /** The flags as the list the generator sums. */
  function FlagList(f: Flags): seq<bool>
  {
    [f.lowChild, f.infra, f.catchup, f.surge]
  }

  /** `sum([...])` over the four booleans: the number of raised flags. */
  function FlagsCount(f: Flags): (n: nat)
    ensures n == Seqs.Count(FlagList(f), IsTrue)
    ensures n <= 4
    ensures n == 0 <==> !(f.lowChild || f.infra || f.catchup || f.surge)
  {
    var l := FlagList(f);
    assert l[1..] == [f.infra, f.catchup, f.surge];
    assert l[1..][1..] == [f.catchup, f.surge];
    assert l[1..][1..][1..] == [f.surge];
    assert Seqs.Count(l[1..][1..][1..], IsTrue) == Bit(f.surge);
    assert Seqs.Count(l[1..][1..], IsTrue) == Bit(f.catchup) + Bit(f.surge);
    assert Seqs.Count(l[1..], IsTrue) == Bit(f.infra) + Bit(f.catchup) + Bit(f.surge);
    Bit(f.lowChild) + Bit(f.infra) + Bit(f.catchup) + Bit(f.surge)
  }

  // ---------------------------------------------------------------------------
  // Identifiers: `f'DIS_{i:04d}'` and `f'District_{chr(65 + i % 26)}{i:03d}'`
  // ---------------------------------------------------------------------------

  function DigitChar(d: nat): char
    requires d < 10
  {
    ('0' as int + d) as char
  }

  predicate IsDigitChar(c: char) { '0' <= c <= '9' }

  function DigitValue(c: char): nat
    requires IsDigitChar(c)
  {
    (c as int) - ('0' as int)
  }

  /** The decimal digits of `n`, without leading zeros. */
  function Digits(n: nat): (s: string)
    ensures |s| >= 1
    ensures forall i :: 0 <= i < |s| ==> IsDigitChar(s[i])
  {
    if n < 10 then [DigitChar(n)] else Digits(n / 10) + [DigitChar(n % 10)]
  }

  function Zeros(k: nat): (s: string)
    ensures |s| == k
    ensures forall i :: 0 <= i < k ==> s[i] == '0'
  {
    if k == 0 then [] else Zeros(k - 1) + ['0']
  }

  /** Python's `{n:0Wd}`: the digits of `n`, left-padded with zeros to `width`. */
  function ZeroPad(n: nat, width: nat): (s: string)
    ensures |s| == Seqs.Max(width, |Digits(n)|)
    ensures forall i :: 0 <= i < |s| ==> IsDigitChar(s[i])
  {
    var ds := Digits(n);
    if |ds| < width then Zeros(width - |ds|) + ds else ds
  }

  /** Reads a string of decimal digits as a number. */
  function ParseDigits(s: string): nat
    requires forall i :: 0 <= i < |s| ==> IsDigitChar(s[i])
  {
    if s == [] then 0
    else ParseDigits(s[..|s| - 1]) * 10 + DigitValue(s[|s| - 1])
  }

  lemma {:induction false} ParseDigitsOfDigits(n: nat)
    ensures ParseDigits(Digits(n)) == n
  {
    if n >= 10 {
      var ds := Digits(n);
      assert ds[..|ds| - 1] == Digits(n / 10);
      ParseDigitsOfDigits(n / 10);
    }
  }

  lemma {:induction false} ParseZeros(k: nat)
    ensures ParseDigits(Zeros(k)) == 0
  {
    if k > 0 {
      assert Zeros(k)[..k - 1] == Zeros(k - 1);
      ParseZeros(k - 1);
    }
  }

  /** Leading zeros do not change the value read. */
  lemma {:induction false} ParseLeadingZeros(k: nat, s: string)
    requires forall i :: 0 <= i < |s| ==> IsDigitChar(s[i])
    ensures ParseDigits(Zeros(k) + s) == ParseDigits(s)
  {
    if s == [] {
      assert Zeros(k) + s == Zeros(k);
      ParseZeros(k);
    } else {
      var t := Zeros(k) + s;
      assert t[..|t| - 1] == Zeros(k) + s[..|s| - 1];
      ParseLeadingZeros(k, s[..|s| - 1]);
    }
  }

  /** Zero-padding is undone by reading the digits back. */
  lemma {:induction false} ZeroPadRoundTrip(n: nat, width: nat)
    ensures ParseDigits(ZeroPad(n, width)) == n
  {
    var ds := Digits(n);
    ParseDigitsOfDigits(n);
    if |ds| < width {
      ParseLeadingZeros(width - |ds|, ds);
    }
  }

  /** Numbers below 10^k have at most k digits. */
  lemma {:induction false} DigitsLength(n: nat, k: nat, p: nat)
    requires p == Pow10(k) && n < p && k >= 1
    ensures |Digits(n)| <= k
  {
    if n >= 10 {
      DigitsLength(n / 10, k - 1, Pow10(k - 1));
    }
  }

  function Pow10(k: nat): (p: nat)
    ensures p >= 1
  {
    if k == 0 then 1 else 10 * Pow10(k - 1)
  }

  const IdPrefix: string := "DIS_"

  /** `f'DIS_{i:04d}'`. */
  function DistrictId(i: nat): (id: string)
    ensures |id| >= 8 && id[..4] == IdPrefix
    ensures i < 10000 ==> |id| == 8
  {
    assert i < 10000 ==> |Digits(i)| <= 4 by {
      if i < 10000 { DigitsLength(i, 4, 10000); }
    }
    IdPrefix + ZeroPad(i, 4)
  }

  /** Distinct row numbers get distinct identifiers. */
  lemma DistrictIdInjective(i: nat, j: nat)
    requires DistrictId(i) == DistrictId(j)
    ensures i == j
  {
    var a := DistrictId(i);
    assert a[4..] == ZeroPad(i, 4);
    assert DistrictId(j)[4..] == ZeroPad(j, 4);
    ZeroPadRoundTrip(i, 4);
    ZeroPadRoundTrip(j, 4);
  }

  const NamePrefix: string := "District_"

  /** `f'District_{chr(65 + i % 26)}{i:03d}'`: a capital letter, then the padded number. */
  function DistrictName(i: nat): (name: string)
    ensures |name| >= 13 && name[..9] == NamePrefix
    ensures 'A' <= name[9] <= 'Z'
  {
    NamePrefix + [(65 + i % 26) as char] + ZeroPad(i, 3)
  }

  /** Distinct row numbers get distinct names. */
  lemma DistrictNameInjective(i: nat, j: nat)
    requires DistrictName(i) == DistrictName(j)
    ensures i == j
  {
    assert DistrictName(i)[10..] == ZeroPad(i, 3);
    assert DistrictName(j)[10..] == ZeroPad(j, 3);
    ZeroPadRoundTrip(i, 3);
    ZeroPadRoundTrip(j, 3);
  }

  // ---------------------------------------------------------------------------
  // Risk bucketing: `pd.cut(alhs, bins=[0, 40, 60, 75, 100], labels=...)`
  // ---------------------------------------------------------------------------

  datatype Tier = Low | Medium | High | Critical {

    /** Position in the ordered set of tiers, and of the tier's bin. */
    function Rank(): nat
    {
      match this
      case Low => 0
      case Medium => 1
      case High => 2
      case Critical => 3
    }

    function Label(): string
    {
      match this
      case Low => "Low"
      case Medium => "Medium"
      case High => "High"
      case Critical => "Critical"
    }
  }

  const Bins: seq<real> := [0.0, 40.0, 60.0, 75.0, 100.0]

  /**
   * The tier of a score under right-closed bins: bin `k` is the interval
   * (Bins[k], Bins[k+1]].  A score outside (0, 100] falls in no bin.
   */
  function Bucket(a: real): (t: Option<Tier>)
    ensures t.Some? <==> Bins[0] < a <= Bins[4]
    ensures t.Some? ==> Bins[t.value.Rank()] < a <= Bins[t.value.Rank() + 1]
  {
    if a <= 0.0 || a > 100.0 then None
    else if a <= 40.0 then Some(Low)
    else if a <= 60.0 then Some(Medium)
    else if a <= 75.0 then Some(High)
    else Some(Critical)
  }

  /** A larger score never falls in a lower tier. */
  lemma BucketMonotone(a: real, b: real)
    requires a <= b
    requires Bucket(a).Some? && Bucket(b).Some?
    ensures Bucket(a).value.Rank() <= Bucket(b).value.Rank()
  {
  }

  /** Tiers are told apart by their rank and by their label. */
  lemma TierDistinct(s: Tier, t: Tier)
    ensures s.Rank() == t.Rank() <==> s == t
    ensures s.Label() == t.Label() <==> s == t
  {
  }

  /** A score lies in the bin of a tier exactly when it is bucketed to that tier. */
  lemma LabelsOfBins(a: real)
    ensures forall t: Tier :: Bucket(a) == Some(t) <==> Bins[t.Rank()] < a <= Bins[t.Rank() + 1]
    ensures forall s: Tier, t: Tier :: s.Label() == t.Label() ==> s == t
  {
    forall t: Tier
      ensures Bins[t.Rank()] < a <= Bins[t.Rank() + 1] ==> Bucket(a) == Some(t)
    {
      if Bins[t.Rank()] < a <= Bins[t.Rank() + 1] {
        var u := Bucket(a).value;
        assert Bins[u.Rank()] < a <= Bins[u.Rank() + 1];
        assert u.Rank() == t.Rank();
        TierDistinct(u, t);
      }
    }
    forall s: Tier, t: Tier | s.Label() == t.Label() ensures s == t {
      TierDistinct(s, t);
    }
  }

  /** The label written to the table for a score, missing when out of range. */
  function CategoryLabel(a: real): (c: Option<string>)
    ensures c.Some? <==> Bins[0] < a <= Bins[4]
    ensures c.Some? ==> c.value in {"Low", "Medium", "High", "Critical"}
    ensures forall t: Tier :: c == Some(t.Label()) <==> Bins[t.Rank()] < a <= Bins[t.Rank() + 1]
  {
    LabelsOfBins(a);
    match Bucket(a)
    case None => None
    case Some(t) => Some(t.Label())
  }

  // ---------------------------------------------------------------------------
  // The generated table
  // ---------------------------------------------------------------------------

  /** Row `i` of the generated table, given its draws and today's date. */
  function GenerateDistrict(i: nat, d: Draws, today: string): (r: District)
    requires d.stateChoice < |StateNames| && d.populationDraw >= 0.0
    ensures WellFormed(r)
    ensures r.id == DistrictId(i) && r.name == DistrictName(i)
    ensures r.riskCategory == CategoryLabel(r.alhs)
    ensures r.state == StateNames[d.stateChoice]
    ensures r.population == Trunc(d.populationDraw)
    ensures r.ehi == ScoresOf(d).ehi && r.dsi == ScoresOf(d).dsi && r.bci == ScoresOf(d).bci
    ensures r.alhs == ScoresOf(d).alhs
    ensures r.lowChildCompliance == Bit(EvalFlags(ScoresOf(d), d).lowChild)
    ensures r.infraStress == Bit(EvalFlags(ScoresOf(d), d).infra)
    ensures r.catchupSpike == Bit(EvalFlags(ScoresOf(d), d).catchup)
    ensures r.futureSurge == Bit(EvalFlags(ScoresOf(d), d).surge)
    ensures r.lastUpdated == today
  {
    var s := ScoresOf(d);
    var f := EvalFlags(s, d);
    District(
      DistrictId(i), DistrictName(i), StateNames[d.stateChoice],
      Trunc(d.populationDraw),
      s.ehi, s.dsi, s.bci, s.alhs,
      Bit(f.lowChild), Bit(f.infra), Bit(f.catchup), Bit(f.surge),
      FlagsCount(f),
      CategoryLabel(s.alhs),
      today)
  }

  predicate ValidDraws(ds: seq<Draws>)
  {
    forall i :: 0 <= i < |ds| ==> ds[i].stateChoice < |StateNames| && ds[i].populationDraw >= 0.0
  }

  /**
   * `generate_district_data`: one row per set of draws, with identifiers
   * numbered from zero and a risk label computed from each row's score.
   */
  function GenerateTable(ds: seq<Draws>, today: string): (t: seq<District>)
    requires ValidDraws(ds)
    ensures |t| == |ds|
    ensures forall i :: 0 <= i < |t| ==> t[i] == GenerateDistrict(i, ds[i], today)
    ensures forall i :: 0 <= i < |t| ==> WellFormed(t[i]) && t[i].id == DistrictId(i)
    ensures forall i :: 0 <= i < |t| ==> t[i].riskCategory == CategoryLabel(t[i].alhs)
    ensures forall i :: 0 <= i < |t| ==> t[i].alhs == ScoresOf(ds[i]).alhs
    ensures Seqs.DistinctBy(t, IdOf)
  {
    var t := seq(|ds|, i requires 0 <= i < |ds| => GenerateDistrict(i, ds[i], today));
    assert Seqs.DistinctBy(t, IdOf) by {
      forall i, j | 0 <= i < j < |t|
        ensures IdOf(t[i]) != IdOf(t[j])
      {
        if IdOf(t[i]) == IdOf(t[j]) {
          DistrictIdInjective(i, j);
        }
      }
    }
    t
  }

  /** The three districts scored 10, 55 and 80 are Low, Medium and Critical. */
  lemma ClassifyExample()
    ensures Bucket(10.0) == Some(Low)
    ensures Bucket(55.0) == Some(Medium)
    ensures Bucket(80.0) == Some(Critical)
    ensures Bucket(40.0) == Some(Low) && Bucket(60.0) == Some(Medium)
    ensures Bucket(75.0) == Some(High) && Bucket(100.0) == Some(Critical)
    ensures Bucket(0.0) == None
  {
  }
}
