/**
 * The scored district table: one row per district as the generator writes
 * it and the analytics service reads it back.
 */
module Records {
  import opened Wrappers

  /**
   * One scored district.  The four flags and `flagsCount` are integer
   * columns; `riskCategory` is `None` where the bucketing produced no label
   * (a missing cell in the table).
   */
  datatype District = District(
    id: string,
    name: string,
    state: string,
    population: int,
    ehi: real,
    dsi: real,
    bci: real,
    alhs: real,
    lowChildCompliance: int,
    infraStress: int,
    catchupSpike: int,
    futureSurge: int,
    flagsCount: int,
    riskCategory: Option<string>,
    lastUpdated: string)

  // Columns of the table, as functions usable by the generic reductions.

  function IdOf(d: District): string { d.id }
  function StateOf(d: District): string { d.state }
  function PopulationOf(d: District): int { d.population }
  function AlhsOf(d: District): real { d.alhs }
  function FlagsOf(d: District): int { d.flagsCount }
  function CategoryOf(d: District): Option<string> { d.riskCategory }
  function LowChildOf(d: District): int { d.lowChildCompliance }
  function InfraOf(d: District): int { d.infraStress }
  function CatchupOf(d: District): int { d.catchupSpike }
  function SurgeOf(d: District): int { d.futureSurge }

  predicate IsBit(x: int) { x == 0 || x == 1 }

  /**
   * What every generated row satisfies: each flag is 0 or 1, `flagsCount`
   * is their sum, and the scores lie on the 0..100 scale.
   */
  predicate WellFormed(d: District)
  {
    && IsBit(d.lowChildCompliance) && IsBit(d.infraStress)
    && IsBit(d.catchupSpike) && IsBit(d.futureSurge)
    && d.flagsCount == d.lowChildCompliance + d.infraStress + d.catchupSpike + d.futureSurge
    && 0.0 <= d.ehi <= 100.0 && 0.0 <= d.dsi <= 100.0
    && 0.0 <= d.bci <= 100.0 && 0.0 <= d.alhs <= 100.0
    && d.population >= 0
  }
}
