/** The enumerations and configuration constants of the simulator. The
    class-level mutable settings of the original become one immutable
    `Settings` record passed to the operations that consult it. */
module Config {

  /** A value that may be absent (Python's `None`). */
  datatype Option<T> = None | Some(value: T)

  /** `Individual.status`. The constructor admits all but `Deceased`. */
  datatype Status = Healthy | Incubation | Infected | Recovered | Deceased

  /** `Individual.age_group`. */
  datatype AgeGroup = Young | Adult | Elderly

  /** `Individual.symptoms`: the severity ladder E1..E4; `Unset` is the
      `None` an individual keeps when the viral-load model is off. */
  datatype Tier = Unset | E1 | E2 | E3 | E4

  /** The place subclasses (`SchoolMembrane`, ..., `HouseMembrane`). */
  datatype Kind = School | Workplace | LeisureCenter | CommonArea | Hospital | ICU | House

  /** Viral load given on exposure (`INCUBATION_V1`). */
  const INCUBATION_V1: int := 5
  /** Viral load at and above which an individual counts as Infected (`INFECTION_V1`). */
  const INFECTION_V1: int := 200
  /** Specific-antibody level at which an individual recovers (`RECOVERED_ANTIVESP`). */
  const RECOVERED_ANTIVESP: int := 40
  /** Days of care given on direct ICU admission (`HOSPITALIZATION_PERIOD`). */
  const HOSPITALIZATION_PERIOD: int := 7
  /** Days of care given on hospital admission (a literal in `check_hospitalization`). */
  const HOSPITAL_STAY: int := 7
  /** Days of natural immunity granted on recovery. */
  const IMMUNITY_DAYS: int := 180
  /** Upper bound of v1, v1_ino, antiv and antivesp. */
  const LOAD_MAX: int := 1000
  /** Symptom pressure above which the tier may escalate. */
  const SYMPTOM_THRESHOLD: int := 699
  /** Viral load consumed by producing one antibody unit. */
  const ANTIBODY_COST: int := 200

  /** The run-time switches and tunable parameters. `prudence` is
      `PRUDENCE_PARAMETER`; `deathReduction` is `DEATH_REDUCTION_FACTOR`. */
  datatype Settings = Settings(
    viralLoad: bool,
    behaviorTrigger: bool,
    vaccinationTrigger: bool,
    icuPresence: bool,
    incubationPeriod: int,
    prudence: real,
    deathReduction: real)
}
