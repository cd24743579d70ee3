/** The per-individual state machine of `membrane.py`: what `Individual`'s
    own methods (`progress_infection`, `start_infection`, `recover`) and the
    per-occupant bodies of the place passes (`reduce_hospital_day`,
    `reduce_vaccine_day`, `update_status`) do to one individual, written as
    functions on the individual's mutable state. */
module Health {
  import opened Config

  /** Every field of an `Individual` that the simulation changes. */
  datatype Condition = Condition(
    status: Status,
    symptoms: Tier,
    v1: int,
    v1Ino: int,
    antiv: int,
    antivesp: int,
    phag: int,
    inf: int,
    hospitalized: bool,
    icu: bool,
    vaccinated: bool,
    incubationDaysLeft: int,
    infectionDaysLeft: int,
    hospitalizationDaysLeft: int,
    vaccinationDaysLeft: int,
    immunityDaysLeft: int)

  /** No countdown is negative. */
  predicate CountdownsNatural(c: Condition) {
    && c.incubationDaysLeft >= 0
    && c.infectionDaysLeft >= 0
    && c.hospitalizationDaysLeft >= 0
    && c.vaccinationDaysLeft >= 0
    && c.immunityDaysLeft >= 0
  }

  /** The four viral and immune scalars lie in [0, LOAD_MAX]. */
  predicate LoadsInRange(c: Condition) {
    && 0 <= c.v1 <= LOAD_MAX
    && 0 <= c.v1Ino <= LOAD_MAX
    && 0 <= c.antiv <= LOAD_MAX
    && 0 <= c.antivesp <= LOAD_MAX
  }

  /** The status changes the disease model permits in one step: staying put,
      Incubation to Infected, Recovered back to Healthy once immunity ends,
      and recovery (which the care pathway can grant from any status). */
  predicate Permitted(from: Status, to: Status) {
    || from == to
    || (from == Incubation && to == Infected)
    || (from == Recovered && to == Healthy)
    || to == Recovered
  }

  // ---------------------------------------------------------------------
  // Individual.start_infection and Individual.recover
  // ---------------------------------------------------------------------

  /** `start_infection`: the individual becomes Infected and, in the
      viral-load model, receives the infection-level viral load. */
  function InfectionStarted(c: Condition, viral: bool): (r: Condition)
    ensures r.status == Infected
    ensures viral ==> r.v1 == INFECTION_V1 && r.v1 >= INFECTION_V1
    ensures r == c.(status := Infected, v1 := r.v1)
    ensures !viral ==> r.v1 == c.v1
  {
    if viral then c.(status := Infected, v1 := INFECTION_V1)
    else c.(status := Infected)
  }

  /** `recover`: Recovered with a fresh immunity countdown; in the viral-load
      model the viral load, specific antibodies and symptom pressure are
      cleared and symptoms fall back to E1. Nothing else changes. */
  function Recovery(c: Condition, viral: bool): (r: Condition)
    ensures r.status == Recovered && r.immunityDaysLeft == IMMUNITY_DAYS
    ensures viral ==> r.v1 == 0 && r.antivesp == 0 && r.inf == 0 && r.symptoms == E1
    ensures !viral ==> r.v1 == c.v1 && r.antivesp == c.antivesp && r.inf == c.inf && r.symptoms == c.symptoms
    ensures r == c.(status := Recovered, immunityDaysLeft := IMMUNITY_DAYS,
                    v1 := r.v1, antivesp := r.antivesp, inf := r.inf, symptoms := r.symptoms)
  {
    var base := c.(status := Recovered, immunityDaysLeft := IMMUNITY_DAYS);
    if viral then base.(antivesp := 0, v1 := 0, inf := 0, symptoms := E1) else base
  }

  /** Recovery keeps the viral and immune scalars in range. */
  lemma RecoveryInRange(c: Condition, viral: bool)
    requires LoadsInRange(c)
    ensures LoadsInRange(Recovery(c, viral))
  {
  }

  // ---------------------------------------------------------------------
  // Individual.progress_infection: five countdown ticks in source order
  // ---------------------------------------------------------------------

  /** A hospital stay ends in this tick. */
  predicate StayEnds(c: Condition) {
    c.hospitalizationDaysLeft == 1 && (c.hospitalized || c.icu)
  }

  /** Incubation countdown of an incubating individual; when it reaches
      zero the infection starts (`start_infection`). */
  function IncubationTick(c: Condition, viral: bool): (r: Condition)
    ensures c.status == Incubation && c.incubationDaysLeft == 1 ==>
      r == InfectionStarted(c.(incubationDaysLeft := 0), viral)
  {
    var runs := c.status == Incubation && c.incubationDaysLeft > 0;
    var ends := runs && c.incubationDaysLeft == 1;
    c.(incubationDaysLeft := if runs then c.incubationDaysLeft - 1 else c.incubationDaysLeft,
       status := if ends then Infected else c.status,
       v1 := if ends && viral then INFECTION_V1 else c.v1)
  }

  /** Hospital countdown of a hospitalised or ICU individual; at zero the
      individual is Recovered, discharged from both wards, immune for
      IMMUNITY_DAYS days and no longer counting infection days. */
  function HospitalTick(c: Condition): Condition {
    var runs := (c.hospitalized || c.icu) && c.hospitalizationDaysLeft > 0;
    var ends := StayEnds(c);
    c.(hospitalizationDaysLeft := if runs then c.hospitalizationDaysLeft - 1 else c.hospitalizationDaysLeft,
       status := if ends then Recovered else c.status,
       infectionDaysLeft := if ends then 0 else c.infectionDaysLeft,
       immunityDaysLeft := if ends then IMMUNITY_DAYS else c.immunityDaysLeft,
       hospitalized := if ends then false else c.hospitalized,
       icu := if ends then false else c.icu)
  }

  /** Infection countdown of an Infected individual; at zero, Recovered with
      immunity. */
  function InfectionTick(c: Condition): Condition {
    var runs := c.status == Infected && c.infectionDaysLeft > 0;
    var ends := runs && c.infectionDaysLeft == 1;
    c.(infectionDaysLeft := if runs then c.infectionDaysLeft - 1 else c.infectionDaysLeft,
       status := if ends then Recovered else c.status,
       immunityDaysLeft := if ends then IMMUNITY_DAYS else c.immunityDaysLeft)
  }

  /** Vaccine-protection countdown; at zero the individual is no longer vaccinated. */
  function VaccinationTick(c: Condition): Condition {
    var runs := c.vaccinationDaysLeft > 0;
    c.(vaccinationDaysLeft := if runs then c.vaccinationDaysLeft - 1 else c.vaccinationDaysLeft,
       vaccinated := if runs && c.vaccinationDaysLeft == 1 then false else c.vaccinated)
  }

  /** Natural-immunity countdown of a Recovered individual; at zero, Healthy. */
  function ImmunityTick(c: Condition): Condition {
    var runs := c.status == Recovered && c.immunityDaysLeft > 0;
    c.(immunityDaysLeft := if runs then c.immunityDaysLeft - 1 else c.immunityDaysLeft,
       status := if runs && c.immunityDaysLeft == 1 then Healthy else c.status)
  }

  /** One day of `progress_infection`: the five ticks in source order. */
  function Progressed(c: Condition, viral: bool): Condition {
    ImmunityTick(VaccinationTick(InfectionTick(HospitalTick(IncubationTick(c, viral)))))
  }

  /** Each countdown whose guard holds and that is positive drops by exactly
      one; the vaccine flag is cleared exactly when its countdown runs out.
      The infection countdown runs for an individual that is Infected when
      its tick comes (including one whose incubation has just ended) and is
      cleared by the end of a hospital stay; a recovery on the day renews
      immunity, whose tick then takes its first day. */
  lemma ProgressCountdowns(c: Condition, viral: bool)
    ensures var r := Progressed(c, viral);
      var infected := c.status == Infected || (c.status == Incubation && c.incubationDaysLeft == 1);
      var renewed := StayEnds(c) || (infected && c.infectionDaysLeft == 1);
      && r.incubationDaysLeft ==
           (if c.status == Incubation && c.incubationDaysLeft > 0 then c.incubationDaysLeft - 1
            else c.incubationDaysLeft)
      && r.hospitalizationDaysLeft ==
           (if (c.hospitalized || c.icu) && c.hospitalizationDaysLeft > 0 then c.hospitalizationDaysLeft - 1
            else c.hospitalizationDaysLeft)
      && r.vaccinationDaysLeft ==
           (if c.vaccinationDaysLeft > 0 then c.vaccinationDaysLeft - 1 else c.vaccinationDaysLeft)
      && r.vaccinated == (c.vaccinated && c.vaccinationDaysLeft != 1)
      && r.infectionDaysLeft ==
           (if StayEnds(c) then 0
            else if infected && c.infectionDaysLeft > 0 then c.infectionDaysLeft - 1
            else c.infectionDaysLeft)
      && r.immunityDaysLeft ==
           (if renewed then IMMUNITY_DAYS - 1
            else if c.status == Recovered && c.immunityDaysLeft > 0 then c.immunityDaysLeft - 1
            else c.immunityDaysLeft)
  {
  }

  /** No countdown ever drops below zero. */
  lemma ProgressKeepsCountdownsNatural(c: Condition, viral: bool)
    requires CountdownsNatural(c)
    ensures CountdownsNatural(Progressed(c, viral))
  {
  }

  /** Progression touches neither the antibody scalars, the phagocytes, the
      symptom pressure nor the symptom tier. */
  lemma ProgressLeavesImmunity(c: Condition, viral: bool)
    ensures var r := Progressed(c, viral);
      && r.v1Ino == c.v1Ino && r.antiv == c.antiv && r.antivesp == c.antivesp
      && r.phag == c.phag && r.inf == c.inf && r.symptoms == c.symptoms
  {
  }

  /** Incubation that runs out turns into infection (with the infection-level
      viral load in the viral-load model) unless a hospital stay or an
      infection countdown also ends in the same tick. */
  lemma IncubationEndsInInfection(c: Condition, viral: bool)
    requires c.status == Incubation && c.incubationDaysLeft == 1
    requires !StayEnds(c) && c.infectionDaysLeft != 1
    ensures Progressed(c, viral).status == Infected
    ensures viral ==> Progressed(c, viral).v1 == INFECTION_V1
  {
  }

  /** The end of a hospital stay recovers the individual, clears both ward
      flags and the infection countdown, and grants immunity; the immunity
      tick of the same call already consumes its first day. */
  lemma StayEndRecovers(c: Condition, viral: bool)
    requires StayEnds(c)
    ensures var r := Progressed(c, viral);
      && r.status == Recovered
      && !r.hospitalized && !r.icu
      && r.infectionDaysLeft == 0
      && r.immunityDaysLeft == IMMUNITY_DAYS - 1
  {
  }

  /** The end of the infection countdown of an Infected individual recovers
      it with immunity (again already one day into it). */
  lemma InfectionEndRecovers(c: Condition, viral: bool)
    requires c.status == Infected && c.infectionDaysLeft == 1
    ensures Progressed(c, viral).status == Recovered
    ensures Progressed(c, viral).immunityDaysLeft == IMMUNITY_DAYS - 1
  {
  }

  /** Immunity that runs out returns a Recovered individual to Healthy,
      unless a hospital stay ends in the same tick and renews it. */
  lemma ImmunityEndsInHealth(c: Condition, viral: bool)
    requires c.status == Recovered && c.immunityDaysLeft == 1 && !StayEnds(c)
    ensures Progressed(c, viral).status == Healthy
  {
  }

  /** A day of progression only makes permitted status changes: in
      particular it never infects a Healthy individual and never kills. */
  lemma ProgressPermitted(c: Condition, viral: bool)
    ensures Permitted(c.status, Progressed(c, viral).status)
    ensures c.status == Healthy ==> Progressed(c, viral).status in {Healthy, Recovered}
    ensures Progressed(c, viral).status == Deceased ==> c.status == Deceased
  {
  }

  // ---------------------------------------------------------------------
  // Per-occupant bodies of the place passes
  // ---------------------------------------------------------------------

  /** The body of `reduce_hospital_day` for one occupant: the countdown drops
      only while a ward flag is set; an occupant whose countdown is zero
      afterwards loses both flags and recovers. */
  function HospitalDayPassed(c: Condition, viral: bool): (r: Condition)
    ensures c.hospitalizationDaysLeft >= 0 ==> r.hospitalizationDaysLeft >= 0
    ensures !(c.hospitalized || c.icu) ==> r.hospitalizationDaysLeft == c.hospitalizationDaysLeft
    ensures r.hospitalizationDaysLeft <= c.hospitalizationDaysLeft
    ensures r.hospitalizationDaysLeft >= c.hospitalizationDaysLeft - 1
    ensures r.hospitalizationDaysLeft == 0 ==>
      !r.hospitalized && !r.icu && r == Recovery(c.(hospitalized := false, icu := false, hospitalizationDaysLeft := 0), viral)
    ensures r.hospitalizationDaysLeft != 0 ==> r.status == c.status && r.hospitalized == c.hospitalized && r.icu == c.icu
  {
    var d := if c.hospitalizationDaysLeft > 0 && (c.hospitalized || c.icu)
             then c.(hospitalizationDaysLeft := c.hospitalizationDaysLeft - 1) else c;
    if d.hospitalizationDaysLeft == 0 then Recovery(d.(hospitalized := false, icu := false), viral) else d
  }

  /** The body of `reduce_vaccine_day` for one occupant: unlike the
      vaccination tick of `progress_infection`, the flag is cleared whenever
      the countdown is zero afterwards, also when it was zero already. */
  function VaccineDayPassed(c: Condition): (r: Condition)
    ensures c.vaccinationDaysLeft > 0 ==> r.vaccinationDaysLeft == c.vaccinationDaysLeft - 1
    ensures c.vaccinationDaysLeft <= 0 ==> r.vaccinationDaysLeft == c.vaccinationDaysLeft
    ensures r.vaccinated <==> c.vaccinated && r.vaccinationDaysLeft != 0
    ensures r == c.(vaccinationDaysLeft := r.vaccinationDaysLeft, vaccinated := r.vaccinated)
  {
    var d := if c.vaccinationDaysLeft > 0 then c.(vaccinationDaysLeft := c.vaccinationDaysLeft - 1) else c;
    if d.vaccinationDaysLeft == 0 then d.(vaccinated := false) else d
  }

  /** The status `update_status` gives one occupant. In the viral-load model
      a Recovered individual is left alone; otherwise a zero load means
      Healthy, a load at the infection level means Infected, and a load in
      between turns only a Healthy individual into an incubating one: the
      source's guard `status == ("Healthy" or "Incubation")` compares with
      "Healthy" alone. Without the viral-load model no status changes. */
  function StatusUpdated(c: Condition, viral: bool): (r: Condition)
    ensures r.status == Deceased ==> c.status == Deceased
  {
    if viral && c.status != Recovered then
      if c.v1 == 0 then c.(status := Healthy)
      else if 1 <= c.v1 < INFECTION_V1 && c.status == Healthy then c.(status := Incubation)
      else if c.v1 >= INFECTION_V1 then c.(status := Infected)
      else c
    else c
  }

  /** The guard as its authors evidently meant it: status Healthy or Incubation. */
  function StatusUpdatedAsMeant(c: Condition, viral: bool): Condition {
    if viral && c.status != Recovered then
      if c.v1 == 0 then c.(status := Healthy)
      else if 1 <= c.v1 < INFECTION_V1 && c.status in {Healthy, Incubation} then c.(status := Incubation)
      else if c.v1 >= INFECTION_V1 then c.(status := Infected)
      else c
    else c
  }

  /** Reading `("Healthy" or "Incubation")` as "Healthy" is harmless: for an
      Incubation individual the meant branch only re-assigns Incubation. */
  lemma StatusGuardHarmless(c: Condition, viral: bool)
    ensures StatusUpdated(c, viral) == StatusUpdatedAsMeant(c, viral)
  {
  }

  /** What `update_status` promises: Recovered individuals and the non-viral
      model are untouched, only the status changes, and the new status is
      determined by the viral load as described above. */
  lemma StatusUpdateMeaning(c: Condition, viral: bool)
    ensures var r := StatusUpdated(c, viral);
      && r == c.(status := r.status)
      && (!viral || c.status == Recovered ==> r == c)
      && (viral && c.status != Recovered ==>
            && (c.v1 == 0 ==> r.status == Healthy)
            && (c.v1 >= INFECTION_V1 ==> r.status == Infected)
            && (1 <= c.v1 < INFECTION_V1 ==>
                  r.status == (if c.status == Healthy then Incubation else c.status)))
  {
  }

  /** In the viral-load model a Healthy individual never jumps straight to
      Infected unless its load is already at the infection level. */
  lemma StatusUpdateNoSkippedIncubation(c: Condition)
    requires c.status == Healthy && c.v1 < INFECTION_V1
    ensures StatusUpdated(c, true).status in {Healthy, Incubation}
  {
  }

  // ---------------------------------------------------------------------
  // update_status over a whole place
  // ---------------------------------------------------------------------

  /** The conditions of the occupants a place keeps after `update_status`,
      in order, when every occupant is visited once: occupants that were
      Deceased are removed and every other one gets its status updated. */
  function Sweep(cs: seq<Condition>, viral: bool): (r: seq<Condition>)
    ensures |r| <= |cs|
    ensures forall k :: 0 <= k < |r| ==> r[k].status != Deceased
  {
    if cs == [] then []
    else
      var last := cs[|cs| - 1];
      Sweep(cs[..|cs| - 1], viral) + (if last.status == Deceased then [] else [StatusUpdated(last, viral)])
  }

  lemma SweepSnoc(cs: seq<Condition>, k: int, viral: bool)
    requires 0 <= k < |cs|
    ensures Sweep(cs[..k + 1], viral) ==
      Sweep(cs[..k], viral) + (if cs[k].status == Deceased then [] else [StatusUpdated(cs[k], viral)])
  {
    assert cs[..k + 1][..k] == cs[..k];
  }

  /** A place without deceased occupants keeps all of them, each updated in place. */
  lemma {:induction false} SweepWithoutDeaths(cs: seq<Condition>, viral: bool)
    requires forall k :: 0 <= k < |cs| ==> cs[k].status != Deceased
    ensures |Sweep(cs, viral)| == |cs|
    ensures forall k :: 0 <= k < |cs| ==> Sweep(cs, viral)[k] == StatusUpdated(cs[k], viral)
  {
    if cs != [] {
      SweepWithoutDeaths(cs[..|cs| - 1], viral);
    }
  }

  /** The same pass as the source runs it: it removes a Deceased occupant
      from the list it is iterating over, so the occupant that slides into
      the freed position is never visited that day. */
  function SweepAsWritten(cs: seq<Condition>, viral: bool): seq<Condition>
    decreases |cs|
  {
    if cs == [] then []
    else if cs[0].status == Deceased then
      if |cs| == 1 then [] else [cs[1]] + SweepAsWritten(cs[2..], viral)
    else [StatusUpdated(cs[0], viral)] + SweepAsWritten(cs[1..], viral)
  }

  /** The occupant right after a Deceased one is left exactly as it was. */
  lemma SweepAsWrittenSkips(d: Condition, c: Condition, rest: seq<Condition>, viral: bool)
    requires d.status == Deceased
    ensures SweepAsWritten([d, c] + rest, viral) == [c] + SweepAsWritten(rest, viral)
  {
    assert ([d, c] + rest)[2..] == rest;
  }

  /** Counterexample: of two Deceased occupants side by side the source
      removes only the first, while the intended pass removes both. */
  lemma SweepAsWrittenKeepsDeceased(d: Condition, viral: bool)
    requires d.status == Deceased
    ensures SweepAsWritten([d, d], viral) == [d]
    ensures Sweep([d, d], viral) == []
  {
    SweepAsWrittenSkips(d, d, [], viral);
    assert [d, d][..1] == [d];
  }

  // ---------------------------------------------------------------------
  // Guards of the care pathway (check_hospitalization, check_ICU)
  // ---------------------------------------------------------------------

  /** Severe (E3 or E4), Infected, not in care and with no care days left. */
  predicate HospitalCandidate(c: Condition) {
    && (c.symptoms == E3 || c.symptoms == E4)
    && c.status == Infected
    && c.hospitalizationDaysLeft == 0
    && !c.hospitalized
  }

  /** Critical (E4), Infected, in neither ward and with no care days left. */
  predicate IcuCandidate(c: Condition) {
    && c.symptoms == E4
    && c.status == Infected
    && c.hospitalizationDaysLeft == 0
    && !c.hospitalized
    && !c.icu
  }

  /** Critical (E4), Infected, hospitalised with care days left, not in ICU. */
  predicate IcuTransfer(c: Condition) {
    && c.symptoms == E4
    && c.status == Infected
    && c.hospitalizationDaysLeft > 0
    && c.hospitalized
    && !c.icu
  }

  /** The two ICU routes never apply to the same individual, and only
      severe Infected individuals enter either ward. */
  lemma CareRoutesDisjoint(c: Condition)
    ensures !(IcuCandidate(c) && IcuTransfer(c))
    ensures IcuCandidate(c) ==> HospitalCandidate(c)
    ensures HospitalCandidate(c) || IcuTransfer(c) ==> c.status == Infected && c.symptoms != E1 && c.symptoms != E2
  {
  }
}
