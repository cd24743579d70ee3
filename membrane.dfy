/** The location containers of `membrane.py` (`PlaceMembrane` and its
    subclasses, `ProvinceMembrane`) and the agents they hold (`Individual`).
    Places and individuals refer to each other (an individual's house is a
    place), so they share one module. */
module Membrane {
  import opened Config
  import opened Seqs
  import opened Health

  // =====================================================================
  // Individual
  // =====================================================================

  /** An agent. Its identity is fixed at creation. Its health and care
      attributes (status, symptom tier, viral and immune scalars, ward and
      vaccine flags, the five day countdowns) are held together in the
      record `health`, which the methods below update in place, attribute
      by attribute, in the source's order. */
  class Individual {
    const provinceOrigin: string
    const provinceDestination: string
    const number: int
    const ageGroup: AgeGroup
    var house: Place?
    var health: Condition
    var vaccineEffectiveness: real

    /** The constructor for an admissible initial status. `vaccine` is the
        (effectiveness, duration) pair the behaviour model draws for an
        individual created vaccinated; it is ignored otherwise. */
    constructor (provinceOrigin: string, provinceDestination: string, number: int,
                 status: Status, ageGroup: AgeGroup, vaccinated: bool, hospitalized: bool, icu: bool,
                 v1: int, v1Ino: int, antiv: int, antivesp: int, phag: int, inf: int, symptoms: Tier,
                 vaccine: (real, int))
      requires status != Deceased
      ensures this.provinceOrigin == provinceOrigin && this.provinceDestination == provinceDestination
      ensures this.number == number && this.ageGroup == ageGroup && house == null
      ensures health == Condition(status, symptoms, v1, v1Ino, antiv, antivesp, phag, inf,
                                  hospitalized, icu, vaccinated,
                                  0, 0, 0, if vaccinated then vaccine.1 else 0, 0)
      ensures vaccinated ==> vaccineEffectiveness == vaccine.0
    {
      this.provinceOrigin := provinceOrigin;
      this.provinceDestination := provinceDestination;
      this.number := number;
      this.ageGroup := ageGroup;
      house := null;
      health := Condition(status, symptoms, v1, v1Ino, antiv, antivesp, phag, inf,
                          hospitalized, icu, vaccinated, 0, 0, 0, 0, 0);
      vaccineEffectiveness := 0.0;
      new;
      if vaccinated {
        vaccineEffectiveness := vaccine.0;
        health := health.(vaccinationDaysLeft := vaccine.1);
      }
    }

    /** Creation with the source's validation: a Deceased initial status is
        rejected (the source raises ValueError) and yields no individual. */
    static method Create(provinceOrigin: string, provinceDestination: string, number: int,
                         status: Status, ageGroup: AgeGroup, vaccinated: bool, hospitalized: bool, icu: bool,
                         v1: int, v1Ino: int, antiv: int, antivesp: int, phag: int, inf: int, symptoms: Tier,
                         vaccine: (real, int))
      returns (r: Individual?)
      ensures r == null <==> status == Deceased
      ensures r != null ==> fresh(r) && r.health.status == status && r.number == number && r.house == null
    {
      if status == Deceased {
        r := null;
      } else {
        r := new Individual(provinceOrigin, provinceDestination, number, status, ageGroup, vaccinated,
                            hospitalized, icu, v1, v1Ino, antiv, antivesp, phag, inf, symptoms, vaccine);
      }
    }

    /** `assign_to_house`. */
    method AssignToHouse(h: Place)
      modifies this`house
      ensures house == h
    {
      house := h;
    }

    /** `start_infection`. */
    method StartInfection(viral: bool)
      modifies this`health
      ensures health == InfectionStarted(old(health), viral)
    {
      health := health.(status := Infected);
      if viral {
        health := health.(v1 := INFECTION_V1);
      }
    }

    /** `recover`. */
    method Recover(viral: bool)
      modifies this`health
      ensures health == Recovery(old(health), viral)
    {
      health := health.(status := Recovered, immunityDaysLeft := IMMUNITY_DAYS);
      if viral {
        health := health.(antivesp := 0, v1 := 0, inf := 0, symptoms := E1);
      }
    }

    /** `progress_infection`: the five countdown steps in source order. */
    method ProgressInfection(viral: bool)
      modifies this`health
      ensures health == Progressed(old(health), viral)
    {
      CountIncubation(viral);
      CountHospitalStay();
      CountInfection();
      CountVaccination();
      CountImmunity();
    }

    /** First step of `progress_infection`. */
    method CountIncubation(viral: bool)
      modifies this`health
      ensures health == IncubationTick(old(health), viral)
    {
      if health.incubationDaysLeft > 0 && health.status == Incubation {
        health := health.(incubationDaysLeft := health.incubationDaysLeft - 1);
        if health.incubationDaysLeft == 0 {
          StartInfection(viral);
        }
      }
    }

    /** Second step of `progress_infection`. */
    method CountHospitalStay()
      modifies this`health
      ensures health == HospitalTick(old(health))
    {
      if health.hospitalizationDaysLeft > 0 && (health.hospitalized || health.icu) {
        health := health.(hospitalizationDaysLeft := health.hospitalizationDaysLeft - 1);
        if health.hospitalizationDaysLeft == 0 {
          health := health.(status := Recovered, infectionDaysLeft := 0, immunityDaysLeft := IMMUNITY_DAYS,
                            hospitalized := false, icu := false);
        }
      }
    }

    /** Third step of `progress_infection`. */
    method CountInfection()
      modifies this`health
      ensures health == InfectionTick(old(health))
    {
      if health.infectionDaysLeft > 0 && health.status == Infected {
        health := health.(infectionDaysLeft := health.infectionDaysLeft - 1);
        if health.infectionDaysLeft == 0 {
          health := health.(status := Recovered, immunityDaysLeft := IMMUNITY_DAYS);
        }
      }
    }

    /** Fourth step of `progress_infection`. */
    method CountVaccination()
      modifies this`health
      ensures health == VaccinationTick(old(health))
    {
      if health.vaccinationDaysLeft > 0 {
        health := health.(vaccinationDaysLeft := health.vaccinationDaysLeft - 1);
        if health.vaccinationDaysLeft == 0 {
          health := health.(vaccinated := false);
        }
      }
    }

    /** Fifth step of `progress_infection`. */
    method CountImmunity()
      modifies this`health
      ensures health == ImmunityTick(old(health))
    {
      if health.status == Recovered && health.immunityDaysLeft > 0 {
        health := health.(immunityDaysLeft := health.immunityDaysLeft - 1);
        if health.immunityDaysLeft == 0 {
          health := health.(status := Healthy);
        }
      }
    }

    /** The body of the `reduce_hospital_day` loop for this occupant. */
    method PassHospitalDay(viral: bool)
      modifies this`health
      ensures health == HospitalDayPassed(old(health), viral)
    {
      if health.hospitalizationDaysLeft > 0 && (health.hospitalized || health.icu) {
        health := health.(hospitalizationDaysLeft := health.hospitalizationDaysLeft - 1);
      }
      if health.hospitalizationDaysLeft == 0 {
        health := health.(hospitalized := false, icu := false);
        Recover(viral);
      }
    }

    /** The body of the `reduce_vaccine_day` loop for this occupant. */
    method PassVaccineDay()
      modifies this`health
      ensures health == VaccineDayPassed(old(health))
    {
      if health.vaccinationDaysLeft > 0 {
        health := health.(vaccinationDaysLeft := health.vaccinationDaysLeft - 1);
      }
      if health.vaccinationDaysLeft == 0 {
        health := health.(vaccinated := false);
      }
    }

    /** The status rewrite of the `update_status` loop for this occupant. */
    method UpdateOwnStatus(viral: bool)
      modifies this`health
      ensures health == StatusUpdated(old(health), viral)
    {
      if viral && health.status != Recovered {
        if health.v1 == 0 {
          health := health.(status := Healthy);
        } else if 1 <= health.v1 < INFECTION_V1 && health.status == Healthy {
          health := health.(status := Incubation);
        } else if health.v1 >= INFECTION_V1 {
          health := health.(status := Infected);
        }
      }
    }
  }

  // =====================================================================
  // Counting and filtering lists of individuals
  // =====================================================================

  /** The three per-place tallies of the source. */
  datatype Tally = InfectedTally | VaccinatedTally | EligibleTally

  /** Whether an individual is counted by a tally: status Infected; the
      vaccine flag; Healthy and not vaccinated (eligible for vaccination). */
  predicate Counted(i: Individual, t: Tally)
    reads i
  {
    match t
    case InfectedTally => i.health.status == Infected
    case VaccinatedTally => i.health.vaccinated
    case EligibleTally => i.health.status == Healthy && !i.health.vaccinated
  }

  /** How many individuals of `s` a tally counts. */
  function Tallied(s: seq<Individual>, t: Tally): (n: nat)
    reads s
    ensures n <= |s|
  {
    if s == [] then 0
    else Tallied(s[..|s| - 1], t) + (if Counted(s[|s| - 1], t) then 1 else 0)
  }

  lemma {:induction false} TalliedAppend(a: seq<Individual>, b: seq<Individual>, t: Tally)
    ensures Tallied(a + b, t) == Tallied(a, t) + Tallied(b, t)
  {
    if b == [] {
      assert a + b == a;
    } else {
      assert (a + b)[..|a + b| - 1] == a + b[..|b| - 1];
      assert (a + b)[|a + b| - 1] == b[|b| - 1];
      TalliedAppend(a, b[..|b| - 1], t);
    }
  }

  /** Nobody is both Infected and eligible, nor both vaccinated and
      eligible, so each pair of tallies fits in the list together. */
  lemma {:induction false} TalliesDisjoint(s: seq<Individual>)
    ensures Tallied(s, InfectedTally) + Tallied(s, EligibleTally) <= |s|
    ensures Tallied(s, VaccinatedTally) + Tallied(s, EligibleTally) <= |s|
  {
    if s != [] {
      TalliesDisjoint(s[..|s| - 1]);
    }
  }

  /** The members of `s` in age group `g`, in order. */
  function WithAge(s: seq<Individual>, g: AgeGroup): (r: seq<Individual>)
    ensures |r| <= |s|
    ensures forall k :: 0 <= k < |r| ==> r[k] in s && r[k].ageGroup == g
    ensures forall k :: 0 <= k < |s| && s[k].ageGroup == g ==> s[k] in r
  {
    if s == [] then []
    else WithAge(s[..|s| - 1], g) + (if s[|s| - 1].ageGroup == g then [s[|s| - 1]] else [])
  }

  /** The health states of a list of individuals. */
  function States(s: seq<Individual>): (r: seq<Condition>)
    reads s
    ensures |r| == |s|
    ensures forall k :: 0 <= k < |s| ==> r[k] == s[k].health
  {
    if s == [] then [] else States(s[..|s| - 1]) + [s[|s| - 1].health]
  }

  lemma StatesSnoc(s: seq<Individual>, i: Individual)
    ensures States(s + [i]) == States(s) + [i.health]
  {
    assert (s + [i])[..|s|] == s;
  }

  /** The members of `s` whose status is Deceased. */
  function DeceasedAmong(s: seq<Individual>): (r: set<Individual>)
    reads s
    ensures forall k :: 0 <= k < |s| ==> (s[k] in r <==> s[k].health.status == Deceased)
  {
    set i | i in s && i.health.status == Deceased
  }

  /** Removing the individuals that were Deceased from a list whose
      members have since had their status rewritten leaves exactly the
      conditions the value-level sweep keeps. */
  lemma {:induction false} SweepOfWithout(s: seq<Individual>, before: seq<Condition>, dead: set<Individual>, viral: bool)
    requires |before| == |s|
    requires forall k :: 0 <= k < |s| ==> s[k].health == StatusUpdated(before[k], viral)
    requires forall k :: 0 <= k < |s| ==> (s[k] in dead <==> before[k].status == Deceased)
    ensures States(Without(s, dead)) == Sweep(before, viral)
  {
    if s != [] {
      var n := |s| - 1;
      SweepOfWithout(s[..n], before[..n], dead, viral);
      assert before[..n + 1] == before && s[..n + 1] == s;
      SweepSnoc(before, n, viral);
      WithoutSnoc(s, n, dead);
      if s[n] !in dead {
        StatesSnoc(Without(s[..n], dead), s[n]);
      }
    }
  }

  // =====================================================================
  // Places
  // =====================================================================

  /** The label prefix (and `counters` key) of each kind of place. */
  function Prefix(k: Kind): string {
    match k
    case School => "SC"
    case Workplace => "WP"
    case LeisureCenter => "LC"
    case CommonArea => "CA"
    case Hospital => "HP"
    case ICU => "ICU"
    case House => "H"
  }

  /** The kind whose label prefix is `prefix`, if any. */
  function KindOfPrefix(prefix: string): (r: Option<Kind>)
    ensures r.Some? ==> Prefix(r.value) == prefix
  {
    if prefix == "SC" then Some(School)
    else if prefix == "WP" then Some(Workplace)
    else if prefix == "CA" then Some(CommonArea)
    else if prefix == "LC" then Some(LeisureCenter)
    else if prefix == "HP" then Some(Hospital)
    else if prefix == "ICU" then Some(ICU)
    else if prefix == "H" then Some(House)
    else None
  }

  /** Every kind's prefix is recognised as that kind, so the prefixes are
      pairwise distinct. */
  lemma PrefixRecognised(k: Kind)
    ensures KindOfPrefix(Prefix(k)) == Some(k)
  {
  }

  /** A place (`PlaceMembrane`): an ordered occupant list bounded by a
      capacity. `kind` stands for the subclass; the source tells hospitals
      and ICUs apart by the substrings "HP" and "ICU" of the label, which
      only labels of those kinds contain. */
  class Place {
    const kind: Kind
    /** The source's `label`. */
    var name: string
    const capacity: int
    var occupants: seq<Individual>
    var province: Option<string>
    var infected: int
    var targetOccupants: int

    constructor (kind: Kind, name: string, capacity: int)
      ensures this.kind == kind && this.name == name && this.capacity == capacity
      ensures occupants == [] && province == None && infected == 0 && targetOccupants == 0
    {
      this.kind := kind;
      this.name := name;
      this.capacity := capacity;
      occupants := [];
      province := None;
      infected := 0;
      targetOccupants := 0;
    }

    /** `add_individual`: appends at the end while there is room; a full
        place ends the run in the source, here `ok` is false and nothing
        changes. */
    method AddIndividual(i: Individual) returns (ok: bool)
      modifies this`occupants
      ensures ok <==> old(|occupants|) < capacity
      ensures ok ==> occupants == old(occupants) + [i] && |occupants| <= capacity
      ensures !ok ==> occupants == old(occupants)
    {
      if |occupants| < capacity {
        occupants := occupants + [i];
        ok := true;
      } else {
        ok := false;
      }
    }

    /** `remove_individual`: deletes the first occurrence, if any. */
    method RemoveIndividual(i: Individual)
      modifies this`occupants
      ensures occupants == RemoveFirst(old(occupants), i)
      ensures i in old(occupants) ==> |occupants| == old(|occupants|) - 1
      ensures i !in old(occupants) ==> occupants == old(occupants)
    {
      if i in occupants {
        occupants := RemoveFirst(occupants, i);
      }
    }

    /** `get_total_infected`. */
    function TotalInfected(): (n: nat)
      reads this, occupants
      ensures n <= |occupants|
    {
      Tallied(occupants, InfectedTally)
    }

    /** `get_total_vaccinated`. */
    function TotalVaccinated(): (n: nat)
      reads this, occupants
      ensures n <= |occupants|
    {
      Tallied(occupants, VaccinatedTally)
    }

    /** `get_total_to_vaccinate`: Healthy and not vaccinated. */
    function TotalToVaccinate(): (n: nat)
      reads this, occupants
      ensures n <= |occupants|
      ensures n + TotalInfected() <= |occupants| && n + TotalVaccinated() <= |occupants|
    {
      TalliesDisjoint(occupants);
      Tallied(occupants, EligibleTally)
    }

    /** `get_young_individuals`, `get_adult_individuals` and
        `get_elderly_individuals`. */
    function IndividualsAged(g: AgeGroup): (r: seq<Individual>)
      reads this
      ensures |r| <= |occupants|
      ensures forall k :: 0 <= k < |r| ==> r[k] in occupants && r[k].ageGroup == g
      ensures forall k :: 0 <= k < |occupants| && occupants[k].ageGroup == g ==> occupants[k] in r
    {
      WithAge(occupants, g)
    }

    /** `update_infected_count`. */
    method UpdateInfectedCount()
      modifies this`infected
      ensures infected == TotalInfected()
    {
      infected := Tallied(occupants, InfectedTally);
    }

    /** `progress_infections`: every occupant progresses one day, then the
        infected count is refreshed. */
    method ProgressInfections(viral: bool)
      requires Distinct(occupants)
      modifies this`infected, (set x | x in occupants)`health
      ensures forall k :: 0 <= k < |occupants| ==>
        occupants[k].health == Progressed(old(occupants[k].health), viral)
      ensures infected == TotalInfected()
    {
      var k := 0;
      while k < |occupants|
        invariant 0 <= k <= |occupants|
        invariant forall j :: 0 <= j < k ==>
          occupants[j].health == Progressed(old(occupants[j].health), viral)
        invariant forall j :: k <= j < |occupants| ==> occupants[j].health == old(occupants[j].health)
      {
        occupants[k].ProgressInfection(viral);
        k := k + 1;
      }
      UpdateInfectedCount();
    }

    /** `reduce_hospital_day` over every occupant. */
    method ReduceHospitalDay(viral: bool)
      requires Distinct(occupants)
      modifies (set x | x in occupants)`health
      ensures forall k :: 0 <= k < |occupants| ==>
        occupants[k].health == HospitalDayPassed(old(occupants[k].health), viral)
    {
      var k := 0;
      while k < |occupants|
        invariant 0 <= k <= |occupants|
        invariant forall j :: 0 <= j < k ==>
          occupants[j].health == HospitalDayPassed(old(occupants[j].health), viral)
        invariant forall j :: k <= j < |occupants| ==> occupants[j].health == old(occupants[j].health)
      {
        occupants[k].PassHospitalDay(viral);
        k := k + 1;
      }
    }

    /** `reduce_vaccine_day` over every occupant. */
    method ReduceVaccineDay()
      requires Distinct(occupants)
      modifies (set x | x in occupants)`health
      ensures forall k :: 0 <= k < |occupants| ==>
        occupants[k].health == VaccineDayPassed(old(occupants[k].health))
    {
      var k := 0;
      while k < |occupants|
        invariant 0 <= k <= |occupants|
        invariant forall j :: 0 <= j < k ==>
          occupants[j].health == VaccineDayPassed(old(occupants[j].health))
        invariant forall j :: k <= j < |occupants| ==> occupants[j].health == old(occupants[j].health)
      {
        occupants[k].PassVaccineDay();
        k := k + 1;
      }
    }

    /** `update_status`, visiting every occupant once: the occupants that
        were Deceased leave the place, every occupant (in the viral-load
        model also a Deceased one) has its status rewritten, and the
        infected count is refreshed. The source's own pass can skip an
        occupant; see `Health.SweepAsWritten`. */
    method UpdateStatus(viral: bool)
      requires Distinct(occupants)
      modifies this`occupants, this`infected, (set x | x in occupants)`health
      ensures occupants == Without(old(occupants), old(DeceasedAmong(occupants)))
      ensures States(occupants) == Sweep(old(States(occupants)), viral)
      ensures forall k :: 0 <= k < |old(occupants)| ==>
        old(occupants)[k].health == StatusUpdated(old(occupants[k].health), viral)
      ensures infected == TotalInfected()
    {
      var s := occupants;
      var kept := Without(s, DeceasedAmong(s));
      var k := 0;
      while k < |s|
        invariant 0 <= k <= |s|
        invariant forall j :: 0 <= j < k ==> s[j].health == StatusUpdated(old(s[j].health), viral)
        invariant forall j :: k <= j < |s| ==> s[j].health == old(s[j].health)
      {
        s[k].UpdateOwnStatus(viral);
        k := k + 1;
      }
      occupants := kept;
      UpdateInfectedCount();
      SweepOfWithout(s, old(States(s)), old(DeceasedAmong(s)), viral);
    }

    /** `check_hospitalization`: outside a hospital, a severe Infected
        individual with no care days and not hospitalised is, when the
        admission draw succeeds, removed from this place, given
        HOSPITAL_STAY care days and added to `hospital`; `ok` is false only
        when the hospital is full (the source then ends the run). */
    method CheckHospitalization(ind: Individual, hospital: Place, admitted: bool) returns (ok: bool)
      requires hospital.kind == Hospital
      modifies this`occupants, hospital`occupants, ind`health
      ensures var c := old(ind.health);
        var moves := kind != Hospital && HospitalCandidate(c) && admitted;
        && (!moves ==> ok && occupants == old(occupants) && hospital.occupants == old(hospital.occupants)
                         && ind.health == c)
        && (moves ==> occupants == RemoveFirst(old(occupants), ind)
                      && (ok <==> old(|hospital.occupants|) < hospital.capacity))
        && (moves && ok ==> hospital.occupants == old(hospital.occupants) + [ind]
                            && ind.health == c.(hospitalizationDaysLeft := HOSPITAL_STAY, hospitalized := true))
    {
      ok := true;
      if kind != Hospital {
        if (ind.health.symptoms == E3 || ind.health.symptoms == E4) && ind.health.status == Infected
           && ind.health.hospitalizationDaysLeft == 0 && !ind.health.hospitalized
        {
          if admitted {
            RemoveIndividual(ind);
            ind.health := ind.health.(hospitalizationDaysLeft := HOSPITAL_STAY);
            ok := hospital.AddIndividual(ind);
            if ok {
              ind.health := ind.health.(hospitalized := true);
            }
          }
        }
      }
    }

    /** `check_ICU`: outside an ICU, a critical Infected individual in
        neither ward is moved to `icuPlace` with HOSPITALIZATION_PERIOD care
        days when the admission draw succeeds; a hospitalised critical one
        with care days left is moved there without a draw, keeping its days. */
    method CheckIcu(ind: Individual, icuPlace: Place, admitted: bool) returns (ok: bool)
      requires icuPlace.kind == ICU
      modifies this`occupants, icuPlace`occupants, ind`health
      ensures var c := old(ind.health);
        var moves := kind != ICU && ((IcuCandidate(c) && admitted) || IcuTransfer(c));
        && (!moves ==> ok && occupants == old(occupants) && icuPlace.occupants == old(icuPlace.occupants)
                         && ind.health == c)
        && (moves ==> occupants == RemoveFirst(old(occupants), ind)
                      && (ok <==> old(|icuPlace.occupants|) < icuPlace.capacity))
        && (moves && ok ==> icuPlace.occupants == old(icuPlace.occupants) + [ind]
                            && ind.health == c.(hospitalizationDaysLeft :=
                                                   if IcuCandidate(c) then HOSPITALIZATION_PERIOD
                                                   else c.hospitalizationDaysLeft,
                                                 icu := true))
    {
      ok := true;
      if kind != ICU {
        if ind.health.symptoms == E4 && ind.health.status == Infected && ind.health.hospitalizationDaysLeft == 0
           && !ind.health.hospitalized && !ind.health.icu
        {
          if admitted {
            RemoveIndividual(ind);
            ind.health := ind.health.(hospitalizationDaysLeft := HOSPITALIZATION_PERIOD);
            ok := icuPlace.AddIndividual(ind);
            if ok {
              ind.health := ind.health.(icu := true);
            }
          }
        } else if ind.health.symptoms == E4 && ind.health.status == Infected && ind.health.hospitalizationDaysLeft > 0
                  && ind.health.hospitalized && !ind.health.icu
        {
          RemoveIndividual(ind);
          ok := icuPlace.AddIndividual(ind);
          if ok {
            ind.health := ind.health.(icu := true);
          }
        }
      }
    }
  }

  // =====================================================================
  // Provinces
  // =====================================================================

  /** Everyone inside some place of `ps`. */
  function Inside(ps: seq<Place>): set<Individual>
    reads ps
  {
    set p, i | p in ps && i in p.occupants :: i
  }

  /** The sum over `ps` of a per-place tally. */
  function PlacesTallied(ps: seq<Place>, t: Tally): nat
    reads ps, Inside(ps)
  {
    if ps == [] then 0
    else
      assert Inside(ps[..|ps| - 1]) <= Inside(ps);
      assert forall i | i in ps[|ps| - 1].occupants :: i in Inside(ps);
      PlacesTallied(ps[..|ps| - 1], t) + Tallied(ps[|ps| - 1].occupants, t)
  }

  /** The sum over `ps` of the occupancies. */
  function Population(ps: seq<Place>): nat
    reads ps
  {
    if ps == [] then 0 else Population(ps[..|ps| - 1]) + |ps[|ps| - 1].occupants|
  }

  lemma {:induction false} PlacesTalliedAppend(a: seq<Place>, b: seq<Place>, t: Tally)
    ensures PlacesTallied(a + b, t) == PlacesTallied(a, t) + PlacesTallied(b, t)
  {
    if b == [] {
      assert a + b == a;
    } else {
      assert (a + b)[..|a + b| - 1] == a + b[..|b| - 1];
      PlacesTalliedAppend(a, b[..|b| - 1], t);
    }
  }

  lemma {:induction false} PopulationAppend(a: seq<Place>, b: seq<Place>)
    ensures Population(a + b) == Population(a) + Population(b)
  {
    if b == [] {
      assert a + b == a;
    } else {
      assert (a + b)[..|a + b| - 1] == a + b[..|b| - 1];
      PopulationAppend(a, b[..|b| - 1]);
    }
  }

  /** Summed over any places, the infected and the eligible together, and
      the vaccinated and the eligible together, never exceed the population. */
  lemma {:induction false} PlacesTalliesBounded(ps: seq<Place>)
    ensures PlacesTallied(ps, InfectedTally) + PlacesTallied(ps, EligibleTally) <= Population(ps)
    ensures PlacesTallied(ps, VaccinatedTally) + PlacesTallied(ps, EligibleTally) <= Population(ps)
  {
    if ps != [] {
      PlacesTalliesBounded(ps[..|ps| - 1]);
      TalliesDisjoint(ps[|ps| - 1].occupants);
    }
  }

  /** The larger of two integers (Python's `max`). */
  function Max(a: int, b: int): (r: int)
    ensures r >= a && r >= b && (r == a || r == b)
  {
    if a >= b then a else b
  }

  /** Share, in percent, of the houses of sizes 1 to 5 (the dictionary's
      0.05 for size 6 is never read: size 6 takes what is left). */
  const HOUSE_SHARES: seq<int> := [10, 20, 40, 15, 10]

  /** Residents the houses can take: house size times count, summed. */
  function Room(counts: seq<int>): int {
    if counts == [] then 0 else Room(counts[..|counts| - 1]) + |counts| * counts[|counts| - 1]
  }

  /** `int(n * pct / 100)` for non-negative `n` and `pct`. */
  function Percent(n: int, pct: int): int {
    n * pct / 100
  }

  lemma RoomSnoc(counts: seq<int>, x: int)
    ensures Room(counts + [x]) == Room(counts) + (|counts| + 1) * x
    ensures Sum(counts + [x]) == Sum(counts) + x
  {
    var c := counts + [x];
    assert c[..|c| - 1] == counts && c[|c| - 1] == x && |c| == |counts| + 1;
    assert Room(c) == Room(counts) + |c| * x;
  }

  /** The number of houses. */
  function Sum(counts: seq<int>): int {
    if counts == [] then 0 else Sum(counts[..|counts| - 1]) + counts[|counts| - 1]
  }

  /** The housing stock `initialize_houses` aims at: a third of the
      province population, but at least five and at least a tenth of that. */
  function WorkingHouses(provincePop: int): (r: int)
    ensures r >= 5
  {
    var maxHouses := provincePop / 3;
    Max(Max(5, maxHouses / 10), maxHouses)
  }

  /** The house counts by size (1 to 6) that `initialize_houses` computes
      for a province population: every size gets at least one house, the
      houses number at least `WorkingHouses`, and together they have room
      for the whole population. Python's `//` and `int()` of a non-negative
      product agree with Dafny's `/` here, as the divisors are positive. */
  method HouseCounts(provincePop: int) returns (counts: seq<int>)
    ensures |counts| == 6
    ensures forall j :: 0 <= j < 6 ==> counts[j] >= 1
    ensures Sum(counts) >= WorkingHouses(provincePop)
    ensures Room(counts) >= provincePop
  {
    var working := WorkingHouses(provincePop);
    var remainingPop := provincePop;
    var remainingHouses := working;
    counts := [];
    var size := 1;
    while size <= 5
      invariant 1 <= size <= 6 && |counts| == size - 1
      invariant remainingHouses >= 1
      invariant forall j :: 0 <= j < |counts| ==> counts[j] >= 1
      invariant remainingPop == provincePop - Room(counts)
      invariant Sum(counts) + remainingHouses >= working
    {
      var h := Max(1, Percent(working, HOUSE_SHARES[size - 1]));
      if remainingHouses - h >= 1 {
        remainingHouses := remainingHouses - h;
      } else {
        h := Max(1, remainingHouses - 1);
        remainingHouses := 1;
      }
      RoomSnoc(counts, h);
      counts := counts + [h];
      remainingPop := remainingPop - h * size;
      size := size + 1;
    }
    var last := Max(remainingHouses, (remainingPop + 5) / 6);
    RoomSnoc(counts, last);
    counts := counts + [last];
  }

  /** The sum of the target occupancies of `ps`. */
  function Targets(ps: seq<Place>): int
    reads ps
  {
    if ps == [] then 0 else Targets(ps[..|ps| - 1]) + ps[|ps| - 1].targetOccupants
  }

  /** A province (`ProvinceMembrane`): seven lists of places, in the order
      the source sums over them. */
  class Province {
    /** The source's `label`. */
    const name: string
    var schools: seq<Place>
    var workplaces: seq<Place>
    var leisureCenters: seq<Place>
    var commonAreas: seq<Place>
    var hospitals: seq<Place>
    var icus: seq<Place>
    var houses: seq<Place>

    constructor (name: string)
      ensures this.name == name
      ensures schools == [] && workplaces == [] && leisureCenters == [] && commonAreas == []
      ensures hospitals == [] && icus == [] && houses == []
    {
      this.name := name;
      schools, workplaces, leisureCenters, commonAreas := [], [], [], [];
      hospitals, icus, houses := [], [], [];
    }

    /** All places, in the order of the source's sums. */
    function Places(): seq<Place>
      reads this
    {
      schools + workplaces + leisureCenters + commonAreas + hospitals + icus + houses
    }

    /** The list the places of a kind are filed under. */
    function ListOf(k: Kind): seq<Place>
      reads this
    {
      match k
      case School => schools
      case Workplace => workplaces
      case LeisureCenter => leisureCenters
      case CommonArea => commonAreas
      case Hospital => hospitals
      case ICU => icus
      case House => houses
    }

    /** `total_infected`. */
    function TotalInfected(): nat
      reads this, Places(), Inside(Places())
    {
      PlacesTallied(Places(), InfectedTally)
    }

    /** `total_vaccinated`. */
    function TotalVaccinated(): nat
      reads this, Places(), Inside(Places())
    {
      PlacesTallied(Places(), VaccinatedTally)
    }

    /** `total_to_vaccinate`. */
    function TotalToVaccinate(): nat
      reads this, Places(), Inside(Places())
    {
      PlacesTallied(Places(), EligibleTally)
    }

    /** `total_population`. */
    function TotalPopulation(): nat
      reads this, Places()
    {
      Population(Places())
    }

    /** Each province total is the sum of the same total over the seven
        lists, and the totals fit inside the population. */
    lemma TotalsByList(t: Tally)
      ensures PlacesTallied(Places(), t) ==
        PlacesTallied(schools, t) + PlacesTallied(workplaces, t) + PlacesTallied(leisureCenters, t)
        + PlacesTallied(commonAreas, t) + PlacesTallied(hospitals, t) + PlacesTallied(icus, t)
        + PlacesTallied(houses, t)
      ensures TotalPopulation() ==
        Population(schools) + Population(workplaces) + Population(leisureCenters)
        + Population(commonAreas) + Population(hospitals) + Population(icus) + Population(houses)
      ensures TotalInfected() + TotalToVaccinate() <= TotalPopulation()
      ensures TotalVaccinated() + TotalToVaccinate() <= TotalPopulation()
    {
      var a := schools;
      var b := a + workplaces;
      var c := b + leisureCenters;
      var d := c + commonAreas;
      var e := d + hospitals;
      var f := e + icus;
      PlacesTalliedAppend(a, workplaces, t);
      PlacesTalliedAppend(b, leisureCenters, t);
      PlacesTalliedAppend(c, commonAreas, t);
      PlacesTalliedAppend(d, hospitals, t);
      PlacesTalliedAppend(e, icus, t);
      PlacesTalliedAppend(f, houses, t);
      PopulationAppend(a, workplaces);
      PopulationAppend(b, leisureCenters);
      PopulationAppend(c, commonAreas);
      PopulationAppend(d, hospitals);
      PopulationAppend(e, icus);
      PopulationAppend(f, houses);
      PlacesTalliesBounded(Places());
    }

    /** `move_to_province`: the individual joins the first common area, if
        the province has one; `ok` is false only when that area is full. */
    method MoveToProvince(ind: Individual) returns (ok: bool)
      modifies (if commonAreas == [] then {} else {commonAreas[0]})`occupants
      ensures commonAreas == old(commonAreas)
      ensures old(commonAreas) == [] ==> ok
      ensures old(commonAreas) != [] ==>
        var ca := commonAreas[0];
        && (ok <==> old(|ca.occupants|) < ca.capacity)
        && ca.occupants == if ok then old(ca.occupants) + [ind] else old(ca.occupants)
    {
      ok := true;
      if commonAreas != [] {
        ok := commonAreas[0].AddIndividual(ind);
      }
    }

    /** `add_place`. The class-wide `counters` are passed in and returned.
        A place whose label is not a counter key is ignored. Otherwise the
        key's counter goes up by one, its new value is appended to the
        label, the infected count is reset, the province is recorded, and
        the place is appended to the list its label names. */
    method AddPlace(p: Place, counters: map<string, int>) returns (next: map<string, int>)
      modifies this`schools, this`workplaces, this`leisureCenters, this`commonAreas
      modifies this`hospitals, this`icus, this`houses, p`name, p`infected, p`province
      ensures var key := old(p.name);
        && (key !in counters ==>
              && next == counters
              && p.name == key && p.infected == old(p.infected) && p.province == old(p.province))
        && (key in counters ==>
              && next == counters[key := counters[key] + 1]
              && p.name == key + IntString(counters[key] + 1)
              && p.infected == 0 && p.province == Some(name))
        && (forall k: Kind :: ListOf(k) ==
              if key in counters && KindOfPrefix(key) == Some(k) then old(ListOf(k)) + [p] else old(ListOf(k)))
    {
      var key := p.name;
      if key !in counters {
        return counters;
      }
      next := counters[key := counters[key] + 1];
      p.name := key + IntString(next[key]);
      p.infected := 0;
      p.province := Some(name);
      var kind := KindOfPrefix(key);
      if kind.Some? {
        File(kind.value, p);
      }
    }

    /** Appends `p` to the list of kind `k`. */
    method File(k: Kind, p: Place)
      modifies this`schools, this`workplaces, this`leisureCenters, this`commonAreas
      modifies this`hospitals, this`icus, this`houses
      ensures forall j: Kind :: ListOf(j) == if j == k then old(ListOf(j)) + [p] else old(ListOf(j))
    {
      match k
      case School => schools := schools + [p];
      case Workplace => workplaces := workplaces + [p];
      case LeisureCenter => leisureCenters := leisureCenters + [p];
      case CommonArea => commonAreas := commonAreas + [p];
      case Hospital => hospitals := hospitals + [p];
      case ICU => icus := icus + [p];
      case House => houses := houses + [p];
    }

    /** `initialize_houses`: appends the province's houses, size by size
        (1 to 6), labelled `H1_<name>`, `H2_<name>`, ... with capacity 6,
        the province recorded and the size as target occupancy. Every size
        is represented, and the targets add up to at least the province's
        share of the population. */
    method InitializeHouses(totalPop: int, numProvinces: int)
      requires numProvinces >= 1
      modifies this`houses
      ensures |houses| >= old(|houses|) + 6
      ensures houses[..old(|houses|)] == old(houses)
      ensures Built(houses[old(|houses|)..], 1, name)
      ensures Targets(houses[old(|houses|)..]) >= totalPop / numProvinces
    {
      var counts := HouseCounts(totalPop / numProvinces);
      var made := BuildHouses(counts);
      houses := houses + made;
      assert houses[old(|houses|)..] == made;
    }

    /** The houses for the given counts by size, numbered from one. */
    method BuildHouses(counts: seq<int>) returns (made: seq<Place>)
      requires |counts| == 6 && forall j :: 0 <= j < 6 ==> counts[j] >= 1
      ensures |made| >= 6
      ensures Built(made, 1, name)
      ensures Targets(made) == Room(counts)
    {
      made := [];
      var size := 1;
      while size <= 6
        invariant 1 <= size <= 7
        invariant |made| >= size - 1
        invariant Built(made, 1, name)
        invariant Targets(made) == Room(counts[..size - 1])
      {
        var hs := NewHouses(size, counts[size - 1], |made| + 1);
        BuiltAppend(made, hs, 1, name);
        TargetsStep(made, hs, counts, size);
        made := made + hs;
        size := size + 1;
      }
      assert counts[..6] == counts;
    }

    /** `count` new houses of the given size, numbered from `first`. */
    method NewHouses(size: int, count: int, first: nat) returns (hs: seq<Place>)
      requires 1 <= size <= 6
      ensures |hs| == Max(count, 0)
      ensures Built(hs, first, name)
      ensures forall k :: 0 <= k < |hs| ==> hs[k].targetOccupants == size
    {
      hs := [];
      while |hs| < count
        invariant |hs| <= Max(count, 0)
        invariant forall k :: 0 <= k < |hs| ==> IsNewHouse(hs[k], first + k, name, size)
      {
        var house := new Place(House, "H" + NatString(first + |hs|) + "_" + name, 6);
        house.province := Some(name);
        house.targetOccupants := size;
        hs := hs + [house];
      }
    }
  }

  /** Houses as `initialize_houses` creates them, numbered on from `first`. */
  predicate Built(hs: seq<Place>, first: nat, province: string)
    reads hs
  {
    forall k :: 0 <= k < |hs| ==>
      && IsNewHouse(hs[k], first + k, province, hs[k].targetOccupants)
      && 1 <= hs[k].targetOccupants <= 6
  }

  lemma BuiltAppend(a: seq<Place>, b: seq<Place>, first: nat, province: string)
    requires Built(a, first, province) && Built(b, first + |a|, province)
    ensures Built(a + b, first, province)
  {
    forall k | 0 <= k < |a + b|
      ensures IsNewHouse((a + b)[k], first + k, province, (a + b)[k].targetOccupants)
    {
      if k >= |a| {
        assert (a + b)[k] == b[k - |a|];
      }
    }
  }

  /** A house as `initialize_houses` creates it: number `n` of its province. */
  predicate IsNewHouse(h: Place, n: nat, province: string, size: int)
    reads h
  {
    && h.kind == House && h.capacity == 6 && h.occupants == []
    && h.name == "H" + NatString(n) + "_" + province
    && h.province == Some(province) && h.targetOccupants == size
  }

  /** Adding `counts[size - 1]` houses of `size` residents each keeps the
      targets equal to the room of the sizes so far. */
  lemma TargetsStep(old_: seq<Place>, added: seq<Place>, counts: seq<int>, size: int)
    requires 1 <= size <= |counts|
    requires |added| == counts[size - 1]
    requires forall k :: 0 <= k < |added| ==> added[k].targetOccupants == size
    requires Targets(old_) == Room(counts[..size - 1])
    ensures Targets(old_ + added) == Room(counts[..size])
  {
    TargetsAppend(old_, added);
    TargetsUniform(added, size);
    assert counts[..size][..size - 1] == counts[..size - 1];
  }

  lemma {:induction false} TargetsAppend(a: seq<Place>, b: seq<Place>)
    ensures Targets(a + b) == Targets(a) + Targets(b)
  {
    if b == [] {
      assert a + b == a;
    } else {
      assert (a + b)[..|a + b| - 1] == a + b[..|b| - 1];
      TargetsAppend(a, b[..|b| - 1]);
    }
  }

  lemma {:induction false} TargetsUniform(ps: seq<Place>, size: int)
    requires forall k :: 0 <= k < |ps| ==> ps[k].targetOccupants == size
    ensures Targets(ps) == |ps| * size
  {
    if ps != [] {
      TargetsUniform(ps[..|ps| - 1], size);
    }
  }
}
