// Within-host viral-load dynamics and the transmission primitive
// (infection_rules.py). Every random draw is an explicit input: a success
// count bounded by its number of trials, or a boolean outcome.

module InfectionRules {
  import opened Config
  import opened Seqs
  import opened Health
  import opened Membrane

  /** The smaller of two integers (Python's `min`). */
  function Min(a: int, b: int): (r: int)
    ensures r <= a && r <= b && (r == a || r == b)
  {
    if a <= b then a else b
  }

  /** `clamp`: `value` constrained to [lo, hi] (lo wins if the bounds cross). */
  function Clamp(value: int, lo: int, hi: int): (r: int)
    ensures r >= lo
    ensures lo <= hi ==> r <= hi
    ensures lo <= value <= hi ==> r == value
    ensures lo <= hi && value < lo ==> r == lo
    ensures lo <= hi && value > hi ==> r == hi
  {
    Max(lo, Min(value, hi))
  }

  lemma ClampIdempotent(value: int, lo: int, hi: int)
    requires lo <= hi
    ensures Clamp(Clamp(value, lo, hi), lo, hi) == Clamp(value, lo, hi)
  {
  }

  // ---------------------------------------------------------------------
  // Antibody production probability
  // ---------------------------------------------------------------------

  /** `_get_antivesp_probability`, in thousandths: by age group and symptom
      tier, zero for E1 (and for an individual without a tier). */
  function AntivespPerMille(age: AgeGroup, t: Tier): (r: nat)
    ensures r == 0 <==> t == E1 || t == Unset
    ensures r <= 24
  {
    match age
    case Young => (match t case E2 => 24 case E3 => 18 case E4 => 12 case _ => 0)
    case Adult => (match t case E2 => 12 case E3 => 9 case E4 => 6 case _ => 0)
    case Elderly => (match t case E2 => 4 case E3 => 3 case E4 => 2 case _ => 0)
  }

  /** The production probability falls with age and with symptom severity. */
  lemma AntivespOrdering(t: Tier, age: AgeGroup)
    ensures AntivespPerMille(Young, t) >= AntivespPerMille(Adult, t) >= AntivespPerMille(Elderly, t)
    ensures AntivespPerMille(age, E2) >= AntivespPerMille(age, E3) >= AntivespPerMille(age, E4)
  {
  }

  // ---------------------------------------------------------------------
  // One pass of `handle_infection` over one individual
  // ---------------------------------------------------------------------

  /** The outcomes of the three stochastic sums of one pass: antibodies
      produced, direct neutralizations, and viral growth. */
  datatype Draws = Draws(antibodies: nat, neutralizations: nat, growth: nat)

  /** Virus removed by the specific antibodies. */
  function Kill(c: Condition): int {
    Min(c.antivesp, c.v1)
  }

  /** Viral load after the antibody neutralization. */
  function AfterKill(c: Condition): int {
    c.v1 - Kill(c)
  }

  /** The trial count for antibody production: one per `ANTIBODY_COST`
      units of both viral load and generic antibodies. */
  function MaxAntibodies(c: Condition): int {
    Min(AfterKill(c) / ANTIBODY_COST, c.antiv / ANTIBODY_COST)
  }

  /** Antibodies produced (`new_antivesp`). */
  function Produced(c: Condition, d: Draws): nat {
    if MaxAntibodies(c) > 0 then d.antibodies else 0
  }

  /** Viral load after the production step. */
  function AfterProduction(c: Condition, d: Draws): int {
    AfterKill(c) - Produced(c, d) * ANTIBODY_COST
  }

  /** Viral load after the direct neutralizations. */
  function AfterNeutralization(c: Condition, d: Draws): int {
    AfterProduction(c, d) - d.neutralizations
  }

  /** The draws could have come out of the source's trials: each count is at
      most its number of trials (a negative range has none), and nothing is
      produced when the production probability is zero. Individuals the
      pass skips or clears at once draw nothing that matters. */
  predicate DrawsFit(c: Condition, age: AgeGroup, d: Draws) {
    c.v1 > 0 && AfterKill(c) != 0 ==>
      && (MaxAntibodies(c) > 0 ==>
            d.antibodies <= MaxAntibodies(c) && (AntivespPerMille(age, c.symptoms) == 0 ==> d.antibodies == 0))
      && d.neutralizations <= Max(0, Min(AfterProduction(c, d), c.antiv))
      && d.growth <= Max(0, AfterNeutralization(c, d))
  }

  /** `_clamp_individual_parameters`: the four loads clamped to [0, 1000];
      nothing else changes. */
  function ClampLoads(c: Condition): (r: Condition)
    ensures LoadsInRange(r)
    ensures LoadsInRange(c) ==> r == c
    ensures r == c.(v1 := r.v1, v1Ino := r.v1Ino, antiv := r.antiv, antivesp := r.antivesp)
  {
    c.(v1 := Clamp(c.v1, 0, LOAD_MAX), v1Ino := Clamp(c.v1Ino, 0, LOAD_MAX),
       antiv := Clamp(c.antiv, 0, LOAD_MAX), antivesp := Clamp(c.antivesp, 0, LOAD_MAX))
  }

  /** The state just before the final clamp, for an individual the
      antibodies did not clear. */
  function Unclamped(c: Condition, d: Draws, viral: bool): Condition {
    var produced := Produced(c, d);
    var grown := Grown(c, d);
    var checked := if c.antivesp >= RECOVERED_ANTIVESP then Recovery(grown, viral) else grown;
    checked.(antiv := checked.antiv - produced, antivesp := checked.antivesp + produced)
  }

  /** The state after the viral load's growth: symptom pressure, viral load
      and neutralized virus updated. */
  function Grown(c: Condition, d: Draws): Condition {
    c.(inf := c.inf + c.v1,
       v1 := AfterNeutralization(c, d) + d.growth + Produced(c, d) * 199,
       v1Ino := c.v1Ino + Kill(c) + d.neutralizations + Produced(c, d))
  }

  /** The effect of `handle_infection` on one individual. */
  function InfectionPass(c: Condition, d: Draws, viral: bool): (r: Condition)
    ensures c.v1 <= 0 ==> r == c
    ensures c.v1 > 0 ==> 0 <= r.v1 <= LOAD_MAX
    ensures c.v1 > 0 && AfterKill(c) == 0 ==>
      r.status == Recovered && r.v1 == 0 && r.v1Ino == c.v1Ino && r.antiv == c.antiv
    ensures c.v1 > 0 && AfterKill(c) != 0 ==> LoadsInRange(r)
    ensures LoadsInRange(c) ==> LoadsInRange(r)
  {
    if c.v1 <= 0 then c
    else if AfterKill(c) == 0 then Recovery(c.(inf := c.inf + c.v1, v1 := 0), viral)
    else ClampLoads(Unclamped(c, d, viral))
  }

  /** Within a pass the viral load never goes negative, whatever the draws
      within their trial counts; before the clamp the generic antibodies
      drop, and the specific ones rise, by exactly the number produced. */
  lemma PassBookkeeping(c: Condition, age: AgeGroup, d: Draws, viral: bool)
    requires c.v1 > 0 && AfterKill(c) != 0 && DrawsFit(c, age, d)
    ensures AfterKill(c) > 0
    ensures Produced(c, d) <= Max(0, MaxAntibodies(c))
    ensures AfterProduction(c, d) >= 0
    ensures AfterNeutralization(c, d) >= 0
    ensures var u := Unclamped(c, d, viral);
      && u.v1 >= 0
      && u.antiv == c.antiv - Produced(c, d)
      && u.antivesp == (if c.antivesp >= RECOVERED_ANTIVESP && viral then 0 else c.antivesp) + Produced(c, d)
      && u.v1Ino == c.v1Ino + Kill(c) + d.neutralizations + Produced(c, d)
      && (c.antivesp >= RECOVERED_ANTIVESP ==> u.status == Recovered)
      && (c.antivesp < RECOVERED_ANTIVESP ==> u.status == c.status)
  {
    assert AfterKill(c) >= 0;
    if MaxAntibodies(c) > 0 {
      assert Produced(c, d) <= AfterKill(c) / ANTIBODY_COST;
      assert Produced(c, d) * ANTIBODY_COST <= (AfterKill(c) / ANTIBODY_COST) * ANTIBODY_COST <= AfterKill(c);
    }
  }

  // ---------------------------------------------------------------------
  // Phagocytosis and symptoms
  // ---------------------------------------------------------------------

  /** `phag_eating` on one individual: phagocytes consume up to `phag` of
      the neutralized virus, never leaving it negative. */
  function Phagocytosis(c: Condition): (r: Condition)
    ensures c.v1Ino <= 0 ==> r == c
    ensures c.v1Ino > 0 ==> 0 <= r.v1Ino <= LOAD_MAX
    ensures 0 < c.v1Ino <= LOAD_MAX && c.phag >= 0 ==> r.v1Ino == Max(0, c.v1Ino - c.phag)
    ensures r == c.(v1Ino := r.v1Ino)
  {
    if c.v1Ino > 0 then c.(v1Ino := Clamp(c.v1Ino - Min(c.v1Ino, c.phag), 0, LOAD_MAX)) else c
  }

  /** The next symptom tier (E4 is the last). */
  function NextTier(t: Tier): Tier {
    match t
    case E1 => E2
    case E2 => E3
    case E3 => E4
    case _ => t
  }

  /** A tier's position on the ladder. */
  function Rank(t: Tier): nat {
    match t
    case Unset => 0
    case E1 => 1
    case E2 => 2
    case E3 => 3
    case E4 => 4
  }

  /** `handle_symptoms` on one individual; `advance` is the outcome of the
      draw an E2 or E3 individual makes (it is not read otherwise). */
  function SymptomsChecked(c: Condition, advance: bool): (r: Condition)
    ensures r.inf == 0
    ensures c.inf <= SYMPTOM_THRESHOLD ==> r.symptoms == E1
    ensures c.inf > SYMPTOM_THRESHOLD ==> r.symptoms == c.symptoms || r.symptoms == NextTier(c.symptoms)
    ensures c.inf > SYMPTOM_THRESHOLD && c.symptoms == E1 ==> r.symptoms == E2
    ensures r == c.(symptoms := r.symptoms, inf := 0)
  {
    var t :=
      if c.inf > SYMPTOM_THRESHOLD then
        if c.symptoms == E3 && advance then E4
        else if c.symptoms == E2 && advance then E3
        else if c.symptoms == E1 then E2
        else c.symptoms
      else E1;
    c.(symptoms := t, inf := 0)
  }

  /** Above the threshold the tier moves up at most one step, and E4 is
      kept; at or below it the tier drops to E1. */
  lemma SymptomsAtMostOneStep(c: Condition, advance: bool)
    ensures var r := SymptomsChecked(c, advance);
      && (c.inf > SYMPTOM_THRESHOLD ==> Rank(c.symptoms) <= Rank(r.symptoms) <= Rank(c.symptoms) + 1)
      && (c.inf > SYMPTOM_THRESHOLD && c.symptoms == E4 ==> r.symptoms == E4)
      && (c.inf <= SYMPTOM_THRESHOLD ==> r.symptoms == E1)
  {
  }

  // ---------------------------------------------------------------------
  // Transmission
  // ---------------------------------------------------------------------

  /** The effect of `infect_individuals` on one candidate, given whether
      its draw fell under the infection probability. */
  function Transmitted(c: Condition, hit: bool, viral: bool, incubationPeriod: int): (r: Condition)
    ensures c.status != Healthy || !hit ==> r == c
    ensures c.status == Healthy && hit ==> r.status == Incubation
    ensures c.status == Healthy && hit && viral ==>
      r == c.(status := Incubation, v1 := INCUBATION_V1, inf := c.inf + 1)
    ensures c.status == Healthy && hit && !viral ==>
      r == c.(status := Incubation, incubationDaysLeft := incubationPeriod)
  {
    if c.status == Healthy && hit then
      if viral then c.(status := Incubation, v1 := INCUBATION_V1, inf := c.inf + 1)
      else c.(status := Incubation, incubationDaysLeft := incubationPeriod)
    else c
  }

  /** Candidates whose draw hit and who were Healthy. */
  function Caught(cs: seq<Condition>, hits: seq<bool>): (n: nat)
    requires |hits| == |cs|
    ensures n <= |cs|
  {
    if cs == [] then 0
    else
      var n := |cs| - 1;
      Caught(cs[..n], hits[..n]) + (if cs[n].status == Healthy && hits[n] then 1 else 0)
  }

  /** The Healthy members of `cs`. */
  function HealthyCount(cs: seq<Condition>): (n: nat)
    ensures n <= |cs|
  {
    if cs == [] then 0
    else HealthyCount(cs[..|cs| - 1]) + (if cs[|cs| - 1].status == Healthy then 1 else 0)
  }

  /** The members whose status differs between two equally long lists. */
  function Changed(before: seq<Condition>, after: seq<Condition>): nat
    requires |after| == |before|
  {
    if before == [] then 0
    else
      var n := |before| - 1;
      Changed(before[..n], after[..n]) + (if before[n].status != after[n].status then 1 else 0)
  }

  /** Every candidate after transmission. */
  function TransmittedAll(cs: seq<Condition>, hits: seq<bool>, viral: bool, incubationPeriod: int): (r: seq<Condition>)
    requires |hits| == |cs|
    ensures |r| == |cs|
    ensures forall k :: 0 <= k < |cs| ==> r[k] == Transmitted(cs[k], hits[k], viral, incubationPeriod)
  {
    if cs == [] then []
    else
      var n := |cs| - 1;
      TransmittedAll(cs[..n], hits[..n], viral, incubationPeriod) + [Transmitted(cs[n], hits[n], viral, incubationPeriod)]
  }

  /** The new infections are exactly the candidates whose status changed,
      and there are no more of them than there were Healthy candidates. */
  lemma {:induction false} CaughtCountsChanges(cs: seq<Condition>, hits: seq<bool>, viral: bool, incubationPeriod: int)
    requires |hits| == |cs|
    ensures Caught(cs, hits) == Changed(cs, TransmittedAll(cs, hits, viral, incubationPeriod))
    ensures Caught(cs, hits) <= HealthyCount(cs)
  {
    if cs != [] {
      var n := |cs| - 1;
      CaughtCountsChanges(cs[..n], hits[..n], viral, incubationPeriod);
      assert TransmittedAll(cs, hits, viral, incubationPeriod)[..n]
          == TransmittedAll(cs[..n], hits[..n], viral, incubationPeriod);
    }
  }

  // ---------------------------------------------------------------------
  // The list routines
  // ---------------------------------------------------------------------

  /** `infect_individuals`: each Healthy candidate whose draw hit enters
      Incubation; the result is the number of new infections. */
  method InfectIndividuals(individuals: seq<Individual>, hits: seq<bool>, viral: bool, incubationPeriod: int)
    returns (newInfections: nat)
    requires |hits| == |individuals| && Distinct(individuals)
    modifies (set x | x in individuals)`health
    ensures forall k :: 0 <= k < |individuals| ==>
      individuals[k].health == Transmitted(old(individuals[k].health), hits[k], viral, incubationPeriod)
    ensures newInfections == Caught(old(States(individuals)), hits)
  {
    ghost var before := States(individuals);
    assert before == old(States(individuals));
    newInfections := 0;
    var k := 0;
    while k < |individuals|
      invariant 0 <= k <= |individuals|
      invariant Infected(individuals, hits, viral, incubationPeriod, before, k, newInfections)
    {
      newInfections, k := InfectAt(individuals, hits, viral, incubationPeriod, before, k, newInfections);
    }
    assert before[..k] == before && hits[..k] == hits;
  }

  /** What `infect_individuals` has done to its first `k` candidates. */
  ghost predicate Infected(individuals: seq<Individual>, hits: seq<bool>, viral: bool, incubationPeriod: int,
                           before: seq<Condition>, k: int, n: nat)
    reads individuals
    requires 0 <= k <= |individuals| == |hits| == |before|
  {
    && (forall j :: 0 <= j < k ==> individuals[j].health == Transmitted(before[j], hits[j], viral, incubationPeriod))
    && (forall j :: k <= j < |individuals| ==> individuals[j].health == before[j])
    && n == Caught(before[..k], hits[..k])
  }

  /** The `k`-th turn of `infect_individuals`' loop. */
  method InfectAt(individuals: seq<Individual>, hits: seq<bool>, viral: bool, incubationPeriod: int,
                  ghost before: seq<Condition>, k: int, n: nat) returns (n': nat, next: int)
    requires 0 <= k < |individuals| == |hits| == |before| && Distinct(individuals)
    requires Infected(individuals, hits, viral, incubationPeriod, before, k, n)
    modifies {individuals[k]}`health
    ensures next == k + 1
    ensures Infected(individuals, hits, viral, incubationPeriod, before, next, n')
  {
    var x := individuals[k];
    assert forall j | 0 <= j < |individuals| && j != k :: individuals[j] != x;
    assert before[..k + 1][..k] == before[..k] && hits[..k + 1][..k] == hits[..k];
    var caught := Expose(x, hits[k], viral, incubationPeriod);
    n' := if caught then n + 1 else n;
    next := k + 1;
  }

  /** The body of `infect_individuals`' loop for one candidate. */
  method Expose(individual: Individual, hit: bool, viral: bool, incubationPeriod: int) returns (caught: bool)
    modifies individual`health
    ensures caught <==> old(individual.health.status) == Healthy && hit
    ensures individual.health == Transmitted(old(individual.health), hit, viral, incubationPeriod)
  {
    caught := false;
    if individual.health.status != Healthy {
      return;
    }
    if hit {
      individual.health := individual.health.(status := Incubation);
      caught := true;
      if viral {
        individual.health := individual.health.(v1 := INCUBATION_V1, inf := individual.health.inf + 1);
      } else {
        individual.health := individual.health.(incubationDaysLeft := incubationPeriod);
      }
    }
  }

  /** `_clamp_individual_parameters`. */
  method ClampParameters(individual: Individual)
    modifies individual`health
    ensures individual.health == ClampLoads(old(individual.health))
  {
    individual.health := individual.health.(v1 := Clamp(individual.health.v1, 0, LOAD_MAX));
    individual.health := individual.health.(v1Ino := Clamp(individual.health.v1Ino, 0, LOAD_MAX));
    individual.health := individual.health.(antiv := Clamp(individual.health.antiv, 0, LOAD_MAX));
    individual.health := individual.health.(antivesp := Clamp(individual.health.antivesp, 0, LOAD_MAX));
  }

  /** The body of `handle_infection`'s loop, step by step. */
  method HandleOne(individual: Individual, d: Draws, viral: bool)
    modifies individual`health
    ensures individual.health == InfectionPass(old(individual.health), d, viral)
  {
    var c := individual.health;
    if c.v1 <= 0 {
      return;
    }
    var kill := Min(c.antivesp, c.v1);
    if c.v1 - kill == 0 {
      individual.health := Recovery(c.(inf := c.inf + c.v1, v1 := 0), viral);
      return;
    }
    Respond(individual, d, viral);
    ClampParameters(individual);
  }

  /** The middle of `handle_infection`'s loop body, for an individual the
      specific antibodies did not clear: the viral load's changes, the
      recovery check and the antibody update. */
  method Respond(individual: Individual, d: Draws, viral: bool)
    modifies individual`health
    ensures individual.health == Unclamped(old(individual.health), d, viral)
  {
    var antivesp := individual.health.antivesp;
    var produced := Grow(individual, d);
    if antivesp >= RECOVERED_ANTIVESP {
      individual.Recover(viral);
    }
    individual.health := individual.health.(antiv := individual.health.antiv - produced);
    individual.health := individual.health.(antivesp := individual.health.antivesp + produced);
  }

  /** Neutralization, antibody production, direct neutralization and
      growth, in source order; returns the antibodies produced. */
  method Grow(individual: Individual, d: Draws) returns (produced: nat)
    modifies individual`health
    ensures produced == Produced(old(individual.health), d)
    ensures individual.health == Grown(old(individual.health), d)
  {
    var c := individual.health;
    var kill := Min(c.antivesp, c.v1);
    var v1 := c.v1 - kill;
    var maxAntibodies := Min(v1 / ANTIBODY_COST, c.antiv / ANTIBODY_COST);
    produced := 0;
    if maxAntibodies > 0 {
      produced := d.antibodies;
      v1 := v1 - produced * ANTIBODY_COST;
    }
    v1 := v1 - d.neutralizations;
    v1 := v1 + d.growth + produced * 199;
    individual.health := c.(inf := c.inf + c.v1, v1 := v1, v1Ino := c.v1Ino + kill + d.neutralizations + produced);
  }

  /** `handle_infection`: one pass of the viral-load dynamics over every
      listed individual, each with its own draws. */
  method HandleInfection(individuals: seq<Individual>, draws: seq<Draws>, viral: bool)
    requires |draws| == |individuals| && Distinct(individuals)
    requires forall k :: 0 <= k < |individuals| ==>
      DrawsFit(individuals[k].health, individuals[k].ageGroup, draws[k])
    modifies (set x | x in individuals)`health
    ensures forall k :: 0 <= k < |individuals| ==>
      individuals[k].health == InfectionPass(old(individuals[k].health), draws[k], viral)
  {
    var k := 0;
    while k < |individuals|
      invariant 0 <= k <= |individuals|
      invariant forall j :: 0 <= j < k ==>
        individuals[j].health == InfectionPass(old(individuals[j].health), draws[j], viral)
      invariant forall j :: k <= j < |individuals| ==> individuals[j].health == old(individuals[j].health)
    {
      HandleOne(individuals[k], draws[k], viral);
      k := k + 1;
    }
  }

  /** The body of `phag_eating`'s loop for one individual. */
  method Digest(individual: Individual)
    modifies individual`health
    ensures individual.health == Phagocytosis(old(individual.health))
  {
    if individual.health.v1Ino > 0 {
      var consumed := Min(individual.health.v1Ino, individual.health.phag);
      individual.health := individual.health.(v1Ino := individual.health.v1Ino - consumed);
      individual.health := individual.health.(v1Ino := Clamp(individual.health.v1Ino, 0, LOAD_MAX));
    }
  }

  /** `phag_eating` over every listed individual. */
  method PhagEating(individuals: seq<Individual>)
    requires Distinct(individuals)
    modifies (set x | x in individuals)`health
    ensures forall k :: 0 <= k < |individuals| ==>
      individuals[k].health == Phagocytosis(old(individuals[k].health))
  {
    var k := 0;
    while k < |individuals|
      invariant 0 <= k <= |individuals|
      invariant forall j :: 0 <= j < k ==>
        individuals[j].health == Phagocytosis(old(individuals[j].health))
      invariant forall j :: k <= j < |individuals| ==> individuals[j].health == old(individuals[j].health)
    {
      Digest(individuals[k]);
      k := k + 1;
    }
  }

  /** The body of `handle_symptoms`' loop for one individual. */
  method CheckSymptoms(individual: Individual, advance: bool)
    modifies individual`health
    ensures individual.health == SymptomsChecked(old(individual.health), advance)
  {
    if individual.health.inf > SYMPTOM_THRESHOLD {
      if individual.health.symptoms == E3 && advance {
        individual.health := individual.health.(symptoms := E4);
      } else if individual.health.symptoms == E2 && advance {
        individual.health := individual.health.(symptoms := E3);
      } else if individual.health.symptoms == E1 {
        individual.health := individual.health.(symptoms := E2);
      }
    } else {
      individual.health := individual.health.(symptoms := E1);
    }
    individual.health := individual.health.(inf := 0);
  }

  /** `handle_symptoms` over every listed individual. */
  method HandleSymptoms(individuals: seq<Individual>, advances: seq<bool>)
    requires |advances| == |individuals| && Distinct(individuals)
    modifies (set x | x in individuals)`health
    ensures forall k :: 0 <= k < |individuals| ==>
      individuals[k].health == SymptomsChecked(old(individuals[k].health), advances[k])
  {
    var k := 0;
    while k < |individuals|
      invariant 0 <= k <= |individuals|
      invariant forall j :: 0 <= j < k ==>
        individuals[j].health == SymptomsChecked(old(individuals[j].health), advances[j])
      invariant forall j :: k <= j < |individuals| ==> individuals[j].health == old(individuals[j].health)
    {
      CheckSymptoms(individuals[k], advances[k]);
      k := k + 1;
    }
  }
}
