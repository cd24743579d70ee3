/** The scheduler helpers of `simulation.py`: the (day, hour) gates of the
    transmission passes, the movement gate and the capacity-checked move,
    house assignment at set-up, daily tracking, the population queries,
    mortality, the waves that empty schools, workplaces and leisure centres
    into the common areas, and the return of elderly visitors. Every random
    draw is an input. */
module Simulation {
  import opened Config
  import opened Seqs
  import opened Health
  import opened Membrane
  import opened Movement

  // =====================================================================
  // Time gates
  // =====================================================================

  /** Days 1..5 of each week (`1 <= day % 7 <= 5`) are weekdays. For a
      positive modulus Python's `%` and Dafny's agree on every integer. */
  predicate Weekday(day: int) {
    1 <= day % 7 <= 5
  }

  /** `house_infections` transmits unless it is a weekday working hour
      (8 to 18), a night hour (1 to 6) or an odd hour. */
  predicate HouseTransmits(day: int, hour: int) {
    !((Weekday(day) && 8 <= hour <= 18) || (1 <= hour <= 6) || hour % 2 == 1)
  }

  /** `common_area_infections` transmits between 8 and 21, and on weekdays
      also at 6 and 7. */
  predicate CommonAreaTransmits(day: int, hour: int) {
    (7 < hour < 22) || (Weekday(day) && 5 < hour < 8)
  }

  /** `leisure_infections` is skipped on weekday hours 1 to 8 and on
      weekend hours 4 to 8 and 19 to 21. */
  predicate LeisureOpen(day: int, hour: int) {
    if Weekday(day) then !(1 <= hour <= 8) else !((4 <= hour <= 8) || (19 <= hour <= 21))
  }

  /** The age groups the leisure centres infect in an open hour. */
  function LeisureGroups(day: int, hour: int): set<AgeGroup>
  {
    if !LeisureOpen(day, hour) then {}
    else if Weekday(day) then
      (if 9 <= hour <= 21 then {Elderly} else {}) + (if 21 <= hour <= 24 then {Young, Adult} else {})
    else
      (if 9 <= hour <= 16 then {Elderly} else {})
      + (if (1 <= hour <= 3) || (9 <= hour <= 11) || (16 <= hour <= 18) || (22 <= hour <= 24)
         then {Young, Adult} else {})
  }

  /** The hours of the day (1 to 24) at which houses, common areas and
      leisure centres transmit: houses on weekdays only at 20, 22 and 24,
      at weekends at every even hour from 8; common areas from 6 (weekdays)
      or 8 (weekends) to 21; leisure centres from 9 on weekdays, and at
      weekends at 1 to 3, 9 to 18 and 22 to 24. */
  lemma Schedule(day: int, hour: int)
    requires 1 <= hour <= 24
    ensures HouseTransmits(day, hour) <==>
      if Weekday(day) then hour == 20 || hour == 22 || hour == 24 else 8 <= hour && hour % 2 == 0
    ensures CommonAreaTransmits(day, hour) <==> (if Weekday(day) then 6 else 8) <= hour <= 21
    ensures LeisureOpen(day, hour) <==>
      if Weekday(day) then 9 <= hour else hour <= 3 || 9 <= hour <= 18 || 22 <= hour
  {
  }

  /** In the hours of a day (1 to 24), a leisure centre infects some age
      group exactly when it is open, and the elderly only in the daytime
      (9 to 21). */
  lemma {:induction false} LeisureActive(day: int, hour: int)
    requires 1 <= hour <= 24
    ensures LeisureGroups(day, hour) != {} <==> LeisureOpen(day, hour)
    ensures Elderly in LeisureGroups(day, hour) ==> 9 <= hour <= 21
  {
    if LeisureOpen(day, hour) {
      if Weekday(day) {
        assert if hour <= 21 then Elderly in LeisureGroups(day, hour) else Young in LeisureGroups(day, hour);
      } else if 12 <= hour <= 15 {
        assert Elderly in LeisureGroups(day, hour);
      } else {
        assert Young in LeisureGroups(day, hour);
      }
    }
  }

  // =====================================================================
  // The movement gate and the capacity-checked move
  // =====================================================================

  /** `can_move`: never with E3 or E4 symptoms; with E2 the probability is
      scaled by `(1 - prudence)^2`; the move happens when the probability
      is at least the uniform draw. An individual without a tier (`Unset`)
      is gated like E1. */
  function CanMove(symptoms: Tier, base: real, prudence: real, draw: real): (r: bool)
    ensures symptoms == E3 || symptoms == E4 ==> !r
  {
    if symptoms == E3 || symptoms == E4 then false
    else (if symptoms == E2 then Scaled(base, 1.0 - prudence) else base) >= draw
  }

  /** With a probability and a prudence in [0, 1], E2 symptoms never let an
      individual move when E1 symptoms would not, and severe symptoms
      (E3, E4) never move whatever the draw. */
  lemma CanMoveMonotone(base: real, prudence: real, draw: real)
    requires 0.0 <= base <= 1.0 && 0.0 <= prudence <= 1.0
    ensures CanMove(E2, base, prudence, draw) ==> CanMove(E1, base, prudence, draw)
    ensures !CanMove(E3, base, prudence, draw) && !CanMove(E4, base, prudence, draw)
  {
    ScaledDown(base, 1.0 - prudence);
  }

  /** `move_individual`: when the destination has room the individual
      leaves the origin (its first occurrence, if any) and joins the
      destination at the end; otherwise nothing changes. */
  method MoveIndividual(individual: Individual, origin: Place, destination: Place) returns (moved: bool)
    modifies origin`occupants, destination`occupants
    ensures moved <==> old(|destination.occupants|) < destination.capacity
    ensures !moved ==> origin.occupants == old(origin.occupants) && destination.occupants == old(destination.occupants)
    ensures moved && origin != destination ==>
      && origin.occupants == RemoveFirst(old(origin.occupants), individual)
      && destination.occupants == old(destination.occupants) + [individual]
    ensures moved && origin == destination ==>
      destination.occupants == RemoveFirst(old(destination.occupants), individual) + [individual]
    ensures moved ==> |destination.occupants| <= destination.capacity
  {
    if |destination.occupants| < destination.capacity {
      origin.RemoveIndividual(individual);
      var added := destination.AddIndividual(individual);
      assert added;
      return true;
    }
    return false;
  }

  /** A move between two places keeps everyone: whoever left the origin is
      now in the destination. */
  lemma MoveConserves(individual: Individual, origin: seq<Individual>, destination: seq<Individual>)
    requires individual in origin
    ensures multiset(RemoveFirst(origin, individual)) + multiset(destination + [individual])
         == multiset(origin) + multiset(destination)
  {
    RemoveFirstMultiset(origin, individual);
  }

  // =====================================================================
  // House assignment (`assign_to_house` inside `create_scenario`)
  // =====================================================================

  /** A house that has not yet reached its target occupancy. */
  predicate Available(h: Place)
    reads h
  {
    |h.occupants| < h.targetOccupants
  }

  /** The house `assign_to_house` picks: the first of the available houses
      with the fewest occupants (Python's `min` keeps the first minimum),
      or -1 when none is available. */
  method ChooseHouse(houses: seq<Place>) returns (best: int)
    ensures best == -1 <==> forall j | 0 <= j < |houses| :: !Available(houses[j])
    ensures best != -1 ==> 0 <= best < |houses| && Available(houses[best])
    ensures best != -1 ==> forall j | 0 <= j < |houses| && Available(houses[j]) ::
      |houses[best].occupants| <= |houses[j].occupants|
    ensures best != -1 ==> forall j | 0 <= j < best && Available(houses[j]) ::
      |houses[best].occupants| < |houses[j].occupants|
  {
    best := -1;
    var j := 0;
    while j < |houses|
      invariant 0 <= j <= |houses|
      invariant best == -1 <==> forall i | 0 <= i < j :: !Available(houses[i])
      invariant best != -1 ==> 0 <= best < j && Available(houses[best])
      invariant best != -1 ==> forall i | 0 <= i < j && Available(houses[i]) ::
        |houses[best].occupants| <= |houses[i].occupants|
      invariant best != -1 ==> forall i | 0 <= i < best && Available(houses[i]) ::
        |houses[best].occupants| < |houses[i].occupants|
    {
      if Available(houses[j]) && (best == -1 || |houses[j].occupants| < |houses[best].occupants|) {
        best := j;
      }
      j := j + 1;
    }
  }

  /** `assign_to_house`: the individual joins the chosen house and records
      it as its house. No available house gives `false` and changes
      nothing. A chosen house already at capacity ends the run in the
      source (`add_individual`), here `false` with nothing changed; so when
      no house's target exceeds its capacity, the assignment succeeds
      exactly when some house is available. */
  method AssignToHouse(individual: Individual, province: Province) returns (ok: bool, ghost chosen: int)
    modifies (set h | h in province.houses)`occupants, individual`house
    ensures chosen == -1 <==> forall j | 0 <= j < |province.houses| :: !old(Available(province.houses[j]))
    ensures chosen == -1 ==> !ok
    ensures chosen != -1 ==> 0 <= chosen < |province.houses|
    ensures chosen != -1 ==> var h := province.houses[chosen];
      && old(Available(h))
      && (forall j | 0 <= j < |province.houses| && old(Available(province.houses[j])) ::
            old(|h.occupants|) <= old(|province.houses[j].occupants|))
      && (forall j | 0 <= j < chosen && old(Available(province.houses[j])) ::
            old(|h.occupants|) < old(|province.houses[j].occupants|))
      && (ok <==> old(|h.occupants|) < h.capacity)
    ensures (forall j | 0 <= j < |province.houses| :: province.houses[j].targetOccupants <= province.houses[j].capacity) ==>
      (ok <==> exists j | 0 <= j < |province.houses| :: old(Available(province.houses[j])))
    ensures ok ==> var h := province.houses[chosen];
      && h.occupants == old(h.occupants) + [individual]
      && individual.house == h
      && forall j | 0 <= j < |province.houses| && province.houses[j] != h ::
           province.houses[j].occupants == old(province.houses[j].occupants)
    ensures !ok ==> (individual.house == old(individual.house)
      && forall j | 0 <= j < |province.houses| :: province.houses[j].occupants == old(province.houses[j].occupants))
  {
    var best := ChooseHouse(province.houses);
    chosen := best;
    if best == -1 {
      return false, chosen;
    }
    var h := province.houses[best];
    ok := h.AddIndividual(individual);
    if ok {
      individual.AssignToHouse(h);
    }
  }

  // =====================================================================
  // The simulation state and daily tracking
  // =====================================================================

  /** The day-over-day differences of the daily infected counts, starting
      from yesterday's count `y0`: what `track_infections` appends to
      `new_daily_cases` over a run. */
  function DailyCases(y0: int, counts: seq<int>): (r: seq<int>)
    ensures |r| == |counts|
  {
    if counts == [] then []
    else
      var n := |counts| - 1;
      DailyCases(y0, counts[..n]) + [counts[n] - (if n == 0 then y0 else counts[n - 1])]
  }

  function Total(s: seq<int>): int {
    if s == [] then 0 else Total(s[..|s| - 1]) + s[|s| - 1]
  }

  /** The new cases of a run add up to the last count minus the count
      before the run. */
  lemma {:induction false} DailyCasesTotal(y0: int, counts: seq<int>)
    requires counts != []
    ensures Total(DailyCases(y0, counts)) == counts[|counts| - 1] - y0
  {
    var n := |counts| - 1;
    var r := DailyCases(y0, counts);
    assert r[..n] == DailyCases(y0, counts[..n]);
    if n > 0 {
      DailyCasesTotal(y0, counts[..n]);
    }
  }

  // =====================================================================
  // Mortality
  // =====================================================================

  /** The death probability `check_for_death` gives one individual. In the
      viral-load model it depends on the symptom tier (none for E1, E2 or
      no tier) and, for E4 with ICUs modelled, on being in an ICU; without
      it, one flat value. It is then divided by the death reduction
      factor. */
  function DeathProbability(s: Settings, c: Condition): real
    requires s.deathReduction != 0.0
  {
    var p :=
      if !s.viralLoad then 0.001
      else if c.symptoms == E3 then 0.0001
      else if c.symptoms == E4 then (if s.icuPresence && c.icu then 0.0006 else 0.0012)
      else 0.0;
    p / s.deathReduction
  }

  /** An individual dies when Infected and its uniform draw falls below its
      death probability. */
  predicate Dies(s: Settings, c: Condition, draw: real)
    requires s.deathReduction != 0.0
  {
    c.status == Infected && draw < DeathProbability(s, c)
  }

  /** One individual's condition after `check_for_death`'s turn. */
  function Mortality(s: Settings, c: Condition, draw: real): Condition
    requires s.deathReduction != 0.0
  {
    if Dies(s, c, draw) then c.(status := Deceased) else c
  }

  /** The individuals of a list that die, in list order, given their
      conditions and draws. */
  function Dying(s: Settings, xs: seq<Individual>, cs: seq<Condition>, draws: seq<real>): (r: seq<Individual>)
    requires s.deathReduction != 0.0 && |cs| == |xs| == |draws|
    ensures |r| <= |xs|
    ensures forall x | x in r :: exists k | 0 <= k < |xs| :: xs[k] == x && Dies(s, cs[k], draws[k])
    ensures forall k | 0 <= k < |xs| && Dies(s, cs[k], draws[k]) :: xs[k] in r
  {
    if xs == [] then []
    else
      var n := |xs| - 1;
      Dying(s, xs[..n], cs[..n], draws[..n]) + (if Dies(s, cs[n], draws[n]) then [xs[n]] else [])
  }

  /** Only the Infected die; a positive reduction factor and a draw in
      [0, 1] spare the mild tiers (E1, E2, none) of the viral-load model
      entirely; and from a duplicate-free list each death is recorded
      once. */
  lemma {:induction false} DyingFacts(s: Settings, xs: seq<Individual>, cs: seq<Condition>, draws: seq<real>)
    requires s.deathReduction > 0.0 && |cs| == |xs| == |draws|
    requires forall k | 0 <= k < |draws| :: 0.0 <= draws[k]
    ensures forall k | 0 <= k < |xs| :: Dies(s, cs[k], draws[k]) ==> cs[k].status == Infected
    ensures s.viralLoad ==> forall k | 0 <= k < |xs| && cs[k].symptoms in {Unset, E1, E2} :: !Dies(s, cs[k], draws[k])
    ensures Distinct(xs) ==> Distinct(Dying(s, xs, cs, draws))
  {
    if xs != [] {
      var n := |xs| - 1;
      DyingFacts(s, xs[..n], cs[..n], draws[..n]);
      if s.viralLoad {
        forall k | 0 <= k < |xs| && cs[k].symptoms in {Unset, E1, E2}
          ensures !Dies(s, cs[k], draws[k])
        {
          assert DeathProbability(s, cs[k]) == 0.0 / s.deathReduction == 0.0;
        }
      }
      if Distinct(xs) {
        var r := Dying(s, xs[..n], cs[..n], draws[..n]);
        assert xs[n] !in r by {
          assert forall x | x in r :: x in xs[..n];
        }
      }
    }
  }

  // =====================================================================
  // Population queries
  // =====================================================================

  /** What a query keeps: everybody (`get_all_individuals`,
      `get_house_individuals`), the infected, meaning status Infected or a
      positive viral load (`get_infected_individuals`), or those with a
      positive inoculum (`get_v1_ino_individuals`). */
  datatype Filter = Everyone | InfectedOnly | InoculatedOnly

  predicate Passes(x: Individual, f: Filter)
    reads x
  {
    match f
    case Everyone => true
    case InfectedOnly => x.health.status == Infected || x.health.v1 > 0
    case InoculatedOnly => x.health.v1Ino > 0
  }

  /** The places a query visits in one province, in the order of the
      source's concatenation, or only the houses. */
  function Scanned(p: Province, housesOnly: bool): seq<Place>
    reads p
  {
    if housesOnly then p.houses
    else p.schools + p.commonAreas + p.workplaces + p.leisureCenters + p.hospitals + p.icus + p.houses
  }

  /** The occupant lists of `ps`, one after another. */
  function Flat(ps: seq<Place>): seq<Individual>
    reads ps
  {
    if ps == [] then [] else Flat(ps[..|ps| - 1]) + ps[|ps| - 1].occupants
  }

  /** The places a query visits, province after province. */
  function Visits(provinces: seq<Province>, housesOnly: bool): seq<Place>
    reads provinces
  {
    if provinces == [] then []
    else Visits(provinces[..|provinces| - 1], housesOnly) + Scanned(provinces[|provinces| - 1], housesOnly)
  }

  /** Every occupant a query meets, in the order it meets them. */
  function Scan(provinces: seq<Province>, housesOnly: bool): seq<Individual>
    reads provinces, Visits(provinces, housesOnly)
  {
    Flat(Visits(provinces, housesOnly))
  }

  /** Taking one more place into a prefix of `places` appends its
      occupants. */
  lemma FlatStep(seen: seq<Individual>, places: seq<Place>, j: int)
    requires 0 <= j < |places|
    ensures seen + Flat(places[..j + 1]) == seen + Flat(places[..j]) + places[j].occupants
  {
    assert places[..j + 1][..j] == places[..j];
  }

  /** The first occurrence of each element of `s` that is in `keep`, in
      order: what the queries' `not in` test builds. */
  function Firsts(s: seq<Individual>, keep: set<Individual>): (r: seq<Individual>)
    ensures Distinct(r)
  {
    if s == [] then []
    else
      var n := |s| - 1;
      var r := Firsts(s[..n], keep);
      if s[n] in keep && s[n] !in r then r + [s[n]] else r
  }

  /** The first occurrences are exactly the kept elements of `s`. */
  lemma {:induction false} FirstsMembers(s: seq<Individual>, keep: set<Individual>)
    ensures forall x :: x in Firsts(s, keep) <==> x in s && x in keep
  {
    if s != [] {
      var n := |s| - 1;
      FirstsMembers(s[..n], keep);
      assert s == s[..n] + [s[n]];
    }
  }

  /** Taking one more element of `occ` into the scanned prefix adds it
      when it is kept and new. */
  lemma FirstsStep(seen: seq<Individual>, occ: seq<Individual>, k: int, keep: set<Individual>)
    requires 0 <= k < |occ|
    ensures var r := Firsts(seen + occ[..k], keep);
      Firsts(seen + occ[..k + 1], keep) == r + (if occ[k] in keep && occ[k] !in r then [occ[k]] else [])
  {
    var s := seen + occ[..k];
    assert seen + occ[..k + 1] == s + [occ[k]];
    assert (s + [occ[k]])[..|s|] == s;
  }

  /** The individuals of `s` the filter keeps. */
  function Kept(s: seq<Individual>, f: Filter): set<Individual>
    reads set x | x in s
  {
    set x | x in s && Passes(x, f)
  }

  /** The query's innermost loop over one occupant list. */
  method Gather(r: seq<Individual>, occ: seq<Individual>, f: Filter, ghost seen: seq<Individual>,
                ghost keep: set<Individual>)
    returns (r': seq<Individual>)
    requires r == Firsts(seen, keep)
    requires forall x | x in occ :: Passes(x, f) <==> x in keep
    ensures r' == Firsts(seen + occ, keep)
  {
    r' := r;
    var k := 0;
    assert seen + occ[..0] == seen;
    while k < |occ|
      invariant 0 <= k <= |occ|
      invariant r' == Firsts(seen + occ[..k], keep)
    {
      FirstsStep(seen, occ, k, keep);
      if Passes(occ[k], f) && occ[k] !in r' {
        r' := r' + [occ[k]];
      }
      k := k + 1;
    }
    assert occ[..k] == occ;
  }

  /** The query's loop over the places of one province. */
  method GatherPlaces(r: seq<Individual>, places: seq<Place>, f: Filter, ghost seen: seq<Individual>,
                      ghost keep: set<Individual>)
    returns (r': seq<Individual>)
    requires r == Firsts(seen, keep)
    requires forall x | x in Flat(places) :: Passes(x, f) <==> x in keep
    ensures r' == Firsts(seen + Flat(places), keep)
  {
    r' := r;
    var j := 0;
    assert seen + Flat(places[..0]) == seen;
    while j < |places|
      invariant 0 <= j <= |places|
      invariant r' == Firsts(seen + Flat(places[..j]), keep)
    {
      ghost var before := Flat(places[..j]);
      FlatStep(seen, places, j);
      FlatHas(places, j);
      r' := Gather(r', places[j].occupants, f, seen + before, keep);
      j := j + 1;
    }
    assert places[..j] == places;
  }

  /** Everyone in the `j`-th place is in the places' occupant lists. */
  lemma {:induction false} FlatHas(places: seq<Place>, j: int)
    requires 0 <= j < |places|
    ensures forall x | x in places[j].occupants :: x in Flat(places)
  {
    var n := |places| - 1;
    if j < n {
      assert places[..n][j] == places[j];
      FlatHas(places[..n], j);
    }
  }

  /** A query over all provinces: the first occurrence of every individual
      it meets that the filter keeps. The source's loop over the provinces
      and, inside it, over a province's places is one loop over the
      places of all provinces in that order. */
  method Collect(provinces: seq<Province>, housesOnly: bool, f: Filter) returns (r: seq<Individual>)
    ensures r == Firsts(Scan(provinces, housesOnly), Kept(Scan(provinces, housesOnly), f))
  {
    var visits := Visits(provinces, housesOnly);
    ghost var keep := Kept(Flat(visits), f);
    assert [] + Flat(visits) == Flat(visits);
    r := GatherPlaces([], visits, f, [], keep);
  }

  // =====================================================================
  // Leaving schools, workplaces and leisure centres
  // =====================================================================

  /** The occupants of a list whose decision says they leave. */
  function Leavers(s: seq<Individual>, leaving: Individual -> bool): set<Individual> {
    set x | x in s && leaving(x)
  }

  /** Whether `count` arrivals fit into a place holding `size` of
      `capacity`: none arrive, or all of them find room. */
  predicate Fits(size: int, capacity: int, count: int) {
    count == 0 || size + count <= capacity
  }

  /** One place's turn in a leave wave: every occupant (of a copy of the
      list) whose decision says so is removed from the place, added to the
      common area and recorded, in list order. The run stops when the
      common area is full (the source ends the program there). */
  method LeavePlace(place: Place, ca: Place, leaving: Individual -> bool) returns (gone: seq<Individual>, ok: bool)
    requires place != ca
    modifies place`occupants, ca`occupants
    ensures ok <==> Fits(old(|ca.occupants|), ca.capacity,
                         |Within(old(place.occupants), Leavers(old(place.occupants), leaving))|)
    ensures ok ==> var L := Leavers(old(place.occupants), leaving);
      && gone == Within(old(place.occupants), L)
      && place.occupants == Without(old(place.occupants), L)
      && ca.occupants == old(ca.occupants) + gone
  {
    var snap := place.occupants;
    ghost var L := Leavers(snap, leaving);
    ghost var base := ca.occupants;
    gone, ok := [], true;
    var k := 0;
    while k < |snap|
      invariant 0 <= k <= |snap|
      invariant Partway(place, ca, snap, k, L, base, gone)
    {
      gone, ok := LeaveStep(place, ca, snap, k, L, base, gone, leaving(snap[k]));
      if !ok {
        WithinCount(snap, k, L);
        return;
      }
      k := k + 1;
    }
    PrefixAll(snap);
  }

  /** The state of a leave wave after the first `k` positions of `snap`:
      the leavers among them are out of the place and, in order, at the
      end of the common area, which has had room for each of them. */
  ghost predicate Partway(place: Place, ca: Place, snap: seq<Individual>, k: int, L: set<Individual>,
                          base: seq<Individual>, gone: seq<Individual>)
    reads place, ca
  {
    && 0 <= k <= |snap|
    && place.occupants == Without(snap[..k], L) + snap[k..]
    && gone == Within(snap[..k], L)
    && ca.occupants == base + gone
    && Fits(|base|, ca.capacity, |gone|)
  }

  /** Position `k` of a leave wave over the copy `snap`: its occupant is
      moved to the common area when it is one of the leavers `L`. */
  method LeaveStep(place: Place, ca: Place, snap: seq<Individual>, k: int, ghost L: set<Individual>,
                   ghost base: seq<Individual>, gone: seq<Individual>, leaves: bool)
    returns (gone': seq<Individual>, ok: bool)
    requires place != ca && 0 <= k < |snap|
    requires leaves <==> snap[k] in L
    requires Partway(place, ca, snap, k, L, base, gone)
    modifies place`occupants, ca`occupants
    ensures ok <==> !leaves || |base| + |gone| < ca.capacity
    ensures Within(snap[..k + 1], L) == gone + (if leaves then [snap[k]] else [])
    ensures ok ==> Partway(place, ca, snap, k + 1, L, base, gone')
  {
    WithoutStep(snap, k, L);
    WithinSnoc(snap, k, L);
    gone' := gone;
    ok := true;
    if leaves {
      place.RemoveIndividual(snap[k]);
      ok := ca.AddIndividual(snap[k]);
      if ok {
        gone' := gone + [snap[k]];
      }
    }
  }

  /** Everyone the wave decided on after position `k` adds to the
      departures of the first `k + 1` positions. */
  lemma {:induction false} WithinCount(s: seq<Individual>, k: int, L: set<Individual>)
    requires 0 <= k < |s|
    ensures |Within(s[..k + 1], L)| <= |Within(s, L)|
  {
    if k + 1 < |s| {
      var n := |s| - 1;
      assert s[..n][..k + 1] == s[..k + 1];
      WithinCount(s[..n], k, L);
      assert s[..n + 1] == s;
      WithinSnoc(s, n, L);
    } else {
      assert s[..k + 1] == s;
    }
  }

  /** The occupants of one list who leave, in list order. */
  function Departed(s: seq<Individual>, leaving: Individual -> bool): seq<Individual> {
    Within(s, Leavers(s, leaving))
  }

  /** The occupants of one list who stay, in list order. */
  function Stayed(s: seq<Individual>, leaving: Individual -> bool): seq<Individual> {
    Without(s, Leavers(s, leaving))
  }

  /** The departures from a series of occupant lists, list after list. */
  function Departures(occs: seq<seq<Individual>>, leaving: Individual -> bool): seq<Individual> {
    if occs == [] then [] else Departures(occs[..|occs| - 1], leaving) + Departed(occs[|occs| - 1], leaving)
  }

  lemma DeparturesStep(occs: seq<seq<Individual>>, j: int, leaving: Individual -> bool)
    requires 0 <= j < |occs|
    ensures Departures(occs[..j + 1], leaving) == Departures(occs[..j], leaving) + Departed(occs[j], leaving)
  {
    assert occs[..j + 1][..j] == occs[..j];
  }

  /** The departures from the first lists are no more than from all. */
  lemma {:induction false} DeparturesPrefix(occs: seq<seq<Individual>>, j: int, leaving: Individual -> bool)
    requires 0 <= j <= |occs|
    ensures |Departures(occs[..j], leaving)| <= |Departures(occs, leaving)|
  {
    if j < |occs| {
      var n := |occs| - 1;
      assert occs[..n][..j] == occs[..j];
      DeparturesPrefix(occs[..n], j, leaving);
    } else {
      assert occs[..j] == occs;
    }
  }

  /** One province's turn in a leave wave: its places of one kind are
      emptied of their leavers one after the other, each into the
      province's first common area `ca`. */
  method LeaveProvince(places: seq<Place>, ca: Place, leaving: Individual -> bool) returns (gone: seq<Individual>, ok: bool)
    requires Distinct(places) && ca !in places
    modifies (set p | p in places)`occupants, ca`occupants
    ensures ok <==> Fits(old(|ca.occupants|), ca.capacity, |Departures(old(Occupancies(places)), leaving)|)
    ensures ok ==> && gone == Departures(old(Occupancies(places)), leaving)
                   && ca.occupants == old(ca.occupants) + gone
                   && forall p | p in places :: p.occupants == Stayed(old(p.occupants), leaving)
  {
    ghost var occs := Occupancies(places);
    ghost var base := ca.occupants;
    gone, ok := [], true;
    var j := 0;
    while j < |places|
      invariant 0 <= j <= |places|
      invariant Emptied(places, ca, leaving, occs, j, base, gone)
    {
      gone, ok := LeaveProvinceStep(places, ca, leaving, occs, j, base, gone);
      if !ok {
        return;
      }
      j := j + 1;
    }
    assert occs[..j] == occs;
  }

  /** The state of a province's turn after its first `j` places. */
  ghost predicate Emptied(places: seq<Place>, ca: Place, leaving: Individual -> bool, occs: seq<seq<Individual>>,
                          j: int, base: seq<Individual>, gone: seq<Individual>)
    reads (set p | p in places), ca
  {
    && |occs| == |places| && 0 <= j <= |places|
    && gone == Departures(occs[..j], leaving)
    && ca.occupants == base + gone && Fits(|base|, ca.capacity, |gone|)
    && (forall i | 0 <= i < j :: places[i].occupants == Stayed(occs[i], leaving))
    && (forall i | j <= i < |places| :: places[i].occupants == occs[i])
  }

  /** Place `j` of a province's turn. */
  method LeaveProvinceStep(places: seq<Place>, ca: Place, leaving: Individual -> bool, ghost occs: seq<seq<Individual>>,
                           j: int, ghost base: seq<Individual>, gone: seq<Individual>)
    returns (gone': seq<Individual>, ok: bool)
    requires Distinct(places) && ca !in places && 0 <= j < |places|
    requires Emptied(places, ca, leaving, occs, j, base, gone)
    modifies (set p | p in places)`occupants, ca`occupants
    ensures ok ==> Emptied(places, ca, leaving, occs, j + 1, base, gone')
    ensures !ok ==> !Fits(|base|, ca.capacity, |Departures(occs, leaving)|)
  {
    var g;
    DeparturesStep(occs, j, leaving);
    assert places[j].occupants == occs[j];
    g, ok := LeavePlace(places[j], ca, leaving);
    gone' := gone + g;
    if ok {
      assert places[j].occupants == Stayed(occs[j], leaving) && g == Departed(occs[j], leaving);
      assert forall i | 0 <= i < |places| && i != j :: places[i].occupants == old(places[i].occupants);
    } else {
      DeparturesPrefix(occs, j + 1, leaving);
    }
  }

  lemma {:induction false} DeparturesAppend(a: seq<seq<Individual>>, b: seq<seq<Individual>>, leaving: Individual -> bool)
    ensures Departures(a + b, leaving) == Departures(a, leaving) + Departures(b, leaving)
  {
    if b == [] {
      assert a + b == a;
    } else {
      var n := |b| - 1;
      var c := a + b;
      assert c[..|c| - 1] == a + b[..n] && c[|c| - 1] == b[n];
      calc {
        Departures(c, leaving);
        Departures(a + b[..n], leaving) + Departed(b[n], leaving);
        { DeparturesAppend(a, b[..n], leaving); }
        Departures(a, leaving) + Departures(b[..n], leaving) + Departed(b[n], leaving);
        Departures(a, leaving) + Departures(b, leaving);
      }
    }
  }

  /** The first common area of a province, where the leave waves send
      people (`common_areas[0]`). */
  function Front(p: Province): Place
    reads p
    requires p.commonAreas != []
  {
    p.commonAreas[0]
  }

  /** The provinces' lists of places of kind `k`. */
  function Lists(provinces: seq<Province>, k: Kind): (r: seq<seq<Place>>)
    reads provinces
    ensures |r| == |provinces| && forall i | 0 <= i < |provinces| :: r[i] == provinces[i].ListOf(k)
  {
    if provinces == [] then [] else Lists(provinces[..|provinces| - 1], k) + [provinces[|provinces| - 1].ListOf(k)]
  }

  /** The provinces' first common areas. */
  function FrontsOf(provinces: seq<Province>): (r: seq<Place>)
    reads provinces
    requires forall i | 0 <= i < |provinces| :: provinces[i].commonAreas != []
    ensures |r| == |provinces| && forall i | 0 <= i < |provinces| :: r[i] == Front(provinces[i])
  {
    if provinces == [] then [] else FrontsOf(provinces[..|provinces| - 1]) + [Front(provinces[|provinces| - 1])]
  }

  /** The lists `ls[0]` to `ls[i - 1]`, one after the other. */
  function Prefix(ls: seq<seq<Place>>, i: int): seq<Place>
    requires 0 <= i <= |ls|
  {
    if i == 0 then [] else Prefix(ls, i - 1) + ls[i - 1]
  }

  /** The lists from `ls[i]` on, one after the other. */
  function Suffix(ls: seq<seq<Place>>, i: int): seq<Place>
    requires 0 <= i <= |ls|
    decreases |ls| - i
  {
    if i == |ls| then [] else ls[i] + Suffix(ls, i + 1)
  }

  /** The places of kind `k` of the provinces, province after province:
      the places a leave wave visits, in its order. */
  function Sites(provinces: seq<Province>, k: Kind): seq<Place>
    reads provinces
  {
    Prefix(Lists(provinces, k), |provinces|)
  }

  lemma {:induction false} PrefixSuffix(ls: seq<seq<Place>>, i: int)
    requires 0 <= i <= |ls|
    ensures Prefix(ls, |ls|) == Prefix(ls, i) + Suffix(ls, i)
    decreases |ls| - i
  {
    if i < |ls| {
      PrefixSuffix(ls, i + 1);
      assert Prefix(ls, i) + ls[i] + Suffix(ls, i + 1) == Prefix(ls, i) + (ls[i] + Suffix(ls, i + 1));
    }
  }

  /** The members of list `j` are among the first `i` lists' when `j < i`. */
  lemma {:induction false} PrefixHas(ls: seq<seq<Place>>, j: int, i: int)
    requires 0 <= j < i <= |ls|
    ensures forall p | p in ls[j] :: p in Prefix(ls, i)
  {
    if j < i - 1 {
      PrefixHas(ls, j, i - 1);
    }
  }

  /** The first common areas of the provinces that have one. */
  function Fronts(provinces: seq<Province>): set<Place>
    reads provinces
  {
    set i | 0 <= i < |provinces| && provinces[i].commonAreas != [] :: provinces[i].commonAreas[0]
  }

  /** The places whose occupants a leave wave over kind `k` may change. */
  function Watched(provinces: seq<Province>, k: Kind): set<Place>
    reads provinces
  {
    (set p | p in Sites(provinces, k)) + Fronts(provinces)
  }

  /** What the source's leave waves rely on without checking: every
      province has a common area, no place is visited twice and no common
      area used as a destination is also a place left or another
      province's destination. */
  predicate WaveReady(provinces: seq<Province>, k: Kind)
    reads provinces
  {
    && (forall i | 0 <= i < |provinces| :: provinces[i].commonAreas != [])
    && (forall i | 0 <= i < |provinces| :: Front(provinces[i]) !in Sites(provinces, k))
    && (forall i, j | 0 <= i < j < |provinces| :: Front(provinces[i]) != Front(provinces[j]))
    && Distinct(Sites(provinces, k))
  }

  /** The occupant lists recorded in `was`. */
  function Prior(was: map<Place, seq<Individual>>, p: Place): seq<Individual> {
    if p in was then was[p] else []
  }

  function Recall(ps: seq<Place>, was: map<Place, seq<Individual>>): (r: seq<seq<Individual>>)
    ensures |r| == |ps|
  {
    if ps == [] then [] else Recall(ps[..|ps| - 1], was) + [Prior(was, ps[|ps| - 1])]
  }

  lemma {:induction false} RecallNow(ps: seq<Place>, was: map<Place, seq<Individual>>)
    requires forall p | p in ps :: Prior(was, p) == p.occupants
    ensures Occupancies(ps) == Recall(ps, was)
  {
    if ps != [] {
      RecallNow(ps[..|ps| - 1], was);
    }
  }

  lemma {:induction false} RecallAppend(a: seq<Place>, b: seq<Place>, was: map<Place, seq<Individual>>)
    ensures Recall(a + b, was) == Recall(a, was) + Recall(b, was)
  {
    if b == [] {
      assert a + b == a;
    } else {
      var n := |b| - 1;
      assert (a + b)[..|a + b| - 1] == a + b[..n];
      RecallAppend(a, b[..n], was);
    }
  }

  /** `WaveReady` on the lists `ls` and destinations `fronts` of a wave. */
  predicate Ready(ls: seq<seq<Place>>, fronts: seq<Place>) {
    && |ls| == |fronts|
    && Distinct(Prefix(ls, |ls|)) && Distinct(fronts)
    && forall j | 0 <= j < |fronts| :: fronts[j] !in Prefix(ls, |ls|)
  }

  /** How province `i`'s places sit among all of a wave's places. */
  lemma WaveParts(ls: seq<seq<Place>>, fronts: seq<Place>, i: int)
    requires Ready(ls, fronts) && 0 <= i < |ls|
    ensures Distinct(ls[i])
    ensures forall p | p in ls[i] :: p !in Prefix(ls, i) && p !in Suffix(ls, i + 1)
    ensures forall j | 0 <= j < |fronts| ::
      fronts[j] !in Prefix(ls, i) && fronts[j] !in ls[i] && fronts[j] !in Suffix(ls, i + 1)
  {
    PrefixSuffix(ls, i);
    DistinctSplit(Prefix(ls, i), Suffix(ls, i));
    DistinctSplit(ls[i], Suffix(ls, i + 1));
  }

  /** The places of all of a wave's lists. */
  function Members(ls: seq<seq<Place>>): set<Place> {
    set j, a | 0 <= j < |ls| && 0 <= a < |ls[j]| :: ls[j][a]
  }

  /** `outs[j]` holds the departures of list `j` for every `j < n`. */
  ghost predicate Planned(ls: seq<seq<Place>>, outs: seq<seq<Individual>>, leaving: Individual -> bool,
                          was: map<Place, seq<Individual>>, n: int)
    requires 0 <= n <= |ls| == |outs|
    decreases n
  {
    n == 0 || (Planned(ls, outs, leaving, was, n - 1) && outs[n - 1] == Departures(Recall(ls[n - 1], was), leaving))
  }

  lemma {:induction false} PlannedAt(ls: seq<seq<Place>>, outs: seq<seq<Individual>>, leaving: Individual -> bool,
                                     was: map<Place, seq<Individual>>, n: int, i: int)
    requires 0 <= i < n <= |ls| == |outs| && Planned(ls, outs, leaving, was, n)
    ensures outs[i] == Departures(Recall(ls[i], was), leaving)
    decreases n
  {
    if i < n - 1 {
      PlannedAt(ls, outs, leaving, was, n - 1, i);
    }
  }

  /** Lists whose every entry holds the departures of its place list are
      `Planned`. */
  lemma {:induction false} PlannedBy(ls: seq<seq<Place>>, outs: seq<seq<Individual>>, leaving: Individual -> bool,
                                     was: map<Place, seq<Individual>>, n: int)
    requires 0 <= n <= |ls| == |outs|
    requires forall j | 0 <= j < n :: outs[j] == Departures(Recall(ls[j], was), leaving)
    ensures Planned(ls, outs, leaving, was, n)
    decreases n
  {
    if n > 0 {
      PlannedBy(ls, outs, leaving, was, n - 1);
    }
  }

  /** The departures of every place list of a wave, list by list. */
  ghost function Outflows(ls: seq<seq<Place>>, was: map<Place, seq<Individual>>, leaving: Individual -> bool): (r: seq<seq<Individual>>)
    ensures |r| == |ls| && Planned(ls, r, leaving, was, |ls|)
  {
    var r := seq(|ls|, j requires 0 <= j < |ls| => Departures(Recall(ls[j], was), leaving));
    PlannedBy(ls, r, leaving, was, |ls|);
    r
  }

  /** The first `i` lists of `outs`, one after the other. */
  function Joined(outs: seq<seq<Individual>>, i: int): seq<Individual>
    requires 0 <= i <= |outs|
  {
    if i == 0 then [] else Joined(outs, i - 1) + outs[i - 1]
  }

  /** Joining the provinces' departures is taking the departures of all
      their places at once. */
  lemma {:induction false} JoinedDepartures(ls: seq<seq<Place>>, was: map<Place, seq<Individual>>,
                                            outs: seq<seq<Individual>>, leaving: Individual -> bool, i: int)
    requires 0 <= i <= |ls| == |outs| && Planned(ls, outs, leaving, was, i)
    ensures Joined(outs, i) == Departures(Recall(Prefix(ls, i), was), leaving)
    decreases i
  {
    if i > 0 {
      JoinedDepartures(ls, was, outs, leaving, i - 1);
      RecallAppend(Prefix(ls, i - 1), ls[i - 1], was);
      DeparturesAppend(Recall(Prefix(ls, i - 1), was), Recall(ls[i - 1], was), leaving);
    }
  }

  /** The state of a leave wave after its first `i` provinces: `was`
      holds the occupant lists from before the wave and `outs` each
      province's departures. */
  ghost predicate Waved(ls: seq<seq<Place>>, fronts: seq<Place>, outs: seq<seq<Individual>>, leaving: Individual -> bool,
                        was: map<Place, seq<Individual>>, i: int, home: seq<Individual>)
    reads Members(ls), (set p | p in fronts)
    requires 0 <= i <= |ls| == |fronts| == |outs|
  {
    && home == Joined(outs, i)
    && (forall j | 0 <= j < i :: forall a | 0 <= a < |ls[j]| ::
          ls[j][a].occupants == Stayed(Prior(was, ls[j][a]), leaving))
    && (forall j | i <= j < |ls| :: forall a | 0 <= a < |ls[j]| ::
          ls[j][a].occupants == Prior(was, ls[j][a]))
    && (forall j | 0 <= j < i ::
          && fronts[j].occupants == Prior(was, fronts[j]) + outs[j]
          && Fits(|Prior(was, fronts[j])|, fronts[j].capacity, |outs[j]|))
    && (forall j | i <= j < |fronts| :: fronts[j].occupants == Prior(was, fronts[j]))
  }

  /** The members of list `j` are among the lists' from `i` on when `i <= j`. */
  lemma {:induction false} SuffixHas(ls: seq<seq<Place>>, j: int, i: int)
    requires 0 <= i <= j < |ls|
    ensures forall p | p in ls[j] :: p in Suffix(ls, i)
    decreases j - i
  {
    if i < j {
      SuffixHas(ls, j, i + 1);
    }
  }

  /** Province `i`'s places of a wave empty into its common area; every
      other place of the wave keeps its occupants. */
  method LeaveWaveMove(ls: seq<seq<Place>>, fronts: seq<Place>, leaving: Individual -> bool, i: int)
    returns (gone: seq<Individual>, ok: bool)
    requires Ready(ls, fronts) && 0 <= i < |ls|
    modifies (set p | p in ls[i])`occupants, {fronts[i]}`occupants
    ensures ok <==> Fits(old(|fronts[i].occupants|), fronts[i].capacity, |Departures(old(Occupancies(ls[i])), leaving)|)
    ensures ok ==> && gone == Departures(old(Occupancies(ls[i])), leaving)
                   && fronts[i].occupants == old(fronts[i].occupants) + gone
                   && forall a | 0 <= a < |ls[i]| :: ls[i][a].occupants == Stayed(old(ls[i][a].occupants), leaving)
    ensures forall j, a | 0 <= j < |ls| && j != i && 0 <= a < |ls[j]| :: ls[j][a].occupants == old(ls[j][a].occupants)
    ensures forall j | 0 <= j < |fronts| && j != i :: fronts[j].occupants == old(fronts[j].occupants)
  {
    WaveParts(ls, fronts, i);
    gone, ok := LeaveProvince(ls[i], fronts[i], leaving);
    if ok {
      forall a | 0 <= a < |ls[i]|
        ensures ls[i][a].occupants == Stayed(old(ls[i][a].occupants), leaving)
      {
        assert ls[i][a] in ls[i];
      }
    }
    forall j, a | 0 <= j < |ls| && j != i && 0 <= a < |ls[j]|
      ensures ls[j][a].occupants == old(ls[j][a].occupants)
    {
      if j < i {
        PrefixHas(ls, j, i);
      } else {
        SuffixHas(ls, j, i + 1);
      }
      assert ls[j][a] !in ls[i] && ls[j][a] != fronts[i];
    }
    forall j | 0 <= j < |fronts| && j != i
      ensures fronts[j].occupants == old(fronts[j].occupants)
    {
      assert fronts[j] !in ls[i] && fronts[j] != fronts[i];
    }
  }

  /** Striking province `i`'s finds from what is left of the list
      strikes the agents found in the first `i + 1` provinces. */
  lemma StruckStep(students: seq<Individual>, occs: seq<seq<seq<Individual>>>, i: int, rest: seq<Individual>)
    requires 0 <= i < |occs| && rest == Without(students, Struck(students, occs, i))
    ensures Without(rest, FoundIn(rest, occs[i], |occs[i]|)) == Without(students, Struck(students, occs, i + 1))
  {
    WithoutMembers(students, Struck(students, occs, i));
    assert Struck(students, occs, i + 1) == Struck(students, occs, i) + FoundIn(rest, occs[i], |occs[i]|);
    WithoutWithout(students, Struck(students, occs, i), FoundIn(rest, occs[i], |occs[i]|));
  }

  /** Province `i`'s turn in a leave wave. */
  method LeaveWaveStep(ls: seq<seq<Place>>, fronts: seq<Place>, ghost outs: seq<seq<Individual>>, leaving: Individual -> bool,
                       ghost was: map<Place, seq<Individual>>, i: int, home: seq<Individual>)
    returns (home': seq<Individual>, ok: bool)
    requires Ready(ls, fronts) && |outs| == |ls| && 0 <= i < |ls|
    requires Planned(ls, outs, leaving, was, |ls|)
    requires Waved(ls, fronts, outs, leaving, was, i, home)
    modifies (set p | p in ls[i])`occupants, {fronts[i]}`occupants
    ensures ok ==> Waved(ls, fronts, outs, leaving, was, i + 1, home')
    ensures !ok ==> !Fits(|Prior(was, fronts[i])|, fronts[i].capacity, |outs[i]|)
  {
    PlannedAt(ls, outs, leaving, was, |ls|, i);
    assert Occupancies(ls[i]) == Recall(ls[i], was) by {
      assert forall a | 0 <= a < |ls[i]| :: ls[i][a].occupants == Prior(was, ls[i][a]);
      RecallNow(ls[i], was);
    }
    var gone;
    gone, ok := LeaveWaveMove(ls, fronts, leaving, i);
    home' := home + gone;
  }

  /** Every province's turn of a leave wave, in order, until a common area
      is full. */
  method WaveRun(ls: seq<seq<Place>>, fronts: seq<Place>, ghost outs: seq<seq<Individual>>, leaving: Individual -> bool,
                 ghost was: map<Place, seq<Individual>>, i: int, home: seq<Individual>)
    returns (home': seq<Individual>, ok: bool)
    requires Ready(ls, fronts) && |outs| == |ls| && 0 <= i <= |ls|
    requires Planned(ls, outs, leaving, was, |ls|)
    requires Waved(ls, fronts, outs, leaving, was, i, home)
    modifies Members(ls)`occupants, (set p | p in fronts)`occupants
    ensures ok ==> Waved(ls, fronts, outs, leaving, was, |ls|, home')
    ensures !ok ==> exists j | i <= j < |ls| :: !Fits(|Prior(was, fronts[j])|, fronts[j].capacity, |outs[j]|)
    decreases |ls| - i
  {
    if i == |ls| {
      return home, true;
    }
    assert forall p | p in ls[i] :: p in Members(ls);
    home', ok := LeaveWaveStep(ls, fronts, outs, leaving, was, i, home);
    if ok {
      home', ok := WaveRun(ls, fronts, outs, leaving, was, i + 1, home');
    }
  }

  /** `was` holds the occupant lists every place of the wave has now. */
  ghost predicate Recorded(ls: seq<seq<Place>>, fronts: seq<Place>, was: map<Place, seq<Individual>>)
    reads Members(ls), (set p | p in fronts)
  {
    && (forall j, a | 0 <= j < |ls| && 0 <= a < |ls[j]| :: Prior(was, ls[j][a]) == ls[j][a].occupants)
    && (forall j | 0 <= j < |fronts| :: Prior(was, fronts[j]) == fronts[j].occupants)
  }

  /** The places a leave wave visits and its destinations are all among
      the places it watches. */
  lemma WaveWatched(provinces: seq<Province>, k: Kind, ls: seq<seq<Place>>, fronts: seq<Place>)
    requires forall i | 0 <= i < |provinces| :: provinces[i].commonAreas != []
    requires ls == Lists(provinces, k) && fronts == FrontsOf(provinces)
    ensures forall j, a | 0 <= j < |ls| && 0 <= a < |ls[j]| :: ls[j][a] in Watched(provinces, k)
    ensures forall j | 0 <= j < |fronts| :: fronts[j] in Watched(provinces, k)
  {
    forall j, a | 0 <= j < |ls| && 0 <= a < |ls[j]|
      ensures ls[j][a] in Watched(provinces, k)
    {
      PrefixHas(ls, j, |ls|);
      assert ls[j][a] in ls[j];
    }
    forall j | 0 <= j < |fronts|
      ensures fronts[j] in Watched(provinces, k)
    {
      assert fronts[j] in Fronts(provinces);
    }
  }

  /** A record of the watched places' occupants taken before the wave
      holds what the wave's places hold. */
  lemma WaveRecorded(provinces: seq<Province>, k: Kind, ls: seq<seq<Place>>, fronts: seq<Place>,
                     was: map<Place, seq<Individual>>)
    requires forall j, a | 0 <= j < |ls| && 0 <= a < |ls[j]| :: ls[j][a] in Watched(provinces, k)
    requires forall j | 0 <= j < |fronts| :: fronts[j] in Watched(provinces, k)
    requires was == map p | p in Watched(provinces, k) :: p.occupants
    ensures Recorded(ls, fronts, was)
  {
  }

  /** The state a leave wave starts from, as `Waved` and `Ready` see it,
      and its contract's facts about each province. */
  lemma WaveStart(provinces: seq<Province>, k: Kind, leaving: Individual -> bool, ls: seq<seq<Place>>,
                  fronts: seq<Place>, was: map<Place, seq<Individual>>, outs: seq<seq<Individual>>)
    requires WaveReady(provinces, k)
    requires ls == Lists(provinces, k) && fronts == FrontsOf(provinces) && |outs| == |ls|
    requires was == map p | p in Watched(provinces, k) :: p.occupants
    requires Planned(ls, outs, leaving, was, |ls|)
    ensures Ready(ls, fronts) && Waved(ls, fronts, outs, leaving, was, 0, [])
    ensures Members(ls) <= Watched(provinces, k) && forall j | 0 <= j < |fronts| :: fronts[j] in Watched(provinces, k)
    ensures forall i | 0 <= i < |provinces| ::
      && Front(provinces[i]) == fronts[i] && provinces[i].ListOf(k) == ls[i]
      && Front(provinces[i]).occupants == Prior(was, fronts[i])
      && Departures(Occupancies(provinces[i].ListOf(k)), leaving) == outs[i]
    ensures forall i, a | 0 <= i < |provinces| && 0 <= a < |provinces[i].ListOf(k)| ::
      provinces[i].ListOf(k)[a].occupants == Prior(was, ls[i][a])
  {
    WaveWatched(provinces, k, ls, fronts);
    WaveRecorded(provinces, k, ls, fronts, was);
    WaveShape(provinces, k, leaving, ls, fronts, was, outs);
  }

  /** The facts about a leave wave's start that its contract states, in
      terms of the provinces: each province's list and destination and
      its departures. */
  lemma WaveShape(provinces: seq<Province>, k: Kind, leaving: Individual -> bool, ls: seq<seq<Place>>,
                  fronts: seq<Place>, was: map<Place, seq<Individual>>, outs: seq<seq<Individual>>)
    requires forall i | 0 <= i < |provinces| :: provinces[i].commonAreas != []
    requires ls == Lists(provinces, k) && fronts == FrontsOf(provinces) && Recorded(ls, fronts, was)
    requires |outs| == |ls| && Planned(ls, outs, leaving, was, |ls|)
    ensures forall i | 0 <= i < |provinces| ::
      && Front(provinces[i]) == fronts[i] && provinces[i].ListOf(k) == ls[i]
      && Front(provinces[i]).occupants == Prior(was, fronts[i])
      && Departures(Occupancies(provinces[i].ListOf(k)), leaving) == outs[i]
    ensures forall i, a | 0 <= i < |provinces| && 0 <= a < |provinces[i].ListOf(k)| ::
      provinces[i].ListOf(k)[a].occupants == Prior(was, ls[i][a])
  {
    forall j | 0 <= j < |ls|
      ensures Departures(Occupancies(ls[j]), leaving) == outs[j]
    {
      RecallNow(ls[j], was);
      PlannedAt(ls, outs, leaving, was, |ls|, j);
    }
  }

  /** What a whole leave wave sends home, from the recorded lists: the
      departures of all its places, in visiting order. */
  lemma WaveTotal(provinces: seq<Province>, k: Kind, leaving: Individual -> bool, ls: seq<seq<Place>>,
                  was: map<Place, seq<Individual>>, outs: seq<seq<Individual>>)
    requires ls == Lists(provinces, k)
    requires was == map p | p in Watched(provinces, k) :: p.occupants
    requires |outs| == |ls| && Planned(ls, outs, leaving, was, |ls|)
    ensures Departures(Occupancies(Sites(provinces, k)), leaving) == Joined(outs, |ls|)
  {
    RecallNow(Sites(provinces, k), was);
    JoinedDepartures(ls, was, outs, leaving, |ls|);
  }

  /** A leave wave: every province's places of kind `k`, in order, lose
      the occupants whose decision says they leave to the province's first
      common area, and everyone who left is returned in the order they
      left. It stops at the first common area that is full. */
  method LeaveWave(provinces: seq<Province>, k: Kind, leaving: Individual -> bool) returns (home: seq<Individual>, ok: bool)
    requires WaveReady(provinces, k)
    modifies Watched(provinces, k)`occupants
    ensures ok <==> forall i | 0 <= i < |provinces| ::
      Fits(old(|Front(provinces[i]).occupants|), old(Front(provinces[i])).capacity,
           |Departures(old(Occupancies(provinces[i].ListOf(k))), leaving)|)
    ensures ok ==> home == Departures(old(Occupancies(Sites(provinces, k))), leaving)
    ensures ok ==> forall i, a | 0 <= i < |provinces| && 0 <= a < old(|provinces[i].ListOf(k)|) ::
      old(provinces[i].ListOf(k)[a]).occupants == Stayed(old(provinces[i].ListOf(k)[a].occupants), leaving)
    ensures ok ==> forall i | 0 <= i < |provinces| ::
      old(Front(provinces[i])).occupants == old(Front(provinces[i]).occupants) + Departures(old(Occupancies(provinces[i].ListOf(k))), leaving)
  {
    var ls := Lists(provinces, k);
    var fronts := FrontsOf(provinces);
    ghost var was := map p | p in Watched(provinces, k) :: p.occupants;
    ghost var outs := Outflows(ls, was, leaving);
    WaveStart(provinces, k, leaving, ls, fronts, was, outs);
    WaveTotal(provinces, k, leaving, ls, was, outs);
    home, ok := WaveRun(ls, fronts, outs, leaving, was, 0, []);
  }

  /** The decision of `leave_school`: the individual's draw from [0, 1)
      falls below the probability. */
  function Below(draw: Individual -> real, probability: real): Individual -> bool {
    (x: Individual) => draw(x) < probability
  }

  /** The decision of `leave_workplace`: everyone leaves. */
  function Always(): Individual -> bool {
    (x: Individual) => true
  }

  /** The leaving probability `leave_leisure_all` uses for an age group. */
  function AgeProbability(g: AgeGroup, young: real, adult: real, elderly: real): real {
    match g
    case Young => young
    case Adult => adult
    case Elderly => elderly
  }

  /** The decision of `leave_leisure_all`: the individual's draw falls
      below the probability of its age group. */
  function AgeBelow(draw: Individual -> real, young: real, adult: real, elderly: real): Individual -> bool {
    (x: Individual) => draw(x) < AgeProbability(x.ageGroup, young, adult, elderly)
  }

  /** The decision of `leave_leisure_elderly`: an elderly visitor whose
      draw falls below the probability; nobody else leaves. */
  function ElderlyBelow(draw: Individual -> real, probability: real): Individual -> bool {
    (x: Individual) => x.ageGroup == Elderly && draw(x) < probability
  }

  /** Who departs a list and who stays: the departures are the occupants
      the decision sends away, the rest stay. */
  lemma DepartedMembers(s: seq<Individual>, leaving: Individual -> bool)
    ensures forall x :: x in Departed(s, leaving) <==> x in s && leaving(x)
    ensures forall x :: x in Stayed(s, leaving) <==> x in s && !leaving(x)
    ensures |Departed(s, leaving)| + |Stayed(s, leaving)| == |s|
  {
    WithinMembers(s, Leavers(s, leaving));
    WithoutMembers(s, Leavers(s, leaving));
    SplitLength(s, Leavers(s, leaving));
  }

  /** When the decision sends every occupant away, all of them depart in
      list order and nobody stays. */
  lemma DepartedEveryone(s: seq<Individual>, leaving: Individual -> bool)
    requires forall x | x in s :: leaving(x)
    ensures Departed(s, leaving) == s && Stayed(s, leaving) == []
  {
    WithinAll(s, Leavers(s, leaving));
  }

  /** When the decision keeps every occupant, nobody departs. */
  lemma DepartedNobody(s: seq<Individual>, leaving: Individual -> bool)
    requires forall x | x in s :: !leaving(x)
    ensures Departed(s, leaving) == [] && Stayed(s, leaving) == s
  {
    var L := Leavers(s, leaving);
    WithoutNone(s, L);
    SplitLength(s, L);
  }

  /** The departures of a series of lists are the occupants of any of
      them the decision sends away. */
  lemma {:induction false} DeparturesMembers(occs: seq<seq<Individual>>, leaving: Individual -> bool)
    ensures forall x :: x in Departures(occs, leaving) <==>
      leaving(x) && exists j | 0 <= j < |occs| :: x in occs[j]
  {
    if occs != [] {
      var n := |occs| - 1;
      var front := occs[..n];
      DeparturesMembers(front, leaving);
      DepartedMembers(occs[n], leaving);
      assert Departures(occs, leaving) == Departures(front, leaving) + Departed(occs[n], leaving);
      forall x
        ensures x in Departures(occs, leaving) <==> leaving(x) && exists j | 0 <= j < |occs| :: x in occs[j]
      {
        if leaving(x) && exists j | 0 <= j < |occs| :: x in occs[j] {
          var j :| 0 <= j < |occs| && x in occs[j];
          if j < n {
            assert x in front[j];
          }
        }
        if x in Departures(front, leaving) {
          var j :| 0 <= j < |front| && x in front[j];
          assert x in occs[j];
        }
      }
    }
  }

  /** With draws from [0, 1), a probability of 0 or less keeps everyone
      and a probability of 1 or more sends everyone away. */
  lemma BelowBounds(s: seq<Individual>, draw: Individual -> real, probability: real)
    requires forall x :: 0.0 <= draw(x) < 1.0
    ensures probability <= 0.0 ==> Departed(s, Below(draw, probability)) == [] && Stayed(s, Below(draw, probability)) == s
    ensures probability >= 1.0 ==> Departed(s, Below(draw, probability)) == s && Stayed(s, Below(draw, probability)) == []
  {
    if probability <= 0.0 {
      DepartedNobody(s, Below(draw, probability));
    }
    if probability >= 1.0 {
      DepartedEveryone(s, Below(draw, probability));
    }
  }

  // ----------------------------------------------------------------------
  // Sending the elderly home (`get_back_home_elderly`)

  /** An entry of the list of elderly agents out of their province: the
      agent's number and the hours it still stays away. */
  datatype Outing = Outing(number: int, hoursLeft: int)

  /** The first agent of `s`, from position `from` on, with the given
      number. */
  function Pick(s: seq<Individual>, number: int, from: int): (r: Option<Individual>)
    requires 0 <= from <= |s|
    ensures r.Some? ==> r.value in s && r.value.number == number
    ensures r.Some? ==> exists j | from <= j < |s| :: s[j] == r.value && forall i | from <= i < j :: s[i].number != number
    ensures r.None? <==> forall j | from <= j < |s| :: s[j].number != number
    decreases |s| - from
  {
    if from == |s| then None
    else if s[from].number == number then Some(s[from])
    else Pick(s, number, from + 1)
  }

  /** The agent the search of `get_back_home_elderly` finds for a number
      among the crowds from the `from`-th on: the first match in the first
      crowd that holds one, crowds taken in province order. */
  function Locate(crowds: seq<seq<Individual>>, number: int, from: int): (r: Option<Individual>)
    requires 0 <= from <= |crowds|
    ensures r.Some? ==> r.value.number == number && exists i | from <= i < |crowds| :: r.value in crowds[i]
    ensures r.None? <==> forall i, j | from <= i < |crowds| && 0 <= j < |crowds[i]| :: crowds[i][j].number != number
    decreases |crowds| - from
  {
    if from == |crowds| then None
    else if Pick(crowds[from], number, 0).Some? then Pick(crowds[from], number, 0)
    else Locate(crowds, number, from + 1)
  }

  /** The occupants of each province's first common area, in province
      order: where the search looks. */
  function Crowds(provinces: seq<Province>): (r: seq<seq<Individual>>)
    reads provinces, Fronts(provinces)
    requires forall i | 0 <= i < |provinces| :: provinces[i].commonAreas != []
    ensures |r| == |provinces| && forall i | 0 <= i < |provinces| :: r[i] == Front(provinces[i]).occupants
  {
    if provinces == [] then []
    else
      var n := |provinces| - 1;
      assert Fronts(provinces[..n]) <= Fronts(provinces) by {
        assert forall i | 0 <= i < n :: provinces[..n][i] == provinces[i];
      }
      Crowds(provinces[..n]) + [Front(provinces[n]).occupants]
  }

  /** The agent an entry brings home: with one hour left, the agent the
      search finds, if any. */
  function Returning(o: Outing, crowds: seq<seq<Individual>>): Option<Individual> {
    if o.hoursLeft == 1 then Locate(crowds, o.number, 0) else None
  }

  /** An entry one hour on. */
  function Tick(o: Outing): Outing {
    Outing(o.number, o.hoursLeft - 1)
  }

  /** The list the countdown leaves: the entries that bring nobody home,
      each one hour on. */
  function Remaining(outings: seq<Outing>, crowds: seq<seq<Individual>>): seq<Outing> {
    if outings == [] then []
    else
      var o := outings[|outings| - 1];
      Remaining(outings[..|outings| - 1], crowds) + (if Returning(o, crowds).Some? then [] else [Tick(o)])
  }

  /** The agents the countdown collects to send home, in list order. */
  function Due(outings: seq<Outing>, crowds: seq<seq<Individual>>): seq<Individual> {
    if outings == [] then []
    else
      var o := outings[|outings| - 1];
      Due(outings[..|outings| - 1], crowds) + (if Returning(o, crowds).Some? then [Returning(o, crowds).value] else [])
  }

  /** The countdown works entry by entry: on a list made of two parts it
      is the countdown of each part, one after the other, so every entry
      that stays keeps its place relative to the others. */
  lemma {:induction false} CountdownAppend(a: seq<Outing>, b: seq<Outing>, crowds: seq<seq<Individual>>)
    ensures Remaining(a + b, crowds) == Remaining(a, crowds) + Remaining(b, crowds)
    ensures Due(a + b, crowds) == Due(a, crowds) + Due(b, crowds)
  {
    if b == [] {
      assert a + b == a;
    } else {
      var n := |b| - 1;
      var o := b[n];
      assert (a + b)[..|a + b| - 1] == a + b[..n] && (a + b)[|a + b| - 1] == o;
      CountdownAppend(a, b[..n], crowds);
      var stay := if Returning(o, crowds).Some? then [] else [Tick(o)];
      var back := if Returning(o, crowds).Some? then [Returning(o, crowds).value] else [];
      assert Remaining(a + b, crowds) == Remaining(a, crowds) + Remaining(b[..n], crowds) + stay;
      assert Due(a + b, crowds) == Due(a, crowds) + Due(b[..n], crowds) + back;
    }
  }

  /** Every entry either stays in the list or brings its agent home. */
  lemma {:induction false} CountdownSize(outings: seq<Outing>, crowds: seq<seq<Individual>>)
    ensures |Remaining(outings, crowds)| + |Due(outings, crowds)| == |outings|
  {
    if outings != [] {
      CountdownSize(outings[..|outings| - 1], crowds);
    }
  }

  /** When no entry brings anybody home, the list keeps every entry in
      its place with one hour less. */
  lemma {:induction false} CountdownQuiet(outings: seq<Outing>, crowds: seq<seq<Individual>>)
    requires forall k | 0 <= k < |outings| :: Returning(outings[k], crowds).None?
    ensures |Remaining(outings, crowds)| == |outings| && Due(outings, crowds) == []
    ensures forall k | 0 <= k < |outings| ::
      Remaining(outings, crowds)[k] == Outing(outings[k].number, outings[k].hoursLeft - 1)
  {
    if outings != [] {
      CountdownQuiet(outings[..|outings| - 1], crowds);
    }
  }

  /** Every agent sent home was found for an entry with one hour left. */
  lemma {:induction false} DueSound(outings: seq<Outing>, crowds: seq<seq<Individual>>)
    ensures forall x | x in Due(outings, crowds) ::
      exists k | 0 <= k < |outings| :: outings[k].hoursLeft == 1 && Locate(crowds, outings[k].number, 0) == Some(x)
  {
    if outings != [] {
      var n := |outings| - 1;
      var front := outings[..n];
      DueSound(front, crowds);
      forall x | x in Due(front, crowds)
        ensures exists k | 0 <= k < |outings| :: outings[k].hoursLeft == 1 && Locate(crowds, outings[k].number, 0) == Some(x)
      {
        var k :| 0 <= k < |front| && front[k].hoursLeft == 1 && Locate(crowds, front[k].number, 0) == Some(x);
        assert outings[k] == front[k];
      }
    }
  }

  /** The agent found for an entry with one hour left is sent home. */
  lemma {:induction false} DueComplete(outings: seq<Outing>, crowds: seq<seq<Individual>>, k: int)
    requires 0 <= k < |outings| && outings[k].hoursLeft == 1 && Locate(crowds, outings[k].number, 0).Some?
    ensures Locate(crowds, outings[k].number, 0).value in Due(outings, crowds)
  {
    var n := |outings| - 1;
    if k < n {
      DueComplete(outings[..n], crowds, k);
      assert outings[..n][k] == outings[k];
    }
  }

  /** The agents sent home are exactly those found for an entry with one
      hour left. */
  lemma DueMembers(outings: seq<Outing>, crowds: seq<seq<Individual>>)
    ensures forall x :: x in Due(outings, crowds) <==>
      exists k | 0 <= k < |outings| :: outings[k].hoursLeft == 1 && Locate(crowds, outings[k].number, 0) == Some(x)
  {
    DueSound(outings, crowds);
    forall k | 0 <= k < |outings| && outings[k].hoursLeft == 1 && Locate(crowds, outings[k].number, 0).Some?
      ensures Locate(crowds, outings[k].number, 0).value in Due(outings, crowds)
    {
      DueComplete(outings, crowds, k);
    }
  }

  /** Each agent sent home stands in one of the crowds searched. */
  lemma DueOutside(outings: seq<Outing>, crowds: seq<seq<Individual>>)
    ensures forall x | x in Due(outings, crowds) :: exists i | 0 <= i < |crowds| :: x in crowds[i]
  {
    DueSound(outings, crowds);
  }

  /** The elderly list counted down one hour, and the agents it brings
      home sent home by every province in turn. */
  method BackHome(provinces: seq<Province>, outings: seq<Outing>) returns (remaining: seq<Outing>, ok: bool)
    requires forall i | 0 <= i < |provinces| :: provinces[i].commonAreas != []
    requires AreasApart(provinces)
    requires forall i, x | 0 <= i < |provinces| && x in Front(provinces[i]).occupants ::
      x.house != null && x.house !in Areas(provinces)
    requires forall k, l | 0 <= k < l < |outings| :: outings[k].number != outings[l].number
    modifies Areas(provinces)`occupants, Homes(Due(outings, Crowds(provinces)))`occupants
    ensures remaining == Remaining(outings, old(Crowds(provinces)))
    ensures old(Scattered(Due(outings, Crowds(provinces)), AreaOccupancies(provinces))) ==> ok
  {
    ghost var crowds := Crowds(provinces);
    DueReady(provinces, outings);
    var toMove;
    remaining, toMove := Countdown(provinces, outings);
    assert crowds == Crowds(provinces) && toMove == Due(outings, crowds);
    assert Homes(toMove) == old(Homes(Due(outings, Crowds(provinces))));
    var rest;
    rest, ok := SendHome(provinces, toMove);
  }

  /** The agents an elderly list brings home are distinct when it names
      each number once, and each stands in a province's first common area,
      so has a house outside every common area. */
  lemma DueReady(provinces: seq<Province>, outings: seq<Outing>)
    requires forall i | 0 <= i < |provinces| :: provinces[i].commonAreas != []
    requires forall i, x | 0 <= i < |provinces| && x in Front(provinces[i]).occupants ::
      x.house != null && x.house !in Areas(provinces)
    requires forall k, l | 0 <= k < l < |outings| :: outings[k].number != outings[l].number
    ensures Distinct(Due(outings, Crowds(provinces)))
    ensures forall x | x in Due(outings, Crowds(provinces)) :: x.house != null && x.house !in Areas(provinces)
  {
    DueDistinct(outings, Crowds(provinces));
    DueOutside(outings, Crowds(provinces));
  }

  /** An elderly list that names each number once sends each agent home
      once. */
  lemma {:induction false} DueDistinct(outings: seq<Outing>, crowds: seq<seq<Individual>>)
    requires forall k, l | 0 <= k < l < |outings| :: outings[k].number != outings[l].number
    ensures Distinct(Due(outings, crowds))
  {
    if outings != [] {
      var n := |outings| - 1;
      var front := outings[..n];
      DueDistinct(front, crowds);
      DueSound(front, crowds);
      var o := outings[n];
      forall y | y in Due(front, crowds)
        ensures y.number != o.number
      {
        var k :| 0 <= k < |front| && front[k].hoursLeft == 1 && Locate(crowds, front[k].number, 0) == Some(y);
        assert front[k] == outings[k];
      }
    }
  }

  /** The search of `get_back_home_elderly`: province by province, the
      first agent in the first common area with the number. */
  method FindOutside(provinces: seq<Province>, number: int) returns (r: Option<Individual>)
    requires forall i | 0 <= i < |provinces| :: provinces[i].commonAreas != []
    ensures r == Locate(Crowds(provinces), number, 0)
  {
    ghost var crowds := Crowds(provinces);
    var i := 0;
    while i < |provinces|
      invariant 0 <= i <= |provinces|
      invariant Locate(crowds, number, 0) == Locate(crowds, number, i)
    {
      var inside := provinces[i].commonAreas[0].occupants;
      assert crowds[i] == inside;
      var j := 0;
      while j < |inside|
        invariant 0 <= j <= |inside|
        invariant Pick(inside, number, 0) == Pick(inside, number, j)
      {
        if inside[j].number == number {
          return Some(inside[j]);
        }
        j := j + 1;
      }
      i := i + 1;
    }
    return None;
  }

  /** The countdown loop's state after `consumed` entries: the first
      `index` places hold what those entries left, the rest is still the
      untouched tail. */
  ghost predicate CountedTo(outings: seq<Outing>, crowds: seq<seq<Individual>>, remaining: seq<Outing>,
                            index: int, consumed: int)
  {
    && 0 <= index <= |remaining| && 0 <= consumed <= |outings|
    && remaining[..index] == Remaining(outings[..consumed], crowds)
    && remaining[index..] == outings[consumed..]
  }

  /** Deleting an entry that brings its agent home. */
  lemma CountedDrop(outings: seq<Outing>, crowds: seq<seq<Individual>>, remaining: seq<Outing>, index: int, consumed: int)
    requires CountedTo(outings, crowds, remaining, index, consumed) && index < |remaining|
    requires Returning(remaining[index], crowds).Some?
    ensures CountedTo(outings, crowds, remaining[..index] + remaining[index + 1..], index, consumed + 1)
    ensures Due(outings[..consumed + 1], crowds) == Due(outings[..consumed], crowds) + [Returning(remaining[index], crowds).value]
  {
    assert remaining[index..][0] == outings[consumed..][0];
    assert outings[..consumed + 1][..consumed] == outings[..consumed];
    assert remaining[index + 1..] == remaining[index..][1..];
    assert outings[consumed + 1..] == outings[consumed..][1..];
    var r := remaining[..index] + remaining[index + 1..];
    assert r[..index] == remaining[..index] && r[index..] == remaining[index + 1..];
  }

  /** Rewriting an entry that stays one hour on. */
  lemma CountedKeep(outings: seq<Outing>, crowds: seq<seq<Individual>>, remaining: seq<Outing>, index: int, consumed: int)
    requires CountedTo(outings, crowds, remaining, index, consumed) && index < |remaining|
    requires Returning(remaining[index], crowds).None?
    ensures CountedTo(outings, crowds, remaining[index := Tick(remaining[index])], index + 1, consumed + 1)
    ensures Due(outings[..consumed + 1], crowds) == Due(outings[..consumed], crowds)
  {
    assert remaining[index..][0] == outings[consumed..][0];
    assert outings[..consumed + 1][..consumed] == outings[..consumed];
    assert remaining[index + 1..] == remaining[index..][1..];
    assert outings[consumed + 1..] == outings[consumed..][1..];
    var r := remaining[index := Tick(remaining[index])];
    assert r[..index + 1] == remaining[..index] + [Tick(remaining[index])];
    assert r[index + 1..] == remaining[index + 1..];
  }

  /** The countdown loop of `get_back_home_elderly`: an entry with one
      hour left whose agent the search finds is deleted in place and its
      agent collected; every other entry is rewritten one hour on. */
  method Countdown(provinces: seq<Province>, outings: seq<Outing>) returns (remaining: seq<Outing>, toMove: seq<Individual>)
    requires forall i | 0 <= i < |provinces| :: provinces[i].commonAreas != []
    ensures remaining == Remaining(outings, Crowds(provinces))
    ensures toMove == Due(outings, Crowds(provinces))
  {
    ghost var crowds := Crowds(provinces);
    remaining, toMove := outings, [];
    var index := 0;
    ghost var consumed := 0;
    while index < |remaining|
      invariant crowds == Crowds(provinces)
      invariant CountedTo(outings, crowds, remaining, index, consumed)
      invariant toMove == Due(outings[..consumed], crowds)
      decreases |remaining| - index
    {
      var o := remaining[index];
      if o.hoursLeft == 1 {
        var found := FindOutside(provinces, o.number);
        assert crowds == Crowds(provinces);
        if found.Some? {
          CountedDrop(outings, crowds, remaining, index, consumed);
          toMove := toMove + [found.value];
          remaining := remaining[..index] + remaining[index + 1..];
          consumed := consumed + 1;
          continue;
        }
      }
      CountedKeep(outings, crowds, remaining, index, consumed);
      remaining := remaining[index := Tick(o)];
      index := index + 1;
      consumed := consumed + 1;
    }
    assert outings[..consumed] == outings;
  }

  /** The common areas of the provinces. */
  function Areas(provinces: seq<Province>): set<Place>
    reads provinces
  {
    set i, a | 0 <= i < |provinces| && 0 <= a < |provinces[i].commonAreas| :: provinces[i].commonAreas[a]
  }

  /** No common area is listed twice, in one province or in two: each
      province's areas are distinct and differ from every earlier
      province's. */
  predicate AreasApart(provinces: seq<Province>)
    reads provinces
  {
    provinces == [] ||
    var n := |provinces| - 1;
    && AreasApart(provinces[..n])
    && Distinct(provinces[n].commonAreas)
    && forall i, a, b | 0 <= i < n && 0 <= a < |provinces[i].commonAreas| && 0 <= b < |provinces[n].commonAreas| ::
         provinces[i].commonAreas[a] != provinces[n].commonAreas[b]
  }

  /** Province `i`'s common areas are distinct and none belongs to a
      later province. */
  lemma {:induction false} AreasApartAt(provinces: seq<Province>, i: int)
    requires AreasApart(provinces) && 0 <= i < |provinces|
    ensures Distinct(provinces[i].commonAreas)
    ensures forall j, b | i < j < |provinces| && 0 <= b < |provinces[j].commonAreas| ::
      provinces[j].commonAreas[b] !in provinces[i].commonAreas
  {
    var n := |provinces| - 1;
    if i < n {
      AreasApartAt(provinces[..n], i);
      assert forall j | 0 <= j < n :: provinces[..n][j] == provinces[j];
    }
  }

  /** The occupant lists of each province's common areas. */
  function AreaOccupancies(provinces: seq<Province>): (r: seq<seq<seq<Individual>>>)
    reads provinces, Areas(provinces)
    ensures |r| == |provinces| && forall i | 0 <= i < |provinces| :: r[i] == Occupancies(provinces[i].commonAreas)
  {
    if provinces == [] then []
    else
      var n := |provinces| - 1;
      assert forall p | p in provinces[n].commonAreas :: p in Areas(provinces);
      assert Areas(provinces[..n]) <= Areas(provinces);
      AreaOccupancies(provinces[..n]) + [Occupancies(provinces[n].commonAreas)]
  }

  /** The listed agents standing in a common area of one of the first `n`
      provinces, by the occupant lists `occs`. */
  ghost function Struck(students: seq<Individual>, occs: seq<seq<seq<Individual>>>, n: int): set<Individual>
    requires 0 <= n <= |occs|
  {
    set x | x in students && exists i, b | 0 <= i < n && 0 <= b < |occs[i]| :: x in occs[i][b]
  }

  /** No listed agent stands in two common areas of one province. */
  ghost predicate Scattered(students: seq<Individual>, occs: seq<seq<seq<Individual>>>) {
    forall i, x, b, c | 0 <= i < |occs| && x in students && 0 <= b < c < |occs[i]| ::
      !(x in occs[i][b] && x in occs[i][c])
  }

  /** Province `i`'s turn: its common areas send home the agents still
      in the list and strike them from it; the later provinces' areas are
      untouched. */
  method SendHomeStep(provinces: seq<Province>, ghost occs: seq<seq<seq<Individual>>>, i: int, rest: seq<Individual>)
    returns (rest': seq<Individual>, ok: bool)
    requires AreasApart(provinces) && Distinct(rest) && 0 <= i < |provinces| == |occs|
    requires forall x | x in rest :: x.house != null && x.house !in Areas(provinces)
    requires forall j, b | i <= j < |provinces| && 0 <= b < |provinces[j].commonAreas| ::
      b < |occs[j]| && provinces[j].commonAreas[b].occupants == occs[j][b]
    requires forall j | 0 <= j < |provinces| :: |occs[j]| == |provinces[j].commonAreas|
    modifies Areas(provinces)`occupants, Homes(rest)`occupants
    ensures ok ==> rest' == Without(rest, FoundIn(rest, occs[i], |occs[i]|))
    ensures ok ==> forall j, b | i + 1 <= j < |provinces| && 0 <= b < |provinces[j].commonAreas| ::
      provinces[j].commonAreas[b].occupants == occs[j][b]
    ensures ok <==> forall x, b, c | x in rest && 0 <= b < c < |occs[i]| :: !(x in occs[i][b] && x in occs[i][c])
  {
    TurnReady(provinces, i, rest);
    assert Occupancies(provinces[i].commonAreas) == occs[i];
    rest', ok := GetHomeStudents(provinces[i], rest);
  }

  /** What province `i`'s turn needs: its common areas are distinct, no
      listed agent's house is one of them, and the later provinces' areas
      are neither its areas nor a listed agent's house. */
  lemma TurnReady(provinces: seq<Province>, i: int, rest: seq<Individual>)
    requires AreasApart(provinces) && 0 <= i < |provinces|
    requires forall x | x in rest :: x.house != null && x.house !in Areas(provinces)
    ensures Distinct(provinces[i].commonAreas)
    ensures forall x | x in rest :: x.house != null && x.house !in provinces[i].commonAreas
    ensures forall j, b | i < j < |provinces| && 0 <= b < |provinces[j].commonAreas| ::
      provinces[j].commonAreas[b] !in Homes(rest) && provinces[j].commonAreas[b] !in provinces[i].commonAreas
  {
    AreasApartAt(provinces, i);
    assert forall p | p in provinces[i].commonAreas :: p in Areas(provinces);
    assert forall j, b | i < j < |provinces| && 0 <= b < |provinces[j].commonAreas| ::
      provinces[j].commonAreas[b] in Areas(provinces);
  }

  /** What is left of the list after the first `i` provinces' turns. */
  ghost function Unsent(students: seq<Individual>, occs: seq<seq<seq<Individual>>>, i: int): seq<Individual>
    requires 0 <= i <= |occs|
  {
    if i == 0 then students
    else
      var r := Unsent(students, occs, i - 1);
      Without(r, FoundIn(r, occs[i - 1], |occs[i - 1]|))
  }

  /** The turns so far have struck exactly the listed agents found in
      those provinces' common areas. */
  lemma {:induction false} UnsentStruck(students: seq<Individual>, occs: seq<seq<seq<Individual>>>, i: int)
    requires 0 <= i <= |occs|
    ensures Unsent(students, occs, i) == Without(students, Struck(students, occs, i))
  {
    if i == 0 {
      assert Struck(students, occs, 0) == {};
      WithoutNone(students, {});
    } else {
      UnsentStruck(students, occs, i - 1);
      StruckStep(students, occs, i - 1, Unsent(students, occs, i - 1));
    }
  }

  /** What is left is part of the list and names nobody twice. */
  lemma {:induction false} UnsentWithin(students: seq<Individual>, occs: seq<seq<seq<Individual>>>, i: int)
    requires 0 <= i <= |occs| && Distinct(students)
    ensures Distinct(Unsent(students, occs, i))
    ensures forall x: Individual | x in Unsent(students, occs, i) :: x in students
  {
    UnsentStruck(students, occs, i);
    WithoutMembers(students, Struck(students, occs, i));
    WithoutDistinct(students, Struck(students, occs, i));
    forall x | x in Unsent(students, occs, i)
      ensures x in students
    {
      UnsentHas(students, occs, i, x);
    }
  }

  lemma UnsentHas(students: seq<Individual>, occs: seq<seq<seq<Individual>>>, i: int, x: Individual)
    requires 0 <= i <= |occs|
    requires x in Unsent(students, occs, i)
    ensures x in students
  {
    UnsentStruck(students, occs, i);
    WithoutMembers(students, Struck(students, occs, i));
  }

  /** The provinces from the `i`-th on take their turns. */
  method SendFrom(provinces: seq<Province>, students: seq<Individual>, ghost occs: seq<seq<seq<Individual>>>,
                  i: int, rest: seq<Individual>)
    returns (rest': seq<Individual>, ok: bool)
    requires AreasApart(provinces) && Distinct(students) && 0 <= i <= |provinces| == |occs|
    requires forall x | x in students :: x.house != null && x.house !in Areas(provinces)
    requires rest == Unsent(students, occs, i)
    requires forall j, b | i <= j < |provinces| && 0 <= b < |provinces[j].commonAreas| ::
      b < |occs[j]| && provinces[j].commonAreas[b].occupants == occs[j][b]
    requires forall j | 0 <= j < |provinces| :: |occs[j]| == |provinces[j].commonAreas|
    modifies Areas(provinces)`occupants, Homes(students)`occupants
    ensures ok ==> rest' == Unsent(students, occs, |provinces|)
    ensures Scattered(students, occs) ==> ok
    decreases |provinces| - i, 1
  {
    if i == |provinces| {
      return rest, true;
    }
    UnsentWithin(students, occs, i);
    assert Homes(rest) <= Homes(students);
    if Scattered(students, occs) {
      ScatteredAt(students, occs, i, rest);
    }
    rest', ok := SendHomeStep(provinces, occs, i, rest);
    if ok {
      rest', ok := SendNext(provinces, students, occs, i, rest, rest');
    }
  }

  /** No listed agent still in the list stands in two common areas of the
      `i`-th province. */
  lemma ScatteredAt(students: seq<Individual>, occs: seq<seq<seq<Individual>>>, i: int, rest: seq<Individual>)
    requires 0 <= i < |occs| && Scattered(students, occs)
    requires forall x: Individual | x in rest :: x in students
    ensures forall x, b, c | x in rest && 0 <= b < c < |occs[i]| :: !(x in occs[i][b] && x in occs[i][c])
  {
  }

  /** The turns after the `i`-th province's, from what its turn left. */
  method SendNext(provinces: seq<Province>, students: seq<Individual>, ghost occs: seq<seq<seq<Individual>>>,
                  i: int, ghost rest: seq<Individual>, next: seq<Individual>)
    returns (rest': seq<Individual>, ok: bool)
    requires AreasApart(provinces) && Distinct(students) && 0 <= i < |provinces| == |occs|
    requires forall x | x in students :: x.house != null && x.house !in Areas(provinces)
    requires rest == Unsent(students, occs, i)
    requires next == Without(rest, FoundIn(rest, occs[i], |occs[i]|))
    requires forall j, b | i + 1 <= j < |provinces| && 0 <= b < |provinces[j].commonAreas| ::
      b < |occs[j]| && provinces[j].commonAreas[b].occupants == occs[j][b]
    requires forall j | 0 <= j < |provinces| :: |occs[j]| == |provinces[j].commonAreas|
    modifies Areas(provinces)`occupants, Homes(students)`occupants
    ensures ok ==> rest' == Unsent(students, occs, |provinces|)
    ensures Scattered(students, occs) ==> ok
    decreases |provinces| - i, 0
  {
    rest', ok := SendFrom(provinces, students, occs, i + 1, next);
  }

  /** The province loop that ends `get_back_home_elderly` (the same loop
      ends the other returns home): each province's common areas in turn
      send home the listed agents they hold, and those agents are struck
      from the list the next province gets. A province where a listed
      agent stands in two common areas raises, which ends the run with
      `ok` false. */
  method SendHome(provinces: seq<Province>, students: seq<Individual>) returns (rest: seq<Individual>, ok: bool)
    requires AreasApart(provinces) && Distinct(students)
    requires forall x | x in students :: x.house != null && x.house !in Areas(provinces)
    modifies Areas(provinces)`occupants, Homes(students)`occupants
    ensures old(Scattered(students, AreaOccupancies(provinces))) ==> ok
    ensures ok ==> rest == Without(students, Struck(students, old(AreaOccupancies(provinces)), |provinces|))
  {
    ghost var occs := AreaOccupancies(provinces);
    rest, ok := SendFrom(provinces, students, occs, 0, students);
    UnsentStruck(students, occs, |provinces|);
  }

  /** The engine object of `simulation.py` with the state the helpers
      below read and update: the provinces, the deaths so far, the daily
      metrics and the current infected list. */
  class Simulation {
    const settings: Settings
    var provinces: seq<Province>
    var deaths: seq<Individual>
    var newDailyCases: seq<int>
    var prevalence: seq<int>
    var yesterdayInfected: int
    var currentlyInfected: seq<Individual>

    constructor (settings: Settings, provinces: seq<Province>)
      ensures this.settings == settings && this.provinces == provinces
      ensures deaths == [] && newDailyCases == [] && prevalence == [] && yesterdayInfected == 0
      ensures currentlyInfected == []
    {
      this.settings := settings;
      this.provinces := provinces;
      deaths, newDailyCases, prevalence := [], [], [];
      yesterdayInfected := 0;
      currentlyInfected := [];
    }

    /** The metrics of a run that started with yesterday's count `y0`: the
        new cases are the differences of the prevalence values (so they add
        up to the last prevalence minus `y0`, `DailyCasesTotal`), and
        yesterday's count is the last prevalence. */
    ghost predicate Tracked(y0: int)
      reads this
    {
      && newDailyCases == DailyCases(y0, prevalence)
      && yesterdayInfected == if prevalence == [] then y0 else prevalence[|prevalence| - 1]
    }

    /** `track_infections`: one new-case value (the number of distinct
        infected minus yesterday's count) and one prevalence value (the
        length of the infected list) are appended, and the length becomes
        yesterday's count. On a duplicate-free infected list, as
        `get_infected_individuals` returns, this keeps the metrics
        `Tracked`. */
    method TrackInfections(ghost y0: int)
      modifies this`newDailyCases, this`prevalence, this`yesterdayInfected
      ensures newDailyCases == old(newDailyCases) + [|Elements(currentlyInfected)| - old(yesterdayInfected)]
      ensures prevalence == old(prevalence) + [|currentlyInfected|]
      ensures yesterdayInfected == |currentlyInfected|
      ensures Distinct(currentlyInfected) && old(Tracked(y0)) ==> Tracked(y0)
    {
      ghost var counts := prevalence + [|currentlyInfected|];
      assert counts[..|counts| - 1] == prevalence;
      if Distinct(currentlyInfected) {
        DistinctCard(currentlyInfected);
      }
      newDailyCases := newDailyCases + [|Elements(currentlyInfected)| - yesterdayInfected];
      prevalence := prevalence + [|currentlyInfected|];
      yesterdayInfected := |currentlyInfected|;
    }

    /** `check_for_death`: each Infected individual of the list whose draw
        falls below its death probability becomes Deceased and is appended
        to `deaths`; nobody else changes. The list is duplicate-free, as
        `get_infected_individuals` returns it. */
    method CheckForDeath(individuals: seq<Individual>, draws: seq<real>)
      requires |draws| == |individuals| && Distinct(individuals) && settings.deathReduction != 0.0
      modifies (set x | x in individuals)`health, this`deaths
      ensures forall k :: 0 <= k < |individuals| ==>
        individuals[k].health == Mortality(settings, old(individuals[k].health), draws[k])
      ensures deaths == old(deaths) + Dying(settings, individuals, old(States(individuals)), draws)
    {
      ghost var before := States(individuals);
      ghost var deaths0 := deaths;
      assert before == old(States(individuals));
      var k := 0;
      while k < |individuals|
        invariant 0 <= k <= |individuals|
        invariant Mortal(individuals, draws, before, deaths0, k)
      {
        k := DieAt(individuals, draws, before, deaths0, k);
      }
      assert before[..k] == before && draws[..k] == draws && individuals[..k] == individuals;
    }

    /** What `check_for_death` has done to its first `k` individuals. */
    ghost predicate Mortal(individuals: seq<Individual>, draws: seq<real>, before: seq<Condition>,
                           deaths0: seq<Individual>, k: int)
      reads this, individuals
      requires 0 <= k <= |individuals| == |draws| == |before| && settings.deathReduction != 0.0
    {
      && (forall j :: 0 <= j < k ==> individuals[j].health == Mortality(settings, before[j], draws[j]))
      && (forall j :: k <= j < |individuals| ==> individuals[j].health == before[j])
      && deaths == deaths0 + Dying(settings, individuals[..k], before[..k], draws[..k])
    }

    /** The `k`-th turn of `check_for_death`'s loop. */
    method DieAt(individuals: seq<Individual>, draws: seq<real>, ghost before: seq<Condition>,
                 ghost deaths0: seq<Individual>, k: int) returns (next: int)
      requires 0 <= k < |individuals| == |draws| == |before| && Distinct(individuals)
      requires settings.deathReduction != 0.0
      requires Mortal(individuals, draws, before, deaths0, k)
      modifies {individuals[k]}`health, this`deaths
      ensures next == k + 1
      ensures Mortal(individuals, draws, before, deaths0, next)
    {
      var x := individuals[k];
      assert forall j | 0 <= j < |individuals| && j != k :: individuals[j] != x;
      assert individuals[..k + 1][..k] == individuals[..k];
      assert before[..k + 1][..k] == before[..k] && draws[..k + 1][..k] == draws[..k];
      if x.health.status == Infected && draws[k] < DeathProbability(settings, x.health) {
        x.health := x.health.(status := Deceased);
        deaths := deaths + [x];
      }
      next := k + 1;
    }

    /** `leave_school`: every province's schools, in order, lose the
        students whose draw falls below `probability` to the province's
        first common area, and those students are returned. */
    method LeaveSchool(probability: real, draw: Individual -> real) returns (studentsHome: seq<Individual>, ok: bool)
      requires WaveReady(provinces, School)
      modifies Watched(provinces, School)`occupants
      ensures ok <==> forall i | 0 <= i < |provinces| ::
        Fits(old(|Front(provinces[i]).occupants|), old(Front(provinces[i])).capacity,
             |Departures(old(Occupancies(provinces[i].ListOf(School))), Below(draw, probability))|)
      ensures ok ==> studentsHome == Departures(old(Occupancies(Sites(provinces, School))), Below(draw, probability))
      ensures ok ==> forall i, a | 0 <= i < |provinces| && 0 <= a < old(|provinces[i].ListOf(School)|) ::
        old(provinces[i].ListOf(School)[a]).occupants == Stayed(old(provinces[i].ListOf(School)[a].occupants), Below(draw, probability))
      ensures ok ==> forall i | 0 <= i < |provinces| ::
        old(Front(provinces[i])).occupants
          == old(Front(provinces[i]).occupants) + Departures(old(Occupancies(provinces[i].ListOf(School))), Below(draw, probability))
    {
      studentsHome, ok := LeaveWave(provinces, School, Below(draw, probability));
    }

    /** `leave_workplace`: every worker of every province leaves its
        workplace for the province's first common area, and all of them
        are returned; the workplaces end up empty. */
    method LeaveWorkplace() returns (workersHome: seq<Individual>, ok: bool)
      requires WaveReady(provinces, Workplace)
      modifies Watched(provinces, Workplace)`occupants
      ensures ok <==> forall i | 0 <= i < |provinces| ::
        Fits(old(|Front(provinces[i]).occupants|), old(Front(provinces[i])).capacity,
             |Departures(old(Occupancies(provinces[i].ListOf(Workplace))), Always())|)
      ensures ok ==> workersHome == Departures(old(Occupancies(Sites(provinces, Workplace))), Always())
      ensures ok ==> forall i, a | 0 <= i < |provinces| && 0 <= a < old(|provinces[i].ListOf(Workplace)|) ::
        old(provinces[i].ListOf(Workplace)[a]).occupants == Stayed(old(provinces[i].ListOf(Workplace)[a].occupants), Always())
      ensures ok ==> forall i | 0 <= i < |provinces| ::
        old(Front(provinces[i])).occupants
          == old(Front(provinces[i]).occupants) + Departures(old(Occupancies(provinces[i].ListOf(Workplace))), Always())
      ensures ok ==> forall i, a | 0 <= i < |provinces| && 0 <= a < |provinces[i].workplaces| ::
        provinces[i].workplaces[a].occupants == []
    {
      workersHome, ok := LeaveWave(provinces, Workplace, Always());
      if ok {
        forall i, a | 0 <= i < |provinces| && 0 <= a < |provinces[i].workplaces|
          ensures provinces[i].workplaces[a].occupants == []
        {
          DepartedEveryone(old(provinces[i].workplaces[a].occupants), Always());
        }
      }
    }

    /** `leave_leisure_all`: every province's leisure centres, in order,
        lose the visitors whose draw falls below their age group's
        probability to the province's first common area, and those
        visitors are returned. */
    method LeaveLeisureAll(probYoung: real, probAdult: real, probElderly: real, draw: Individual -> real)
      returns (individualHome: seq<Individual>, ok: bool)
      requires WaveReady(provinces, LeisureCenter)
      modifies Watched(provinces, LeisureCenter)`occupants
      ensures ok <==> forall i | 0 <= i < |provinces| ::
        Fits(old(|Front(provinces[i]).occupants|), old(Front(provinces[i])).capacity,
             |Departures(old(Occupancies(provinces[i].ListOf(LeisureCenter))), AgeBelow(draw, probYoung, probAdult, probElderly))|)
      ensures ok ==> individualHome == Departures(old(Occupancies(Sites(provinces, LeisureCenter))), AgeBelow(draw, probYoung, probAdult, probElderly))
      ensures ok ==> forall i, a | 0 <= i < |provinces| && 0 <= a < old(|provinces[i].ListOf(LeisureCenter)|) ::
        old(provinces[i].ListOf(LeisureCenter)[a]).occupants == Stayed(old(provinces[i].ListOf(LeisureCenter)[a].occupants), AgeBelow(draw, probYoung, probAdult, probElderly))
      ensures ok ==> forall i | 0 <= i < |provinces| ::
        old(Front(provinces[i])).occupants
          == old(Front(provinces[i]).occupants) + Departures(old(Occupancies(provinces[i].ListOf(LeisureCenter))), AgeBelow(draw, probYoung, probAdult, probElderly))
    {
      individualHome, ok := LeaveWave(provinces, LeisureCenter, AgeBelow(draw, probYoung, probAdult, probElderly));
    }

    /** `leave_leisure_elderly`: every province's leisure centres, in
        order, lose the elderly visitors whose draw falls below the
        probability to the province's first common area, and those
        visitors, all of them elderly, are returned. */
    method LeaveLeisureElderly(probability: real, draw: Individual -> real)
      returns (elderlyHome: seq<Individual>, ok: bool)
      requires WaveReady(provinces, LeisureCenter)
      modifies Watched(provinces, LeisureCenter)`occupants
      ensures ok <==> forall i | 0 <= i < |provinces| ::
        Fits(old(|Front(provinces[i]).occupants|), old(Front(provinces[i])).capacity,
             |Departures(old(Occupancies(provinces[i].ListOf(LeisureCenter))), ElderlyBelow(draw, probability))|)
      ensures ok ==> elderlyHome == Departures(old(Occupancies(Sites(provinces, LeisureCenter))), ElderlyBelow(draw, probability))
      ensures ok ==> forall i, a | 0 <= i < |provinces| && 0 <= a < old(|provinces[i].ListOf(LeisureCenter)|) ::
        old(provinces[i].ListOf(LeisureCenter)[a]).occupants == Stayed(old(provinces[i].ListOf(LeisureCenter)[a].occupants), ElderlyBelow(draw, probability))
      ensures ok ==> forall i | 0 <= i < |provinces| ::
        old(Front(provinces[i])).occupants
          == old(Front(provinces[i]).occupants) + Departures(old(Occupancies(provinces[i].ListOf(LeisureCenter))), ElderlyBelow(draw, probability))
      ensures ok ==> forall x | x in elderlyHome :: x.ageGroup == Elderly
    {
      ghost var occs := Occupancies(Sites(provinces, LeisureCenter));
      elderlyHome, ok := LeaveWave(provinces, LeisureCenter, ElderlyBelow(draw, probability));
      DeparturesMembers(occs, ElderlyBelow(draw, probability));
    }

    /** `get_back_home_elderly`: the elderly list counted down one hour,
        and the agents it brings home sent home by every province in turn.
        The list is returned rather than rewritten in the caller's hands. */
    method GetBackHomeElderly(outings: seq<Outing>) returns (remaining: seq<Outing>, ok: bool)
      requires forall i | 0 <= i < |provinces| :: provinces[i].commonAreas != []
      requires AreasApart(provinces)
      requires forall i, x | 0 <= i < |provinces| && x in Front(provinces[i]).occupants ::
        x.house != null && x.house !in Areas(provinces)
      requires forall k, l | 0 <= k < l < |outings| :: outings[k].number != outings[l].number
      modifies Areas(provinces)`occupants, Homes(Due(outings, Crowds(provinces)))`occupants
      ensures remaining == Remaining(outings, old(Crowds(provinces)))
      ensures old(Scattered(Due(outings, Crowds(provinces)), AreaOccupancies(provinces))) ==> ok
    {
      remaining, ok := BackHome(provinces, outings);
    }

    /** `get_all_individuals`: everyone in any place, each once. */
    method GetAllIndividuals() returns (r: seq<Individual>)
      ensures Distinct(r) && forall x :: x in r <==> x in Scan(provinces, false)
      ensures r == Firsts(Scan(provinces, false), Kept(Scan(provinces, false), Everyone))
    {
      r := Collect(provinces, false, Everyone);
      FirstsMembers(Scan(provinces, false), Kept(Scan(provinces, false), Everyone));
    }

    /** `get_infected_individuals`: everyone in any place who is Infected
        or carries virus, each once. */
    method GetInfectedIndividuals() returns (r: seq<Individual>)
      ensures Distinct(r)
      ensures forall x :: x in r <==> x in Scan(provinces, false) && (x.health.status == Infected || x.health.v1 > 0)
      ensures r == Firsts(Scan(provinces, false), Kept(Scan(provinces, false), InfectedOnly))
    {
      r := Collect(provinces, false, InfectedOnly);
      FirstsMembers(Scan(provinces, false), Kept(Scan(provinces, false), InfectedOnly));
    }

    /** `get_v1_ino_individuals`: everyone in any place with a positive
        inoculum, each once. */
    method GetInoculatedIndividuals() returns (r: seq<Individual>)
      ensures Distinct(r) && forall x :: x in r <==> x in Scan(provinces, false) && x.health.v1Ino > 0
      ensures r == Firsts(Scan(provinces, false), Kept(Scan(provinces, false), InoculatedOnly))
    {
      r := Collect(provinces, false, InoculatedOnly);
      FirstsMembers(Scan(provinces, false), Kept(Scan(provinces, false), InoculatedOnly));
    }

    /** `get_house_individuals`: everyone in a house, each once. */
    method GetHouseIndividuals() returns (r: seq<Individual>)
      ensures Distinct(r) && forall x :: x in r <==> x in Scan(provinces, true)
      ensures r == Firsts(Scan(provinces, true), Kept(Scan(provinces, true), Everyone))
    {
      r := Collect(provinces, true, Everyone);
      FirstsMembers(Scan(provinces, true), Kept(Scan(provinces, true), Everyone));
    }
  }
}
