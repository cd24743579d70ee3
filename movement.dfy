// Relocation between provinces and back home (movement_rules.py). The
// province registry is an explicit map from labels to provinces, and every
// random outcome an individual draws is read from an oracle.

module Movement {
  import opened Config
  import opened Seqs
  import opened Health
  import opened Membrane

  /** The uniform draws in [0, 1) one individual makes while being
      considered for a move: the elderly's 17% sample, the move itself, and
      the weighted choice of a return time. */
  datatype Draw = Draw(sample: real, move: real, returnTime: real)

  /** What a move selects on: the cohort, the destination label, the
      destination's infected count and population, and the prudence. */
  datatype Criteria = Criteria(age: AgeGroup, destination: string, infected: nat, population: nat, prudence: real)

  /** The probability of moving: one minus the destination's infected
      share (one for an empty destination), scaled by `(1 - prudence)^2`
      for an individual with E2 symptoms. */
  function MoveProbability(infected: nat, population: nat, symptoms: Tier, prudence: real): (r: real)
    ensures population == 0 && symptoms != E2 ==> r == 1.0
  {
    var base := Healthy(infected, population);
    if symptoms == E2 then Scaled(base, 1.0 - prudence) else base
  }

  /** One minus the infected share of a population, one when it is empty. */
  function Healthy(infected: nat, population: nat): real {
    if population != 0 then 1.0 - (infected as real) / (population as real) else 1.0
  }

  /** `x` scaled by the square of `y`. */
  function Scaled(x: real, y: real): real {
    x * (y * y)
  }

  /** With no more infected than people and a prudence in [0, 1], the
      probability is a probability, and E2 symptoms never make a move more
      likely. */
  lemma MoveProbabilityBounds(infected: nat, population: nat, symptoms: Tier, prudence: real)
    requires infected <= population && 0.0 <= prudence <= 1.0
    ensures 0.0 <= MoveProbability(infected, population, symptoms, prudence) <= 1.0
    ensures MoveProbability(infected, population, E2, prudence) <= MoveProbability(infected, population, E1, prudence)
  {
    HealthyBounds(infected, population);
    ScaledDown(Healthy(infected, population), 1.0 - prudence);
  }

  lemma HealthyBounds(infected: nat, population: nat)
    requires infected <= population
    ensures 0.0 <= Healthy(infected, population) <= 1.0
  {
    if population != 0 {
      var a, b := infected as real, population as real;
      assert a / b * b == a;
      assert 0.0 <= a / b <= 1.0;
    }
  }

  lemma ScaledDown(x: real, y: real)
    requires 0.0 <= x <= 1.0 && 0.0 <= y <= 1.0
    ensures 0.0 <= Scaled(x, y) <= x
  {
    assert 0.0 <= y * y <= y * 1.0;
    assert x * (y * y) <= x * 1.0;
  }

  /** The return time `random.choices([1, 2, 3], weights=[0.4, 0.24, 0.36])`
      picks for the uniform draw `u`. */
  function ReturnTime(u: real): (h: int)
    ensures 1 <= h <= 3
  {
    if u < 0.4 then 1 else if u < 0.64 then 2 else 3
  }

  /** Passes the age, destination and symptom filter: only E1 or E2 travel. */
  predicate Eligible(i: Individual, c: Criteria)
    reads i
  {
    i.ageGroup == c.age && i.provinceDestination == c.destination && (i.health.symptoms == E1 || i.health.symptoms == E2)
  }

  /** Selected for a move: eligible, sampled (the elderly only), and the
      move draw under the move probability. */
  predicate Chosen(i: Individual, c: Criteria, d: Draw)
    reads i
  {
    && Eligible(i, c)
    && (c.age == Elderly ==> d.sample < 0.17)
    && MoveProbability(c.infected, c.population, i.health.symptoms, c.prudence) >= d.move
  }

  /** The (place, individual) pairs selected from one place's occupants. */
  function PlaceMovers(p: Place, s: seq<Individual>, c: Criteria, draws: Individual -> Draw): (r: seq<(Place, Individual)>)
    reads s
    ensures |r| <= |s|
    ensures forall k :: 0 <= k < |r| ==> r[k].0 == p && r[k].1 in s && Chosen(r[k].1, c, draws(r[k].1))
  {
    if s == [] then []
    else
      var n := |s| - 1;
      PlaceMovers(p, s[..n], c, draws) + (if Chosen(s[n], c, draws(s[n])) then [(p, s[n])] else [])
  }

  /** The pairs selected from a list of places, place by place. */
  function Movers(places: seq<Place>, c: Criteria, draws: Individual -> Draw): (r: seq<(Place, Individual)>)
    reads places, Inside(places)
    ensures forall k :: 0 <= k < |r| ==>
      r[k].0 in places && r[k].1 in r[k].0.occupants && Chosen(r[k].1, c, draws(r[k].1))
  {
    if places == [] then []
    else
      var n := |places| - 1;
      assert Inside(places[..n]) <= Inside(places);
      assert forall i | i in places[n].occupants :: i in Inside(places);
      Movers(places[..n], c, draws) + PlaceMovers(places[n], places[n].occupants, c, draws)
  }

  /** The places the moves search, in the source's order (hospitals and
      ICUs are not searched). */
  function Sources(p: Province): seq<Place>
    reads p
  {
    p.schools + p.workplaces + p.leisureCenters + p.commonAreas + p.houses
  }

  /** The place a province receives arrivals in: its first common area. */
  function Arrival(p: Province): set<Place>
    reads p
  {
    if p.commonAreas == [] then {} else {p.commonAreas[0]}
  }

  /** The selection phase: reads the places, changes nothing. */
  method SelectMovers(places: seq<Place>, c: Criteria, draws: Individual -> Draw)
    returns (movers: seq<(Place, Individual)>)
    ensures movers == Movers(places, c, draws)
  {
    movers := [];
    var j := 0;
    while j < |places|
      invariant 0 <= j <= |places|
      invariant movers == Movers(places[..j], c, draws)
    {
      var place := places[j];
      var k := 0;
      while k < |place.occupants|
        invariant 0 <= k <= |place.occupants|
        invariant movers == Movers(places[..j], c, draws) + PlaceMovers(place, place.occupants[..k], c, draws)
      {
        var individual := place.occupants[k];
        assert place.occupants[..k + 1][..k] == place.occupants[..k];
        if individual.provinceDestination == c.destination && individual.ageGroup == c.age
          && (individual.health.symptoms == E1 || individual.health.symptoms == E2)
          && (c.age == Elderly ==> draws(individual).sample < 0.17)
        {
          var probability := MoveProbability(c.infected, c.population, individual.health.symptoms, c.prudence);
          if probability >= draws(individual).move {
            movers := movers + [(place, individual)];
          }
        }
        k := k + 1;
      }
      assert place.occupants[..k] == place.occupants;
      assert places[..j + 1][..j] == places[..j];
      j := j + 1;
    }
    assert places[..j] == places;
  }

  /** The places the movers are taken from. */
  function Origins(movers: seq<(Place, Individual)>): set<Place> {
    set k | 0 <= k < |movers| :: movers[k].0
  }

  /** Every mover's place is one of `places`. */
  predicate Placed(movers: seq<(Place, Individual)>, places: set<Place>) {
    forall k | 0 <= k < |movers| :: movers[k].0 in places
  }

  /** The arrival area of a province, if it has one. */
  function ArrivalArea(p: Province): Place?
    reads p
  {
    if p.commonAreas == [] then null else p.commonAreas[0]
  }

  /** The occupant lists of a set of places, by place. */
  function Contents(places: set<Place>): map<Place, seq<Individual>>
    reads places
  {
    map p | p in places :: p.occupants
  }

  /** The occupant lists after the movement phase: mover by mover, in
      order, the individual loses its first occurrence in its place and is
      then appended to the arrival area (when the destination has none,
      it is only taken out). */
  function Moved(contents: map<Place, seq<Individual>>, movers: seq<(Place, Individual)>, area: Place?)
    : (r: map<Place, seq<Individual>>)
    requires Placed(movers, contents.Keys) && (area != null ==> area in contents)
    ensures r.Keys == contents.Keys
  {
    if movers == [] then contents
    else
      var n := |movers| - 1;
      Shifted(Moved(contents, movers[..n], area), movers[n].0, movers[n].1, area)
  }

  /** One mover's step: `x` loses its first occurrence in `p` and is then
      appended to the arrival area, if there is one. */
  function Shifted(contents: map<Place, seq<Individual>>, p: Place, x: Individual, area: Place?)
    : (r: map<Place, seq<Individual>>)
    requires p in contents && (area != null ==> area in contents)
    ensures r.Keys == contents.Keys
  {
    var left := contents[p := RemoveFirst(contents[p], x)];
    if area == null then left else left[area := left[area] + [x]]
  }

  /** The individuals of the movers, in order. */
  function Travellers(movers: seq<(Place, Individual)>): (r: seq<Individual>)
    ensures |r| == |movers| && forall k | 0 <= k < |movers| :: r[k] == movers[k].1
  {
    if movers == [] then [] else Travellers(movers[..|movers| - 1]) + [movers[|movers| - 1].1]
  }

  /** The individuals taken from place `p`, in order. */
  function TakenFrom(movers: seq<(Place, Individual)>, p: Place): seq<Individual> {
    if movers == [] then []
    else
      var n := |movers| - 1;
      TakenFrom(movers[..n], p) + (if movers[n].0 == p then [movers[n].1] else [])
  }

  /** An arrival area no mover comes from gains the travellers at its
      end, in order. */
  lemma {:induction false} MovedArea(contents: map<Place, seq<Individual>>, movers: seq<(Place, Individual)>, area: Place)
    requires Placed(movers, contents.Keys) && area in contents && area !in Origins(movers)
    ensures Moved(contents, movers, area)[area] == contents[area] + Travellers(movers)
  {
    if movers != [] {
      var n := |movers| - 1;
      MovedArea(contents, movers[..n], area);
    }
  }

  /** Any other place loses, one first occurrence at a time, exactly the
      individuals taken from it. */
  lemma {:induction false} MovedOrigin(contents: map<Place, seq<Individual>>, movers: seq<(Place, Individual)>,
                                      area: Place?, p: Place)
    requires Placed(movers, contents.Keys) && (area != null ==> area in contents)
    requires p in contents && p != area
    ensures Moved(contents, movers, area)[p] == RemoveEach(contents[p], TakenFrom(movers, p))
  {
    if movers != [] {
      var n := |movers| - 1;
      MovedOrigin(contents, movers[..n], area, p);
      if movers[n].0 == p {
        assert TakenFrom(movers, p) == TakenFrom(movers[..n], p) + [movers[n].1];
        RemoveEachSnoc(contents[p], TakenFrom(movers[..n], p), movers[n].1);
      } else {
        assert TakenFrom(movers, p) == TakenFrom(movers[..n], p);
      }
    }
  }

  /** Every traveller is in the arrival area at the end, even one that
      was taken out of it again after arriving. */
  lemma {:induction false} MovedArrives(contents: map<Place, seq<Individual>>, movers: seq<(Place, Individual)>,
                                       area: Place, k: int)
    requires Placed(movers, contents.Keys) && area in contents && 0 <= k < |movers|
    ensures movers[k].1 in Moved(contents, movers, area)[area]
  {
    var n := |movers| - 1;
    if k < n {
      MovedArrives(contents, movers[..n], area, k);
      RemoveFirstMembers(Moved(contents, movers[..n], area)[movers[n].0], movers[n].1);
    }
  }

  /** Each individual taken from a place is among those `TakenFrom` lists
      for it. */
  lemma {:induction false} TakenFromHas(movers: seq<(Place, Individual)>, k: int)
    requires 0 <= k < |movers|
    ensures movers[k].1 in TakenFrom(movers, movers[k].0)
  {
    var n := |movers| - 1;
    if k < n {
      TakenFromHas(movers[..n], k);
    }
  }

  /** A mover taken from a duplicate-free place other than the arrival
      area is no longer in it at the end. */
  lemma MovedLeaves(contents: map<Place, seq<Individual>>, movers: seq<(Place, Individual)>, area: Place?, k: int)
    requires Placed(movers, contents.Keys) && (area != null ==> area in contents) && 0 <= k < |movers|
    requires movers[k].0 != area && Distinct(contents[movers[k].0])
    ensures movers[k].1 !in Moved(contents, movers, area)[movers[k].0]
  {
    MovedOrigin(contents, movers, area, movers[k].0);
    TakenFromHas(movers, k);
    RemoveEachGone(contents[movers[k].0], TakenFrom(movers, movers[k].0), movers[k].1);
  }

  /** The movement phase: each mover leaves its place and joins the
      destination's first common area. A full common area ends the run in
      the source (`sys.exit`); here `ok` is false and nothing further moves.
      On success the places of `scope` (which holds the movers' places)
      and the arrival area hold what `Moved` says; in particular every
      mover is in the arrival area, and no mover is left in the
      (duplicate-free) place it was taken from. */
  method Relocate(movers: seq<(Place, Individual)>, dest: Province, ghost scope: set<Place>) returns (ok: bool)
    requires Placed(movers, scope)
    requires forall k :: 0 <= k < |movers| && movers[k].0 !in Arrival(dest) ==> Distinct(movers[k].0.occupants)
    modifies Origins(movers)`occupants, Arrival(dest)`occupants
    ensures ok ==> Contents(scope + Arrival(dest)) == Moved(old(Contents(scope + Arrival(dest))), movers, ArrivalArea(dest))
    ensures ok && dest.commonAreas != [] ==>
      forall k :: 0 <= k < |movers| ==> movers[k].1 in dest.commonAreas[0].occupants
    ensures ok ==>
      forall k :: 0 <= k < |movers| && movers[k].0 !in Arrival(dest) ==> movers[k].1 !in movers[k].0.occupants
    ensures !ok ==> dest.commonAreas != [] && |dest.commonAreas[0].occupants| >= dest.commonAreas[0].capacity
  {
    ghost var all := scope + Arrival(dest);
    ghost var start := Contents(all);
    ghost var area := ArrivalArea(dest);
    ok := true;
    var k := 0;
    while k < |movers|
      invariant 0 <= k <= |movers|
      invariant forall q | q in all :: q.occupants == Moved(start, movers[..k], area)[q]
    {
      ok := Arrive(movers, k, dest, all, start);
      if !ok {
        return;
      }
      k := k + 1;
    }
    assert movers[..k] == movers;
    ContentsAre(all, Moved(start, movers, area));
    MovedEach(start, movers, area);
  }

  /** Places whose lists agree with a map over exactly those places have
      that map as their contents. */
  lemma ContentsAre(all: set<Place>, m: map<Place, seq<Individual>>)
    requires m.Keys == all && forall q | q in all :: q.occupants == m[q]
    ensures Contents(all) == m
  {
  }

  /** Each mover ends in the arrival area, and is gone from a
      duplicate-free place other than the arrival area. */
  lemma MovedEach(contents: map<Place, seq<Individual>>, movers: seq<(Place, Individual)>, area: Place?)
    requires Placed(movers, contents.Keys) && (area != null ==> area in contents)
    requires forall k | 0 <= k < |movers| && movers[k].0 != area :: Distinct(contents[movers[k].0])
    ensures area != null ==> forall k | 0 <= k < |movers| :: movers[k].1 in Moved(contents, movers, area)[area]
    ensures forall k | 0 <= k < |movers| && movers[k].0 != area :: movers[k].1 !in Moved(contents, movers, area)[movers[k].0]
  {
    forall j | 0 <= j < |movers|
      ensures area != null ==> movers[j].1 in Moved(contents, movers, area)[area]
      ensures movers[j].0 != area ==> movers[j].1 !in Moved(contents, movers, area)[movers[j].0]
    {
      if area != null {
        MovedArrives(contents, movers, area, j);
      }
      if movers[j].0 != area {
        MovedLeaves(contents, movers, area, j);
      }
    }
  }

  /** Mover `k`'s turn in the movement phase: out of its place, into the
      arrival area. The places of `all` held the `Moved` lists of the
      first `k` movers and now hold those of the first `k + 1`. */
  method Arrive(movers: seq<(Place, Individual)>, k: int, dest: Province, ghost all: set<Place>,
                ghost start: map<Place, seq<Individual>>) returns (ok: bool)
    requires 0 <= k < |movers| && Placed(movers, all) && Arrival(dest) <= all && start.Keys == all
    requires forall q | q in all :: q.occupants == Moved(start, movers[..k], ArrivalArea(dest))[q]
    modifies {movers[k].0}`occupants, Arrival(dest)`occupants
    ensures dest.commonAreas == old(dest.commonAreas)
    ensures ok ==> forall q | q in all :: q.occupants == Moved(start, movers[..k + 1], ArrivalArea(dest))[q]
    ensures !ok ==> dest.commonAreas != [] && |dest.commonAreas[0].occupants| >= dest.commonAreas[0].capacity
  {
    ghost var area := ArrivalArea(dest);
    MovedStep(start, movers, area, k);
    ghost var left := Depart(movers[k].0, movers[k].1, all, Moved(start, movers[..k], area));
    ok := Join(dest, movers[k].1, all, left);
  }

  /** The first half of a mover's turn: `x` loses its first occurrence in
      `place`, and the other places of `all` keep their lists. */
  method Depart(place: Place, x: Individual, ghost all: set<Place>, ghost before: map<Place, seq<Individual>>)
    returns (ghost left: map<Place, seq<Individual>>)
    requires place in all && before.Keys == all
    requires forall q | q in all :: q.occupants == before[q]
    modifies place`occupants
    ensures left == before[place := RemoveFirst(before[place], x)]
    ensures forall q | q in all :: q.occupants == left[q]
  {
    place.RemoveIndividual(x);
    left := before[place := RemoveFirst(before[place], x)];
  }

  /** The second half of a mover's turn: `x` is appended to the arrival
      area, if there is one; a full area gives `ok == false`. */
  method Join(dest: Province, x: Individual, ghost all: set<Place>, ghost left: map<Place, seq<Individual>>)
    returns (ok: bool)
    requires Arrival(dest) <= all && left.Keys == all
    requires forall q | q in all :: q.occupants == left[q]
    modifies Arrival(dest)`occupants
    ensures dest.commonAreas == old(dest.commonAreas)
    ensures ok ==> var area := ArrivalArea(dest);
      forall q | q in all :: q.occupants == (if area == null then left else left[area := left[area] + [x]])[q]
    ensures !ok ==> dest.commonAreas != [] && |dest.commonAreas[0].occupants| >= dest.commonAreas[0].capacity
  {
    ok := dest.MoveToProvince(x);
  }

  /** One more mover in `Moved`. */
  lemma MovedStep(contents: map<Place, seq<Individual>>, movers: seq<(Place, Individual)>, area: Place?, k: int)
    requires Placed(movers, contents.Keys) && (area != null ==> area in contents) && 0 <= k < |movers|
    ensures Moved(contents, movers[..k + 1], area) == Shifted(Moved(contents, movers[..k], area), movers[k].0, movers[k].1, area)
  {
    assert movers[..k + 1][..k] == movers[..k];
  }

  /** The places a cohort move may change: the origin's searched places
      and the destination's arrival area. */
  function Reach(source: Province, dest: Province): set<Place>
    reads source, dest
  {
    (set p | p in Sources(source)) + Arrival(dest)
  }

  /** The registry lookup and the two phases shared by the three cohort
      moves. An unknown label moves nobody. */
  method MoveCohort(registry: map<string, Province>, origin: string, destination: string, age: AgeGroup,
                    draws: Individual -> Draw, prudence: real)
    returns (movers: seq<(Place, Individual)>, ok: bool)
    requires origin in registry && destination in registry ==>
      forall p | p in Sources(registry[origin]) && p !in Arrival(registry[destination]) :: Distinct(p.occupants)
    modifies (if origin in registry && destination in registry then set p | p in Sources(registry[origin]) else {})`occupants
    modifies (if origin in registry && destination in registry then Arrival(registry[destination]) else {})`occupants
    ensures origin !in registry || destination !in registry ==> movers == [] && ok
    ensures origin in registry && destination in registry ==>
      var dest := registry[destination];
      && movers == old(Movers(Sources(registry[origin]),
                              Criteria(age, destination, dest.TotalInfected(), dest.TotalPopulation(), prudence), draws))
      && (ok && dest.commonAreas != [] ==> forall k :: 0 <= k < |movers| ==> movers[k].1 in dest.commonAreas[0].occupants)
      && (ok ==> forall k :: 0 <= k < |movers| && movers[k].0 !in Arrival(dest) ==> movers[k].1 !in movers[k].0.occupants)
      && (ok ==> var scope := Reach(registry[origin], dest);
                 Contents(scope) == Moved(old(Contents(scope)), movers, ArrivalArea(dest)))
  {
    if origin !in registry || destination !in registry {
      return [], true;
    }
    movers, ok := MoveFrom(registry[origin], registry[destination], destination, age, draws, prudence);
  }

  /** The two phases of a cohort move between two provinces. */
  method MoveFrom(source: Province, dest: Province, destination: string, age: AgeGroup,
                  draws: Individual -> Draw, prudence: real)
    returns (movers: seq<(Place, Individual)>, ok: bool)
    requires forall p | p in Sources(source) && p !in Arrival(dest) :: Distinct(p.occupants)
    modifies (set p | p in Sources(source))`occupants, Arrival(dest)`occupants
    ensures movers == old(Movers(Sources(source),
                                 Criteria(age, destination, dest.TotalInfected(), dest.TotalPopulation(), prudence), draws))
    ensures ok && dest.commonAreas != [] ==> forall k :: 0 <= k < |movers| ==> movers[k].1 in dest.commonAreas[0].occupants
    ensures ok ==> forall k :: 0 <= k < |movers| && movers[k].0 !in Arrival(dest) ==> movers[k].1 !in movers[k].0.occupants
    ensures ok ==> Contents(Reach(source, dest)) == Moved(old(Contents(Reach(source, dest))), movers, ArrivalArea(dest))
  {
    var c := Criteria(age, destination, dest.TotalInfected(), dest.TotalPopulation(), prudence);
    movers := SelectMovers(Sources(source), c, draws);
    ghost var ps := Sources(source);
    assert Inside(ps) == old(Inside(ps));
    assert forall p | p in ps :: p.occupants == old(p.occupants);
    assert Movers(ps, c, draws) == old(Movers(ps, c, draws));
    assert Contents(Reach(source, dest)) == old(Contents(Reach(source, dest)));
    ok := RelocateFrom(source, dest, movers);
  }

  /** The movement phase of a cohort move, with the places it may change
      named by the two provinces. */
  method RelocateFrom(source: Province, dest: Province, movers: seq<(Place, Individual)>) returns (ok: bool)
    requires forall p | p in Sources(source) && p !in Arrival(dest) :: Distinct(p.occupants)
    requires forall k | 0 <= k < |movers| :: movers[k].0 in Sources(source)
    modifies (set p | p in Sources(source))`occupants, Arrival(dest)`occupants
    ensures ok && dest.commonAreas != [] ==> forall k :: 0 <= k < |movers| ==> movers[k].1 in dest.commonAreas[0].occupants
    ensures ok ==> forall k :: 0 <= k < |movers| && movers[k].0 !in Arrival(dest) ==> movers[k].1 !in movers[k].0.occupants
    ensures ok ==> Contents(Reach(source, dest)) == Moved(old(Contents(Reach(source, dest))), movers, ArrivalArea(dest))
  {
    ghost var ps := set p | p in Sources(source);
    assert Placed(movers, ps);
    ok := Relocate(movers, dest, ps);
    assert Reach(source, dest) == ps + Arrival(dest);
  }

  /** `move_students_between_provinces`: young travellers; returns how
      many moved. */
  method MoveStudentsBetweenProvinces(registry: map<string, Province>, origin: string, destination: string,
                                      draws: Individual -> Draw, prudence: real)
    returns (moved: nat, ok: bool)
    requires origin in registry && destination in registry ==>
      forall p | p in Sources(registry[origin]) && p !in Arrival(registry[destination]) :: Distinct(p.occupants)
    modifies (if origin in registry && destination in registry then set p | p in Sources(registry[origin]) else {})`occupants
    modifies (if origin in registry && destination in registry then Arrival(registry[destination]) else {})`occupants
    ensures origin !in registry || destination !in registry ==> moved == 0 && ok
    ensures origin in registry && destination in registry ==>
      var dest := registry[destination];
      var movers := old(Movers(Sources(registry[origin]),
                               Criteria(Young, destination, dest.TotalInfected(), dest.TotalPopulation(), prudence), draws));
      && moved == |movers|
      && (ok ==> var scope := Reach(registry[origin], dest);
                 Contents(scope) == Moved(old(Contents(scope)), movers, ArrivalArea(dest)))
  {
    var movers;
    movers, ok := MoveCohort(registry, origin, destination, Young, draws, prudence);
    moved := |movers|;
  }

  /** `move_workers_between_provinces`: adult travellers; returns how many
      moved. */
  method MoveWorkersBetweenProvinces(registry: map<string, Province>, origin: string, destination: string,
                                     draws: Individual -> Draw, prudence: real)
    returns (moved: nat, ok: bool)
    requires origin in registry && destination in registry ==>
      forall p | p in Sources(registry[origin]) && p !in Arrival(registry[destination]) :: Distinct(p.occupants)
    modifies (if origin in registry && destination in registry then set p | p in Sources(registry[origin]) else {})`occupants
    modifies (if origin in registry && destination in registry then Arrival(registry[destination]) else {})`occupants
    ensures origin !in registry || destination !in registry ==> moved == 0 && ok
    ensures origin in registry && destination in registry ==>
      var dest := registry[destination];
      var movers := old(Movers(Sources(registry[origin]),
                               Criteria(Adult, destination, dest.TotalInfected(), dest.TotalPopulation(), prudence), draws));
      && moved == |movers|
      && (ok ==> var scope := Reach(registry[origin], dest);
                 Contents(scope) == Moved(old(Contents(scope)), movers, ArrivalArea(dest)))
  {
    var movers;
    movers, ok := MoveCohort(registry, origin, destination, Adult, draws, prudence);
    moved := |movers|;
  }

  /** The `(number, hours)` return entries of the moved elderly, in order. */
  function ReturnHours(movers: seq<(Place, Individual)>, draws: Individual -> Draw): (r: seq<(int, int)>)
    ensures |r| == |movers|
    ensures forall k :: 0 <= k < |r| ==>
      r[k] == (movers[k].1.number, ReturnTime(draws(movers[k].1).returnTime)) && 1 <= r[k].1 <= 3
  {
    if movers == [] then []
    else
      var n := |movers| - 1;
      ReturnHours(movers[..n], draws) + [(movers[n].1.number, ReturnTime(draws(movers[n].1).returnTime))]
  }

  /** `move_elderly_between_provinces`: elderly travellers; returns one
      `(number, hours)` entry per moved individual, hours in 1..3. */
  method MoveElderlyBetweenProvinces(registry: map<string, Province>, origin: string, destination: string,
                                     draws: Individual -> Draw, prudence: real)
    returns (returnHours: seq<(int, int)>, ok: bool)
    requires origin in registry && destination in registry ==>
      forall p | p in Sources(registry[origin]) && p !in Arrival(registry[destination]) :: Distinct(p.occupants)
    modifies (if origin in registry && destination in registry then set p | p in Sources(registry[origin]) else {})`occupants
    modifies (if origin in registry && destination in registry then Arrival(registry[destination]) else {})`occupants
    ensures origin !in registry || destination !in registry ==> returnHours == [] && ok
    ensures origin in registry && destination in registry ==>
      var dest := registry[destination];
      var movers := old(Movers(Sources(registry[origin]),
                               Criteria(Elderly, destination, dest.TotalInfected(), dest.TotalPopulation(), prudence), draws));
      && returnHours == ReturnHours(movers, draws)
      && (ok ==> var scope := Reach(registry[origin], dest);
                 Contents(scope) == Moved(old(Contents(scope)), movers, ArrivalArea(dest)))
    ensures forall k :: 0 <= k < |returnHours| ==> 1 <= returnHours[k].1 <= 3
  {
    var movers;
    movers, ok := MoveCohort(registry, origin, destination, Elderly, draws, prudence);
    returnHours := ReturnHours(movers, draws);
  }

  /** `get_home_from_hospital`: the individual is appended to its house's
      occupants, with no capacity check. */
  method GetHomeFromHospital(individual: Individual)
    requires individual.house != null
    modifies individual.house`occupants
    ensures individual.house.occupants == old(individual.house.occupants) + [individual]
  {
    individual.house.occupants := individual.house.occupants + [individual];
  }

  /** The houses of the listed agents. */
  function Homes(students: seq<Individual>): set<Place?>
    reads set x | x in students
  {
    set x | x in students :: x.house
  }

  /** The listed agents already in their own house. */
  function AtHome(students: seq<Individual>): set<Individual>
    reads (set x | x in students), Homes(students)
  {
    set x | x in students && x.house != null && x in x.house.occupants
  }

  /** The listed agents that stand in an occupant list. */
  function Found(students: seq<Individual>, occ: seq<Individual>): set<Individual> {
    set x | x in students && x in occ
  }

  /** The listed agents that stand in one of the first `n` occupant lists. */
  function FoundIn(students: seq<Individual>, lists: seq<seq<Individual>>, n: nat): set<Individual>
    requires n <= |lists|
  {
    set x | x in students && exists b :: 0 <= b < n && x in lists[b]
  }

  /** The listed agents an area sends home: those in it not already at home. */
  function Leaving(students: seq<Individual>, occ: seq<Individual>, home: set<Individual>): set<Individual> {
    set x | x in students && x in occ && x !in home
  }

  /** The occupant lists of a sequence of places. */
  function Occupancies(ps: seq<Place>): (r: seq<seq<Individual>>)
    reads set p | p in ps
    ensures |r| == |ps| && forall b :: 0 <= b < |ps| ==> r[b] == ps[b].occupants
  {
    if ps == [] then [] else Occupancies(ps[..|ps| - 1]) + [ps[|ps| - 1].occupants]
  }

  /** What a snapshot of the houses records for `h`. */
  function Held(was: map<Place, seq<Individual>>, h: Place): seq<Individual> {
    if h in was then was[h] else []
  }

  /** The occupant list of each house of the listed agents. */
  ghost function Households(students: seq<Individual>): (r: map<Place, seq<Individual>>)
    reads (set x | x in students), Homes(students)
    ensures forall h: Place {:trigger Held(r, h)} | h in Homes(students) :: Held(r, h) == h.occupants
  {
    map h: Place | h in Homes(students) :: h.occupants
  }

  /** The listed agents whose house is `h`. */
  function Dwellers(students: seq<Individual>, h: Place): set<Individual>
    reads (set x | x in students)`house
  {
    set x | x in students && x.house == h
  }

  /** The houses after the first `k` steps of a pass: each has gained, at
      its end, the agents among those `k` that leave the area for it. */
  ghost predicate Housed(students: seq<Individual>, k: int, moved: set<Individual>, before: map<Place, seq<Individual>>)
    reads (set x | x in students), Homes(students)
    requires 0 <= k <= |students|
  {
    forall h: Place {:trigger Held(before, h)} | h in Homes(students) ::
      h.occupants == Held(before, h) + Within(students[..k], moved * Dwellers(students, h))
  }

  lemma FoundSnoc(students: seq<Individual>, k: int, occ: seq<Individual>)
    requires 0 <= k < |students|
    ensures Found(students[..k + 1], occ) == Found(students[..k], occ) + (if students[k] in occ then {students[k]} else {})
  {
    assert students[..k + 1] == students[..k] + [students[k]];
  }

  lemma FoundInSnoc(students: seq<Individual>, lists: seq<seq<Individual>>, a: nat)
    requires a < |lists|
    ensures FoundIn(students, lists, a + 1) == FoundIn(students, lists, a) + Found(students, lists[a])
  {
    forall x | x in students && x in FoundIn(students, lists, a + 1) && x !in lists[a]
      ensures x in FoundIn(students, lists, a)
    {
      var b :| 0 <= b < a + 1 && x in lists[b];
    }
  }

  /** Striking the `k`-th listed agent, who stood in the area, from what
      is left of the list. */
  lemma StrikeStep(rest0: seq<Individual>, students: seq<Individual>, k: int, start: seq<Individual>)
    requires Distinct(students) && Distinct(rest0) && 0 <= k < |students| && students[k] in start
    ensures var rest, x := Without(rest0, Found(students[..k], start)), students[k];
      && (x in rest <==> x in rest0)
      && (x in rest ==> RemoveFirst(rest, x) == Without(rest0, Found(students[..k + 1], start)))
  {
    var x := students[k];
    var gone := Found(students[..k], start);
    var rest := Without(rest0, gone);
    assert x !in gone by {
      DistinctNotBefore(students, k, {});
    }
    if x in rest {
      assert Found(students[..k + 1], start) == gone + {x} by {
        FoundSnoc(students, k, start);
      }
      WithoutDistinct(rest0, gone);
      RemoveFirstIsWithout(rest, x);
      WithoutWithout(rest0, gone, {x});
    }
  }

  /** The move inside a pass: the `k`-th listed agent, found in the area,
      leaves it for its house unless already there; no other listed agent
      enters or leaves its house. */
  method TakeHome(ca: Place, students: seq<Individual>, k: int, ghost start: seq<Individual>, ghost moved: set<Individual>)
    requires Distinct(students) && 0 <= k < |students|
    requires forall y | y in students :: y.house != null && y.house != ca
    requires students[k] in moved <==> students[k] !in students[k].house.occupants
    requires ca.occupants == RemoveEach(start, Within(students[..k], moved))
    modifies ca`occupants, students[k].house`occupants
    ensures ca.occupants == RemoveEach(start, Within(students[..k + 1], moved))
    ensures students[k] in students[k].house.occupants
    ensures students[k].house.occupants == old(students[k].house.occupants) + (if students[k] in moved then [students[k]] else [])
    ensures forall y | y in students && y != students[k] :: y in y.house.occupants <==> y in old(y.house.occupants)
    ensures forall j :: k < j < |students| ==> (students[j] in ca.occupants <==> students[j] in old(ca.occupants))
  {
    var x := students[k];
    WithinSnoc(students, k, moved);
    if x !in x.house.occupants {
      RemoveFirstMembers(ca.occupants, x);
      assert Within(students[..k + 1], moved) == Within(students[..k], moved) + [x];
      RemoveEachSnoc(start, Within(students[..k], moved), x);
      ca.RemoveIndividual(x);
      x.house.occupants := x.house.occupants + [x];
    } else {
      assert Within(students[..k + 1], moved) == Within(students[..k], moved);
    }
  }

  /** What one area's pass has established after its first `k` agents:
      those found are struck from the list, those found away from home have
      left the area and are at home, and the rest is as it was. */
  ghost predicate Visited(ca: Place, students: seq<Individual>, k: int, rest0: seq<Individual>, start: seq<Individual>,
                          home: set<Individual>, moved: set<Individual>, rest: seq<Individual>)
    reads ca, (set x | x in students), set x | x in students :: x.house
    requires 0 <= k <= |students|
    requires forall x | x in students :: x.house != null
  {
    && (forall j :: 0 <= j < k && students[j] in start ==> students[j] in rest0)
    && rest == Without(rest0, Found(students[..k], start))
    && (forall j :: k <= j < |students| ==> (students[j] in ca.occupants <==> students[j] in start))
    && ca.occupants == RemoveEach(start, Within(students[..k], moved))
    && (forall y | y in students :: (y in y.house.occupants <==> y in home || y in Found(students[..k], start)))
  }

  /** The `k`-th step of one area's pass. */
  method Visit(ca: Place, students: seq<Individual>, k: int, rest0: seq<Individual>, ghost start: seq<Individual>,
               ghost home: set<Individual>, ghost moved: set<Individual>, ghost before: map<Place, seq<Individual>>,
               rest: seq<Individual>)
    returns (ok: bool, rest': seq<Individual>, next: int)
    requires Distinct(students) && Distinct(rest0) && 0 <= k < |students|
    requires forall x | x in students :: x.house != null && x.house != ca
    requires moved == set x | x in students && x in start && x !in home
    requires Visited(ca, students, k, rest0, start, home, moved, rest)
    requires Housed(students, k, moved, before)
    modifies ca`occupants, students[k].house`occupants
    ensures next == k + 1
    ensures ok ==> Visited(ca, students, next, rest0, start, home, moved, rest')
    ensures ok <==> students[k] !in start || students[k] in rest0
    ensures Housed(students, next, moved, before)
  {
    next := k + 1;
    if students[k] in ca.occupants {
      ok, rest' := VisitFound(ca, students, k, rest0, start, home, moved, rest);
    } else {
      ok, rest' := true, rest;
      PassOver(ca, students, k, rest0, start, home, moved, rest);
    }
    forall h | h in Homes(students)
      ensures h.occupants == Held(before, h) + Within(students[..k + 1], moved * Dwellers(students, h))
    {
      WithinSnoc(students, k, moved * Dwellers(students, h));
    }
  }

  /** The step for an agent found in the area: it goes home unless already
      there, and is struck from the list. */
  method VisitFound(ca: Place, students: seq<Individual>, k: int, rest0: seq<Individual>, ghost start: seq<Individual>,
                    ghost home: set<Individual>, ghost moved: set<Individual>, rest: seq<Individual>)
    returns (ok: bool, rest': seq<Individual>)
    requires Distinct(students) && Distinct(rest0) && 0 <= k < |students|
    requires forall x | x in students :: x.house != null && x.house != ca
    requires moved == set x | x in students && x in start && x !in home
    requires Visited(ca, students, k, rest0, start, home, moved, rest)
    requires students[k] in ca.occupants
    modifies ca`occupants, students[k].house`occupants
    ensures ok ==> Visited(ca, students, k + 1, rest0, start, home, moved, rest')
    ensures ok <==> students[k] in rest0
    ensures students[k].house.occupants == old(students[k].house.occupants) + (if students[k] in moved then [students[k]] else [])
  {
    var x := students[k];
    assert x in start;
    assert x !in Found(students[..k], start) && Found(students[..k + 1], start) == Found(students[..k], start) + {x} by {
      FoundSnoc(students, k, start);
      DistinctNotBefore(students, k, {});
    }
    assert (x in rest <==> x in rest0)
      && (x in rest ==> RemoveFirst(rest, x) == Without(rest0, Found(students[..k + 1], start))) by {
      StrikeStep(rest0, students, k, start);
    }
    assert x in moved <==> x !in x.house.occupants;
    TakeHome(ca, students, k, start, moved);
    if x !in rest {
      return false, rest;
    }
    ok, rest' := true, RemoveFirst(rest, x);
    assert forall j :: 0 <= j < k + 1 && students[j] in start ==> students[j] in rest0;
    assert forall j :: k + 1 <= j < |students| ==> (students[j] in ca.occupants <==> students[j] in start);
    assert forall y | y in students :: (y in y.house.occupants <==> y in home || y in Found(students[..k + 1], start));
  }

  /** The step for an agent not in the area: nothing moves and the list is
      kept. */
  lemma PassOver(ca: Place, students: seq<Individual>, k: int, rest0: seq<Individual>, start: seq<Individual>,
                 home: set<Individual>, moved: set<Individual>, rest: seq<Individual>)
    requires 0 <= k < |students|
    requires forall x | x in students :: x.house != null
    requires moved == set x | x in students && x in start && x !in home
    requires Visited(ca, students, k, rest0, start, home, moved, rest)
    requires students[k] !in ca.occupants
    ensures Visited(ca, students, k + 1, rest0, start, home, moved, rest)
  {
    var x := students[k];
    assert x !in start;
    assert Found(students[..k + 1], start) == Found(students[..k], start) by {
      FoundSnoc(students, k, start);
    }
    assert Within(students[..k + 1], moved) == Within(students[..k], moved) by {
      WithinSnoc(students, k, moved);
    }
  }

  /** One common area's pass of `get_home_students`: each listed agent in
      the area is struck from `rest0` and, unless already at home, taken out
      of the area and appended to its house. Striking an agent no longer in
      the list is the source's `ValueError`: `ok` is false and the pass
      stops there. */
  method SendHomeFrom(ca: Place, students: seq<Individual>, rest0: seq<Individual>)
    returns (rest: seq<Individual>, ok: bool)
    requires Distinct(students) && Distinct(rest0)
    requires forall x | x in students :: x.house != null && x.house != ca
    modifies ca`occupants, Homes(students)`occupants
    ensures ok <==> forall x | x in students && x in old(ca.occupants) :: x in rest0
    ensures ok ==> rest == Without(rest0, Found(students, old(ca.occupants)))
    ensures ok ==> ca.occupants == RemoveEach(old(ca.occupants),
      Within(students, Leaving(students, old(ca.occupants), old(AtHome(students)))))
    ensures ok ==> forall x | x in students ::
      (x in x.house.occupants <==> x in old(x.house.occupants) || x in old(ca.occupants))
    ensures ok ==> forall h: Place {:trigger Dwellers(students, h)} | h in Homes(students) ::
      h.occupants == old(h.occupants) + Within(students, Leaving(students, old(ca.occupants), old(AtHome(students))) * Dwellers(students, h))
  {
    ghost var start := ca.occupants;
    ghost var home := AtHome(students);
    ghost var moved := Leaving(students, start, home);
    ghost var before := Households(students);
    rest := rest0;
    ok := true;
    var k := 0;
    assert students[..0] == [];
    assert Found([], start) == {};
    assert Within([], moved) == [];
    assert Housed(students, 0, moved, before);
    WithoutNone(rest0, {});
    while k < |students|
      invariant 0 <= k <= |students|
      invariant Visited(ca, students, k, rest0, start, home, moved, rest)
      invariant Housed(students, k, moved, before)
    {
      ok, rest, k := Visit(ca, students, k, rest0, start, home, moved, before, rest);
      if !ok {
        return;
      }
    }
    assert students[..k] == students;
    assert rest == Without(rest0, Found(students, start));
    assert ca.occupants == RemoveEach(start, Within(students, moved));
    assert forall h: Place | h in Homes(students) :: h in old(Homes(students)) && Held(before, h) == old(h.occupants);
  }

  /** What the sweep of `get_home_students` has established after its
      first `a` common areas: those areas have sent their found agents home,
      the found agents are struck from the list, and the later areas are
      untouched. */
  ghost predicate Swept(areas: seq<Place>, students: seq<Individual>, a: int, start: seq<seq<Individual>>,
                        home: set<Individual>, rest: seq<Individual>)
    reads (set p | p in areas), (set x | x in students), set x | x in students :: x.house
    requires 0 <= a <= |areas| == |start|
    requires forall x | x in students :: x.house != null
  {
    && (forall b | a <= b < |areas| :: areas[b].occupants == start[b])
    && (forall b | 0 <= b < a ::
          areas[b].occupants == RemoveEach(start[b], Within(students, Leaving(students, start[b], home))))
    && rest == Without(students, FoundIn(students, start, a))
    && (forall y | y in students :: (y in y.house.occupants <==> y in home || y in FoundIn(students, start, a)))
  }

  /** What a house gains from the first `a` common areas: area by area,
      the agents each sends home among the house's `dwellers`, in list
      order. */
  function Homecoming(students: seq<Individual>, start: seq<seq<Individual>>, home: set<Individual>, a: int,
                      dwellers: set<Individual>): seq<Individual>
    requires 0 <= a <= |start|
  {
    if a == 0 then []
    else Homecoming(students, start, home, a - 1, dwellers) + Within(students, Leaving(students, start[a - 1], home) * dwellers)
  }

  /** The houses after the first `a` common areas: each holds what it held
      before the sweep, then what those areas sent it. */
  ghost predicate Gathered(students: seq<Individual>, start: seq<seq<Individual>>, home: set<Individual>, a: int,
                           was: map<Place, seq<Individual>>)
    reads (set x | x in students), Homes(students)
    requires 0 <= a <= |start|
  {
    forall h: Place {:trigger Held(was, h)} | h in Homes(students) ::
      h.occupants == Held(was, h) + Homecoming(students, start, home, a, Dwellers(students, h))
  }

  /** The `a`-th common area's turn in `get_home_students`. */
  method VisitArea(areas: seq<Place>, students: seq<Individual>, a: int, ghost start: seq<seq<Individual>>,
                   ghost home: set<Individual>, rest: seq<Individual>)
    returns (ok: bool, rest': seq<Individual>, next: int)
    requires Distinct(students) && Distinct(areas) && 0 <= a < |areas| == |start|
    requires forall x | x in students :: x.house != null && x.house !in areas
    requires Swept(areas, students, a, start, home, rest) && Apart(students, start, a)
    modifies {areas[a]}`occupants, Homes(students)`occupants
    ensures next == a + 1
    ensures ok ==> Swept(areas, students, a + 1, start, home, rest') && Apart(students, start, a + 1)
    ensures ok ==> forall h: Place {:trigger Dwellers(students, h)} | h in Homes(students) ::
      h.occupants == old(h.occupants) + Within(students, Leaving(students, start[a], home) * Dwellers(students, h))
    ensures !ok ==> !Apart(students, start, |start|)
  {
    var ca := areas[a];
    ghost var before := FoundIn(students, start, a);
    ghost var now := AtHome(students);
    assert Distinct(rest) by {
      WithoutDistinct(students, before);
    }
    assert forall x | x in students :: x in now <==> x in home || x in before;
    assert forall b | 0 <= b < |areas| :: areas[b] !in Homes(students);
    rest', ok := SendHomeFrom(ca, students, rest);
    next := a + 1;
    assert forall b | 0 <= b < |areas| && b != a :: areas[b].occupants == old(areas[b].occupants);
    assert ok <==> Found(students, start[a]) !! before by {
      WithoutMembers(students, before);
      assert forall x | x in students :: x in rest <==> x !in before;
    }
    if ok {
      SweptStep(areas, students, a, start, home, now, rest, rest');
      LeavingAgrees(students, start[a], now, home, before);
    }
  }

  /** The sweep invariant after the `a`-th area, from its value before and
      what that area's pass did. */
  lemma SweptStep(areas: seq<Place>, students: seq<Individual>, a: int, start: seq<seq<Individual>>,
                  home: set<Individual>, now: set<Individual>, rest: seq<Individual>, rest': seq<Individual>)
    requires 0 <= a < |areas| == |start|
    requires forall x | x in students :: x.house != null
    requires forall b | a + 1 <= b < |areas| :: areas[b].occupants == start[b]
    requires forall b | 0 <= b < a ::
      areas[b].occupants == RemoveEach(start[b], Within(students, Leaving(students, start[b], home)))
    requires areas[a].occupants == RemoveEach(start[a], Within(students, Leaving(students, start[a], now)))
    requires Found(students, start[a]) !! FoundIn(students, start, a)
    requires forall x | x in students :: x in now <==> x in home || x in FoundIn(students, start, a)
    requires rest == Without(students, FoundIn(students, start, a))
    requires rest' == Without(rest, Found(students, start[a]))
    requires forall y | y in students :: (y in y.house.occupants <==> y in now || y in start[a])
    ensures Swept(areas, students, a + 1, start, home, rest')
  {
    ghost var before := FoundIn(students, start, a);
    assert Leaving(students, start[a], now) == Leaving(students, start[a], home) by {
      LeavingAgrees(students, start[a], now, home, before);
    }
    assert FoundIn(students, start, a + 1) == before + Found(students, start[a]) by {
      FoundInSnoc(students, start, a);
    }
    assert rest' == Without(students, FoundIn(students, start, a + 1)) by {
      WithoutWithout(students, before, Found(students, start[a]));
    }
    assert forall b | a + 1 <= b < |areas| :: areas[b].occupants == start[b];
    assert forall b | 0 <= b < a + 1 ::
      areas[b].occupants == RemoveEach(start[b], Within(students, Leaving(students, start[b], home)));
    assert forall y | y in students :: (y in y.house.occupants <==> y in home || y in FoundIn(students, start, a + 1));
  }

  /** Agents already sent home from earlier areas never stood in this one,
      so for this area the houses as they are and as they were agree on who
      leaves it. */
  lemma LeavingAgrees(students: seq<Individual>, occ: seq<Individual>, now: set<Individual>,
                      home: set<Individual>, found: set<Individual>)
    requires forall x | x in students :: x in now <==> x in home || x in found
    requires Found(students, occ) !! found
    ensures Leaving(students, occ, now) == Leaving(students, occ, home)
  {
    assert forall x | x in students && x in occ :: x !in found && x in Found(students, occ);
  }

  /** Before the sweep nothing has been done. */
  lemma SweptStart(areas: seq<Place>, students: seq<Individual>)
    requires forall x | x in students :: x.house != null
    ensures Swept(areas, students, 0, Occupancies(areas), AtHome(students), students)
  {
    assert FoundIn(students, Occupancies(areas), 0) == {};
    WithoutNone(students, {});
  }

  /** No listed agent stands in two of the first `n` occupant lists: none
      in a list is found in an earlier one. */
  ghost predicate Apart(students: seq<Individual>, lists: seq<seq<Individual>>, n: nat)
    requires n <= |lists|
  {
    forall a | 0 <= a < n :: Found(students, lists[a]) !! FoundIn(students, lists, a)
  }

  /** `Apart` is the pairwise condition: no listed agent in two lists. */
  lemma {:induction false} ApartPairwise(students: seq<Individual>, lists: seq<seq<Individual>>, n: nat)
    requires n <= |lists|
    ensures Apart(students, lists, n) <==>
      forall x, b, c | x in students && 0 <= b < c < n :: !(x in lists[b] && x in lists[c])
  {
    if Apart(students, lists, n) {
      forall x, b, c | x in students && 0 <= b < c < n
        ensures !(x in lists[b] && x in lists[c])
      {
        if x in lists[b] {
          assert x in FoundIn(students, lists, c);
          assert x !in Found(students, lists[c]);
        }
      }
    } else {
      var c :| 0 <= c < n && !(Found(students, lists[c]) !! FoundIn(students, lists, c));
      var x :| x in Found(students, lists[c]) && x in FoundIn(students, lists, c);
      var b :| 0 <= b < c && x in lists[b];
      assert x in students && x in lists[b] && x in lists[c];
    }
  }

  /** The loop of `get_home_students` over the common areas, in order. */
  method SweepAreas(areas: seq<Place>, students: seq<Individual>) returns (rest: seq<Individual>, ok: bool)
    requires Distinct(students) && Distinct(areas)
    requires forall x | x in students :: x.house != null && x.house !in areas
    modifies (set p | p in areas)`occupants, Homes(students)`occupants
    ensures ok <==> Apart(students, old(Occupancies(areas)), |areas|)
    ensures ok ==> Swept(areas, students, |areas|, old(Occupancies(areas)), old(AtHome(students)), rest)
    ensures ok ==> forall h: Place {:trigger Dwellers(students, h)} | h in Homes(students) ::
      h.occupants == old(h.occupants) + Homecoming(students, old(Occupancies(areas)), old(AtHome(students)), |areas|, Dwellers(students, h))
  {
    ghost var start := Occupancies(areas);
    ghost var home := AtHome(students);
    ghost var was := Households(students);
    assert start == old(Occupancies(areas)) && home == old(AtHome(students));
    SweptStart(areas, students);
    rest := students;
    ok := true;
    var a := 0;
    while a < |areas|
      invariant 0 <= a <= |areas| && ok
      invariant Swept(areas, students, a, start, home, rest) && Apart(students, start, a)
      invariant Gathered(students, start, home, a, was)
    {
      var next;
      ok, rest, next := GatherArea(areas, students, a, start, home, was, rest);
      if !ok {
        return;
      }
      a := next;
    }
    assert forall h: Place | h in Homes(students) :: h in old(Homes(students)) && Held(was, h) == old(h.occupants);
  }

  /** The `a`-th common area's turn, with what the houses have gained so
      far. */
  method GatherArea(areas: seq<Place>, students: seq<Individual>, a: int, ghost start: seq<seq<Individual>>,
                    ghost home: set<Individual>, ghost was: map<Place, seq<Individual>>, rest: seq<Individual>)
    returns (ok: bool, rest': seq<Individual>, next: int)
    requires Distinct(students) && Distinct(areas) && 0 <= a < |areas| == |start|
    requires forall x | x in students :: x.house != null && x.house !in areas
    requires Swept(areas, students, a, start, home, rest) && Apart(students, start, a)
    requires Gathered(students, start, home, a, was)
    modifies {areas[a]}`occupants, Homes(students)`occupants
    ensures next == a + 1
    ensures ok ==> Swept(areas, students, next, start, home, rest') && Apart(students, start, next)
    ensures ok ==> Gathered(students, start, home, next, was)
    ensures !ok ==> !Apart(students, start, |start|)
  {
    ok, rest', next := VisitArea(areas, students, a, start, home, rest);
    if ok {
      forall h: Place | h in Homes(students)
        ensures h.occupants == Held(was, h) + Homecoming(students, start, home, a + 1, Dwellers(students, h))
      {
        assert h in old(Homes(students)) && Dwellers(students, h) == old(Dwellers(students, h));
        HomecomingStep(students, start, home, a, Dwellers(students, h), Held(was, h), old(h.occupants), h.occupants);
      }
    }
  }

  /** A house's contents after one more area: what it held before the
      sweep, what the earlier areas sent it, then what this one sent. */
  lemma HomecomingStep(students: seq<Individual>, start: seq<seq<Individual>>, home: set<Individual>, a: int,
                       dwellers: set<Individual>, first: seq<Individual>, mid: seq<Individual>, last: seq<Individual>)
    requires 0 <= a < |start|
    requires mid == first + Homecoming(students, start, home, a, dwellers)
    requires last == mid + Within(students, Leaving(students, start[a], home) * dwellers)
    ensures last == first + Homecoming(students, start, home, a + 1, dwellers)
  {
  }

  /** `get_home_students`: every common area of the province in turn sends
      home the listed agents it holds. On success the returned list is the
      input without the agents found in a common area, each found agent is
      at home, and each area lost exactly the found agents that were not
      already at home. The run fails (the source's `ValueError`) exactly
      when some listed agent stood in two common areas. */
  method GetHomeStudents(current: Province, students: seq<Individual>) returns (rest: seq<Individual>, ok: bool)
    requires Distinct(students) && Distinct(current.commonAreas)
    requires forall x | x in students :: x.house != null && x.house !in current.commonAreas
    modifies (set p | p in current.commonAreas)`occupants, Homes(students)`occupants
    ensures ok <==> forall x, b, c | x in students && 0 <= b < c < |current.commonAreas| ::
      !(x in old(current.commonAreas[b].occupants) && x in old(current.commonAreas[c].occupants))
    ensures ok ==> rest == Without(students, FoundIn(students, old(Occupancies(current.commonAreas)), |current.commonAreas|))
    ensures ok ==> forall b | 0 <= b < |current.commonAreas| ::
      current.commonAreas[b].occupants == RemoveEach(old(current.commonAreas[b].occupants),
        Within(students, Leaving(students, old(current.commonAreas[b].occupants), old(AtHome(students)))))
    ensures ok ==> forall x | x in students ::
      (x in x.house.occupants <==> x in old(x.house.occupants) || x in FoundIn(students, old(Occupancies(current.commonAreas)), |current.commonAreas|))
    ensures ok ==> forall h: Place {:trigger Dwellers(students, h)} | h in Homes(students) ::
      h.occupants == old(h.occupants)
        + Homecoming(students, old(Occupancies(current.commonAreas)), old(AtHome(students)), |current.commonAreas|, Dwellers(students, h))
  {
    if students == [] {
      assert FoundIn(students, Occupancies(current.commonAreas), |current.commonAreas|) == {};
      return [], true;
    }
    rest, ok := SweepAreas(current.commonAreas, students);
    ApartPairwise(students, old(Occupancies(current.commonAreas)), |current.commonAreas|);
  }
}
