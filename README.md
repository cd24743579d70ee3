# A verified model of the TEAM epidemic simulator's engine

TEAM simulates an epidemic over a set of provinces. Each province holds places
(schools, workplaces, leisure centres, common areas, hospitals, ICUs and houses),
each place holds an ordered list of individuals, and each individual carries a
health state: a status (Healthy, Incubation, Infected, Recovered, Deceased),
day countdowns (incubation, infection, hospitalisation, vaccination, immunity),
ward flags and, in the viral-load model, the within-host loads `v1`, `v1_ino`,
`antiv`, `antivesp`, `phag`, `inf` and a symptom tier E1 to E4.

This project models, in Dafny, the engine of that simulator:

- `membrane.dfy` (module `Membrane`): places, provinces and individuals as
  classes whose fields the methods update in place. This covers
  - the capacity-checked `add_individual` and the first-occurrence `remove_individual`;
  - the per-place counts and the province sums;
  - the daily countdowns, `update_status` and the care pathway into hospital and ICU;
  - the house-stock arithmetic of `initialize_houses`;
  - `add_place` and `move_to_province`.
- `health.dfy` (module `Health`): the health state of one individual as a value
  (`Condition`). Every per-individual transition of the source is a function
  here, with lemmas about what it promises. The class methods are proved equal
  to these functions.
- `infection_rules.dfy` (module `InfectionRules`): the viral-load dynamics of
  `handle_infection`, phagocytosis, the symptom ladder, the transmission
  primitive `infect_individuals`, `clamp` and the antibody production table.
- `movement.dfy` (module `Movement`): the three inter-province cohort moves,
  the return of listed agents from common areas to their houses
  (`get_home_students`) and the hospital discharge.
- `simulation.dfy` (module `Simulation`):
  - the scheduler helpers: `can_move`, `move_individual`, `assign_to_house`,
    `track_infections` and `check_for_death`;
  - the population queries;
  - the leave waves that empty schools, workplaces and leisure centres into common areas;
  - the countdown list of `get_back_home_elderly`;
  - the (day, hour) gates of house, common-area and leisure transmission.
- `seqs.dfy` and `config.dfy`: list helpers (Python's `remove`, filtering,
  `str` of an integer) and the simulator's constants and settings record.

Every random draw is an input:
- a uniform draw is a `real` given per individual (a function
  `Individual -> real`) or index-aligned with a list;
- a count of successes out of a known number of trials is a natural number,
  bounded by its trial count in a precondition;
- a weighted choice is a function of a uniform draw (`Movement.ReturnTime`).

The class-level configuration of the source (`VIRAL_LOAD`, `ICU_PRESENCE`,
`INCUBATION_PERIOD`, `DEATH_REDUCTION_FACTOR`, the province registry and the
place counters) is passed in as parameters. A run that the source ends with
`sys.exit` (a full place in `add_individual`) returns `ok == false`; the state
after such a failure is not specified.

Four behaviours of the source are modelled as written:
- In `update_status`, `status in ("Healthy" or "Incubation")` tests only
  "Healthy". `Health.StatusGuardHarmless` proves the intended reading would
  behave identically, because the Incubation branch would only re-assign
  Incubation.
- In `get_back_home_elderly`, an entry with one hour left whose agent is in no
  province's first common area stays in the list with zero hours and keeps
  counting down into negative numbers on later calls (`Simulation.Remaining`).
- `reduce_hospital_day` applies `recover` to every occupant whose countdown
  is zero, including one that was never in a ward (`Health.HospitalDayPassed`);
  the simulator only calls it on hospitals and ICUs.
- `recover` inside `progress_infection` sets immunity to 180 days, and the
  same call's immunity step at once takes it to 179
  (`Health.StayEndRecovers`, `Health.InfectionEndRecovers`).

## Model

| member | source | states |
|---|---|---|
| Health.InfectionStarted | membrane.py:1139-1146 | `start_infection` makes the individual Infected, sets the viral load to INFECTION_V1 only in the viral-load model, and changes nothing else |
| Health.Recovery | membrane.py:1148-1155 | `recover` gives Recovered with 180 immunity days; in the viral-load model `v1`, `antivesp` and `inf` become 0 and symptoms E1, otherwise those fields are kept; no other field changes |
| Health.RecoveryInRange | membrane.py:1148-1155 | recovery keeps the four loads within [0, 1000] |
| Health.IncubationTick | membrane.py:1108-1111 | an incubating individual with one day left starts its infection |
| Health.ProgressCountdowns | membrane.py:1108-1131 | a day of `progress_infection` lowers each of the five countdowns by one when its guard holds and it is positive: incubation while incubating, hospital stay while in a ward, vaccination, infection while infected (an incubation ending that day counts) and immunity while Recovered; the end of a stay zeroes the infection countdown, a recovery that day leaves 179 immunity days, and the vaccine flag clears exactly when its countdown runs out |
| Health.ProgressKeepsCountdownsNatural | membrane.py:1108-1136 | no countdown ever goes below zero |
| Health.ProgressLeavesImmunity | membrane.py:1101-1136 | progression leaves `v1_ino`, `antiv`, `antivesp`, `phag`, `inf` and the symptom tier unchanged |
| Health.IncubationEndsInInfection | membrane.py:1108-1111 | incubation that reaches zero yields Infected, with INFECTION_V1 in the viral-load model, unless a stay or an infection ends the same day |
| Health.StayEndRecovers | membrane.py:1113-1120 | the end of a hospital or ICU stay yields Recovered, clears both ward flags and the infection countdown, and leaves 179 immunity days after the same day's immunity step |
| Health.InfectionEndRecovers | membrane.py:1122-1126 | the end of the infection countdown yields Recovered with 179 immunity days left after the same day's step |
| Health.ImmunityEndsInHealth | membrane.py:1133-1136 | immunity that runs out returns a Recovered individual to Healthy |
| Health.ProgressPermitted | membrane.py:1101-1136 | a day of progression only makes permitted status changes: it never infects a Healthy individual and never kills; recovery is permitted from any status, the Deceased included, as the source does when a ward stay ends |
| Health.HospitalDayPassed | membrane.py:522-528 | the countdown drops by at most one, and only while a ward flag is set; at zero both flags are cleared and `recover` is applied; otherwise status and flags are kept |
| Health.VaccineDayPassed | membrane.py:537-541 | a positive vaccine countdown drops by one, and the flag stays set only while the countdown is non-zero; nothing else changes |
| Health.StatusUpdated | membrane.py:551-562 | the status rewrite of `update_status` never produces Deceased from a living individual |
| Health.StatusUpdateMeaning | membrane.py:557-562 | only the status changes; Recovered individuals and the non-viral model are untouched; otherwise a zero load gives Healthy, a load at INFECTION_V1 or above gives Infected, and a load in between gives Incubation from Healthy and keeps any other status |
| Health.StatusGuardHarmless | membrane.py:559-560 | the guard as written (`"Healthy" or "Incubation"` evaluates to "Healthy") and the guard as meant give the same result on every input |
| Health.StatusUpdateNoSkippedIncubation | membrane.py:557-562 | a Healthy individual below the infection load becomes Healthy or Incubation, never Infected |
| Health.Sweep | membrane.py:551-562 | the occupants kept after `update_status` visits each occupant once: none of them is Deceased, and there are no more of them than before |
| Health.SweepWithoutDeaths | membrane.py:551-562 | without deceased occupants every occupant is kept, in order, with its status rewritten |
| Health.SweepAsWrittenSkips | membrane.py:551-556 | as written, the occupant right after a removed Deceased one is not visited |
| Health.SweepAsWrittenKeepsDeceased | membrane.py:551-556 | as written, of two adjacent Deceased occupants only the first is removed, while the visit-every-occupant pass removes both |
| Health.CareRoutesDisjoint | membrane.py:587-638 | the admission guards (E3 or E4, Infected, no care days left, not hospitalised; for the ICU also E4 and not in ICU) and the transfer guard never apply together, an ICU candidate is a hospital candidate, and only severe Infected individuals enter either ward |
| Membrane.Individual.constructor | membrane.py:1040-1084 | the individual starts with the given identity, status, loads and flags, no house, zero countdowns, and vaccine protection only when vaccinated |
| Membrane.Individual.AssignToHouse | membrane.py:1086-1093 | the individual records its house |
| Membrane.Individual.StartInfection | membrane.py:1139-1146 | the new state is `InfectionStarted` of the old one |
| Membrane.Individual.Recover | membrane.py:1148-1155 | the new state is `Recovery` of the old one |
| Membrane.Individual.ProgressInfection | membrane.py:1101-1136 | the new state is the old one after the five countdown steps, in source order |
| Membrane.Individual.PassHospitalDay | membrane.py:522-528 | one occupant's turn in `reduce_hospital_day` |
| Membrane.Individual.PassVaccineDay | membrane.py:537-541 | one occupant's turn in `reduce_vaccine_day` |
| Membrane.Individual.UpdateOwnStatus | membrane.py:557-562 | one occupant's status rewrite in `update_status` |
| Membrane.Tallied | membrane.py:435-464 | a filtered count of a list never exceeds the list's length |
| Membrane.TalliesDisjoint | membrane.py:435-464 | infected plus still-to-vaccinate, and vaccinated plus still-to-vaccinate, each fit within the occupant count |
| Membrane.WithAge | membrane.py:475-500 | the age filter keeps exactly the members of the given age group |
| Membrane.DeceasedAmong | membrane.py:551-554 | the set of occupants that are Deceased |
| Membrane.SweepOfWithout | membrane.py:551-562 | removing the formerly Deceased occupants after rewriting everyone's status leaves exactly the states `Health.Sweep` describes |
| Membrane.KindOfPrefix | membrane.py:212-239 | a recognised label prefix names the kind whose prefix it is |
| Membrane.PrefixRecognised | membrane.py:212-239 | every kind's prefix is recognised as that kind, so the seven prefixes are distinct |
| Membrane.Place.constructor | membrane.py:380-394 | a new place is empty, with its kind, label and capacity and an infected count of zero |
| Membrane.Place.AddIndividual | membrane.py:396-414 | succeeds exactly when the place is below capacity; on success the individual is appended, earlier occupants are untouched and occupancy stays within capacity; otherwise nothing changes |
| Membrane.Place.RemoveIndividual | membrane.py:416-424 | deletes the first occurrence; occupancy drops by exactly one when present; an absent individual changes nothing |
| Membrane.Place.TotalInfected | membrane.py:435-443 | the infected count is at most the occupant count |
| Membrane.Place.TotalVaccinated | membrane.py:445-453 | the vaccinated count is at most the occupant count |
| Membrane.Place.TotalToVaccinate | membrane.py:455-464 | Healthy-and-unvaccinated occupants, which together with the infected, or with the vaccinated, fit within the occupant count |
| Membrane.Place.IndividualsAged | membrane.py:475-500 | the occupants of one age group: every one listed is an occupant of that group, and every occupant of that group is listed |
| Membrane.Place.UpdateInfectedCount | membrane.py:567-572 | the stored infected count equals the current count |
| Membrane.Place.ProgressInfections | membrane.py:502-512 | every occupant progresses one day, then the infected count is refreshed; only the individuals' health changes, and their house and vaccine effectiveness are kept |
| Membrane.Place.ReduceHospitalDay | membrane.py:514-528 | every occupant passes one hospital day; only the individuals' health changes, and their house and vaccine effectiveness are kept |
| Membrane.Place.ReduceVaccineDay | membrane.py:530-541 | every occupant passes one vaccine day; only the individuals' health changes, and their house and vaccine effectiveness are kept |
| Membrane.Place.UpdateStatus | membrane.py:543-565 | the formerly Deceased occupants leave the place in order, every old occupant has its status rewritten, the remaining states are `Health.Sweep` of the old ones, and the infected count is refreshed; apart from the place's own list and count, only the occupants' health changes |
| Membrane.Place.CheckHospitalization | membrane.py:574-599 | outside a hospital, a hospitalisation candidate whose draw admits it leaves this place for the hospital with 7 care days and the hospitalised flag; otherwise nothing changes; a full hospital gives `ok == false` |
| Membrane.Place.CheckIcu | membrane.py:601-638 | outside an ICU, an admitted ICU candidate, or a transfer with no draw, leaves for the ICU with the ICU flag (new care days only for an admission); otherwise nothing changes; a full ICU gives `ok == false` |
| Membrane.PlacesTalliesBounded | membrane.py:241-283 | summed over any places, the pairs of counts still fit within the population |
| Membrane.Max | membrane.py:120-121 | Python's `max` |
| Membrane.WorkingHouses | membrane.py:116-121 | the house stock aimed at is at least five |
| Membrane.HouseCounts | membrane.py:116-147 | six house counts by size, each at least one, which add up to at least the aimed stock and can hold at least the province population |
| Membrane.Province.constructor | membrane.py:78-102 | a new province has its label and seven empty place lists |
| Membrane.Province.TotalsByList | membrane.py:241-283 | each province total is the sum of that count over the seven place lists, and the pairs of totals fit within the population |
| Membrane.Province.MoveToProvince | membrane.py:181-193 | the individual joins the first common area when there is one and it has room; without common areas nothing happens; a full area gives `ok == false`; only occupant lists change, and every place keeps its name, capacity, target, count and province |
| Membrane.Province.AddPlace | membrane.py:195-239 | an unknown prefix changes nothing; a known one bumps its counter, relabels the place with the new counter value, zeroes its infected count, sets its province and appends it to the list of its kind only |
| Membrane.Province.File | membrane.py:226-239 | the place is appended to the list of its kind, and every other list is unchanged |
| Membrane.Province.InitializeHouses | membrane.py:104-157 | at least six houses are appended after the existing ones, labelled `H1_<label>`, `H2_<label>`, … with capacity 6 and targets 1 to 6, and the targets add up to at least the province population |
| Membrane.Province.BuildHouses | membrane.py:150-157 | the houses for six counts, numbered from one, whose targets add up to the room the counts give |
| Membrane.Province.NewHouses | membrane.py:152-157 | `count` consecutively numbered houses of one size |
| InfectionRules.Clamp | infection_rules.py:256-268 | the result lies in [lo, hi] and equals the value when it is already in range, otherwise the nearer bound |
| InfectionRules.ClampIdempotent | infection_rules.py:256-268 | clamping twice is clamping once |
| InfectionRules.AntivespPerMille | infection_rules.py:201-224 | the production probability is zero exactly for E1 (or no tier), and at most 0.024 |
| InfectionRules.AntivespOrdering | infection_rules.py:201-224 | the probability falls with age group and with symptom severity |
| InfectionRules.ClampLoads | infection_rules.py:227-238 | the four loads end in [0, 1000], loads already in range are kept, and nothing else changes |
| InfectionRules.ClampParameters | infection_rules.py:227-238 | the individual's new state is `ClampLoads` of the old one |
| InfectionRules.InfectionPass | infection_rules.py:133-198 | an individual with `v1 <= 0` is unchanged; one cleared by its antibodies recovers with `v1 == 0`; otherwise every load ends in [0, 1000] |
| InfectionRules.PassBookkeeping | infection_rules.py:150-198 | with draws within their trial counts, the produced antibodies are at most `min(v1//200, antiv//200)` and `v1` never goes negative; before the clamp `antiv` falls and `antivesp` rises by exactly the produced amount |
| InfectionRules.HandleOne | infection_rules.py:141-198 | one individual's loop body equals `InfectionPass` |
| InfectionRules.Respond | infection_rules.py:158-196 | the steps after the antibody kill equal the unclamped state of the specification |
| InfectionRules.Grow | infection_rules.py:160-183 | neutralisation, production, direct neutralisation and growth in source order; returns the produced antibodies |
| InfectionRules.HandleInfection | infection_rules.py:133-198 | every listed individual is updated by `InfectionPass` with its own draws; only the individuals' health changes, and their house and vaccine effectiveness are kept |
| InfectionRules.Phagocytosis | infection_rules.py:248-253 | individuals without inoculum are untouched; otherwise `v1_ino` drops by at most `phag` and never below zero; nothing else changes |
| InfectionRules.Digest | infection_rules.py:248-253 | one individual's turn equals `Phagocytosis` |
| InfectionRules.PhagEating | infection_rules.py:241-253 | every listed individual is updated by `Phagocytosis`; only the individuals' health changes, and their house and vaccine effectiveness are kept |
| InfectionRules.SymptomsChecked | infection_rules.py:271-291 | `inf` is reset to 0; at or below the threshold the tier becomes E1; above it the tier stays or moves one step, and E1 always moves to E2; nothing else changes |
| InfectionRules.SymptomsAtMostOneStep | infection_rules.py:278-291 | above the threshold the tier rises at most one rank and E4 stays E4 |
| InfectionRules.CheckSymptoms | infection_rules.py:278-291 | one individual's turn equals `SymptomsChecked` |
| InfectionRules.HandleSymptoms | infection_rules.py:271-291 | every listed individual is updated by `SymptomsChecked`; only the individuals' health changes, and their house and vaccine effectiveness are kept |
| InfectionRules.Transmitted | infection_rules.py:101-130 | only a Healthy candidate whose draw hits changes, to Incubation with INCUBATION_V1 and `inf + 1` in the viral-load model, or with INCUBATION_PERIOD days otherwise |
| InfectionRules.CaughtCountsChanges | infection_rules.py:101-130 | the count of new infections equals the number of candidates whose state changed, and is at most the number of Healthy candidates |
| InfectionRules.Expose | infection_rules.py:101-130 | reports a new infection exactly when the candidate was Healthy and hit, and applies `Transmitted` |
| InfectionRules.InfectIndividuals | infection_rules.py:77-130 | every candidate is updated by `Transmitted`, and the result is the number of new infections; only the individuals' health changes, and their house and vaccine effectiveness are kept |
| Movement.MoveProbability | movement_rules.py:51-59 | an empty destination gives probability one instead of a division by zero |
| Movement.MoveProbabilityBounds | movement_rules.py:51-59 | with no more infected than people and prudence in [0, 1], the probability lies in [0, 1], and E2 never moves more readily than E1 |
| Movement.ReturnTime | movement_rules.py:179-183 | the weighted choice returns 1, 2 or 3 hours |
| Movement.PlaceMovers | movement_rules.py:39-62 | the movers chosen from one place are its occupants of the right age group, destination and tier E1 or E2 whose draw passed |
| Movement.Movers | movement_rules.py:39-62 | every selected pair names a place of the origin, one of its occupants, and an individual that meets the criteria |
| Movement.SelectMovers | movement_rules.py:39-62 | the selection loop computes `Movers` and changes nothing |
| Movement.Relocate | movement_rules.py:65-69 | on success the searched places and the arrival area hold `Moved` of their old lists: mover by mover, in selection order, the first occurrence leaves its place and the mover is appended to the destination's first common area; so every mover ends in that area and is gone from any other origin place; failure happens only when that area is full; only occupant lists change, and every place keeps its name, capacity, target, count and province |
| Movement.Arrive | movement_rules.py:66-68 | one mover's turn: the places held `Moved` of the earlier movers and now hold it of one more; a full arrival area gives `ok == false`; only the two places' occupant lists may change |
| Movement.Depart | movement_rules.py:67 | the mover loses its first occurrence in its place, and every other tracked place keeps its list |
| Movement.Join | movement_rules.py:68 | the mover is appended to the arrival area when there is one and it has room; a full area gives `ok == false`; every other tracked place keeps its list |
| Movement.MovedStep | movement_rules.py:66-68 | `Moved` of one more mover is one `Shifted` step (remove first, then append) after the earlier movers |
| Movement.MovedArea | movement_rules.py:65-69 | an arrival area no mover came from ends with its old list followed by the travellers, in selection order |
| Movement.MovedOrigin | movement_rules.py:66-67 | every place other than the arrival area loses, one first occurrence at a time, exactly the individuals taken from it, and nothing else changes in it |
| Movement.MovedArrives | movement_rules.py:65-69 | every traveller is in the arrival area at the end, even one taken out of that area again after arriving |
| Movement.MovedLeaves | movement_rules.py:66-67 | a mover taken from a duplicate-free place other than the arrival area is no longer in that place |
| Movement.MovedEach | movement_rules.py:65-69 | every mover ends in the arrival area, and is gone from its duplicate-free origin place unless that is the arrival area |
| Movement.MoveFrom | movement_rules.py:39-69 | selection on the state before any move, then relocation: the searched places and the arrival area end as `Moved` of their old lists by exactly the selected movers; only occupant lists change, and every place keeps its name, capacity, target, count and province |
| Movement.RelocateFrom | movement_rules.py:65-69 | the movement phase over the origin province's places: on success those places and the arrival area end as `Moved` of their old lists, every mover is in the arrival area and gone from any other origin place; only occupant lists change |
| Movement.MoveCohort | movement_rules.py:18-71 | an unknown label moves nobody and changes nothing; otherwise the movers are exactly `Movers` of the state before any move, and on success the searched places and the arrival area end as `Moved` of their old lists by those movers; only occupant lists change, and every place keeps its name, capacity, target, count and province |
| Movement.MoveStudentsBetweenProvinces | movement_rules.py:18-71 | an unknown label returns 0; otherwise the count equals the number of young travellers selected, and on success the searched places and the arrival area end as `Moved` of their old lists by those travellers; only occupant lists change, and every place keeps its name, capacity, target, count and province |
| Movement.MoveWorkersBetweenProvinces | movement_rules.py:74-131 | an unknown label returns 0; otherwise the count equals the number of adult travellers selected, and on success the searched places and the arrival area end as `Moved` of their old lists by those travellers; only occupant lists change, and every place keeps its name, capacity, target, count and province |
| Movement.ReturnHours | movement_rules.py:179-190 | one `(number, hours)` entry per mover, in order, with hours in 1 to 3 |
| Movement.MoveElderlyBetweenProvinces | movement_rules.py:134-190 | an unknown label returns an empty list; otherwise one `(number, hours)` entry per elderly traveller selected, in order, with hours in 1 to 3, and on success the searched places and the arrival area end as `Moved` of their old lists by those travellers; only occupant lists change, and every place keeps its name, capacity, target, count and province |
| Movement.GetHomeFromHospital | movement_rules.py:217-224 | the individual is appended to its house's occupants, with no capacity check |
| Movement.SendHomeFrom | movement_rules.py:208-214 | one common area's pass: it fails exactly when a listed agent in the area was already struck from the list; on success the agents found there are struck, the area loses exactly those not already at home, and each of their houses keeps its old list and gains them at its end, in list order |
| Movement.TakeHome | movement_rules.py:211-213 | the found agent leaves the area for its house unless already there; its house gains it once, at the end, exactly when it was away; no other listed agent enters or leaves its house |
| Movement.VisitFound | movement_rules.py:209-214 | the step for a found agent: it goes home unless already there and is struck from the list, which fails exactly when it was struck before |
| Movement.PassOver | movement_rules.py:209 | an agent not in the area changes nothing |
| Movement.StrikeStep | movement_rules.py:214 | striking a found agent from what is left of the list agrees with the list without the agents found so far |
| Movement.Visit | movement_rules.py:208-214 | one listed agent's step of an area's pass keeps the pass invariant, and each house holds its old list followed by the agents sent to it so far |
| Movement.SweepAreas | movement_rules.py:207-214 | the pass over every common area in order: it succeeds exactly when no listed agent stands in two of the areas; on success each house holds its old list followed by `Homecoming`: area by area, the agents that area sent to it, in list order |
| Movement.VisitArea | movement_rules.py:207-214 | one area's turn in the sweep keeps the sweep invariant, fails only when some agent stands in two areas, and appends to each house the agents this area sends to it |
| Movement.GatherArea | movement_rules.py:207-214 | one area's turn also extends what each house has gained by this area's contribution |
| Movement.HomecomingStep | movement_rules.py:207-214 | what a house holds after one more area is its old list, the earlier areas' contributions, then this area's |
| Movement.LeavingAgrees | movement_rules.py:209-211 | agents sent home by earlier areas never stood in this one, so the houses as they are and as they were agree on who leaves it |
| Movement.SweptStep | movement_rules.py:207-214 | the sweep invariant after one more area, from its value before and what that area's pass did |
| Movement.SweptStart | movement_rules.py:204-205 | before the sweep the list is the input and no area has been visited |
| Movement.ApartPairwise | movement_rules.py:201-214 | the success condition of the sweep is exactly that no listed agent is in two areas' lists |
| Movement.GetHomeStudents | movement_rules.py:193-214 | an empty list changes nothing; success exactly when no listed agent stands in two common areas; on success the agents found in a common area are struck from the list, each area loses exactly those not already at home, every found agent is at home, and each house keeps its old list and gains at its end, area by area in list order, the agents sent to it |
| Simulation.Schedule | simulation.py:1004-1050 | the exact hours at which houses, common areas and leisure centres transmit, on weekdays and on weekends |
| Simulation.LeisureActive | simulation.py:1045-1067 | a leisure centre infects some age group exactly in the open hours, and the elderly only between 9 and 21 |
| Simulation.CanMove | simulation.py:1166-1172 | E3 and E4 never move, whatever the probability and the draw |
| Simulation.CanMoveMonotone | simulation.py:1166-1172 | with a probability and prudence in [0, 1], E2 moves only when E1 would, and E3/E4 never |
| Simulation.MoveIndividual | simulation.py:1174-1179 | succeeds exactly when the destination has room; then the individual's first occurrence leaves the origin and it is appended to the destination; otherwise nothing changes |
| Simulation.MoveConserves | simulation.py:1174-1179 | a move keeps the multiset of the two places' occupants |
| Simulation.ChooseHouse | simulation.py:216-225 | -1 exactly when no house is below its target; otherwise an available house with the fewest occupants, the first such one |
| Simulation.AssignToHouse | simulation.py:201-228 | no house is chosen exactly when none is available, and then the result is false with nothing changed; otherwise the chosen house is available, has the fewest occupants, and is the first such one; the assignment succeeds exactly when that house is below capacity (a full one is the source's `sys.exit`), so with every target within capacity it succeeds exactly when some house is available; on success the individual is appended to that house and records it, and no other house changes |
| Simulation.Simulation.TrackInfections | simulation.py:1070-1077 | one new-case value (distinct infected minus yesterday's count) and one prevalence value are appended, and yesterday's count becomes today's |
| Simulation.DailyCases | simulation.py:1075 | one new-case value per day |
| Simulation.DailyCasesTotal | simulation.py:1075-1077 | the new cases of a run add up to the last count minus the count before the run |
| Simulation.Dying | simulation.py:1142-1163 | the individuals that die, in list order: each of them died by its draw, and each one whose draw kills it is listed |
| Simulation.DyingFacts | simulation.py:1144-1163 | only Infected individuals die; in the viral-load model E1, E2 and untiered individuals never die; a list without duplicates records each death once |
| Simulation.Simulation.CheckForDeath | simulation.py:1142-1163 | every individual's state is its mortality outcome, and `deaths` gains exactly the dying, in order; only the individuals' health changes, and their house and vaccine effectiveness are kept |
| Simulation.Firsts | simulation.py:939-993 | the first occurrences of the kept elements, without duplicates |
| Simulation.FirstsMembers | simulation.py:939-993 | the first occurrences are exactly the kept elements of the scanned list |
| Simulation.Gather | simulation.py:941-943 | the loop over one occupant list extends the first occurrences by that list |
| Simulation.GatherPlaces | simulation.py:940-943 | the loop over a province's places extends the first occurrences by their occupants |
| Simulation.Collect | simulation.py:929-993 | a query over every province gives the first occurrences of the individuals it keeps, in scan order |
| Simulation.Simulation.GetAllIndividuals | simulation.py:979-993 | everyone in any place, each exactly once |
| Simulation.Simulation.GetInfectedIndividuals | simulation.py:946-960 | exactly those in any place who are Infected or have `v1 > 0`, each once |
| Simulation.Simulation.GetInoculatedIndividuals | simulation.py:962-977 | exactly those in any place with `v1_ino > 0`, each once |
| Simulation.Simulation.GetHouseIndividuals | simulation.py:929-944 | exactly those in any house, each once |
| Simulation.LeavePlace | simulation.py:705-713 | one place's leavers are removed in order and appended to the common area; success exactly when they all fit |
| Simulation.LeaveProvince | simulation.py:703-713 | a province's places of one kind, in order, lose their leavers to its common area; each place keeps exactly those who stay |
| Simulation.LeaveWave | simulation.py:695-764 | across all provinces, the list returned is the departures of every place in visiting order; each place keeps those who stay; each first common area gains its province's departures |
| Simulation.DepartedMembers | simulation.py:705-713 | those who depart are exactly the occupants the decision sends away, the rest stay, and no one is lost |
| Simulation.DepartedEveryone | simulation.py:717-733 | when everyone leaves, all depart in order and nobody stays |
| Simulation.DepartedNobody | simulation.py:705-713 | when nobody leaves, nobody departs |
| Simulation.DeparturesMembers | simulation.py:695-764 | the departures of many lists are the occupants of any of them that the decision sends away |
| Simulation.BelowBounds | simulation.py:705-708 | with draws in [0, 1), probability 0 keeps everyone and probability 1 sends everyone away |
| Simulation.Simulation.LeaveSchool | simulation.py:695-715 | the students whose draw falls below the probability leave every school for their province's first common area and are returned in order; the rest stay |
| Simulation.Simulation.LeaveWorkplace | simulation.py:717-733 | every worker leaves for the first common area and is returned in order; every workplace ends empty |
| Simulation.Simulation.LeaveLeisureAll | simulation.py:735-764 | visitors whose draw falls below their age group's probability leave every leisure centre for the first common area and are returned in order |
| Simulation.Simulation.LeaveLeisureElderly | simulation.py:832-849 | elderly visitors whose draw falls below the probability leave every leisure centre for the first common area and are returned in order; nobody else leaves |
| Simulation.Pick | simulation.py:904-907 | the first occupant, from the given index on, with the given number: no earlier occupant has it; none exactly when no occupant from that index on has it |
| Simulation.Locate | simulation.py:903-909 | the agent the search finds in some province's first common area; none exactly when no such agent exists |
| Simulation.Crowds | simulation.py:903-904 | the occupants of each province's first common area |
| Simulation.FindOutside | simulation.py:901-909 | the nested search loop returns `Locate`'s answer |
| Simulation.CountdownAppend | simulation.py:897-921 | the countdown works entry by entry: on two concatenated parts it is the countdown of each part |
| Simulation.CountdownSize | simulation.py:897-921 | every entry either stays in the list or brings its agent home |
| Simulation.CountdownQuiet | simulation.py:919-921 | when nobody is found, every entry keeps its place with one hour less |
| Simulation.DueSound | simulation.py:900-917 | every agent sent home was found for an entry with one hour left |
| Simulation.DueComplete | simulation.py:900-917 | every agent found for an entry with one hour left is sent home |
| Simulation.DueMembers | simulation.py:900-917 | the agents sent home are exactly those found for entries with one hour left |
| Simulation.DueOutside | simulation.py:903-913 | every agent sent home stands in one of the searched common areas |
| Simulation.DueDistinct | simulation.py:897-917 | a list that names each number once sends each agent home once |
| Simulation.DueReady | simulation.py:897-917 | a list that names each number once brings each agent home once, and each such agent has a house outside every common area |
| Simulation.Countdown | simulation.py:897-921 | the in-place loop leaves `Remaining` (entries found deleted, others one hour on, in order) and collects `Due` |
| Simulation.SendHomeStep | simulation.py:924-926 | one province's turn strikes the listed agents found in its common areas, leaves later provinces untouched, and succeeds exactly when no listed agent stands in two of its areas |
| Simulation.TurnReady | simulation.py:924-926 | a province's turn finds its common areas distinct, no listed agent housed in them, and the later provinces' areas neither its own nor a listed agent's house |
| Simulation.ScatteredAt | simulation.py:924-926 | when no listed agent stands in two common areas of one province, neither does any agent still in the list |
| Simulation.SendFrom | simulation.py:924-926 | the remaining provinces' turns strike exactly the agents found in them |
| Simulation.SendNext | simulation.py:924-926 | the turns after one province, from what its turn left: on success exactly the agents found in any province are struck, and they succeed when no agent stands in two areas of one province |
| Simulation.SendHome | simulation.py:924-926 | if no listed agent stands in two common areas of one province, the loop succeeds, and on success exactly the agents found in some province's common areas are struck from the list |
| Simulation.UnsentStruck | simulation.py:924-926 | the turns so far have struck exactly the listed agents found in those provinces |
| Simulation.UnsentWithin | simulation.py:924-926 | what is left of the list is part of it and names nobody twice |
| Simulation.Simulation.GetBackHomeElderly | simulation.py:886-926 | the elderly list becomes `Remaining` of the old one (found entries deleted, others one hour on), and the home-sending succeeds whenever no found agent stands in two common areas of one province |
| Simulation.BackHome | simulation.py:886-926 | the countdown of the list on the state before any move, then the home-sending of the agents it brings home: the new list is `Remaining` of the old one, and sending succeeds whenever no such agent stands in two common areas of one province |
| Simulation.Simulation.constructor | simulation.py:101-120 | a new engine holds no deaths, no daily cases or prevalence values, a zero count for yesterday and no currently infected individuals; it receives its provinces and settings, which the source fills in later (`create_scenario`) or keeps at class level |

## Left out

- Randomness: every `random` and `numpy.random` call is an input (a draw, a hit, a bounded count of successes). The float products that make the probabilities (infection rate over the reduction factor, the death table over DEATH_REDUCTION_FACTOR, the behaviour model's caution factor) are kept only as far as the decisions need them; `behavior_model.py` is not part of this model.
- Movement.Movers: a draw is a function of the individual (`Individual -> Draw`), so an agent standing in two searched places, or twice in one, gets the same draw at every visit and is selected at all of them or at none. The source draws afresh at each visit of its inner loop (movement_rules.py:61, 117, 165 and 179-181), so it can select such an agent once. The same holds for `Movement.PlaceMovers`, `Movement.SelectMovers`, `Movement.ReturnHours`, `Movement.MoveCohort` and the three cohort moves.
- Simulation.LeaveWave: the leave decision is a function of the individual (`Simulation.Below`, `Simulation.AgeBelow`, `Simulation.ElderlyBelow`), so an agent standing in two places of one wave leaves both or neither. The source draws afresh for each place it visits (simulation.py:709, 759 and 844), so it can move such an agent from only one of them. The same holds for `Simulation.LeavePlace`, `Simulation.LeaveProvince` and the leave methods of `Simulation.Simulation`.
- Input and output: the GUI (`interface.py`), CSV files, plots, prints, timing, and the hour-by-hour script of `run_simulation` beyond the gate predicates and the helpers above.
- Vaccination: `vaccinate_population` (shuffle and rounding) and `trigger_vaccination_progress` (a float comparison of counts) are float and sampling policy, and are not modelled.
- The place-kind infection methods (`infect_young_house` and the like) and `school_infections`, `workplace_infections`, `check_for_hospitalization`, `check_for_ICU`, `discharge_from_hospital`, `get_to_school`, `get_to_workplace`, `get_to_leisure_*` and `get_to_common_all` are outside this model. Their primitives (`infect_individuals`, `check_hospitalization`, `check_ICU`, `get_home_from_hospital`, `move_individual`, `can_move`) are modelled.
- The province-wide loops `trigger_infection_progress`, `reduce_all_hospital_day`, `reduce_all_vaccine_day` and `update_all_status` (membrane.py:326-369) call the place methods above on each place; they are not modelled separately.
- `leave_common_all` (simulation.py:816-829): the list it collects can name one agent twice, and the source tolerates that. The home-sending model requires a list without duplicates, so this wave is not modelled.
- `get_back_home_all`, `get_back_home_students` and `get_back_home_workers` (simulation.py:851-884) run the same province loop as `Simulation.SendHome` over a given list; they are not modelled separately.
- Class-level state (the province registry, the place counters, the configuration flags) is passed in and returned as parameters, not kept as global mutable state.
- A run the source ends with `sys.exit` returns `ok == false`, and the state after that is unspecified. The loops over provinces are recursive methods that stop at the first failure.
- Every province is required to have a common area wherever the source indexes `common_areas[0]` (the elderly countdown and the leave waves).
- Lists are required to be free of duplicates where a loop updates each listed individual in place (`Distinct`), and the leave waves require their places and common areas to be distinct objects (`WaveReady`). The source does not check either.
- Movement.GetHomeStudents: requires a list without duplicates, distinct common areas, and houses that are set and are not common areas. When a listed agent stands in two common areas the source raises `ValueError` on the second removal; the model returns `ok == false` there and leaves the state after it unspecified.
- Simulation.SendHome: states which agents are struck from the list and that the loop succeeds, but not where each agent ends up once several provinces' turns have moved it, because the houses are not tracked across provinces.
- Simulation.Simulation.GetBackHomeElderly: requires that no number is listed twice, although the simulator's own schedule can produce such a list. `get_back_home_elderly`'s list is extended every weekday hour from 8 to 18 (simulation.py:387-406). A province is paired with itself as a destination (simulation.py:642-645), and the elderly cohort move also draws from common areas (movement_rules.py:161-162). So an elderly agent already waiting in its destination's first common area can be selected again and listed a second time. The source tolerates the repeat, because `get_home_students` skips an agent that is already at home. That case is not modelled. The method also states the new countdown list and when sending home succeeds, but not the final houses and common areas (see `Simulation.SendHome`), and it returns the new list instead of rewriting the caller's list in place.
- Simulation.BackHome: the same limits as `Simulation.Simulation.GetBackHomeElderly`, whose body it is: no repeated numbers, and no final houses or common areas.
- The `else` branch that rejects an unknown age group cannot be reached, because the age group is an enumeration; it is not modelled.
- Python floats are modelled as exact reals, without rounding; integers are unbounded, as in Python.
- Membrane.Individual.constructor: a Deceased initial status, which the source rejects with `ValueError`, is excluded by a precondition instead of being modelled as an error.

## Findings

| source | as written | input that shows it | evidently intended | confidence | as-written member | corrected member |
|---|---|---|---|---|---|---|
| membrane.py:551-556 | `update_status` removes Deceased occupants from `individuals_inside` while iterating over that list, so the occupant right after a removed one is never visited | two adjacent Deceased occupants `[d, d]`: only the first is removed, and the second stays in the place | every occupant is visited once, and every Deceased occupant leaves the place | high (not executed) | Health.SweepAsWrittenKeepsDeceased | Health.Sweep |
