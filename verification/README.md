# Peripheral clock model and multiplexor adjusters

This project models the core of a peripheral-clock calculator. A clock model is a tree of
units:

- inputs hold a fixed frequency;
- dividers divide the signal they receive by their divisor;
- multiplexors pass through the signal of the port their active slot selects;
- an output unit is where the resulting frequency is read.

The model is built in two passes from a description with a `units` section, a `tree` section and
a `params` section. The output signal is evaluated bottom-up, from the output through each
unit's active input down to an input.

Two adjusters search for the multiplexor configuration whose output is nearest to a wanted
frequency:

- **The greedy adjuster** enumerates every combination of port indices. It scores each one and
  keeps the first one of least distance.
- **The genetic adjuster** starts from a random population. Each generation it ranks the
  population and stops on an exact match. Otherwise it breeds a new population from the two best
  members, tops it up with new random members, and finally returns the best member it has.

The Dafny modules follow the program's structure:

| module | file | models |
|---|---|---|
| `Results` | results.dfy | the exceptions the core raises, as values (`Result`, `Error`, `Outcome`) |
| `Units` | units.dfy | the four unit kinds, the multiplexor's port dictionary (insertion-ordered), `get_active_input_unit`, `get_output_signal`, `enumerated_ports` |
| `Model` | model.dfy | the unit arena, the evaluator `get_signal_from`, the two-pass builder, and the class `ClockModel` whose methods update the arena in place |
| `Adjuster` | adjuster.dfy | `set_multiplexor_configuration` and `evaluate_multiplexor_configuration` (shared by both adjusters), and mapping port indices to port keys |
| `Greedy` | greedy.dfy | `calculate_combinations` and the exhaustive search |
| `Genetic` | genetic.dfy | `generate_random_combinations`, `generate_population_from_parents`, the ranking sort and the generation loop |

## Modelling choices

- **Units live in an arena.** Units are values in a sequence, referred to by index. The class
  `ClockModel` holds the arena and the four per-kind lists, and its methods reassign them.
  Functions such as `Configure`, `Build` and `GreedySearch` work on a `Graph` snapshot of that
  state. The builder methods of `ClockModel`, `SetMultiplexorConfiguration`,
  `EvaluateMultiplexorConfiguration` and the greedy search are each proved to move the snapshot
  exactly as the matching function says. The genetic search depends on random streams, so its
  methods are described by the properties of their results.
- **Active inputs are a sum type.** What a unit's active input yields is either a fixed value
  (`Terminal`) or another unit (`NodeRef`). The evaluator recurses on `NodeRef` only.
- **Evaluation takes an acyclicity witness.** The evaluator's termination measure is a ghost
  `rank`. `WellRanked` says that every unit wired into another has a smaller rank.
- **Every exception is a value.** These are the cases:
  - a missing port key: `NoSuchPort`;
  - a divider or output with nothing wired: `NoWiredInput`;
  - a zero divisor: `DivisionByZero`;
  - no output unit: `NoOutputUnit`;
  - an unknown kind in the units section: `UnknownUnitKind`;
  - a missing parameter list in the first pass: `MissingParameter`;
  - `randint(0, -1)` when a multiplexor has no port: `EmptyPortRange`;
  - a population of fewer than two members (or an empty one at the end): `PopulationTooSmall`.
- **Wiring failures are swallowed.** In the second pass, every failure while making one
  connection (model.py:67-76) leaves the model as it was. This covers an unknown name, an index
  out of range, and appending to an input. A
  `ClockModelError` is constructed at model.py:69-70 and 75-76 but never raised. The model
  follows this code.
- **List indices follow Python.** Negative indices count from the end (`PyIndex`).
- **The description is parsed.** The `units` section is a sequence of entries (a kind name and
  how many units it declares). The `tree` section is flattened into a sequence of edges in the
  order its dictionaries are walked. A missing `params` list is `None`.
- **Randomness is a parameter.** In the genetic adjuster:
  - `draw(s, i, k)` stands for the k-th `randint` of the i-th random combination in stream `s`;
  - `coin(s, i, k)` stands for the k-th `uniform(0.0, 1.0)` of the i-th child;
  - each generator call gets its own stream: stream 0 for the first population, then `it + 1`
    for the random members and `it` for the children of generation `it`.
- **The model's `Dedup` keeps the first occurrence of each element.** It stands for
  `list(set(...))`, and the contracts state only what a set guarantees: the members, that they are distinct, and how many there can be.
- **The ranking sort is an insertion sort on the scores.** Python's sort computes each key in
  list order, and each key evaluation sets the model's configuration. The model does the same.
  The sort is proved sorted and a permutation.

## Model

| member | source | states |
|---|---|---|
| Units.Keys | units.py:69-71 | the keys of a port dictionary, one per port, in insertion order |
| Units.Lookup | units.py:73-74 | reading a key fails exactly when the key was never written; otherwise it yields the unit stored under it |
| Units.LookupAt | units.py:73-74 | with distinct keys, reading the j-th key yields the j-th stored unit |
| Units.GetActiveInputUnit | units.py:27-74 | an input yields its value; a divider or output yields its first wired unit, or fails with no wired input; a multiplexor yields the unit under its active slot, or fails with that slot's missing key; the unit yielded is always one wired into the unit |
| Units.GetOutputSignal | units.py:14-57 | a divider divides (result times divisor is the signal) and fails exactly on a zero divisor; every other kind passes the signal through |
| Units.EnumeratedPorts | units.py:69-71 | a multiplexor's enumerated ports are its port keys, one per wired port, in insertion order |
| Units.EnumeratedPortSelects | units.py:69-74 | making the j-th enumerated port active routes the j-th wired unit through the multiplexor |
| Units.NewMultiplexorUnwired | units.py:61-63 | a newly created multiplexor has no ports, so its active slot is a missing key |
| Units.WritePort | model.py:68 | after the dictionary write the key reads the new source, every other key reads as before, and no other entry appears |
| Units.WritePortKeys | model.py:68 | rewriting an existing key keeps the key order; a new key goes last |
| Units.WritePortDistinct | model.py:68 | a dictionary write never duplicates a key |
| Units.AppendInput | model.py:74 | appending to a divider or output adds the source at the end of its inputs and changes nothing else (kind and divisor stay), and the source becomes its active input only when it had none |
| Model.GetSignalFrom | model.py:78-91 | evaluating a unit fails only with a missing port, a divider or output with nothing wired, or a zero divisor |
| Model.OutputSignal | model.py:20-21 | the model's output fails exactly when there is no output unit (`NoOutputUnit`) or evaluating the first output unit fails |
| Model.ActiveChain | model.py:78-91 | the chain of active inputs from a unit is in the arena, starts at that unit, ends at an input, and each unit on it has the next one as its active input |
| Model.SignalAlongChain | model.py:78-91 | the signal at a unit is the value of the input its active chain ends at, divided by the product of the divisors on the chain |
| Model.BrokenChainRaises | model.py:78-91 | a chain broken by a missing port or an unwired unit makes the evaluation fail with that same error |
| Model.ZeroDivisorRaises | model.py:88-91 | a divider with divisor zero on an otherwise complete active chain makes the evaluation fail with the division error |
| Model.InputEndsChain | model.py:86-91 | at an input unit the chain is that unit alone and the signal is its value |
| Model.SignalByChain | model.py:78-91 | the signal at any unit is decided by its active chain: the chain's error if it is broken, the division error if a divider on it has divisor zero, and otherwise the input value at its end divided by the product of its divisors, which is non-zero |
| Model.PyIndex | model.py:68 | a Python index is accepted exactly when it lies in `-len .. len-1`, and negative indices count from the end |
| Model.AddUnitsEffect | model.py:41-57 | creating units of one kind appends them to the arena and their indices to that kind's list only |
| Model.InputsTakenByPosition | model.py:43-45 | when the pass succeeds there were enough input parameters, and the k-th input created holds the k-th of them |
| Model.OneDividerPerDivisor | model.py:47-49 | one divider is created per divisor in the params section, whatever the units section declares |
| Model.MultiplexorsTakenByPosition | model.py:51-53 | the k-th multiplexor created takes the k-th active slot and has no port |
| Model.UnknownKindRaises | model.py:59-60 | an unrecognised kind name in the units section makes the build fail with that name, unless an earlier entry already failed |
| Model.BuiltKindsKnown | model.py:41-60 | a build that succeeds has seen only the four known kind names |
| Model.WireToMultiplexor | model.py:65-70 | wiring into a multiplexor port sets that key to the source and leaves every other key and unit as it was; if either end does not resolve, nothing changes |
| Model.WireToUnit | model.py:71-76 | wiring into a divider or output appends the source to that unit's inputs and changes nothing else about it or any other unit; an input target or an end that does not resolve changes nothing |
| Model.WireKeepsShape | model.py:62-76 | wiring never changes the per-kind lists or any unit's kind |
| Model.WirePreservesValid | model.py:62-76 | wiring keeps the model well formed: lists consistent, every wired unit in the arena, port keys distinct |
| Model.AddUnitPreservesValid | model.py:41-57 | creating a fresh unit keeps the model well formed |
| Model.DividerChainExample | model.py:23-91 | building `input -> divider -> output` from a description succeeds, is acyclic, and outputs `f / d` |
| Model.ClockModel.constructor | model.py:14-18 | a new model is empty and well formed |
| Model.ClockModel.Append | model.py:41-57 | appending a unit updates the arena and its kind's list in place, keeping the model well formed |
| Model.ClockModel.AppendAll | model.py:44-57 | appending units one by one ends in the state of appending them all |
| Model.ClockModel.InstantiateEntry | model.py:41-60 | the first pass for one entry either fails with the error the builder specifies or reaches the state it specifies |
| Model.ClockModel.WireEdge | model.py:63-76 | the second pass for one connection updates the model in place as `Wire` specifies |
| Model.ClockModel.LoadModelFromConfig | model.py:23-76 | loading reports the build's error, or succeeds and leaves the model in exactly the state the two passes specify |
| Adjuster.SlotsWritten | peripheral_clock_calculation.py:24-26 | the `zip` loop changes only multiplexors' active slots |
| Adjuster.ConfigureAt | peripheral_clock_calculation.py:24-26 | the k-th multiplexor's active slot becomes `config[k]`, for every k below both lengths |
| Adjuster.ConfigureElsewhere | peripheral_clock_calculation.py:24-26 | every unit beyond the zipped multiplexors is left unchanged |
| Adjuster.ConfigurePreserves | peripheral_clock_calculation.py:24-26 | setting a configuration keeps the model well formed and acyclic, and keeps the lists |
| Adjuster.ConfigureOverwrite | peripheral_clock_calculation.py:24-26 | a later configuration reaching at least as many multiplexors completely overrides an earlier one |
| Adjuster.SetMultiplexorConfiguration | peripheral_clock_calculation.py:24-26 | the in-place loop leaves the model in the `Configure` state and keeps it well formed |
| Adjuster.EvaluateConfiguration | peripheral_clock_calculation.py:28-32 | the distance is non-negative, zero exactly when the output equals the wanted frequency, and the output is the wanted frequency plus or minus the distance |
| Adjuster.EvaluationAlongChain | peripheral_clock_calculation.py:28-32 | with the configuration set, the score fails with `NoOutputUnit` when there is no output unit, with the chain's error when the active chain from the output is broken, and with the division error when a divider on it has divisor zero; otherwise the output is the input value at the chain's end divided by the chain's divisors, and the distance is its distance to the wanted frequency |
| Adjuster.EvaluateAfterOverwrite | peripheral_clock_calculation.py:28-32 | scoring after an earlier configuration that the new one overrides equals scoring from the original state |
| Adjuster.EvaluateMultiplexorConfiguration | peripheral_clock_calculation.py:28-32 | the method returns the score the function specifies and leaves the model configured |
| Adjuster.EvaluateOver | peripheral_clock_calculation.py:28-32 | scoring on a model left set to an earlier configuration that the new one overrides returns the score from the original state and leaves the model set to the new configuration |
| Adjuster.EvaluateInTurn | peripheral_clock_calculation.py:60-65 | the i-th evaluation of a list scored in order extends the scores so far by that configuration's score, or its failure is the failure of scoring the whole list |
| Adjuster.EvaluationsMeaning | peripheral_clock_calculation.py:60-65 | scoring a list in order succeeds exactly with each configuration's own score; a failure is the error of the first configuration that fails, every earlier one having scored |
| Adjuster.PortCounts | peripheral_clock_calculation.py:46 | one count per multiplexor: its number of enumerated ports |
| Adjuster.ToPorts | peripheral_clock_calculation.py:47-54 | mapping index tuples to port keys keeps the length, and a full tuple yields a feasible configuration (each entry a port key of its multiplexor) |
| Adjuster.ToPortsSelects | peripheral_clock_calculation.py:51 | the mapped key for index `j` makes the multiplexor route its j-th wired unit |
| Adjuster.FeasibleSlotsResolve | peripheral_clock_calculation.py:24-30 | once a feasible configuration is set, no multiplexor raises a missing-port error |
| Greedy.CombinationsMembers | peripheral_clock_calculation.py:76-91 | a tuple is enumerated exactly when it has one in-range index per leading non-zero count; a zero count truncates every tuple and a leading zero yields none |
| Greedy.CombinationsInRange | peripheral_clock_calculation.py:76-91 | every enumerated tuple has the depth's length and in-range indices |
| Greedy.CombinationsCount | peripheral_clock_calculation.py:76-91 | there are no combinations exactly when the first count is zero or there are none; otherwise as many as the product of the leading non-zero counts |
| Greedy.CombinationsSorted | peripheral_clock_calculation.py:76-91 | the combinations come in strictly increasing lexicographic order, so none repeats |
| Greedy.CalculateCombinations | peripheral_clock_calculation.py:76-91 | the recursive method with its two nested loops returns exactly the specified enumeration |
| Greedy.Best | peripheral_clock_calculation.py:56-70 | the index kept by the strict `<` scan is the first position of least distance, and none is kept only for an empty list |
| Greedy.Configurations | peripheral_clock_calculation.py:46-54 | there is one candidate per combination, each with one entry per leading non-zero count |
| Greedy.GreedyFailsOnlyWhenScoringFails | peripheral_clock_calculation.py:60-65 | the search fails exactly when scoring some enumerated configuration fails |
| Greedy.GreedyChoosesFirstMinimum | peripheral_clock_calculation.py:56-74 | the search returns the first configuration of least distance together with its output signal |
| Greedy.GreedyWithoutCandidates | peripheral_clock_calculation.py:56-74 | with no multiplexor, or a first multiplexor without ports, the search returns `(0.0, [])` |
| Greedy.GreedyCandidatesFeasible | peripheral_clock_calculation.py:46-54 | when every multiplexor has a port, every candidate is feasible |
| Greedy.FeasibleEnumerated | peripheral_clock_calculation.py:46-54 | with at least one multiplexor, every configuration that sets each multiplexor to one of its port keys is among the candidates |
| Greedy.GreedyOptimal | peripheral_clock_calculation.py:44-74 | with at least one multiplexor, no configuration that sets each multiplexor to one of its port keys comes nearer to the wanted frequency than the one returned, and every such configuration scores |
| Greedy.KeptStep | peripheral_clock_calculation.py:67-70 | one round of the loop replaces the best so far exactly on a strictly smaller distance |
| Greedy.CandidateConfigurations | peripheral_clock_calculation.py:46-54 | the method computes exactly the specified candidates |
| Greedy.ScanOne | peripheral_clock_calculation.py:60-70 | one turn of the loop scores the next candidate and keeps it exactly when its distance is strictly below the least one so far |
| Greedy.ScanConfigurations | peripheral_clock_calculation.py:56-70 | the loop fails with the first scoring error, or ends holding the first best candidate |
| Greedy.CalculateNearestOutputFrequency | peripheral_clock_calculation.py:44-74 | the method returns exactly `GreedySearch` of the initial state and leaves the model set to the chosen configuration |
| Genetic.Dedup | peripheral_clock_calculation.py:186 | `list(set(...))` holds the same elements, each once, and is no longer |
| Genetic.DedupConstant | peripheral_clock_calculation.py:186 | deduplicating copies of one element leaves that element once |
| Genetic.RandomCombination | peripheral_clock_calculation.py:192 | a random tuple has one in-range index per count |
| Genetic.GenerateRandomCombinations | peripheral_clock_calculation.py:188-193 | fails (the `randint(0, -1)` error) exactly when a tuple is drawn and some count is zero; otherwise returns at most the asked number of distinct in-range tuples, exactly the drawn ones |
| Genetic.Crossover | peripheral_clock_calculation.py:179-185 | a child is as long as the shorter parent and takes every slot from one of the parents |
| Genetic.GeneratePopulationFromParents | peripheral_clock_calculation.py:163-186 | at most `population_count` distinct children, exactly the crossovers drawn; identical parents give that parent alone |
| Genetic.Insert | peripheral_clock_calculation.py:128 | inserting into a sorted list keeps it sorted and adds exactly that element |
| Genetic.SortByDifference | peripheral_clock_calculation.py:128 | the ranking is sorted by distance and a permutation of its input |
| Genetic.RankedFacts | peripheral_clock_calculation.py:128-129 | every ranked entry is a population member with its true distance, and the first has the least distance |
| Genetic.SortedLeadingPair | peripheral_clock_calculation.py:128-129 | the first two entries of a sorted list are its least entry and, among the others, a least one |
| Genetic.LeadingPairNearest | peripheral_clock_calculation.py:128-129 | the two members taken after the sort are the two nearest members of the population |
| Genetic.ScorePopulation | peripheral_clock_calculation.py:124-128 | the key evaluations in list order fail with the first scoring error, or give each member's distance |
| Genetic.RankPopulation | peripheral_clock_calculation.py:128 | the sort fails as scoring fails, or returns the members with their distances, sorted and permuted |
| Genetic.RandomConfigurations | peripheral_clock_calculation.py:145-150 | new random members are feasible, at most as many as asked, and fail exactly when a multiplexor without ports meets a positive count |
| Genetic.ChildrenFeasible | peripheral_clock_calculation.py:140-144 | children of feasible parents are feasible |
| Genetic.NextPopulationFeasible | peripheral_clock_calculation.py:138-153 | the next population (two best, children, new members) is feasible |
| Genetic.Breed | peripheral_clock_calculation.py:138-153 | the next population starts with the two best members, followed by their children (exactly the deduplicated crossovers drawn) and new members (exactly the deduplicated random draws), at most `population_count // 2` of each, all feasible; it fails exactly when a random member is drawn and some multiplexor has no port |
| Genetic.Advance | peripheral_clock_calculation.py:129-153 | with the two best members known: an exact match stops with the best member and leaves the model set to it; otherwise the generation continues with a non-zero best distance and the population `Breed` specifies, or fails as drawing fails |
| Genetic.Generation | peripheral_clock_calculation.py:127-154 | one generation fails with the scoring error, with fewer than two members, or as drawing a random member fails; or it stops on an exact match, returning a member of the population that no member beats, feasible, outputting the wanted frequency, and leaving the model set to it; or it continues with a non-zero best distance and a next population made of the two nearest members followed by their children and new random members |
| Genetic.Round | peripheral_clock_calculation.py:126-154 | one pass of the loop records the best distance of a generation that does not fail; the record never increases, is positive before an exact match and zero at one |
| Genetic.FinalSelection | peripheral_clock_calculation.py:156-161 | the last ranking returns a member whose distance no member beats, and leaves the model set to it |
| Genetic.Evolve | peripheral_clock_calculation.py:126-154 | at most `num_iterations + 1` generations run, and all of them unless one stops or fails; their best distances never increase; an exact stop comes at the first generation whose best distance is zero, returns a member of that generation's population, and leaves the model set to that member; when the loop runs at all, an initial population of fewer than two members makes it fail |
| Genetic.CalculateNearestOutputFrequency | peripheral_clock_calculation.py:112-161 | when the loop runs at all, `population_count <= 1` or no multiplexor makes the search fail; a result is feasible and its output is the model's output under it; an early return is an exact match at the first generation whose best distance is zero; otherwise every generation ran with a positive best distance and the result is no worse than the last one; the model changes only in active slots and is left set to the result |

## Left out

- The command line, argument parsing, reading the YAML file and printing the result are not part
  of this model: handler.py, cli.py and arg_parser.py.
- Frequencies are real numbers, so `abs`, division and the exact equality test at
  peripheral_clock_calculation.py:135 are exact. Floating-point rounding, NaN and infinities
  are not modelled; `math.inf` is the `None` of the best-so-far distance.
- The random distributions are not modelled. `randint` and `uniform` are any injected streams.
- Evaluation needs an acyclicity witness (`rank`). `WellRanked` asks that every wired connection
  be acyclic. The program itself recurses forever only on a cycle along the active chain from
  the output, so a model with a cycle elsewhere is one the program evaluates but this model
  does not cover.
- An input value that YAML reads as an integer fails the `isinstance(unit, float)` test in the
  program and crashes. The model treats every input value as a real number.
- The description is assumed to have `units` and `tree` sections of the expected shape: a
  dictionary of unit lists, and dictionaries of connections down to a dictionary (multiplexor)
  or list of indices. A missing section raises KeyError at model.py:41 or 62, and a connection
  of another shape raises AttributeError or TypeError outside the `try` (model.py:63-66 and 72),
  after the earlier connections were made. Neither is modelled: the parsed description is a
  sequence of entries and a sequence of edges, which cannot be malformed in these ways.
- Multiplexor port keys are integers. Keys of another type from the description are not modelled.
- Genetic.RankPopulation: the stability of Python's sort among equal distances is not stated,
  so which of two equally near members comes first is left open.
- Genetic.GenerateRandomCombinations: the order of `list(set(...))` is not stated, only its
  members. The model keeps the first occurrence, which need not be the order Python's set iterates in.
- Genetic.GeneratePopulationFromParents: the order of the children is not stated, for the same reason.
- Genetic.CalculateNearestOutputFrequency: the result is described by its properties, not as
  one function of the random streams.
- Model.ClockModel.LoadModelFromConfig: after a first-pass error the program has already
  appended the units of the entries before the failing one (model.py:41-60), and also the units
  of the failing entry itself up to the first missing input or multiplexor parameter
  (model.py:44-45 and 52-53). The model's `Instantiate` appends none of the failing entry's
  units, and the loader states only that the model stays well formed.
- Greedy.CalculateNearestOutputFrequency: with no multiplexor, or a first multiplexor without
  ports, there is no candidate and the search returns `(0.0, [])` without evaluating anything
  (Greedy.GreedyWithoutCandidates); Greedy.GreedyOptimal is stated for models with a multiplexor.
- Greedy.CalculateNearestOutputFrequency: after a scoring error, the configuration the model is
  left in is not stated, only that the model stays well formed.
- The constructor of the genetic adjuster, which stores `population_count` and
  `num_iterations`, becomes two parameters of the search.
