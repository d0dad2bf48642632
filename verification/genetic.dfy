/**
 * The genetic adjuster. Randomness is a parameter: `draw(i, k)` stands for
 * the k-th `randint` of the i-th random combination and `coin(i, k)` for the
 * k-th `uniform(0.0, 1.0)` of the i-th child, and every call of a generator
 * gets a stream of its own.
 */
module Genetic {
  import opened Results
  import opened Units
  import opened Model
  import opened Adjuster

  function Max(a: int, b: int): int {
    if a >= b then a else b
  }

  predicate Distinct<T(==)>(s: seq<T>) {
    forall a, b :: 0 <= a < b < |s| ==> s[a] != s[b]
  }

  // ---------------------------------------------------------------------
  // `list(set(...))`

  /** The distinct elements of `s`; a list built from a set holds each element once. */
  function Dedup<T(==,!new)>(s: seq<T>): (r: seq<T>)
    ensures forall x :: x in r <==> x in s
    ensures Distinct(r)
    ensures |r| <= |s|
    decreases |s|
  {
    if s == [] then []
    else
      var rest := Dedup(s[..|s| - 1]);
      if s[|s| - 1] in rest then rest else rest + [s[|s| - 1]]
  }

  /** Deduplicating copies of one element leaves that element once. */
  lemma {:induction false} DedupConstant<T(!new)>(s: seq<T>, x: T)
    requires forall j :: 0 <= j < |s| ==> s[j] == x
    ensures Dedup(s) == if s == [] then [] else [x]
    decreases |s|
  {
    if s != [] {
      DedupConstant(s[..|s| - 1], x);
    }
  }

  // ---------------------------------------------------------------------
  // `generate_random_combinations`

  predicate AllPositive(counts: seq<nat>) {
    forall k :: 0 <= k < |counts| ==> counts[k] > 0
  }

  /** The i-th random combination: `randint(0, counts[k] - 1)` for every k. */
  function RandomCombination(counts: seq<nat>, draw: (nat, nat) -> nat, i: nat): (t: seq<nat>)
    requires AllPositive(counts)
    ensures |t| == |counts| && forall k :: 0 <= k < |t| ==> t[k] < counts[k]
  {
    seq(|counts|, k requires 0 <= k < |counts| => draw(i, k) % counts[k])
  }

  /**
   * `generate_random_combinations`: `numberOfCombinations` random tuples,
   * deduplicated. `randint(0, -1)` fails, so a zero count is an error as soon
   * as one tuple is drawn.
   */
  method GenerateRandomCombinations(numberOfCombinations: int, inputList: seq<nat>, draw: (nat, nat) -> nat)
    returns (r: Result<seq<seq<nat>>>)
    ensures r.Err? <==> numberOfCombinations > 0 && !AllPositive(inputList)
    ensures r.Err? ==> r.error == EmptyPortRange
    ensures r.Ok? ==> |r.value| <= Max(0, numberOfCombinations) && Distinct(r.value)
    ensures r.Ok? && inputList == [] ==> |r.value| <= 1
    ensures r.Ok? ==> forall j :: 0 <= j < |r.value| ==>
              |r.value[j]| == |inputList| && forall k :: 0 <= k < |inputList| ==> r.value[j][k] < inputList[k]
    ensures r.Ok? ==> forall t :: t in r.value <==>
              exists i :: 0 <= i < numberOfCombinations && AllPositive(inputList) && t == RandomCombination(inputList, draw, i)
  {
    var randomCombinations: seq<seq<nat>> := [];
    var i := 0;
    while i < numberOfCombinations
      invariant 0 <= i <= Max(0, numberOfCombinations)
      invariant i > 0 ==> AllPositive(inputList)
      invariant |randomCombinations| == i
      invariant forall j :: 0 <= j < i ==> randomCombinations[j] == RandomCombination(inputList, draw, j)
      decreases numberOfCombinations - i
    {
      var combination: seq<nat> := [];
      for k := 0 to |inputList|
        invariant |combination| == k
        invariant forall m :: 0 <= m < k ==> inputList[m] > 0 && combination[m] == draw(i, m) % inputList[m]
      {
        if inputList[k] == 0 {
          return Err(EmptyPortRange);
        }
        combination := combination + [draw(i, k) % inputList[k]];
      }
      randomCombinations := randomCombinations + [combination];
      i := i + 1;
    }
    assert |randomCombinations| == Max(0, numberOfCombinations);
    if inputList == [] {
      DedupConstant(randomCombinations, []);
    }
    r := Ok(Dedup(randomCombinations));
    forall t
      ensures t in r.value <==>
              exists i :: 0 <= i < numberOfCombinations && AllPositive(inputList) && t == RandomCombination(inputList, draw, i)
    {
      if t in r.value {
        var j :| 0 <= j < |randomCombinations| && randomCombinations[j] == t;
      }
      if exists i :: 0 <= i < numberOfCombinations && AllPositive(inputList) && t == RandomCombination(inputList, draw, i) {
        var i :| 0 <= i < numberOfCombinations && AllPositive(inputList) && t == RandomCombination(inputList, draw, i);
        assert randomCombinations[i] == t;
      }
    }
    forall j | 0 <= j < |r.value|
      ensures |r.value[j]| == |inputList| && forall k :: 0 <= k < |inputList| ==> r.value[j][k] < inputList[k]
    {
      assert r.value[j] in randomCombinations;
      var m :| 0 <= m < |randomCombinations| && randomCombinations[m] == r.value[j];
    }
  }

  // ---------------------------------------------------------------------
  // `generate_population_from_parents`

  /** The i-th child: slot k comes from `parent1` when the k-th coin falls below the dominance ratio. */
  function Crossover(parent1: seq<int>, parent2: seq<int>, coin: (nat, nat) -> real, dominanceRatio: real, i: nat)
    : (c: seq<int>)
    ensures |c| == Min(|parent1|, |parent2|)
    ensures forall k :: 0 <= k < |c| ==> c[k] == parent1[k] || c[k] == parent2[k]
  {
    seq(Min(|parent1|, |parent2|), k requires 0 <= k < Min(|parent1|, |parent2|) =>
      if coin(i, k) < dominanceRatio then parent1[k] else parent2[k])
  }

  /**
   * `generate_population_from_parents`: at most `populationCount` distinct
   * children, each as long as the shorter parent and each slot taken from
   * one of the parents. Identical parents have only themselves as child.
   */
  method GeneratePopulationFromParents(parent1: seq<int>, parent2: seq<int>, populationCount: int,
                                       coin: (nat, nat) -> real, dominanceRatio: real)
    returns (r: seq<seq<int>>)
    ensures |r| <= Max(0, populationCount) && Distinct(r)
    ensures forall j :: 0 <= j < |r| ==>
              |r[j]| == Min(|parent1|, |parent2|) &&
              forall k :: 0 <= k < |r[j]| ==> r[j][k] == parent1[k] || r[j][k] == parent2[k]
    ensures forall c :: c in r <==> exists i :: 0 <= i < populationCount && c == Crossover(parent1, parent2, coin, dominanceRatio, i)
    ensures parent1 == parent2 && populationCount > 0 ==> r == [parent1]
  {
    var newPopulation: seq<seq<int>> := [];
    var i := 0;
    while i < populationCount
      invariant 0 <= i <= Max(0, populationCount)
      invariant |newPopulation| == i
      invariant forall j :: 0 <= j < i ==> newPopulation[j] == Crossover(parent1, parent2, coin, dominanceRatio, j)
      decreases populationCount - i
    {
      var newChild: seq<int> := [];
      var n := Min(|parent1|, |parent2|);
      for k := 0 to n
        invariant |newChild| == k
        invariant forall m :: 0 <= m < k ==>
                    newChild[m] == if coin(i, m) < dominanceRatio then parent1[m] else parent2[m]
      {
        if coin(i, k) < dominanceRatio {
          newChild := newChild + [parent1[k]];
        } else {
          newChild := newChild + [parent2[k]];
        }
      }
      newPopulation := newPopulation + [newChild];
      i := i + 1;
    }
    assert |newPopulation| == Max(0, populationCount);
    r := Dedup(newPopulation);
    forall c
      ensures c in r <==> exists i :: 0 <= i < populationCount && c == Crossover(parent1, parent2, coin, dominanceRatio, i)
    {
      if c in r {
        var j :| 0 <= j < |newPopulation| && newPopulation[j] == c;
      }
      if exists i :: 0 <= i < populationCount && c == Crossover(parent1, parent2, coin, dominanceRatio, i) {
        var i :| 0 <= i < populationCount && c == Crossover(parent1, parent2, coin, dominanceRatio, i);
        assert newPopulation[i] == c;
      }
    }
    forall j | 0 <= j < |r|
      ensures |r[j]| == Min(|parent1|, |parent2|)
      ensures forall k :: 0 <= k < |r[j]| ==> r[j][k] == parent1[k] || r[j][k] == parent2[k]
    {
      assert r[j] in newPopulation;
    }
    if parent1 == parent2 && populationCount > 0 {
      forall j | 0 <= j < |newPopulation|
        ensures newPopulation[j] == parent1
      {
        var c := newPopulation[j];
        assert |c| == |parent1| && forall k :: 0 <= k < |c| ==> c[k] == parent1[k];
      }
      DedupConstant(newPopulation, parent1);
    }
  }

  // ---------------------------------------------------------------------
  // Ranking a population

  /** A population member with its distance from the wanted frequency. */
  datatype Ranked = Ranked(difference: real, configuration: seq<int>)

  predicate Sorted(s: seq<Ranked>) {
    forall a, b :: 0 <= a < b < |s| ==> s[a].difference <= s[b].difference
  }

  function Insert(x: Ranked, s: seq<Ranked>): (r: seq<Ranked>)
    requires Sorted(s)
    ensures Sorted(r) && multiset(r) == multiset(s) + multiset{x}
    ensures forall y :: y in r ==> y == x || y in s
  {
    if s == [] then [x]
    else if x.difference < s[0].difference then [x] + s
    else
      assert s == [s[0]] + s[1..];
      var rest := Insert(x, s[1..]);
      HeadBelowRest(x, s, rest);
      [s[0]] + rest
  }

  lemma HeadBelowRest(x: Ranked, s: seq<Ranked>, rest: seq<Ranked>)
    requires Sorted(s) && |s| > 0 && s[0].difference <= x.difference && Sorted(rest)
    requires forall y :: y in rest ==> y == x || y in s[1..]
    ensures Sorted([s[0]] + rest)
  {
    forall b | 0 <= b < |rest|
      ensures s[0].difference <= rest[b].difference
    {
      assert rest[b] in rest;
      if rest[b] != x {
        var m :| 0 <= m < |s[1..]| && s[1..][m] == rest[b];
        assert s[1..][m] == s[m + 1];
      }
    }
    var t := [s[0]] + rest;
    forall a, b | 0 <= a < b < |t|
      ensures t[a].difference <= t[b].difference
    {
      if a > 0 {
        assert t[a] == rest[a - 1] && t[b] == rest[b - 1];
      } else {
        assert t[b] == rest[b - 1];
      }
    }
  }

  /** `list.sort` with the distance as key: a permutation ordered by distance. */
  function SortByDifference(s: seq<Ranked>): (r: seq<Ranked>)
    ensures Sorted(r) && multiset(r) == multiset(s)
    decreases |s|
  {
    if s == [] then []
    else
      assert s == s[..|s| - 1] + [s[|s| - 1]];
      Insert(s[|s| - 1], SortByDifference(s[..|s| - 1]))
  }

  /** Each member paired with the distance of its score. */
  function Keyed(population: seq<seq<int>>, scores: seq<Score>): (r: seq<Ranked>)
    requires |scores| == |population|
    ensures |r| == |population|
    ensures forall j :: 0 <= j < |r| ==> r[j] == Ranked(scores[j].difference, population[j])
  {
    seq(|population|, j requires 0 <= j < |population| => Ranked(scores[j].difference, population[j]))
  }

  /**
   * What a ranked population tells: it has the population's size, each
   * entry is a member with its true distance, and the first entry is at
   * least as close as every member.
   */
  lemma RankedFacts(g: Graph, rank: seq<nat>, population: seq<seq<int>>, wanted: real, ranked: seq<Ranked>)
    requires GraphValid(g) && WellRanked(g.units, rank)
    requires Evaluations(g, rank, population, wanted).Ok?
    requires Sorted(ranked)
    requires multiset(ranked) == multiset(Keyed(population, Evaluations(g, rank, population, wanted).value))
    ensures |ranked| == |population|
    ensures forall j :: 0 <= j < |ranked| ==>
              ranked[j].configuration in population &&
              EvaluateConfiguration(g, rank, ranked[j].configuration, wanted).Ok? &&
              EvaluateConfiguration(g, rank, ranked[j].configuration, wanted).value.difference == ranked[j].difference
    ensures forall j :: 0 <= j < |population| ==>
              EvaluateConfiguration(g, rank, population[j], wanted).Ok? &&
              ranked[0].difference <= EvaluateConfiguration(g, rank, population[j], wanted).value.difference
  {
    var scores := Evaluations(g, rank, population, wanted).value;
    var keyed := Keyed(population, scores);
    EvaluationsMeaning(g, rank, population, wanted);
    assert |ranked| == |multiset(ranked)| == |multiset(keyed)| == |keyed|;
    forall j | 0 <= j < |ranked|
      ensures ranked[j].configuration in population
      ensures EvaluateConfiguration(g, rank, ranked[j].configuration, wanted).Ok?
      ensures EvaluateConfiguration(g, rank, ranked[j].configuration, wanted).value.difference == ranked[j].difference
    {
      assert ranked[j] in multiset(keyed);
      var i :| 0 <= i < |keyed| && keyed[i] == ranked[j];
    }
    forall j | 0 <= j < |population|
      ensures ranked[0].difference <= EvaluateConfiguration(g, rank, population[j], wanted).value.difference
    {
      assert keyed[j] in multiset(ranked);
      var i :| 0 <= i < |ranked| && ranked[i] == keyed[j];
    }
  }

  /**
   * The keys of one generation's sort: every member is scored in list
   * order, and each scoring sets the member's configuration. All members
   * set every multiplexor, so each score is the one the member has on the
   * model the search started from.
   */
  /** `differences` lists the distances of `scores`, in order. */
  ghost predicate DifferencesOf(differences: seq<real>, scores: seq<Score>)
  {
    |differences| == |scores| && forall m :: 0 <= m < |scores| ==> differences[m] == scores[m].difference
  }

  method ScorePopulation(model: ClockModel, population: seq<seq<int>>, wanted: real,
                         ghost rank: seq<nat>, ghost g0: Graph, ghost current: seq<int>)
    returns (r: Result<seq<real>>, ghost current': seq<int>)
    requires GraphValid(g0) && WellRanked(g0.units, rank)
    requires model.Valid() && model.Snapshot() == Configure(g0, current)
    requires forall j :: 0 <= j < |population| ==> |population[j]| == |g0.multiplexors|
    modifies model
    ensures model.Valid() && model.Snapshot() == Configure(g0, current')
    ensures r.Err? <==> Evaluations(g0, rank, population, wanted).Err?
    ensures r.Err? ==> r.error == Evaluations(g0, rank, population, wanted).error
    ensures r.Ok? ==> (|r.value| == |population| &&
              forall j :: 0 <= j < |population| ==> r.value[j] == Evaluations(g0, rank, population, wanted).value[j].difference)
  {
    ConfigurePreserves(g0, rank, current);
    current' := current;
    ghost var scores: seq<Score> := [];
    var differences: seq<real> := [];
    var j := 0;
    assert population[..0] == [];
    while j < |population|
      invariant 0 <= j <= |population| && |scores| == j && DifferencesOf(differences, scores)
      invariant model.Valid()
      invariant model.Snapshot() == Configure(g0, current')
      invariant Evaluations(g0, rank, population[..j], wanted) == Ok(scores)
    {
      var res := EvaluateInTurn(model, population, j, wanted, rank, g0, current', scores);
      current' := population[j];
      if res.Err? {
        return Err(res.error), current';
      }
      scores := scores + [res.value];
      differences := differences + [res.value.difference];
      j := j + 1;
    }
    assert population[..j] == population;
    r := Ok(differences);
  }

  /** `population.sort(key=...)`: score every member, then order the members by distance. */
  method RankPopulation(model: ClockModel, population: seq<seq<int>>, wanted: real,
                        ghost rank: seq<nat>, ghost g0: Graph, ghost current: seq<int>)
    returns (r: Result<seq<Ranked>>, ghost current': seq<int>)
    requires GraphValid(g0) && WellRanked(g0.units, rank)
    requires model.Valid() && model.Snapshot() == Configure(g0, current)
    requires forall j :: 0 <= j < |population| ==> |population[j]| == |g0.multiplexors|
    modifies model
    ensures model.Valid() && model.Snapshot() == Configure(g0, current')
    ensures r.Err? <==> Evaluations(g0, rank, population, wanted).Err?
    ensures r.Err? ==> r.error == Evaluations(g0, rank, population, wanted).error
    ensures r.Ok? ==> Sorted(r.value) &&
              multiset(r.value) == multiset(Keyed(population, Evaluations(g0, rank, population, wanted).value))
  {
    var differences;
    differences, current' := ScorePopulation(model, population, wanted, rank, g0, current);
    if differences.Err? {
      return Err(differences.error), current';
    }
    var keyed := seq(|population|, m requires 0 <= m < |population| => Ranked(differences.value[m], population[m]));
    assert keyed == Keyed(population, Evaluations(g0, rank, population, wanted).value);
    r := Ok(SortByDifference(keyed));
  }

  // ---------------------------------------------------------------------
  // The search

  /** Random combinations mapped to port keys, as `multiplexor_port_mapping[i][j]` does. */
  method RandomConfigurations(g: Graph, numberOfCombinations: int, draw: (nat, nat) -> nat)
    returns (r: Result<seq<seq<int>>>)
    requires GraphValid(g)
    ensures r.Err? <==> numberOfCombinations > 0 && !AllPositive(PortCounts(g))
    ensures r.Err? ==> r.error == EmptyPortRange
    ensures r.Ok? ==> |r.value| <= Max(0, numberOfCombinations)
    ensures r.Ok? ==> forall j :: 0 <= j < |r.value| ==> Feasible(g, r.value[j])
    ensures r.Ok? && g.multiplexors == [] ==> |r.value| <= 1
    ensures r.Ok? ==> forall c :: c in r.value <==> Drawn(g, c, numberOfCombinations, draw)
  {
    var combinations := GenerateRandomCombinations(numberOfCombinations, PortCounts(g), draw);
    if combinations.Err? {
      return Err(combinations.error);
    }
    var combs := combinations.value;
    var configs := seq(|combs|, j requires 0 <= j < |combs| => ToPorts(g, combs[j]));
    forall c
      ensures c in configs <==> Drawn(g, c, numberOfCombinations, draw)
    {
      if c in configs {
        var j :| 0 <= j < |configs| && configs[j] == c;
        assert combs[j] in combs;
      }
      if Drawn(g, c, numberOfCombinations, draw) {
        var i :| 0 <= i < numberOfCombinations && c == ToPorts(g, RandomCombination(PortCounts(g), draw, i));
        var t := RandomCombination(PortCounts(g), draw, i);
        assert t in combs;
        var j :| 0 <= j < |combs| && combs[j] == t;
        assert configs[j] == c;
      }
    }
    r := Ok(configs);
  }

  /** `c` is one of the random configurations drawn by the first `n` draws of the stream. */
  predicate Drawn(g: Graph, c: seq<int>, n: int, draw: (nat, nat) -> nat)
    requires GraphValid(g)
  {
    AllPositive(PortCounts(g)) &&
    exists i: nat :: i < n && c == ToPorts(g, RandomCombination(PortCounts(g), draw, i))
  }

  /** `c` is one of the first `n` children of the two parents, bred with dominance ratio 0.5. */
  predicate Bred(parent1: seq<int>, parent2: seq<int>, c: seq<int>, n: int, coin: (nat, nat) -> real) {
    exists i: nat :: i < n && c == Crossover(parent1, parent2, coin, 0.5, i)
  }

  /** A child of two feasible parents is feasible: every slot is a port key of its multiplexor. */
  lemma ChildrenFeasible(g: Graph, parent1: seq<int>, parent2: seq<int>, children: seq<seq<int>>)
    requires GraphValid(g) && Feasible(g, parent1) && Feasible(g, parent2)
    requires forall j :: 0 <= j < |children| ==>
               |children[j]| == Min(|parent1|, |parent2|) &&
               forall k :: 0 <= k < |children[j]| ==> children[j][k] == parent1[k] || children[j][k] == parent2[k]
    ensures forall j :: 0 <= j < |children| ==> Feasible(g, children[j])
  {
  }

  /** The next generation of feasible members is feasible. */
  lemma NextPopulationFeasible(g: Graph, best: seq<int>, second: seq<int>,
                               children: seq<seq<int>>, newChildren: seq<seq<int>>)
    requires GraphValid(g) && Feasible(g, best) && Feasible(g, second)
    requires forall j :: 0 <= j < |children| ==> Feasible(g, children[j])
    requires forall j :: 0 <= j < |newChildren| ==> Feasible(g, newChildren[j])
    ensures var next := [best, second] + children + newChildren;
            forall j :: 0 <= j < |next| ==> Feasible(g, next[j])
  {
    var next := [best, second] + children + newChildren;
    forall j | 0 <= j < |next|
      ensures Feasible(g, next[j])
    {
      if j >= 2 + |children| {
        assert next[j] == newChildren[j - 2 - |children|];
      } else if j >= 2 {
        assert next[j] == children[j - 2];
      }
    }
  }

  /** Every member of the population is a configuration the model accepts. */
  predicate AllFeasible(g: Graph, population: seq<seq<int>>)
    requires GraphValid(g)
  {
    forall c :: c in population ==> Feasible(g, c)
  }

  /** The members of a feasible population, by position. */
  lemma FeasibleAt(g: Graph, population: seq<seq<int>>)
    requires GraphValid(g) && AllFeasible(g, population)
    ensures forall j :: 0 <= j < |population| ==> Feasible(g, population[j])
  {
  }

  /** The population's first member scores `d`. */
  predicate Leads(g: Graph, rank: seq<nat>, population: seq<seq<int>>, wanted: real, d: real)
    requires GraphValid(g) && WellRanked(g.units, rank)
  {
    |population| > 0 && EvaluateConfiguration(g, rank, population[0], wanted).Ok? &&
    EvaluateConfiguration(g, rank, population[0], wanted).value.difference == d
  }

  /** Configuration `c` scores no worse than `d`. */
  predicate ScoresAtMost(g: Graph, rank: seq<nat>, c: seq<int>, wanted: real, d: real)
    requires GraphValid(g) && WellRanked(g.units, rank)
  {
    EvaluateConfiguration(g, rank, c, wanted).Ok? && EvaluateConfiguration(g, rank, c, wanted).value.difference <= d
  }

  /** Every member of the population scores, and none better than `d`. */
  predicate NoneBetter(g: Graph, rank: seq<nat>, population: seq<seq<int>>, wanted: real, d: real)
    requires GraphValid(g) && WellRanked(g.units, rank)
  {
    forall j :: 0 <= j < |population| ==>
      EvaluateConfiguration(g, rank, population[j], wanted).Ok? &&
      d <= EvaluateConfiguration(g, rank, population[j], wanted).value.difference
  }

  /** A generation's best distance never exceeds the previous generation's. */
  lemma BestNeverWorse(g: Graph, rank: seq<nat>, population: seq<seq<int>>, wanted: real, d: real, previous: real)
    requires GraphValid(g) && WellRanked(g.units, rank)
    requires Leads(g, rank, population, wanted, previous) && NoneBetter(g, rank, population, wanted, d)
    ensures d <= previous
  {
    assert EvaluateConfiguration(g, rank, population[0], wanted).Ok?;
  }

  predicate NonIncreasing(ds: seq<real>) {
    forall j :: 0 < j < |ds| ==> ds[j] <= ds[j - 1]
  }

  /** Every distance recorded is positive: no generation so far hit the wanted frequency. */
  predicate Positive(ds: seq<real>) {
    forall k :: 0 <= k < |ds| ==> ds[k] > 0.0
  }

  /**
   * `selection` is an exact match: a feasible configuration whose score has
   * distance zero and the wanted frequency as its output.
   */
  predicate ExactMatch(g: Graph, rank: seq<nat>, wanted: real, selection: Selection)
    requires GraphValid(g) && WellRanked(g.units, rank)
  {
    && Feasible(g, selection.configuration)
    && selection.outputSignal == wanted
    && EvaluateConfiguration(g, rank, selection.configuration, wanted) == Ok(Score(0.0, wanted))
  }

  /** Recording a distance no worse than the last keeps the record non-increasing. */
  lemma Record(ds: seq<real>, d: real)
    requires NonIncreasing(ds) && Positive(ds) && (ds != [] ==> d <= ds[|ds| - 1])
    ensures NonIncreasing(ds + [d]) && (ds + [d])[..|ds|] == ds
    ensures d > 0.0 ==> Positive(ds + [d])
  {
    assert (ds + [d])[..|ds|] == ds;
  }

  /**
   * `first` and `second` are the two members of the population nearest to
   * the wanted frequency, as `population[0]` and `population[1]` are after
   * the sort: `first` is a member no member beats, and `second` is a member
   * (at another position) that no member except `first` beats.
   */
  predicate NearestTwo(g: Graph, rank: seq<nat>, population: seq<seq<int>>, wanted: real,
                       first: seq<int>, second: seq<int>)
    requires GraphValid(g) && WellRanked(g.units, rank)
  {
    var scores := Evaluations(g, rank, population, wanted);
    var e1 := EvaluateConfiguration(g, rank, first, wanted);
    var e2 := EvaluateConfiguration(g, rank, second, wanted);
    scores.Ok? && e1.Ok? && e2.Ok? &&
    var keyed := multiset(Keyed(population, scores.value));
    var r1 := Ranked(e1.value.difference, first);
    var r2 := Ranked(e2.value.difference, second);
    && r1 in keyed && r2 in keyed - multiset{r1}
    && (forall x :: x in keyed ==> r1.difference <= x.difference)
    && (forall x :: x in keyed - multiset{r1} ==> r2.difference <= x.difference)
  }

  /** The first entry of a sorted list is its least entry. */
  lemma SortedHeadLeast(ranked: seq<Ranked>)
    requires Sorted(ranked) && |ranked| >= 1
    ensures forall x :: x in multiset(ranked) ==> ranked[0].difference <= x.difference
  {
    forall x | x in multiset(ranked)
      ensures ranked[0].difference <= x.difference
    {
      assert x in ranked;
      var i :| 0 <= i < |ranked| && ranked[i] == x;
      if i > 0 {
        assert ranked[0].difference <= ranked[i].difference;
      }
    }
  }

  /** The first two entries of a sorted list are its two least entries. */
  lemma SortedLeadingPair(ranked: seq<Ranked>)
    requires Sorted(ranked) && |ranked| >= 2
    ensures ranked[1] in multiset(ranked) - multiset{ranked[0]}
    ensures forall x :: x in multiset(ranked) ==> ranked[0].difference <= x.difference
    ensures forall x :: x in multiset(ranked) - multiset{ranked[0]} ==> ranked[1].difference <= x.difference
  {
    var rest: seq<Ranked> := ranked[1..];
    assert ranked == [ranked[0]] + rest;
    assert multiset(ranked) - multiset{ranked[0]} == multiset(rest);
    forall a, b | 0 <= a < b < |rest|
      ensures rest[a].difference <= rest[b].difference
    {
      assert rest[a] == ranked[a + 1] && rest[b] == ranked[b + 1];
    }
    SortedHeadLeast(ranked);
    SortedHeadLeast(rest);
    assert rest[0] == ranked[1];
  }

  /** The best two members of a ranking of the population are its two nearest members. */
  lemma LeadingPairNearest(g: Graph, rank: seq<nat>, population: seq<seq<int>>, wanted: real, ranked: seq<Ranked>)
    requires GraphValid(g) && WellRanked(g.units, rank)
    requires Evaluations(g, rank, population, wanted).Ok?
    requires Sorted(ranked) && |ranked| >= 2
    requires multiset(ranked) == multiset(Keyed(population, Evaluations(g, rank, population, wanted).value))
    ensures NearestTwo(g, rank, population, wanted, ranked[0].configuration, ranked[1].configuration)
  {
    RankedFacts(g, rank, population, wanted, ranked);
    SortedLeadingPair(ranked);
    assert ranked[0] == Ranked(EvaluateConfiguration(g, rank, ranked[0].configuration, wanted).value.difference,
                               ranked[0].configuration);
    assert ranked[1] == Ranked(EvaluateConfiguration(g, rank, ranked[1].configuration, wanted).value.difference,
                               ranked[1].configuration);
  }

  /**
   * `next` is the two parents followed by their children and by random
   * newcomers: the children are exactly the first `n` crossovers of the
   * parents and the newcomers exactly the first `n` random draws, each set
   * deduplicated.
   */
  ghost predicate Offspring(g: Graph, next: seq<seq<int>>, children: seq<seq<int>>, newcomers: seq<seq<int>>, n: int,
                      draw: (nat, nat) -> nat, coin: (nat, nat) -> real)
    requires GraphValid(g)
  {
    && |next| >= 2
    && next == [next[0], next[1]] + children + newcomers
    && |children| <= Max(0, n) && |newcomers| <= Max(0, n)
    && (forall c :: c in children <==> Bred(next[0], next[1], c, n, coin))
    && (forall c :: c in newcomers <==> Drawn(g, c, n, draw))
  }

  /**
   * The end of a generation in `calculate_nearest_output_frequency`: keep
   * the two best members, then add their children and new random members.
   * Drawing a random member fails when a multiplexor has no port.
   */
  method Breed(g: Graph, best: seq<int>, second: seq<int>, n: int,
               draw: (nat, nat) -> nat, coin: (nat, nat) -> real)
    returns (r: Result<seq<seq<int>>>, ghost children: seq<seq<int>>, ghost newcomers: seq<seq<int>>)
    requires GraphValid(g) && Feasible(g, best) && Feasible(g, second)
    ensures r.Err? <==> n > 0 && !AllPositive(PortCounts(g))
    ensures r.Err? ==> r.error == EmptyPortRange
    ensures r.Ok? ==> |r.value| >= 2 && r.value[0] == best && r.value[1] == second && AllFeasible(g, r.value)
    ensures r.Ok? ==> Offspring(g, r.value, children, newcomers, n, draw, coin)
  {
    var bred := GeneratePopulationFromParents(best, second, n, coin, 0.5);
    ChildrenFeasible(g, best, second, bred);
    children, newcomers := bred, [];
    var drawn := RandomConfigurations(g, n, draw);
    if drawn.Err? {
      return Err(drawn.error), children, newcomers;
    }
    newcomers := drawn.value;
    NextPopulationFeasible(g, best, second, bred, drawn.value);
    var next := [best, second] + bred + drawn.value;
    assert next[0] == best && next[1] == second;
    r := Ok(next);
  }

  /** Where one generation of the genetic search leads. */
  datatype Step =
    | Failed(error: Error)
    | Exact(selection: Selection, bestDifference: real)
    | Continue(next: seq<seq<int>>, bestDifference: real)

  /**
   * One pass of the loop of `calculate_nearest_output_frequency`: rank the
   * population, keep the two best members, stop on an exact match, and
   * otherwise breed the next population from the two best, topped up with
   * random members. `coin` and `draw` are this generation's streams.
   */
  method Generation(model: ClockModel, g: Graph, population: seq<seq<int>>, populationCount: int, wanted: real,
                    draw: (nat, nat) -> nat, coin: (nat, nat) -> real,
                    ghost rank: seq<nat>, ghost current: seq<int>)
    returns (step: Step, ghost current': seq<int>, ghost children: seq<seq<int>>, ghost newcomers: seq<seq<int>>)
    requires GraphValid(g) && WellRanked(g.units, rank)
    requires model.Valid() && model.Snapshot() == Configure(g, current)
    requires AllFeasible(g, population)
    modifies model
    ensures model.Valid() && model.Snapshot() == Configure(g, current')
    ensures step.Failed? ==>
              (Evaluations(g, rank, population, wanted).Err? || |population| < 2 ||
               (populationCount / 2 > 0 && !AllPositive(PortCounts(g))))
    ensures Evaluations(g, rank, population, wanted).Err? ==>
              step == Failed(Evaluations(g, rank, population, wanted).error)
    ensures |population| < 2 ==> step.Failed?
    ensures !step.Failed? ==>
              |population| >= 2 && NoneBetter(g, rank, population, wanted, step.bestDifference)
    ensures step.Exact? ==>
              var c := step.selection.configuration;
              Feasible(g, c) && current' == c &&
              EvaluateConfiguration(g, rank, c, wanted).Ok? &&
              EvaluateConfiguration(g, rank, c, wanted).value.outputSignal == step.selection.outputSignal == wanted &&
              EvaluateConfiguration(g, rank, c, wanted).value.difference == step.bestDifference
    ensures step.Continue? ==>
              AllFeasible(g, step.next) && Leads(g, rank, step.next, wanted, step.bestDifference)
    ensures step.Continue? ==> step.bestDifference != 0.0
    ensures step.Exact? ==> step.selection.configuration in population
    ensures step.Continue? ==>
              && Offspring(g, step.next, children, newcomers, populationCount / 2, draw, coin)
              && NearestTwo(g, rank, population, wanted, step.next[0], step.next[1])
  {
    children, newcomers := [], [];
    var ranked;
    FeasibleAt(g, population);
    ranked, current' := RankPopulation(model, population, wanted, rank, g, current);
    if ranked.Err? {
      return Failed(ranked.error), current', children, newcomers;
    }
    RankedFacts(g, rank, population, wanted, ranked.value);
    if |ranked.value| < 2 {
      return Failed(PopulationTooSmall), current', children, newcomers;
    }
    LeadingPairNearest(g, rank, population, wanted, ranked.value);
    step, current', children, newcomers :=
      Advance(model, g, ranked.value[0].configuration, ranked.value[1].configuration, ranked.value[0].difference,
              populationCount, wanted, draw, coin, rank, current');
  }

  /**
   * The rest of one generation in the loop of
   * `calculate_nearest_output_frequency`, once the two best members are
   * known: evaluate the best, stop on an exact match, and otherwise breed
   * the next population.
   */
  method Advance(model: ClockModel, g: Graph, bestChild: seq<int>, secondBestChild: seq<int>, bestDifference: real,
                 populationCount: int, wanted: real, draw: (nat, nat) -> nat, coin: (nat, nat) -> real,
                 ghost rank: seq<nat>, ghost current: seq<int>)
    returns (step: Step, ghost current': seq<int>, ghost children: seq<seq<int>>, ghost newcomers: seq<seq<int>>)
    requires GraphValid(g) && WellRanked(g.units, rank)
    requires model.Valid() && model.Snapshot() == Configure(g, current)
    requires Feasible(g, bestChild) && Feasible(g, secondBestChild)
    requires EvaluateConfiguration(g, rank, bestChild, wanted).Ok?
    requires EvaluateConfiguration(g, rank, bestChild, wanted).value.difference == bestDifference
    modifies model
    ensures model.Valid() && model.Snapshot() == Configure(g, current')
    ensures step.Failed? ==> populationCount / 2 > 0 && !AllPositive(PortCounts(g))
    ensures !step.Failed? ==> step.bestDifference == bestDifference
    ensures step.Exact? ==>
              step.selection == Selection(wanted, bestChild) && current' == bestChild &&
              EvaluateConfiguration(g, rank, bestChild, wanted).value.outputSignal == wanted
    ensures step.Continue? ==>
              bestDifference != 0.0 && AllFeasible(g, step.next) && |step.next| >= 2 &&
              step.next[0] == bestChild && step.next[1] == secondBestChild &&
              Offspring(g, step.next, children, newcomers, populationCount / 2, draw, coin)
  {
    children, newcomers := [], [];
    EvaluateAfterOverwrite(g, rank, current, bestChild, wanted);
    var best := EvaluateMultiplexorConfiguration(model, bestChild, wanted, rank);
    ConfigureOverwrite(g, current, bestChild);
    current' := bestChild;
    if best.value.outputSignal == wanted {
      return Exact(Selection(best.value.outputSignal, bestChild), bestDifference), current', children, newcomers;
    }
    var next;
    next, children, newcomers := Breed(g, bestChild, secondBestChild, populationCount / 2, draw, coin);
    if next.Err? {
      return Failed(next.error), current', children, newcomers;
    }
    step := Continue(next.value, bestDifference);
  }

  /**
   * The end of `calculate_nearest_output_frequency`: rank the last population
   * and leave the model configured with its best member.
   */
  method FinalSelection(model: ClockModel, g: Graph, population: seq<seq<int>>, wanted: real,
                        ghost rank: seq<nat>, ghost current: seq<int>)
    returns (r: Result<Selection>, ghost current': seq<int>)
    requires GraphValid(g) && WellRanked(g.units, rank)
    requires model.Valid() && model.Snapshot() == Configure(g, current)
    requires AllFeasible(g, population)
    modifies model
    ensures model.Valid() && model.Snapshot() == Configure(g, current')
    ensures r.Err? <==> Evaluations(g, rank, population, wanted).Err? || population == []
    ensures r.Ok? ==>
              var c := r.value.configuration;
              c in population && current' == c &&
              EvaluateConfiguration(g, rank, c, wanted).Ok? &&
              EvaluateConfiguration(g, rank, c, wanted).value.outputSignal == r.value.outputSignal &&
              forall j :: 0 <= j < |population| ==>
                EvaluateConfiguration(g, rank, population[j], wanted).Ok? &&
                EvaluateConfiguration(g, rank, c, wanted).value.difference
                <= EvaluateConfiguration(g, rank, population[j], wanted).value.difference
  {
    var ranked;
    FeasibleAt(g, population);
    ranked, current' := RankPopulation(model, population, wanted, rank, g, current);
    if ranked.Err? {
      return Err(ranked.error), current';
    }
    RankedFacts(g, rank, population, wanted, ranked.value);
    if |ranked.value| == 0 {
      return Err(PopulationTooSmall), current';
    }
    var bestConfiguration := ranked.value[0].configuration;
    EvaluateAfterOverwrite(g, rank, current', bestConfiguration, wanted);
    var res := EvaluateMultiplexorConfiguration(model, bestConfiguration, wanted, rank);
    ConfigureOverwrite(g, current', bestConfiguration);
    current' := bestConfiguration;
    r := Ok(Selection(res.value.outputSignal, bestConfiguration));
  }

  /**
   * What the generation loop has established once the generations whose
   * best distances are `history` have run and led to `step`: the best
   * distances never increase; a loop that ran at all started from at least
   * two members, so from at least two configurations and one multiplexor;
   * a search still running has a feasible population led by the last best
   * distance, none of which was zero; an exact match has distance zero and
   * ended the first generation to reach it.
   */
  ghost predicate Progress(g: Graph, rank: seq<nat>, wanted: real, initial: seq<seq<int>>, populationCount: int,
                           step: Step, history: seq<real>)
    requires GraphValid(g) && WellRanked(g.units, rank)
  {
    && NonIncreasing(history)
    && (history != [] ==> populationCount >= 2 && g.multiplexors != [] && |initial| >= 2)
    && (step.Continue? ==>
          && Positive(history)
          && AllFeasible(g, step.next)
          && (history == [] ==> step.next == initial)
          && (history != [] ==>
                step.bestDifference == history[|history| - 1] &&
                Leads(g, rank, step.next, wanted, step.bestDifference)))
    && (step.Exact? ==>
          && history != [] && history[|history| - 1] == 0.0 && Positive(history[..|history| - 1])
          && step.bestDifference == 0.0 && ExactMatch(g, rank, wanted, step.selection))
  }

  /**
   * Generation `it` as the loop runs it, drawing its random members from
   * stream `it + 1` and its children's coins from stream `it`. A generation
   * that does not fail records its best distance, which is never worse than
   * the last one since the best member is carried over.
   */
  method Round(model: ClockModel, g: Graph, population: seq<seq<int>>, populationCount: int, wanted: real,
               draw: (nat, nat, nat) -> nat, coin: (nat, nat, nat) -> real, it: nat,
               ghost rank: seq<nat>, ghost current: seq<int>, ghost initial: seq<seq<int>>,
               ghost lastBest: real, ghost history: seq<real>)
    returns (step: Step, ghost current': seq<int>, ghost history': seq<real>)
    requires GraphValid(g) && WellRanked(g.units, rank)
    requires model.Valid() && model.Snapshot() == Configure(g, current)
    requires |initial| <= Max(0, populationCount) && (g.multiplexors == [] ==> |initial| <= 1)
    requires |history| == it && Progress(g, rank, wanted, initial, populationCount, Continue(population, lastBest), history)
    modifies model
    ensures model.Valid() && model.Snapshot() == Configure(g, current')
    ensures |population| < 2 ==> step.Failed?
    ensures step.Failed? ==> history' == history
    ensures !step.Failed? ==> history' == history + [step.bestDifference]
    ensures step.Exact? ==> current' == step.selection.configuration
    ensures step.Exact? ==>
              step.selection.configuration in population && NoneBetter(g, rank, population, wanted, step.bestDifference)
    ensures Progress(g, rank, wanted, initial, populationCount, step, history')
  {
    ghost var children, newcomers;
    step, current', children, newcomers := Generation(model, g, population, populationCount, wanted,
                                                      (i: nat, k: nat) => draw(it + 1, i, k),
                                                      (i: nat, k: nat) => coin(it, i, k), rank, current);
    history' := history;
    if !step.Failed? {
      if history != [] {
        BestNeverWorse(g, rank, population, wanted, step.bestDifference, lastBest);
      }
      Record(history, step.bestDifference);
      history' := history + [step.bestDifference];
    }
  }

  /**
   * The generation loop of `calculate_nearest_output_frequency`, run for
   * generations `0 .. numIterations`. It ends `Failed`, `Exact` (an exact
   * match stopped it early) or `Continue` with the last population, and
   * records the best distance of every generation that did not fail.
   * `last` is the population the last generation ranked; an exact match is
   * one of its members.
   */
  method Evolve(model: ClockModel, g: Graph, initial: seq<seq<int>>, populationCount: int, numIterations: int,
                wanted: real, draw: (nat, nat, nat) -> nat, coin: (nat, nat, nat) -> real,
                ghost rank: seq<nat>, ghost current: seq<int>)
    returns (step: Step, ghost current': seq<int>, ghost bestDifferences: seq<real>, ghost last: seq<seq<int>>)
    requires GraphValid(g) && WellRanked(g.units, rank)
    requires model.Valid() && model.Snapshot() == Configure(g, current)
    requires AllFeasible(g, initial)
    requires |initial| <= Max(0, populationCount) && (g.multiplexors == [] ==> |initial| <= 1)
    modifies model
    ensures model.Valid() && model.Snapshot() == Configure(g, current')
    ensures |bestDifferences| <= Max(0, numIterations + 1)
    ensures step.Continue? ==> |bestDifferences| == Max(0, numIterations + 1)
    ensures step.Exact? ==> current' == step.selection.configuration
    ensures step.Exact? ==>
              step.selection.configuration in last && NoneBetter(g, rank, last, wanted, step.bestDifference)
    ensures Progress(g, rank, wanted, initial, populationCount, step, bestDifferences)
    ensures numIterations >= 0 && |initial| < 2 ==> step.Failed?
  {
    var population := initial;
    current' := current;
    bestDifferences := [];
    var lastBest := 0.0;
    var it := 0;
    step := Continue(population, lastBest);
    last := population;
    while it <= numIterations
      invariant 0 <= it <= Max(0, numIterations + 1) && it == |bestDifferences|
      invariant model.Valid() && model.Snapshot() == Configure(g, current')
      invariant step == Continue(population, lastBest)
      invariant Progress(g, rank, wanted, initial, populationCount, step, bestDifferences)
      decreases numIterations + 1 - it
    {
      last := population;
      step, current', bestDifferences := Round(model, g, population, populationCount, wanted, draw, coin, it,
                                               rank, current', initial, lastBest, bestDifferences);
      if !step.Continue? {
        break;
      }
      population, lastBest := step.next, step.bestDifference;
      it := it + 1;
    }
  }

  /**
   * What the genetic search promises about its result `r`, given the best
   * distances `history` of the generations it ran:
   * - at most `numIterations + 1` generations ran, and their best distances
   *   never increase;
   * - with fewer than two members to draw or no multiplexor, it fails;
   * - a result is a feasible configuration together with the output signal
   *   the model gives under it;
   * - an early exit is an exact match, reached by the last generation and by
   *   none before it;
   * - otherwise every generation ran, none reached the wanted frequency, and
   *   the result is no worse than the last generation's best.
   */
  ghost predicate Found(g: Graph, rank: seq<nat>, wanted: real, populationCount: int, numIterations: int,
                        r: Result<Selection>, exitedEarly: bool, history: seq<real>)
    requires GraphValid(g) && WellRanked(g.units, rank)
  {
    && |history| <= Max(0, numIterations + 1) && NonIncreasing(history)
    && (numIterations >= 0 && (populationCount <= 1 || g.multiplexors == []) ==> r.Err?)
    && (r.Ok? ==>
          && Feasible(g, r.value.configuration)
          && EvaluateConfiguration(g, rank, r.value.configuration, wanted).Ok?
          && EvaluateConfiguration(g, rank, r.value.configuration, wanted).value.outputSignal == r.value.outputSignal)
    && (exitedEarly ==>
          && r.Ok? && r.value.outputSignal == wanted
          && history != [] && history[|history| - 1] == 0.0 && Positive(history[..|history| - 1]))
    && (r.Ok? && !exitedEarly ==> |history| == Max(0, numIterations + 1) && Positive(history))
    && (r.Ok? && history != [] ==> ScoresAtMost(g, rank, r.value.configuration, wanted, history[|history| - 1]))
  }

  /**
   * `GeneticMultiplexorAdjuster.calculate_nearest_output_frequency`. The
   * stream `s` of `draw(s, i, k)` and `coin(s, i, k)` is 0 for the first
   * population and `it + 1` (random members) or `it` (children) in
   * generation `it`. The ghost results say whether the search stopped at an
   * exact match and record the best distance of every generation run.
   */
  method CalculateNearestOutputFrequency(model: ClockModel, populationCount: int, numIterations: int, wanted: real,
                                         draw: (nat, nat, nat) -> nat, coin: (nat, nat, nat) -> real,
                                         ghost rank: seq<nat>)
    returns (r: Result<Selection>, ghost exitedEarly: bool, ghost bestDifferences: seq<real>)
    requires model.Valid() && WellRanked(model.units, rank)
    modifies model
    ensures model.Valid() && OnlySlotsChanged(old(model.units), model.units)
    ensures model.Snapshot() == old(model.Snapshot()).(units := model.units)
    ensures r.Ok? ==> model.Snapshot() == Configure(old(model.Snapshot()), r.value.configuration)
    ensures Found(old(model.Snapshot()), rank, wanted, populationCount, numIterations, r, exitedEarly, bestDifferences)
  {
    var g := model.Snapshot();
    exitedEarly, bestDifferences := false, [];
    var initial := RandomConfigurations(g, populationCount, (i: nat, k: nat) => draw(0, i, k));
    if initial.Err? {
      return Err(initial.error), exitedEarly, bestDifferences;
    }
    assert Configure(g, []) == g;
    var step;
    ghost var current, last;
    step, current, bestDifferences, last := Evolve(model, g, initial.value, populationCount, numIterations, wanted,
                                             draw, coin, rank, []);
    if step.Failed? {
      r := Err(step.error);
    } else if step.Exact? {
      exitedEarly := true;
      r := Ok(step.selection);
    } else {
      r, current := FinalSelection(model, g, step.next, wanted, rank, current);
      if r.Ok? && bestDifferences != [] {
        assert EvaluateConfiguration(g, rank, r.value.configuration, wanted).value.difference
               <= EvaluateConfiguration(g, rank, step.next[0], wanted).value.difference;
      }
    }
  }
}
