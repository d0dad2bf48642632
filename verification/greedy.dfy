/**
 * The greedy adjuster, which in fact searches exhaustively: it enumerates
 * every combination of port indices, scores each configuration and keeps the
 * first one with the smallest distance from the wanted frequency.
 */
module Greedy {
  import opened Results
  import opened Units
  import opened Model
  import opened Adjuster

  // ---------------------------------------------------------------------
  // Enumerating the combinations

  /** The combinations that start with port index `i`, given those of the remaining multiplexors. */
  function Block(i: nat, rest: seq<seq<nat>>): seq<seq<nat>> {
    if rest == [] then [[i]] else seq(|rest|, j requires 0 <= j < |rest| => [i] + rest[j])
  }

  /** The blocks for the port indices 0, ..., n - 1 in order. */
  function Blocks(n: nat, rest: seq<seq<nat>>): seq<seq<nat>> {
    if n == 0 then [] else Blocks(n - 1, rest) + Block(n - 1, rest)
  }

  /** What `calculate_combinations` returns for the port counts `counts`. */
  function Combinations(counts: seq<nat>): seq<seq<nat>>
    decreases |counts|
  {
    if counts == [] then [] else Blocks(counts[0], Combinations(counts[1..]))
  }

  /** The number of leading counts that are not zero. */
  function Depth(counts: seq<nat>): (d: nat)
    ensures d <= |counts|
    ensures forall k :: 0 <= k < d ==> counts[k] > 0
    ensures d < |counts| ==> counts[d] == 0
  {
    if counts == [] || counts[0] == 0 then 0 else 1 + Depth(counts[1..])
  }

  function Product(s: seq<nat>): nat {
    if s == [] then 1 else s[0] * Product(s[1..])
  }

  /** `a` comes strictly before `b` in lexicographic order. */
  predicate LexLess(a: seq<nat>, b: seq<nat>)
    decreases |a|
  {
    |a| > 0 && |b| > 0 && (a[0] < b[0] || (a[0] == b[0] && LexLess(a[1..], b[1..])))
  }

  function Zeros(n: nat): (z: seq<nat>)
    ensures |z| == n && forall k :: 0 <= k < n ==> z[k] == 0
  {
    seq(n, _ => 0)
  }

  lemma {:induction false} BlocksMembers(n: nat, rest: seq<seq<nat>>, t: seq<nat>)
    ensures t in Blocks(n, rest) <==>
            |t| > 0 && t[0] < n && (if rest == [] then |t| == 1 else t[1..] in rest)
  {
    if n > 0 {
      BlocksMembers(n - 1, rest, t);
      var last := Block(n - 1, rest);
      if rest == [] {
        if |t| == 1 {
          assert t == [t[0]];
        }
      } else {
        if |t| > 0 && t[0] == n - 1 && t[1..] in rest {
          var j :| 0 <= j < |rest| && rest[j] == t[1..];
          assert last[j] == t;
        }
        if t in last {
          var j :| 0 <= j < |last| && last[j] == t;
          assert t[1..] == rest[j];
        }
      }
    }
  }

  /**
   * A tuple is enumerated exactly when it has one in-range index for each
   * leading non-zero count; a zero count ends every tuple before it, and a
   * list of counts that starts with zero (or is empty) has no tuples.
   */
  lemma {:induction false} CombinationsMembers(counts: seq<nat>, t: seq<nat>)
    ensures t in Combinations(counts) <==>
            Depth(counts) > 0 && |t| == Depth(counts) && forall k :: 0 <= k < |t| ==> t[k] < counts[k]
    decreases |counts|
  {
    if counts != [] && counts[0] > 0 {
      var tail := counts[1..];
      var rest := Combinations(tail);
      var d := Depth(tail);
      BlocksMembers(counts[0], rest, t);
      CombinationsMembers(tail, Zeros(d));
      if rest != [] {
        CombinationsMembers(tail, rest[0]);
        if |t| > 0 {
          CombinationsMembers(tail, t[1..]);
          if |t| == d + 1 {
            InRangeSplit(counts, t);
          }
        }
      }
    }
  }

  /** A tuple is in range exactly when its head and its tail are. */
  lemma InRangeSplit(counts: seq<nat>, t: seq<nat>)
    requires 0 < |t| <= |counts|
    ensures (forall k :: 0 <= k < |t| ==> t[k] < counts[k]) <==>
            t[0] < counts[0] && forall k :: 0 <= k < |t[1..]| ==> t[1..][k] < counts[1..][k]
  {
    if t[0] < counts[0] && forall k :: 0 <= k < |t[1..]| ==> t[1..][k] < counts[1..][k] {
      forall k | 0 <= k < |t|
        ensures t[k] < counts[k]
      {
        if k > 0 {
          assert t[1..][k - 1] == t[k];
        }
      }
    }
  }

  /** Every enumerated tuple has one in-range index per leading non-zero count. */
  lemma CombinationsInRange(counts: seq<nat>)
    ensures forall j :: 0 <= j < |Combinations(counts)| ==>
              |Combinations(counts)[j]| == Depth(counts) && InRange(counts, Combinations(counts)[j])
  {
    forall j | 0 <= j < |Combinations(counts)| {
      CombinationsMembers(counts, Combinations(counts)[j]);
    }
  }

  lemma {:induction false} BlocksLength(n: nat, rest: seq<seq<nat>>)
    ensures |Blocks(n, rest)| == n * (if rest == [] then 1 else |rest|)
  {
    if n > 0 {
      BlocksLength(n - 1, rest);
    }
  }

  lemma {:induction false} ProductPositive(s: seq<nat>)
    requires forall k :: 0 <= k < |s| ==> s[k] > 0
    ensures Product(s) > 0
  {
    if s != [] {
      ProductPositive(s[1..]);
    }
  }

  /**
   * There are as many combinations as the product of the leading non-zero
   * counts, and none at all when the first count is zero or there are no
   * counts.
   */
  lemma {:induction false} CombinationsCount(counts: seq<nat>)
    ensures Depth(counts) == 0 <==> Combinations(counts) == []
    ensures Depth(counts) > 0 ==> |Combinations(counts)| == Product(counts[..Depth(counts)])
    decreases |counts|
  {
    if counts != [] && counts[0] > 0 {
      var tail := counts[1..];
      var rest := Combinations(tail);
      var d := Depth(tail);
      CombinationsCount(tail);
      BlocksLength(counts[0], rest);
      if d == 0 {
        assert counts[..1] == [counts[0]];
        assert Product(counts[..1]) == counts[0] * Product([]);
      } else {
        ProductPositive(tail[..d]);
        assert counts[..d + 1] == [counts[0]] + tail[..d];
        assert counts[..d + 1][1..] == tail[..d];
      }
    }
  }

  lemma {:induction false} BlocksSorted(n: nat, rest: seq<seq<nat>>)
    requires forall a, b :: 0 <= a < b < |rest| ==> LexLess(rest[a], rest[b])
    ensures forall a, b :: 0 <= a < b < |Blocks(n, rest)| ==> LexLess(Blocks(n, rest)[a], Blocks(n, rest)[b])
  {
    if n > 0 {
      BlocksSorted(n - 1, rest);
      var front := Blocks(n - 1, rest);
      var last := Block(n - 1, rest);
      forall a, b | 0 <= a < b < |front + last|
        ensures LexLess((front + last)[a], (front + last)[b])
      {
        var x, y := (front + last)[a], (front + last)[b];
        if b < |front| {
          assert x == front[a] && y == front[b];
        } else if a >= |front| {
          assert rest != [];
          assert x == [n - 1] + rest[a - |front|] && y == [n - 1] + rest[b - |front|];
          LexLessSameHead(n - 1, rest[a - |front|], rest[b - |front|]);
        } else {
          assert x == front[a] && y == last[b - |front|];
          BlocksMembers(n - 1, rest, x);
          assert y[0] == n - 1;
          LexLessByHead(x, y);
        }
      }
    }
  }

  lemma LexLessByHead(x: seq<nat>, y: seq<nat>)
    requires |x| > 0 && |y| > 0 && x[0] < y[0]
    ensures LexLess(x, y)
  {
  }

  lemma LexLessSameHead(h: nat, x: seq<nat>, y: seq<nat>)
    requires LexLess(x, y)
    ensures LexLess([h] + x, [h] + y)
  {
    assert ([h] + x)[1..] == x && ([h] + y)[1..] == y;
  }

  lemma {:induction false} LexLessIrreflexive(a: seq<nat>)
    ensures !LexLess(a, a)
    decreases |a|
  {
    if |a| > 0 {
      LexLessIrreflexive(a[1..]);
    }
  }

  /** The combinations come in strictly increasing lexicographic order, so none repeats. */
  lemma {:induction false} CombinationsSorted(counts: seq<nat>)
    ensures forall a, b :: 0 <= a < b < |Combinations(counts)| ==>
              LexLess(Combinations(counts)[a], Combinations(counts)[b])
    ensures forall a, b :: 0 <= a < b < |Combinations(counts)| ==>
              Combinations(counts)[a] != Combinations(counts)[b]
    decreases |counts|
  {
    var c := Combinations(counts);
    if counts != [] {
      CombinationsSorted(counts[1..]);
      BlocksSorted(counts[0], Combinations(counts[1..]));
    }
    forall a, b | 0 <= a < b < |c|
      ensures c[a] != c[b]
    {
      LexLessIrreflexive(c[a]);
    }
  }

  /** `calculate_combinations`: the recursive enumeration with its two nested loops. */
  method CalculateCombinations(inputList: seq<nat>) returns (r: seq<seq<nat>>)
    ensures r == Combinations(inputList)
    decreases |inputList|
  {
    if inputList == [] {
      return [];
    }
    var combinationList: seq<seq<nat>> := [];
    ghost var rest := Combinations(inputList[1..]);
    for i := 0 to inputList[0]
      invariant combinationList == Blocks(i, rest)
    {
      var combinations := CalculateCombinations(inputList[1..]);
      if combinations != [] {
        for j := 0 to |combinations|
          invariant combinationList == Blocks(i, rest) + Block(i, rest)[..j]
        {
          var ll := [i];
          ll := ll + combinations[j];
          assert Block(i, rest)[..j + 1] == Block(i, rest)[..j] + [ll];
          combinationList := combinationList + [ll];
        }
        assert Block(i, rest)[..|combinations|] == Block(i, rest);
      } else {
        combinationList := combinationList + [[i]];
      }
    }
    return combinationList;
  }

  // ---------------------------------------------------------------------
  // Keeping the first strict minimum

  /**
   * The position the best-so-far loop keeps: a minimum of `ds`, and the
   * first one because only a strictly smaller distance replaces it. `None`
   * when there is nothing to choose from.
   */
  function Best(ds: seq<real>): (p: Option<nat>)
    ensures p.None? <==> ds == []
    ensures p.Some? ==> p.value < |ds|
    ensures p.Some? ==> forall j :: 0 <= j < |ds| ==> ds[p.value] <= ds[j]
    ensures p.Some? ==> forall j :: 0 <= j < p.value ==> ds[p.value] < ds[j]
    decreases |ds|
  {
    if ds == [] then None
    else
      var q := Best(ds[..|ds| - 1]);
      if q.None? || ds[|ds| - 1] < ds[q.value] then Some(|ds| - 1) else q
  }

  function Differences(scores: seq<Score>): (ds: seq<real>)
    ensures |ds| == |scores| && forall j :: 0 <= j < |ds| ==> ds[j] == scores[j].difference
  {
    seq(|scores|, j requires 0 <= j < |scores| => scores[j].difference)
  }

  // ---------------------------------------------------------------------
  // The search

  /** Every enumerated combination of port indices, mapped to port keys. */
  function Configurations(g: Graph): (r: seq<seq<int>>)
    requires GraphValid(g)
    ensures |r| == |Combinations(PortCounts(g))|
    ensures forall j :: 0 <= j < |r| ==> |r[j]| == Depth(PortCounts(g))
  {
    var combs := Combinations(PortCounts(g));
    CombinationsInRange(PortCounts(g));
    seq(|combs|, j requires 0 <= j < |combs| => ToPorts(g, combs[j]))
  }

  /** The best-so-far variables of the greedy loop; `None` stands for `math.inf`. */
  datatype BestSoFar = BestSoFar(difference: Option<real>, configuration: seq<int>, outputSignal: real)

  /** The best-so-far variables once `scores` (the scores of the first configurations) are seen. */
  function Kept(configs: seq<seq<int>>, scores: seq<Score>): BestSoFar
    requires |scores| <= |configs|
  {
    match Best(Differences(scores))
    case None => BestSoFar(None, [], 0.0)
    case Some(p) => BestSoFar(Some(scores[p].difference), configs[p], scores[p].outputSignal)
  }

  /** `GreedyMultiplexorAdjuster.calculate_nearest_output_frequency` on a model state. */
  function GreedySearch(g: Graph, ghost rank: seq<nat>, wanted: real): Result<Selection>
    requires GraphValid(g) && WellRanked(g.units, rank)
  {
    var configs := Configurations(g);
    match Evaluations(g, rank, configs, wanted)
    case Err(e) => Err(e)
    case Ok(scores) =>
      var kept := Kept(configs, scores);
      Ok(Selection(kept.outputSignal, kept.configuration))
  }

  /** Scoring `configs` in turn: the first error raised, or the configuration kept from all the scores. */
  function Scan(g: Graph, ghost rank: seq<nat>, configs: seq<seq<int>>, wanted: real): Result<BestSoFar>
    requires GraphValid(g) && WellRanked(g.units, rank)
  {
    match Evaluations(g, rank, configs, wanted)
    case Err(e) => Err(e)
    case Ok(scores) => Ok(Kept(configs, scores))
  }

  /** `ds[p]` is no larger than any entry and strictly smaller than every earlier one. */
  predicate FirstMinimum(ds: seq<real>, p: nat) {
    && p < |ds|
    && (forall j :: 0 <= j < |ds| ==> ds[p] <= ds[j])
    && (forall j :: 0 <= j < p ==> ds[p] < ds[j])
  }

  /** The search fails exactly when scoring some enumerated configuration fails. */
  lemma GreedyFailsOnlyWhenScoringFails(g: Graph, rank: seq<nat>, wanted: real)
    requires GraphValid(g) && WellRanked(g.units, rank)
    ensures GreedySearch(g, rank, wanted).Err? <==>
            exists j :: 0 <= j < |Configurations(g)| && EvaluateConfiguration(g, rank, Configurations(g)[j], wanted).Err?
  {
    EvaluationsMeaning(g, rank, Configurations(g), wanted);
  }

  /**
   * Once every configuration is scored (`scores[j]` is the score of the j-th
   * enumerated configuration), the search returns the first configuration
   * of least distance together with its output signal.
   */
  lemma GreedyChoosesFirstMinimum(g: Graph, rank: seq<nat>, wanted: real, scores: seq<Score>)
    requires GraphValid(g) && WellRanked(g.units, rank)
    requires Evaluations(g, rank, Configurations(g), wanted) == Ok(scores)
    ensures Configurations(g) != [] ==>
              exists p: nat :: FirstMinimum(Differences(scores), p) &&
                GreedySearch(g, rank, wanted) == Ok(Selection(scores[p].outputSignal, Configurations(g)[p]))
  {
    if Configurations(g) != [] {
      var p := Best(Differences(scores)).value;
      assert FirstMinimum(Differences(scores), p);
    }
  }

  /** With no enumerated configuration the search returns `(0.0, [])` without evaluating anything. */
  lemma GreedyWithoutCandidates(g: Graph, rank: seq<nat>, wanted: real)
    requires GraphValid(g) && WellRanked(g.units, rank)
    requires g.multiplexors == [] || PortCounts(g)[0] == 0
    ensures Configurations(g) == []
    ensures GreedySearch(g, rank, wanted) == Ok(Selection(0.0, []))
  {
    CombinationsCount(PortCounts(g));
  }

  /** When every multiplexor has a port, every candidate sets every multiplexor to one of its port keys. */
  lemma GreedyCandidatesFeasible(g: Graph)
    requires GraphValid(g)
    requires forall k :: 0 <= k < |g.multiplexors| ==> PortCounts(g)[k] > 0
    ensures forall j :: 0 <= j < |Configurations(g)| ==> Feasible(g, Configurations(g)[j])
  {
    var counts := PortCounts(g);
    if Depth(counts) < |counts| {
      assert false;
    }
  }

  /** The position of `key` among the keys of a port dictionary. */
  function PortIndex(ports: seq<Port>, key: int): (j: nat)
    requires key in Keys(ports)
    ensures j < |ports| && ports[j].key == key
  {
    assert Keys(ports) == [ports[0].key] + Keys(ports[1..]);
    if ports[0].key == key then 0 else 1 + PortIndex(ports[1..], key)
  }

  /**
   * Every configuration that sets each multiplexor to one of its port keys is
   * among the enumerated candidates (when there is a multiplexor at all).
   */
  lemma FeasibleEnumerated(g: Graph, c: seq<int>)
    requires GraphValid(g) && g.multiplexors != [] && Feasible(g, c)
    ensures c in Configurations(g)
  {
    var counts := PortCounts(g);
    var t: seq<nat> := seq(|c|, k requires 0 <= k < |c| => PortIndex(g.units[g.multiplexors[k]].ports, c[k]));
    forall k | 0 <= k < |counts|
      ensures counts[k] > 0
    {
      assert t[k] < |g.units[g.multiplexors[k]].ports|;
    }
    assert Depth(counts) == |counts|;
    assert InRange(counts, t);
    CombinationsMembers(counts, t);
    var combs := Combinations(counts);
    var j :| 0 <= j < |combs| && combs[j] == t;
    var configs := Configurations(g);
    assert configs[j] == ToPorts(g, t);
    assert ToPorts(g, t) == c;
  }

  /**
   * The greedy search is optimal: when there is a multiplexor, no
   * configuration that sets every multiplexor to one of its ports comes
   * nearer to the wanted frequency than the one it returns.
   */
  lemma GreedyOptimal(g: Graph, rank: seq<nat>, wanted: real, c: seq<int>)
    requires GraphValid(g) && WellRanked(g.units, rank)
    requires g.multiplexors != [] && Feasible(g, c)
    requires GreedySearch(g, rank, wanted).Ok?
    ensures EvaluateConfiguration(g, rank, c, wanted).Ok?
    ensures Abs(GreedySearch(g, rank, wanted).value.outputSignal - wanted)
            <= EvaluateConfiguration(g, rank, c, wanted).value.difference
  {
    var configs := Configurations(g);
    FeasibleEnumerated(g, c);
    var j :| 0 <= j < |configs| && configs[j] == c;
    GreedySearchUnfolds(g, rank, wanted);
    var scores := Evaluations(g, rank, configs, wanted).value;
    EvaluationsMeaning(g, rank, configs, wanted);
    var p := Best(Differences(scores)).value;
    assert EvaluateConfiguration(g, rank, configs[p], wanted) == Ok(scores[p]);
    assert Differences(scores)[p] <= Differences(scores)[j];
    assert GreedySearch(g, rank, wanted).value.outputSignal == scores[p].outputSignal;
  }

  lemma GreedySearchUnfolds(g: Graph, rank: seq<nat>, wanted: real)
    requires GraphValid(g) && WellRanked(g.units, rank)
    ensures Evaluations(g, rank, Configurations(g), wanted).Err? ==>
              GreedySearch(g, rank, wanted) == Err(Evaluations(g, rank, Configurations(g), wanted).error)
    ensures Evaluations(g, rank, Configurations(g), wanted).Ok? ==>
              var kept := Kept(Configurations(g), Evaluations(g, rank, Configurations(g), wanted).value);
              GreedySearch(g, rank, wanted) == Ok(Selection(kept.outputSignal, kept.configuration))
  {
  }

  /** One round of the greedy loop: a strictly smaller distance replaces the best so far. */
  lemma KeptStep(configs: seq<seq<int>>, scores: seq<Score>, s: Score)
    requires |scores| < |configs|
    ensures Kept(configs, scores + [s]) ==
            if Kept(configs, scores).difference.None? || s.difference < Kept(configs, scores).difference.value
            then BestSoFar(Some(s.difference), configs[|scores|], s.outputSignal)
            else Kept(configs, scores)
  {
    assert Differences(scores + [s])[..|scores|] == Differences(scores);
  }

  lemma KeptLength(g: Graph, scores: seq<Score>)
    requires GraphValid(g) && 0 < |scores| <= |Configurations(g)|
    ensures |Kept(Configurations(g), scores).configuration| == Depth(PortCounts(g))
  {
  }

  /** The candidates of `GreedyMultiplexorAdjuster.calculate_nearest_output_frequency`: every combination of port indices, mapped to port keys. */
  method CandidateConfigurations(g: Graph) returns (configs: seq<seq<int>>)
    requires GraphValid(g)
    ensures configs == Configurations(g)
  {
    var counts := PortCounts(g);
    var combs := CalculateCombinations(counts);
    CombinationsInRange(counts);
    configs := seq(|combs|, j requires 0 <= j < |combs| => ToPorts(g, combs[j]));
  }

  /**
   * One turn of the greedy loop: evaluate `configs[i]` and keep it when its
   * distance is below the least one so far.
   */
  method ScanOne(model: ClockModel, configs: seq<seq<int>>, i: nat, wanted: real,
                 ghost rank: seq<nat>, ghost g0: Graph, ghost current: seq<int>, ghost scores: seq<Score>,
                 frequencyDifference: Option<real>, selected: seq<int>, selectedSignal: real)
    returns (res: Result<Score>, frequencyDifference': Option<real>, selected': seq<int>, selectedSignal': real)
    requires GraphValid(g0) && WellRanked(g0.units, rank)
    requires model.Valid() && model.Snapshot() == Configure(g0, current)
    requires i < |configs| && Min(|g0.multiplexors|, |current|) <= Min(|g0.multiplexors|, |configs[i]|)
    requires |scores| == i && Evaluations(g0, rank, configs[..i], wanted) == Ok(scores)
    requires BestSoFar(frequencyDifference, selected, selectedSignal) == Kept(configs, scores)
    modifies model
    ensures model.Valid() && model.Snapshot() == Configure(g0, configs[i])
    ensures res.Err? ==> Evaluations(g0, rank, configs, wanted) == Err(res.error)
    ensures res.Ok? ==> Evaluations(g0, rank, configs[..i + 1], wanted) == Ok(scores + [res.value])
    ensures res.Ok? ==> BestSoFar(frequencyDifference', selected', selectedSignal') == Kept(configs, scores + [res.value])
  {
    frequencyDifference', selected', selectedSignal' := frequencyDifference, selected, selectedSignal;
    res := EvaluateInTurn(model, configs, i, wanted, rank, g0, current, scores);
    if res.Ok? {
      var score := res.value;
      KeptStep(configs, scores, score);
      if frequencyDifference.None? || score.difference < frequencyDifference.value {
        frequencyDifference' := Some(score.difference);
        selected' := configs[i];
        selectedSignal' := score.outputSignal;
      }
    }
  }

  /**
   * The loop of the greedy search: evaluate every configuration in turn on
   * the model and keep the first one of least distance. It stops at the
   * first evaluation that raises.
   */
  method ScanConfigurations(model: ClockModel, configs: seq<seq<int>>, wanted: real,
                            ghost rank: seq<nat>, ghost g0: Graph)
    returns (r: Result<BestSoFar>, ghost current: seq<int>)
    requires GraphValid(g0) && WellRanked(g0.units, rank)
    requires forall j :: 0 <= j < |configs| ==> |configs[j]| == Depth(PortCounts(g0))
    requires model.Valid() && model.Snapshot() == g0
    modifies model
    ensures model.Valid() && model.Snapshot() == Configure(g0, current)
    ensures |current| <= Depth(PortCounts(g0)) && (configs == [] ==> current == [])
    ensures r == Scan(g0, rank, configs, wanted)
  {
    ghost var depth := Depth(PortCounts(g0));
    var frequencyDifference: Option<real> := None;
    var selected: seq<int> := [];
    var selectedSignal := 0.0;
    ghost var scores: seq<Score> := [];
    current := [];
    assert Configure(g0, []) == g0;
    var i := 0;
    assert configs[..0] == [];
    while i < |configs|
      invariant 0 <= i <= |configs| && |scores| == i
      invariant model.Valid()
      invariant |current| <= depth && model.Snapshot() == Configure(g0, current)
      invariant i == 0 ==> current == []
      invariant Evaluations(g0, rank, configs[..i], wanted) == Ok(scores)
      invariant BestSoFar(frequencyDifference, selected, selectedSignal) == Kept(configs, scores)
    {
      var res;
      res, frequencyDifference, selected, selectedSignal :=
        ScanOne(model, configs, i, wanted, rank, g0, current, scores, frequencyDifference, selected, selectedSignal);
      current := configs[i];
      if res.Err? {
        return Err(res.error), current;
      }
      scores := scores + [res.value];
      i := i + 1;
    }
    assert configs[..i] == configs;
    r := Ok(BestSoFar(frequencyDifference, selected, selectedSignal));
  }

  /** `GreedyMultiplexorAdjuster.calculate_nearest_output_frequency`. */
  method CalculateNearestOutputFrequency(model: ClockModel, wanted: real, ghost rank: seq<nat>)
    returns (r: Result<Selection>)
    requires model.Valid() && WellRanked(model.units, rank)
    modifies model
    ensures model.Valid() && WellRanked(model.units, rank)
    ensures r == GreedySearch(old(model.Snapshot()), rank, wanted)
    ensures r.Ok? ==> model.Snapshot() == Configure(old(model.Snapshot()), r.value.configuration)
  {
    ghost var g0 := model.Snapshot();
    var configs := CandidateConfigurations(model.Snapshot());
    var scan;
    ghost var current;
    scan, current := ScanConfigurations(model, configs, wanted, rank, g0);
    ConfigurePreserves(g0, rank, current);
    GreedySearchUnfolds(g0, rank, wanted);
    if scan.Err? {
      return Err(scan.error);
    }
    var selected := scan.value.configuration;
    if configs != [] {
      KeptLength(g0, Evaluations(g0, rank, configs, wanted).value);
    }
    ConfigureOverwrite(g0, current, selected);
    ConfigurePreserves(g0, rank, selected);
    SetMultiplexorConfiguration(model, selected);
    return Ok(Selection(scan.value.outputSignal, selected));
  }
}
