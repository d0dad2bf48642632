/**
 * What every multiplexor adjuster shares: writing a configuration (one port
 * key per multiplexor) into the multiplexors' active slots, and scoring a
 * configuration by the distance of the resulting output signal from the
 * wanted frequency.
 */
module Adjuster {
  import opened Results
  import opened Units
  import opened Model

  function Min(a: int, b: int): int {
    if a <= b then a else b
  }

  // ---------------------------------------------------------------------
  // Writing a configuration

  /** Writes `slot` into the active slot of the multiplexor at `id`. */
  function SetSlot(units: seq<Unit>, id: UnitId, slot: int): (r: seq<Unit>)
    ensures |r| == |units|
    ensures forall i :: 0 <= i < |units| && i != id ==> r[i] == units[i]
  {
    if id < |units| && units[id].Multiplexor? then units[id := units[id].(activeInputSlot := slot)] else units
  }

  /** The two arenas differ at most in the active slots of multiplexors. */
  predicate OnlySlotsChanged(before: seq<Unit>, after: seq<Unit>) {
    && |after| == |before|
    && forall i :: 0 <= i < |before| ==>
         after[i] == before[i] ||
         (before[i].Multiplexor? && after[i].Multiplexor? && after[i] == before[i].(activeInputSlot := after[i].activeInputSlot))
  }

  /** The slot writes of the `zip` loop, one pair of `ids` and `config` at a time. */
  function SlotsWritten(units: seq<Unit>, ids: seq<UnitId>, config: seq<int>): (r: seq<Unit>)
    ensures OnlySlotsChanged(units, r)
    decreases |config|
  {
    if ids == [] || config == [] then units
    else SlotsWritten(SetSlot(units, ids[0], config[0]), ids[1..], config[1..])
  }

  /** `set_multiplexor_configuration` on a model state. */
  function Configure(g: Graph, config: seq<int>): Graph {
    g.(units := SlotsWritten(g.units, g.multiplexors, config))
  }

  lemma {:induction false} SlotsWrittenElsewhere(units: seq<Unit>, ids: seq<UnitId>, config: seq<int>, i: nat)
    requires i < |units|
    requires forall k :: 0 <= k < Min(|ids|, |config|) ==> ids[k] != i
    ensures SlotsWritten(units, ids, config)[i] == units[i]
    decreases |config|
  {
    if ids != [] && config != [] {
      assert ids[0] != i;
      SlotsWrittenElsewhere(SetSlot(units, ids[0], config[0]), ids[1..], config[1..], i);
    }
  }

  lemma {:induction false} SlotsWrittenAt(units: seq<Unit>, ids: seq<UnitId>, config: seq<int>, k: nat)
    requires k < Min(|ids|, |config|)
    requires forall j :: 0 <= j < |ids| ==> ids[j] < |units| && units[ids[j]].Multiplexor?
    requires forall a, b :: 0 <= a < b < |ids| ==> ids[a] != ids[b]
    ensures ids[k] < |SlotsWritten(units, ids, config)|
    ensures SlotsWritten(units, ids, config)[ids[k]] == units[ids[k]].(activeInputSlot := config[k])
    decreases |config|
  {
    var u1 := SetSlot(units, ids[0], config[0]);
    if k == 0 {
      forall j | 0 <= j < Min(|ids[1..]|, |config[1..]|)
        ensures ids[1..][j] != ids[0]
      {
        assert ids[1..][j] == ids[j + 1];
      }
      SlotsWrittenElsewhere(u1, ids[1..], config[1..], ids[0]);
    } else {
      assert ids[k] != ids[0];
      forall j | 0 <= j < |ids[1..]|
        ensures ids[1..][j] < |u1| && u1[ids[1..][j]].Multiplexor?
      {
        assert ids[1..][j] == ids[j + 1];
      }
      SlotsWrittenAt(u1, ids[1..], config[1..], k - 1);
    }
  }

  /**
   * Setting a configuration writes `config[k]` into the active slot of the
   * k-th multiplexor, for every k below both lengths.
   */
  lemma ConfigureAt(g: Graph, config: seq<int>, k: nat)
    requires GraphValid(g) && k < Min(|g.multiplexors|, |config|)
    ensures g.multiplexors[k] < |Configure(g, config).units|
    ensures Configure(g, config).units[g.multiplexors[k]]
         == g.units[g.multiplexors[k]].(activeInputSlot := config[k])
  {
    SlotsWrittenAt(g.units, g.multiplexors, config, k);
  }

  /** Every unit that is not one of the first `min(len(config), #multiplexors)` multiplexors is left unchanged. */
  lemma ConfigureElsewhere(g: Graph, config: seq<int>, i: nat)
    requires i < |g.units|
    requires forall k :: 0 <= k < Min(|g.multiplexors|, |config|) ==> g.multiplexors[k] != i
    ensures Configure(g, config).units[i] == g.units[i]
  {
    SlotsWrittenElsewhere(g.units, g.multiplexors, config, i);
  }

  /** Setting a configuration changes no wiring, so the model stays well formed and acyclic. */
  lemma ConfigurePreserves(g: Graph, rank: seq<nat>, config: seq<int>)
    requires GraphValid(g)
    ensures GraphValid(Configure(g, config))
    ensures Configure(g, config).multiplexors == g.multiplexors
    ensures Configure(g, config).outputUnit == g.outputUnit
    ensures WellRanked(g.units, rank) ==> WellRanked(Configure(g, config).units, rank)
  {
    var u := Configure(g, config).units;
    assert OnlySlotsChanged(g.units, u);
    forall i | 0 <= i < |u|
      ensures Wired(u[i]) == Wired(g.units[i]) && KindOf(u[i]) == KindOf(g.units[i])
      ensures u[i].Multiplexor? ==> u[i].ports == g.units[i].ports
    {
    }
  }

  /**
   * A later configuration that reaches at least as many multiplexors as an
   * earlier one overwrites it completely; in particular setting the same
   * configuration twice is the same as setting it once.
   */
  lemma ConfigureOverwrite(g: Graph, c1: seq<int>, c2: seq<int>)
    requires GraphValid(g)
    requires Min(|g.multiplexors|, |c1|) <= Min(|g.multiplexors|, |c2|)
    ensures Configure(Configure(g, c1), c2) == Configure(g, c2)
  {
    var g1 := Configure(g, c1);
    ConfigurePreserves(g, [], c1);
    var m := g.multiplexors;
    var lhs := Configure(g1, c2).units;
    var rhs := Configure(g, c2).units;
    assert |lhs| == |rhs| == |g.units|;
    forall i | 0 <= i < |g.units|
      ensures lhs[i] == rhs[i]
    {
      if k :| 0 <= k < Min(|m|, |c2|) && m[k] == i {
        ConfigureAt(g1, c2, k);
        ConfigureAt(g, c2, k);
        assert OnlySlotsChanged(g.units, g1.units);
      } else {
        ConfigureElsewhere(g1, c2, i);
        ConfigureElsewhere(g, c2, i);
        ConfigureElsewhere(g, c1, i);
      }
    }
  }

  // ---------------------------------------------------------------------
  // Scoring a configuration

  /** The score of a configuration: how far its output is from the wanted frequency, and the output. */
  datatype Score = Score(difference: real, outputSignal: real)

  /** What an adjuster returns: the output signal reached and the configuration that reaches it. */
  datatype Selection = Selection(outputSignal: real, configuration: seq<int>)

  function Abs(x: real): real {
    if x < 0.0 then -x else x
  }

  /**
   * `evaluate_multiplexor_configuration`: set the configuration, evaluate the
   * output signal, and measure its distance from `wanted`.
   */
  function EvaluateConfiguration(g: Graph, ghost rank: seq<nat>, config: seq<int>, wanted: real): (r: Result<Score>)
    requires GraphValid(g) && WellRanked(g.units, rank)
    ensures r.Ok? ==> r.value.difference >= 0.0
    ensures r.Ok? ==> (r.value.difference == 0.0 <==> r.value.outputSignal == wanted)
    ensures r.Ok? ==> (r.value.outputSignal == wanted + r.value.difference ||
                       r.value.outputSignal == wanted - r.value.difference)
  {
    ConfigurePreserves(g, rank, config);
    match OutputSignal(Configure(g, config), rank)
    case Err(e) => Err(e)
    case Ok(s) => Ok(Score(Abs(s - wanted), s))
  }

  /**
   * What a score is, in terms of the active chain from the first output unit
   * once the configuration is set: no output unit or a broken chain is that
   * error, a zero divisor on the chain is the division error, and otherwise
   * the output is the chain's input value divided by the chain's divisors.
   */
  lemma EvaluationAlongChain(g: Graph, rank: seq<nat>, config: seq<int>, wanted: real)
    requires GraphValid(g) && WellRanked(g.units, rank)
    ensures GraphValid(Configure(g, config)) && WellRanked(Configure(g, config).units, rank)
    ensures var g' := Configure(g, config);
            var e := EvaluateConfiguration(g, rank, config, wanted);
            if g'.outputUnit == [] then e == Err(NoOutputUnit)
            else
              var chain := ActiveChain(g'.units, rank, g'.outputUnit[0]);
              if chain.Err? then e == Err(chain.error)
              else if !NoZeroDivisor(g'.units, chain.value) then e == Err(DivisionByZero)
              else
                var path := chain.value;
                Scale(g'.units, path) != 0.0 &&
                e.Ok? && e.value.outputSignal == g'.units[path[|path| - 1]].inputData / Scale(g'.units, path)
  {
    ConfigurePreserves(g, rank, config);
    var g' := Configure(g, config);
    var s := OutputSignal(g', rank);
    assert EvaluateConfiguration(g, rank, config, wanted) ==
           if s.Err? then Err(s.error) else Ok(Score(Abs(s.value - wanted), s.value));
    if g'.outputUnit != [] {
      assert s == GetSignalFrom(g'.units, rank, NodeRef(g'.outputUnit[0]));
      SignalByChain(g'.units, rank, g'.outputUnit[0]);
    }
  }

  /** Scoring after an earlier configuration that a later one overwrites is the same as scoring from scratch. */
  lemma EvaluateAfterOverwrite(g: Graph, rank: seq<nat>, c1: seq<int>, c2: seq<int>, wanted: real)
    requires GraphValid(g) && WellRanked(g.units, rank)
    requires Min(|g.multiplexors|, |c1|) <= Min(|g.multiplexors|, |c2|)
    ensures GraphValid(Configure(g, c1)) && WellRanked(Configure(g, c1).units, rank)
    ensures EvaluateConfiguration(Configure(g, c1), rank, c2, wanted) == EvaluateConfiguration(g, rank, c2, wanted)
  {
    ConfigurePreserves(g, rank, c1);
    ConfigureOverwrite(g, c1, c2);
  }

  /** Scores `configs` in order; the first configuration whose evaluation fails decides the error. */
  function Evaluations(g: Graph, ghost rank: seq<nat>, configs: seq<seq<int>>, wanted: real): (r: Result<seq<Score>>)
    requires GraphValid(g) && WellRanked(g.units, rank)
    ensures r.Ok? ==> |r.value| == |configs|
    decreases |configs|
  {
    if configs == [] then Ok([])
    else
      var front := configs[..|configs| - 1];
      match Evaluations(g, rank, front, wanted)
      case Err(e) => Err(e)
      case Ok(scores) =>
        match EvaluateConfiguration(g, rank, configs[|configs| - 1], wanted)
        case Err(e) => Err(e)
        case Ok(s) => Ok(scores + [s])
  }

  /**
   * Scoring a list succeeds exactly when every configuration scores, and then
   * gives each configuration's score in order; a failure is the error of
   * the first configuration that fails, every earlier one having scored.
   */
  lemma {:induction false} EvaluationsMeaning(g: Graph, rank: seq<nat>, configs: seq<seq<int>>, wanted: real)
    requires GraphValid(g) && WellRanked(g.units, rank)
    ensures var r := Evaluations(g, rank, configs, wanted);
            && (r.Ok? ==> forall j :: 0 <= j < |configs| ==>
                  EvaluateConfiguration(g, rank, configs[j], wanted) == Ok(r.value[j]))
            && (r.Err? ==>
                  exists j :: 0 <= j < |configs| && EvaluateConfiguration(g, rank, configs[j], wanted) == Err(r.error) &&
                    forall i :: 0 <= i < j ==> EvaluateConfiguration(g, rank, configs[i], wanted).Ok?)
    decreases |configs|
  {
    if configs != [] {
      var front := configs[..|configs| - 1];
      EvaluationsMeaning(g, rank, front, wanted);
      var r := Evaluations(g, rank, configs, wanted);
      var rf := Evaluations(g, rank, front, wanted);
      var last := EvaluateConfiguration(g, rank, configs[|configs| - 1], wanted);
      if rf.Err? {
        assert r == Err(rf.error);
        var j :| 0 <= j < |front| && EvaluateConfiguration(g, rank, front[j], wanted) == Err(rf.error) &&
                 forall i :: 0 <= i < j ==> EvaluateConfiguration(g, rank, front[i], wanted).Ok?;
        assert configs[j] == front[j];
        assert forall i :: 0 <= i < j ==> configs[i] == front[i];
      } else if last.Err? {
        assert r == Err(last.error);
        assert forall i :: 0 <= i < |front| ==> configs[i] == front[i];
      } else {
        assert r == Ok(rf.value + [last.value]);
        forall j | 0 <= j < |configs|
          ensures EvaluateConfiguration(g, rank, configs[j], wanted) == Ok(r.value[j])
        {
          if j < |front| {
            assert configs[j] == front[j];
          }
        }
      }
    }
  }

  lemma {:induction false} EvaluationsErrExtends(g: Graph, rank: seq<nat>, configs: seq<seq<int>>, wanted: real, i: nat)
    requires GraphValid(g) && WellRanked(g.units, rank)
    requires i <= |configs| && Evaluations(g, rank, configs[..i], wanted).Err?
    ensures Evaluations(g, rank, configs, wanted) == Evaluations(g, rank, configs[..i], wanted)
    decreases |configs| - i
  {
    if i < |configs| {
      var c := configs[..i + 1];
      assert c[..|c| - 1] == configs[..i];
      assert Evaluations(g, rank, c, wanted) == Evaluations(g, rank, configs[..i], wanted);
      EvaluationsErrExtends(g, rank, configs, wanted, i + 1);
    } else {
      assert configs[..i] == configs;
    }
  }
  lemma EvaluationsStep(g: Graph, rank: seq<nat>, configs: seq<seq<int>>, wanted: real, i: nat, scores: seq<Score>)
    requires GraphValid(g) && WellRanked(g.units, rank)
    requires i < |configs| && Evaluations(g, rank, configs[..i], wanted) == Ok(scores)
    ensures EvaluateConfiguration(g, rank, configs[i], wanted).Err? ==>
              Evaluations(g, rank, configs, wanted) == Err(EvaluateConfiguration(g, rank, configs[i], wanted).error)
    ensures EvaluateConfiguration(g, rank, configs[i], wanted).Ok? ==>
              Evaluations(g, rank, configs[..i + 1], wanted) == Ok(scores + [EvaluateConfiguration(g, rank, configs[i], wanted).value])
  {
    var c := configs[..i + 1];
    assert c[..|c| - 1] == configs[..i];
    assert c[|c| - 1] == configs[i];
    if EvaluateConfiguration(g, rank, configs[i], wanted).Err? {
      EvaluationsErrExtends(g, rank, configs, wanted, i + 1);
    }
  }

  // ---------------------------------------------------------------------
  // The configurations the searches produce

  /** `len(mpx.inputs)` for every multiplexor, in list order. */
  function PortCounts(g: Graph): (r: seq<nat>)
    requires GraphValid(g)
    ensures |r| == |g.multiplexors|
    ensures forall k :: 0 <= k < |r| ==> r[k] == |EnumeratedPorts(g.units[g.multiplexors[k]])|
  {
    seq(|g.multiplexors|, k requires 0 <= k < |g.multiplexors| => |g.units[g.multiplexors[k]].ports|)
  }

  /** Port indices that are in range for the leading multiplexors. */
  predicate InRange(counts: seq<nat>, comb: seq<nat>) {
    |comb| <= |counts| && forall k :: 0 <= k < |comb| ==> comb[k] < counts[k]
  }

  /** A configuration whose k-th entry is a port key of the k-th multiplexor, for every multiplexor. */
  predicate Feasible(g: Graph, config: seq<int>)
    requires GraphValid(g)
  {
    && |config| == |g.multiplexors|
    && forall k :: 0 <= k < |config| ==> config[k] in Keys(g.units[g.multiplexors[k]].ports)
  }

  /** `[multiplexor_port_mapping[i][j] for i, j in enumerate(comb)]`. */
  function ToPorts(g: Graph, comb: seq<nat>): (r: seq<int>)
    requires GraphValid(g) && InRange(PortCounts(g), comb)
    ensures |r| == |comb|
    ensures |comb| == |g.multiplexors| ==> Feasible(g, r)
  {
    seq(|comb|, k requires 0 <= k < |comb| => EnumeratedPorts(g.units[g.multiplexors[k]])[comb[k]])
  }
  /**
   * Index `comb[k]` of the k-th multiplexor's enumerated ports names the
   * port that routes the `comb[k]`-th unit wired into that multiplexor.
   */
  lemma ToPortsSelects(g: Graph, comb: seq<nat>, k: nat)
    requires GraphValid(g) && InRange(PortCounts(g), comb) && k < |comb|
    ensures var m := g.units[g.multiplexors[k]];
            comb[k] < |m.ports| &&
            GetActiveInputUnit(m.(activeInputSlot := ToPorts(g, comb)[k])) == Ok(NodeRef(m.ports[comb[k]].source))
  {
    var m := g.units[g.multiplexors[k]];
    EnumeratedPortSelects(m, comb[k]);
  }

  /** Once a feasible configuration is set, no multiplexor's active slot is missing from its ports. */
  lemma FeasibleSlotsResolve(g: Graph, config: seq<int>, k: nat)
    requires GraphValid(g) && Feasible(g, config) && k < |g.multiplexors|
    ensures g.multiplexors[k] < |Configure(g, config).units|
    ensures GetActiveInputUnit(Configure(g, config).units[g.multiplexors[k]]).Ok?
  {
    ConfigureAt(g, config, k);
  }


  // ---------------------------------------------------------------------
  // The adjuster's methods on a live clock model

  /** One round of the `zip` loop writes the slot of the k-th multiplexor in place. */
  lemma SlotWriteStep(g0: Graph, units: seq<Unit>, config: seq<int>, k: nat)
    requires GraphValid(g0) && OnlySlotsChanged(g0.units, units)
    requires k < Min(|g0.multiplexors|, |config|)
    ensures var id := g0.multiplexors[k];
            var units' := units[id := units[id].(activeInputSlot := config[k])];
            && id < |units| && units[id].Multiplexor?
            && OnlySlotsChanged(g0.units, units')
            && SlotsWritten(units, g0.multiplexors[k..], config[k..])
               == SlotsWritten(units', g0.multiplexors[k + 1..], config[k + 1..])
  {
    var id := g0.multiplexors[k];
    assert g0.units[id].Multiplexor?;
    assert g0.multiplexors[k..][1..] == g0.multiplexors[k + 1..];
    assert config[k..][1..] == config[k + 1..];
  }

  /** `set_multiplexor_configuration`: the `zip` loop over the multiplexors and the configuration. */
  method SetMultiplexorConfiguration(model: ClockModel, config: seq<int>)
    requires model.Valid()
    modifies model
    ensures model.Valid()
    ensures model.Snapshot() == Configure(old(model.Snapshot()), config)
  {
    ghost var g0 := model.Snapshot();
    var n := Min(|model.multiplexors|, |config|);
    var k := 0;
    while k < n
      invariant 0 <= k <= n
      invariant model.Snapshot() == g0.(units := model.units)
      invariant OnlySlotsChanged(g0.units, model.units)
      invariant SlotsWritten(g0.units, g0.multiplexors, config)
             == SlotsWritten(model.units, g0.multiplexors[k..], config[k..])
    {
      var id := model.multiplexors[k];
      SlotWriteStep(g0, model.units, config, k);
      model.units := model.units[id := model.units[id].(activeInputSlot := config[k])];
      k := k + 1;
    }
    ConfigurePreserves(g0, [], config);
  }

  /** `evaluate_multiplexor_configuration`: set the configuration, then score the output signal. */
  method EvaluateMultiplexorConfiguration(model: ClockModel, config: seq<int>, wanted: real, ghost rank: seq<nat>)
    returns (r: Result<Score>)
    requires model.Valid() && WellRanked(model.units, rank)
    modifies model
    ensures model.Valid() && WellRanked(model.units, rank)
    ensures model.Snapshot() == Configure(old(model.Snapshot()), config)
    ensures r == EvaluateConfiguration(old(model.Snapshot()), rank, config, wanted)
  {
    ghost var g0 := model.Snapshot();
    ConfigurePreserves(g0, rank, config);
    SetMultiplexorConfiguration(model, config);
    var signal := OutputSignal(model.Snapshot(), rank);
    match signal
    case Err(e) => r := Err(e);
    case Ok(s) => r := Ok(Score(Abs(s - wanted), s));
  }

  /**
   * Scores `config` on a model left configured by `current`, where `config`
   * reaches at least as many multiplexors: both the score and the new state
   * are those of setting `config` on `g0` itself.
   */
  method EvaluateOver(model: ClockModel, config: seq<int>, wanted: real,
                      ghost rank: seq<nat>, ghost g0: Graph, ghost current: seq<int>)
    returns (r: Result<Score>)
    requires GraphValid(g0) && WellRanked(g0.units, rank)
    requires model.Valid() && model.Snapshot() == Configure(g0, current)
    requires Min(|g0.multiplexors|, |current|) <= Min(|g0.multiplexors|, |config|)
    modifies model
    ensures model.Valid() && WellRanked(model.units, rank) && model.Snapshot() == Configure(g0, config)
    ensures r == EvaluateConfiguration(g0, rank, config, wanted)
  {
    ConfigurePreserves(g0, rank, current);
    EvaluateAfterOverwrite(g0, rank, current, config, wanted);
    r := EvaluateMultiplexorConfiguration(model, config, wanted, rank);
    ConfigureOverwrite(g0, current, config);
  }

  /**
   * One round of a loop that scores `configs` in list order on the model:
   * scoring `configs[i]` after the first `i` scored extends their scores, or
   * is the error that scoring the whole list stops at.
   */
  method EvaluateInTurn(model: ClockModel, configs: seq<seq<int>>, i: nat, wanted: real,
                        ghost rank: seq<nat>, ghost g0: Graph, ghost current: seq<int>, ghost scores: seq<Score>)
    returns (r: Result<Score>)
    requires GraphValid(g0) && WellRanked(g0.units, rank)
    requires model.Valid() && model.Snapshot() == Configure(g0, current)
    requires i < |configs| && Min(|g0.multiplexors|, |current|) <= Min(|g0.multiplexors|, |configs[i]|)
    requires Evaluations(g0, rank, configs[..i], wanted) == Ok(scores)
    modifies model
    ensures model.Valid() && model.Snapshot() == Configure(g0, configs[i])
    ensures r.Err? ==> Evaluations(g0, rank, configs, wanted) == Err(r.error)
    ensures r.Ok? ==> Evaluations(g0, rank, configs[..i + 1], wanted) == Ok(scores + [r.value])
  {
    r := EvaluateOver(model, configs[i], wanted, rank, g0, current);
    EvaluationsStep(g0, rank, configs, wanted, i, scores);
  }
}
