/**
 * The clock model: an arena of units with the four per-kind lists, the
 * two-pass builder that reads a model description, and the bottom-up
 * evaluation of the signal.
 */
module Model {
  import opened Results
  import opened Units

  datatype Kind = InputKind | DividerKind | MultiplexorKind | OutputKind

  function KindOf(u: Unit): Kind {
    match u
    case Input(_) => InputKind
    case Divider(_, _) => DividerKind
    case Multiplexor(_, _) => MultiplexorKind
    case Output(_) => OutputKind
  }

  /** The state of a clock model: the unit arena and the per-kind lists of arena indices. */
  datatype Graph = Graph(
    units: seq<Unit>,
    inputUnit: seq<UnitId>,
    dividers: seq<UnitId>,
    multiplexors: seq<UnitId>,
    outputUnit: seq<UnitId>)
  {
    function List(kind: Kind): seq<UnitId> {
      match kind
      case InputKind => inputUnit
      case DividerKind => dividers
      case MultiplexorKind => multiplexors
      case OutputKind => outputUnit
    }
  }

  /** `ids` lists distinct units of the arena, all of kind `kind`. */
  predicate Listed(units: seq<Unit>, ids: seq<UnitId>, kind: Kind) {
    && (forall k :: 0 <= k < |ids| ==> ids[k] < |units| && KindOf(units[ids[k]]) == kind)
    && (forall a, b :: 0 <= a < b < |ids| ==> ids[a] != ids[b])
  }

  /** Every unit wired anywhere is a unit of the arena. */
  predicate Closed(units: seq<Unit>) {
    forall i, k :: 0 <= i < |units| && 0 <= k < |Wired(units[i])| ==> Wired(units[i])[k] < |units|
  }

  predicate PortsDistinct(units: seq<Unit>) {
    forall i :: 0 <= i < |units| && units[i].Multiplexor? ==> DistinctKeys(units[i].ports)
  }

  predicate GraphValid(g: Graph) {
    && Listed(g.units, g.inputUnit, InputKind)
    && Listed(g.units, g.dividers, DividerKind)
    && Listed(g.units, g.multiplexors, MultiplexorKind)
    && Listed(g.units, g.outputUnit, OutputKind)
    && Closed(g.units)
    && PortsDistinct(g.units)
  }

  // ---------------------------------------------------------------------
  // Evaluation

  /**
   * The graph is acyclic, witnessed by `rank`: every unit wired into a unit
   * has a strictly smaller rank.
   */
  predicate WellRanked(units: seq<Unit>, rank: seq<nat>) {
    && |rank| == |units|
    && forall i, k :: 0 <= i < |units| && 0 <= k < |Wired(units[i])| ==>
         Wired(units[i])[k] < |units| && rank[Wired(units[i])[k]] < rank[i]
  }

  function Height(rank: seq<nat>, a: ActiveInput): nat {
    match a
    case Terminal(_) => 0
    case NodeRef(id) => if id < |rank| then rank[id] + 1 else 0
  }

  /**
   * `get_signal_from`: a value is returned as it is; a unit transforms the
   * signal of its active input, evaluated recursively.
   */
  function GetSignalFrom(units: seq<Unit>, ghost rank: seq<nat>, a: ActiveInput): (r: Result<real>)
    requires WellRanked(units, rank)
    requires a.NodeRef? ==> a.id < |units|
    ensures r.Err? ==> r.error.NoSuchPort? || r.error == NoWiredInput || r.error == DivisionByZero
    decreases Height(rank, a)
  {
    match a
    case Terminal(v) => Ok(v)
    case NodeRef(id) =>
      match GetActiveInputUnit(units[id])
      case Err(e) => Err(e)
      case Ok(up) =>
        assert up.NodeRef? ==> up.id in Wired(units[id]);
        match GetSignalFrom(units, rank, up)
        case Err(e) => Err(e)
        case Ok(signal) => GetOutputSignal(units[id], signal)
  }

  /** `ClockModel.get_output_signal`: the signal at the first output unit. */
  function OutputSignal(g: Graph, ghost rank: seq<nat>): (r: Result<real>)
    requires GraphValid(g) && WellRanked(g.units, rank)
    ensures r.Err? <==> g.outputUnit == [] || GetSignalFrom(g.units, rank, NodeRef(g.outputUnit[0])).Err?
    ensures g.outputUnit == [] ==> r == Err(NoOutputUnit)
  {
    if g.outputUnit == [] then Err(NoOutputUnit)
    else GetSignalFrom(g.units, rank, NodeRef(g.outputUnit[0]))
  }

  /** Each unit on `path` has the next one as its active input. */
  predicate Linked(units: seq<Unit>, path: seq<UnitId>)
    requires forall k :: 0 <= k < |path| ==> path[k] < |units|
  {
    forall k :: 0 <= k < |path| - 1 ==> GetActiveInputUnit(units[path[k]]) == Ok(NodeRef(path[k + 1]))
  }

  /** A linked path stays linked behind a unit whose active input is its first element. */
  lemma LinkedCons(units: seq<Unit>, id: UnitId, path: seq<UnitId>)
    requires id < |units| && forall k :: 0 <= k < |path| ==> path[k] < |units|
    requires Linked(units, path) && path != [] && GetActiveInputUnit(units[id]) == Ok(NodeRef(path[0]))
    ensures forall k :: 0 <= k < |[id] + path| ==> ([id] + path)[k] < |units|
    ensures Linked(units, [id] + path)
  {
    var p := [id] + path;
    forall k | 0 <= k < |p| - 1
      ensures GetActiveInputUnit(units[p[k]]) == Ok(NodeRef(p[k + 1]))
    {
      if k > 0 {
        assert p[k] == path[k - 1] && p[k + 1] == path[k];
      }
    }
  }

  /** The units met from `id` by following active inputs, ending at an input unit. */
  function ActiveChain(units: seq<Unit>, ghost rank: seq<nat>, id: UnitId): (r: Result<seq<UnitId>>)
    requires WellRanked(units, rank) && id < |units|
    ensures r.Ok? ==> |r.value| > 0 && r.value[0] == id
    ensures r.Ok? ==> forall k :: 0 <= k < |r.value| ==> r.value[k] < |units|
    ensures r.Ok? ==> units[r.value[|r.value| - 1]].Input?
    ensures r.Ok? ==> Linked(units, r.value)
    decreases rank[id]
  {
    match GetActiveInputUnit(units[id])
    case Err(e) => Err(e)
    case Ok(Terminal(_)) => Ok([id])
    case Ok(NodeRef(j)) =>
      assert j in Wired(units[id]);
      match ActiveChain(units, rank, j)
      case Err(e) => Err(e)
      case Ok(path) =>
        LinkedCons(units, id, path);
        Ok([id] + path)
  }

  /** The product of the divisors of the dividers on `path`. */
  function Scale(units: seq<Unit>, path: seq<UnitId>): real
    requires forall k :: 0 <= k < |path| ==> path[k] < |units|
  {
    if path == [] then 1.0
    else Factor(units[path[0]]) * Scale(units, path[1..])
  }

  predicate NoZeroDivisor(units: seq<Unit>, path: seq<UnitId>)
    requires forall k :: 0 <= k < |path| ==> path[k] < |units|
  {
    forall k :: 0 <= k < |path| && units[path[k]].Divider? ==> units[path[k]].divisor != 0.0
  }

  lemma {:induction false} ScaleNonZero(units: seq<Unit>, path: seq<UnitId>)
    requires forall k :: 0 <= k < |path| ==> path[k] < |units|
    requires NoZeroDivisor(units, path)
    ensures Scale(units, path) != 0.0
  {
    if path != [] {
      ScaleNonZero(units, path[1..]);
    }
  }

  lemma DivideTwice(v: real, s: real, d: real)
    requires s != 0.0 && d != 0.0
    ensures d * s != 0.0
    ensures (v / s) / d == v / (d * s)
  {
  }

  /** A chain broken by a missing input or port makes the evaluation raise the same error. */
  lemma {:induction false} BrokenChainRaises(units: seq<Unit>, rank: seq<nat>, id: UnitId)
    requires WellRanked(units, rank) && id < |units|
    requires ActiveChain(units, rank, id).Err?
    ensures GetSignalFrom(units, rank, NodeRef(id)) == Err(ActiveChain(units, rank, id).error)
    decreases rank[id]
  {
    match GetActiveInputUnit(units[id])
    case Err(e) =>
    case Ok(Terminal(v)) =>
    case Ok(NodeRef(j)) =>
      assert j in Wired(units[id]);
      BrokenChainRaises(units, rank, j);
  }

  /**
   * A divider with a zero divisor on an otherwise complete active chain
   * makes the evaluation raise the division error.
   */
  lemma {:induction false} ZeroDivisorRaises(units: seq<Unit>, rank: seq<nat>, id: UnitId)
    requires WellRanked(units, rank) && id < |units|
    requires ActiveChain(units, rank, id).Ok?
    requires !NoZeroDivisor(units, ActiveChain(units, rank, id).value)
    ensures GetSignalFrom(units, rank, NodeRef(id)) == Err(DivisionByZero)
    decreases rank[id]
  {
    var path := ActiveChain(units, rank, id).value;
    var a := GetActiveInputUnit(units[id]);
    if a.value.NodeRef? {
      var j := a.value.id;
      assert j in Wired(units[id]);
      var c := ActiveChain(units, rank, j).value;
      assert path == [id] + c;
      if NoZeroDivisor(units, c) {
        SignalAlongChain(units, rank, j);
        var k :| 0 <= k < |path| && units[path[k]].Divider? && units[path[k]].divisor == 0.0;
        assert units[id].Divider? && units[id].divisor == 0.0;
      } else {
        ZeroDivisorRaises(units, rank, j);
      }
    } else {
      assert false;
    }
  }

  /** One step of the evaluation: a unit transforms the signal of the unit feeding it. */
  lemma SignalStep(units: seq<Unit>, rank: seq<nat>, id: UnitId, j: UnitId, x: real)
    requires WellRanked(units, rank) && id < |units| && j < |units|
    requires GetActiveInputUnit(units[id]) == Ok(NodeRef(j))
    requires GetSignalFrom(units, rank, NodeRef(j)) == Ok(x)
    ensures GetSignalFrom(units, rank, NodeRef(id)) == GetOutputSignal(units[id], x)
  {
  }

  function Factor(u: Unit): real {
    if u.Divider? then u.divisor else 1.0
  }

  lemma {:induction false} ScaleStep(units: seq<Unit>, id: UnitId, c: seq<UnitId>)
    requires id < |units| && forall k :: 0 <= k < |c| ==> c[k] < |units|
    ensures forall k :: 0 <= k < |[id] + c| ==> ([id] + c)[k] < |units|
    ensures Scale(units, [id] + c) == Factor(units[id]) * Scale(units, c)
  {
    var path := [id] + c;
    assert path[1..] == c;
    assert path[0] == id;
  }

  lemma NoZeroDivisorTail(units: seq<Unit>, id: UnitId, c: seq<UnitId>)
    requires id < |units| && forall k :: 0 <= k < |c| ==> c[k] < |units|
    requires NoZeroDivisor(units, [id] + c)
    ensures NoZeroDivisor(units, c)
    ensures units[id].Divider? ==> units[id].divisor != 0.0
  {
    var path := [id] + c;
    assert path[0] == id;
    forall k | 0 <= k < |c| && units[c[k]].Divider?
      ensures units[c[k]].divisor != 0.0
    {
      assert path[k + 1] == c[k];
    }
  }

  /**
   * The signal at a unit is the value of the input unit its active chain
   * ends at, divided by every divisor met on the way.
   */
  lemma {:induction false} SignalAlongChain(units: seq<Unit>, rank: seq<nat>, id: UnitId)
    requires WellRanked(units, rank) && id < |units|
    requires ActiveChain(units, rank, id).Ok?
    requires NoZeroDivisor(units, ActiveChain(units, rank, id).value)
    ensures var path := ActiveChain(units, rank, id).value;
            Scale(units, path) != 0.0 &&
            GetSignalFrom(units, rank, NodeRef(id)) == Ok(units[path[|path| - 1]].inputData / Scale(units, path))
    decreases rank[id]
  {
    var u := units[id];
    var path := ActiveChain(units, rank, id).value;
    ScaleNonZero(units, path);
    var a := GetActiveInputUnit(u);
    if a.value.Terminal? {
      InputEndsChain(units, rank, id);
    } else {
      var j := a.value.id;
      assert j in Wired(u);
      var c := ActiveChain(units, rank, j).value;
      assert path == [id] + c;
      NoZeroDivisorTail(units, id, c);
      SignalAlongChain(units, rank, j);
      ScaleNonZero(units, c);
      assert path[|path| - 1] == c[|c| - 1];
      ChainLink(units, rank, id, j, c, units[c[|c| - 1]].inputData);
    }
  }

  /** At an input unit the chain is that unit alone, and the signal is its value. */
  lemma InputEndsChain(units: seq<Unit>, rank: seq<nat>, id: UnitId)
    requires WellRanked(units, rank) && id < |units|
    requires GetActiveInputUnit(units[id]).Ok? && GetActiveInputUnit(units[id]).value.Terminal?
    ensures units[id].Input? && ActiveChain(units, rank, id) == Ok([id])
    ensures Scale(units, [id]) == 1.0
    ensures GetSignalFrom(units, rank, NodeRef(id)) == Ok(units[id].inputData / Scale(units, [id]))
  {
    assert [id][1..] == [];
  }

  /**
   * The signal at a unit, read off its active chain: the chain's error if it
   * is broken, the division error if a divider on it has divisor zero, and
   * otherwise the input value at its end divided by its divisors.
   */
  lemma SignalByChain(units: seq<Unit>, rank: seq<nat>, id: UnitId)
    requires WellRanked(units, rank) && id < |units|
    ensures var chain := ActiveChain(units, rank, id);
            var s := GetSignalFrom(units, rank, NodeRef(id));
            if chain.Err? then s == Err(chain.error)
            else if !NoZeroDivisor(units, chain.value) then s == Err(DivisionByZero)
            else
              Scale(units, chain.value) != 0.0 &&
              s == Ok(units[chain.value[|chain.value| - 1]].inputData / Scale(units, chain.value))
  {
    var chain := ActiveChain(units, rank, id);
    if chain.Err? {
      BrokenChainRaises(units, rank, id);
    } else if !NoZeroDivisor(units, chain.value) {
      ZeroDivisorRaises(units, rank, id);
    } else {
      SignalAlongChain(units, rank, id);
    }
  }

  /** Extending a chain by the unit it feeds extends the scale by that unit's factor. */
  lemma ChainLink(units: seq<Unit>, rank: seq<nat>, id: UnitId, j: UnitId, c: seq<UnitId>, v: real)
    requires WellRanked(units, rank) && id < |units| && j < |units|
    requires forall k :: 0 <= k < |c| ==> c[k] < |units|
    requires GetActiveInputUnit(units[id]) == Ok(NodeRef(j))
    requires Scale(units, c) != 0.0 && (units[id].Divider? ==> units[id].divisor != 0.0)
    requires GetSignalFrom(units, rank, NodeRef(j)) == Ok(v / Scale(units, c))
    ensures forall k :: 0 <= k < |[id] + c| ==> ([id] + c)[k] < |units|
    ensures Scale(units, [id] + c) != 0.0
    ensures GetSignalFrom(units, rank, NodeRef(id)) == Ok(v / Scale(units, [id] + c))
  {
    SignalStep(units, rank, id, j, v / Scale(units, c));
    ScaledLink(units, id, c, v);
  }

  lemma ScaledLink(units: seq<Unit>, id: UnitId, c: seq<UnitId>, v: real)
    requires id < |units| && forall k :: 0 <= k < |c| ==> c[k] < |units|
    requires Scale(units, c) != 0.0 && (units[id].Divider? ==> units[id].divisor != 0.0)
    ensures forall k :: 0 <= k < |[id] + c| ==> ([id] + c)[k] < |units|
    ensures Scale(units, [id] + c) != 0.0
    ensures GetOutputSignal(units[id], v / Scale(units, c)) == Ok(v / Scale(units, [id] + c))
  {
    ScaleStep(units, id, c);
    ScaledStep(units[id], v, Scale(units, c), Scale(units, [id] + c));
  }

  /** Passing `v / sc` through `u` gives `v` over the scale extended by `u`'s factor. */
  lemma ScaledStep(u: Unit, v: real, sc: real, scale: real)
    requires sc != 0.0 && (u.Divider? ==> u.divisor != 0.0) && scale == Factor(u) * sc
    ensures scale != 0.0
    ensures GetOutputSignal(u, v / sc) == Ok(v / scale)
  {
    if u.Divider? {
      var d := u.divisor;
      assert GetOutputSignal(u, v / sc) == Ok((v / sc) / d);
      DivideTwice(v, sc, d);
      assert scale == d * sc;
    } else {
      assert scale == sc;
    }
  }

  // ---------------------------------------------------------------------
  // Building from a description

  /** One entry of the `units` section: a kind name and how many units its list declares. */
  datatype UnitsEntry = UnitsEntry(name: string, count: nat)

  /** The `params` section; `None` is a missing key. */
  datatype Params = Params(input: Option<seq<real>>, divider: Option<seq<real>>, multiplexor: Option<seq<int>>)

  /**
   * One connection of the `tree` section, in the order the section is
   * walked: a unit feeding a multiplexor port, or a unit feeding a unit of
   * any other kind.
   */
  datatype Edge =
    | ToMultiplexor(sourceName: string, sourceIndex: int, targetIndex: int, port: int)
    | ToUnit(sourceName: string, sourceIndex: int, targetName: string, targetIndex: int)

  datatype Config = Config(units: seq<UnitsEntry>, tree: seq<Edge>, params: Params)

  const EmptyGraph := Graph([], [], [], [], [])

  /** `unit_name_mapping[name]`. */
  function ListNamed(g: Graph, name: string): Option<seq<UnitId>> {
    if name == "input" then Some(g.inputUnit)
    else if name == "divider" then Some(g.dividers)
    else if name == "multiplexor" then Some(g.multiplexors)
    else if name == "output" then Some(g.outputUnit)
    else None
  }

  /** A Python list index: negative indices count from the end. */
  function PyIndex(length: nat, i: int): (r: Option<nat>)
    ensures r.Some? <==> -(length as int) <= i < length
    ensures r.Some? ==> r.value < length && (r.value == i || r.value == length + i)
  {
    if 0 <= i < length then Some(i)
    else if -(length as int) <= i < 0 then Some(length + i)
    else None
  }

  /** `unit_name_mapping[name][index]`; `None` is the KeyError or the IndexError. */
  function Resolve(g: Graph, name: string, index: int): Option<UnitId> {
    match ListNamed(g, name)
    case None => None
    case Some(ids) =>
      match PyIndex(|ids|, index)
      case None => None
      case Some(k) => Some(ids[k])
  }

  /** Appending a freshly created unit to the arena and to its kind's list. */
  function AddUnit(g: Graph, u: Unit): Graph {
    var id := |g.units|;
    var g' := g.(units := g.units + [u]);
    match KindOf(u)
    case InputKind => g'.(inputUnit := g.inputUnit + [id])
    case DividerKind => g'.(dividers := g.dividers + [id])
    case MultiplexorKind => g'.(multiplexors := g.multiplexors + [id])
    case OutputKind => g'.(outputUnit := g.outputUnit + [id])
  }

  function AddUnits(g: Graph, us: seq<Unit>): Graph
    decreases |us|
  {
    if us == [] then g else AddUnits(AddUnit(g, us[0]), us[1..])
  }

  function InputsOf(vs: seq<real>): seq<Unit> {
    seq(|vs|, k requires 0 <= k < |vs| => Input(vs[k]))
  }

  function DividersOf(ds: seq<real>): seq<Unit> {
    seq(|ds|, k requires 0 <= k < |ds| => Divider(ds[k], []))
  }

  function MultiplexorsOf(slots: seq<int>): seq<Unit> {
    seq(|slots|, k requires 0 <= k < |slots| => Multiplexor([], slots[k]))
  }

  /**
   * The first pass for one entry of the units section. Inputs and
   * multiplexors take their parameters by position, one per declared unit;
   * dividers are created one per divisor, whatever the declared list.
   */
  function Instantiate(g: Graph, e: UnitsEntry, p: Params): Result<Graph> {
    if e.name == "input" then
      if e.count == 0 then Ok(g)
      else if p.input.None? || |p.input.value| < e.count then Err(MissingParameter("input"))
      else Ok(AddUnits(g, InputsOf(p.input.value[..e.count])))
    else if e.name == "divider" then
      if p.divider.None? then Err(MissingParameter("divider"))
      else Ok(AddUnits(g, DividersOf(p.divider.value)))
    else if e.name == "multiplexor" then
      if e.count == 0 then Ok(g)
      else if p.multiplexor.None? || |p.multiplexor.value| < e.count then Err(MissingParameter("multiplexor"))
      else Ok(AddUnits(g, MultiplexorsOf(p.multiplexor.value[..e.count])))
    else if e.name == "output" then
      Ok(AddUnits(g, seq(e.count, _ => Output([]))))
    else
      Err(UnknownUnitKind(e.name))
  }

  function InstantiateAll(g: Graph, entries: seq<UnitsEntry>, p: Params): Result<Graph>
    decreases |entries|
  {
    if entries == [] then Ok(g)
    else
      match Instantiate(g, entries[0], p)
      case Err(e) => Err(e)
      case Ok(g') => InstantiateAll(g', entries[1..], p)
  }

  /**
   * The second pass for one connection. A multiplexor port is written by
   * key; a divider or an output gets the source appended. Whatever fails
   * (an unknown name, an index out of range, a target that cannot take the
   * connection) leaves the graph as it was.
   */
  function Wire(g: Graph, e: Edge): Graph {
    match e
    case ToMultiplexor(sourceName, sourceIndex, targetIndex, port) =>
      var src := Resolve(g, sourceName, sourceIndex);
      var t := Resolve(g, "multiplexor", targetIndex);
      if src.Some? && t.Some? && t.value < |g.units| && g.units[t.value].Multiplexor? then
        var m := g.units[t.value];
        g.(units := g.units[t.value := m.(ports := WritePort(m.ports, port, src.value))])
      else g
    case ToUnit(sourceName, sourceIndex, targetName, targetIndex) =>
      var t := Resolve(g, targetName, targetIndex);
      var src := Resolve(g, sourceName, sourceIndex);
      if src.Some? && t.Some? && t.value < |g.units| && (g.units[t.value].Output? || g.units[t.value].Divider?) then
        g.(units := g.units[t.value := AppendInput(g.units[t.value], src.value)])
      else g
  }

  function WireAll(g: Graph, edges: seq<Edge>): Graph
    decreases |edges|
  {
    if edges == [] then g else WireAll(Wire(g, edges[0]), edges[1..])
  }

  /** `load_model_from_config` as a function of the model it starts from. */
  function Build(g: Graph, c: Config): Result<Graph> {
    match InstantiateAll(g, c.units, c.params)
    case Err(e) => Err(e)
    case Ok(g') => Ok(WireAll(g', c.tree))
  }

  // ---------------------------------------------------------------------
  // What the builder does

  predicate KnownKind(name: string) {
    name == "input" || name == "divider" || name == "multiplexor" || name == "output"
  }

  function Ids(start: nat, n: nat): seq<UnitId> {
    seq(n, k requires 0 <= k < n => start + k)
  }

  /** Adding units of one kind appends them to the arena and their indices to that kind's list only. */
  lemma {:induction false} AddUnitsEffect(g: Graph, us: seq<Unit>, kind: Kind)
    requires forall k :: 0 <= k < |us| ==> KindOf(us[k]) == kind
    ensures AddUnits(g, us).units == g.units + us
    ensures AddUnits(g, us).List(kind) == g.List(kind) + Ids(|g.units|, |us|)
    ensures forall other :: other != kind ==> AddUnits(g, us).List(other) == g.List(other)
    decreases |us|
  {
    if us != [] {
      var g1 := AddUnit(g, us[0]);
      assert g1.units == g.units + [us[0]];
      assert g1.List(kind) == g.List(kind) + [|g.units|];
      AddUnitsEffect(g1, us[1..], kind);
      assert g.units + [us[0]] + us[1..] == g.units + us;
      assert Ids(|g.units|, |us|) == [|g.units|] + Ids(|g1.units|, |us| - 1);
    }
  }

  /** The k-th unit added is the k-th of `us`, listed at the k-th new place of its kind's list. */
  lemma AddedUnit(g: Graph, us: seq<Unit>, kind: Kind, k: nat)
    requires forall j :: 0 <= j < |us| ==> KindOf(us[j]) == kind
    requires k < |us|
    ensures var g' := AddUnits(g, us);
            && |g'.List(kind)| == |g.List(kind)| + |us|
            && g'.List(kind)[|g.List(kind)| + k] == |g.units| + k
            && |g.units| + k < |g'.units|
            && g'.units[|g.units| + k] == us[k]
  {
    AddUnitsEffect(g, us, kind);
  }

  /** Inputs take their values by position: the k-th input created holds the k-th input parameter. */
  lemma InputsTakenByPosition(g: Graph, e: UnitsEntry, p: Params, k: nat)
    requires e.name == "input" && Instantiate(g, e, p).Ok? && k < e.count
    ensures var g' := Instantiate(g, e, p).value;
            && p.input.Some? && e.count <= |p.input.value|
            && |g'.inputUnit| == |g.inputUnit| + e.count
            && g'.inputUnit[|g.inputUnit| + k] < |g'.units|
            && g'.units[g'.inputUnit[|g.inputUnit| + k]] == Input(p.input.value[k])
  {
    AddedUnit(g, InputsOf(p.input.value[..e.count]), InputKind, k);
  }

  /** One divider per divisor of the params section, whatever the units section declares. */
  lemma OneDividerPerDivisor(g: Graph, e: UnitsEntry, p: Params, k: nat)
    requires e.name == "divider" && Instantiate(g, e, p).Ok?
    ensures p.divider.Some?
    ensures var g' := Instantiate(g, e, p).value;
            && |g'.dividers| == |g.dividers| + |p.divider.value|
            && (k < |p.divider.value| ==>
                  g'.dividers[|g.dividers| + k] < |g'.units| &&
                  g'.units[g'.dividers[|g.dividers| + k]] == Divider(p.divider.value[k], []))
  {
    AddUnitsEffect(g, DividersOf(p.divider.value), DividerKind);
    if k < |p.divider.value| {
      AddedUnit(g, DividersOf(p.divider.value), DividerKind, k);
    }
  }

  /** Multiplexors take their active slots by position and start with no port wired. */
  lemma MultiplexorsTakenByPosition(g: Graph, e: UnitsEntry, p: Params, k: nat)
    requires e.name == "multiplexor" && Instantiate(g, e, p).Ok? && k < e.count
    ensures var g' := Instantiate(g, e, p).value;
            && p.multiplexor.Some? && e.count <= |p.multiplexor.value|
            && |g'.multiplexors| == |g.multiplexors| + e.count
            && g'.multiplexors[|g.multiplexors| + k] < |g'.units|
            && g'.units[g'.multiplexors[|g.multiplexors| + k]] == Multiplexor([], p.multiplexor.value[k])
  {
    AddedUnit(g, MultiplexorsOf(p.multiplexor.value[..e.count]), MultiplexorKind, k);
  }

  lemma {:induction false} InstantiateAllSplit(g: Graph, entries: seq<UnitsEntry>, p: Params, j: nat)
    requires j <= |entries|
    ensures InstantiateAll(g, entries, p) ==
              match InstantiateAll(g, entries[..j], p)
              case Err(e) => Err(e)
              case Ok(g') => InstantiateAll(g', entries[j..], p)
    decreases j
  {
    if j > 0 {
      assert entries[..j][0] == entries[0] && entries[..j][1..] == entries[1..][..j - 1];
      assert entries[j..] == entries[1..][j - 1..];
      match Instantiate(g, entries[0], p)
      case Err(e) =>
      case Ok(g1) => InstantiateAllSplit(g1, entries[1..], p, j - 1);
    }
  }

  /**
   * An unrecognised kind name in the units section makes the build raise
   * ClockModelError naming it, unless an earlier entry already failed.
   */
  lemma UnknownKindRaises(g: Graph, c: Config, j: nat)
    requires j < |c.units| && !KnownKind(c.units[j].name)
    requires InstantiateAll(g, c.units[..j], c.params).Ok?
    ensures Build(g, c) == Err(UnknownUnitKind(c.units[j].name))
  {
    InstantiateAllSplit(g, c.units, c.params, j);
    assert c.units[j..][0] == c.units[j];
  }

  /** A successful build has seen only known kind names. */
  lemma {:induction false} BuiltKindsKnown(g: Graph, entries: seq<UnitsEntry>, p: Params)
    requires InstantiateAll(g, entries, p).Ok?
    ensures forall k :: 0 <= k < |entries| ==> KnownKind(entries[k].name)
    decreases |entries|
  {
    if entries != [] {
      var g1 := Instantiate(g, entries[0], p).value;
      BuiltKindsKnown(g1, entries[1..], p);
      forall k | 0 < k < |entries| ensures KnownKind(entries[k].name) {
        assert entries[k] == entries[1..][k - 1];
      }
    }
  }

  lemma ResolveValid(g: Graph, name: string, index: int)
    requires GraphValid(g) && Resolve(g, name, index).Some?
    ensures Resolve(g, name, index).value < |g.units|
    ensures name == "multiplexor" ==> g.units[Resolve(g, name, index).value].Multiplexor?
  {
  }

  /**
   * Wiring into a multiplexor port: when both ends resolve, the port key now
   * reads the source, every other key and every other unit is as before;
   * when either end does not resolve nothing changes.
   */
  lemma WireToMultiplexor(g: Graph, sourceName: string, sourceIndex: int, targetIndex: int, port: int)
    requires GraphValid(g)
    ensures var g' := Wire(g, ToMultiplexor(sourceName, sourceIndex, targetIndex, port));
            var src := Resolve(g, sourceName, sourceIndex);
            var t := Resolve(g, "multiplexor", targetIndex);
            if src.Some? && t.Some? then
              && |g'.units| == |g.units|
              && t.value < |g.units|
              && g'.units[t.value].Multiplexor?
              && g'.units[t.value].activeInputSlot == g.units[t.value].activeInputSlot
              && Lookup(g'.units[t.value].ports, port) == Some(src.value)
              && (forall k :: k != port ==> Lookup(g'.units[t.value].ports, k) == Lookup(g.units[t.value].ports, k))
              && (forall i :: 0 <= i < |g.units| && i != t.value ==> g'.units[i] == g.units[i])
            else g' == g
  {
  }

  /**
   * Wiring into any other unit: a divider or an output gets the source
   * appended to its input list, every other unit is as before; an input or
   * a multiplexor target, or an end that does not resolve, changes nothing.
   */
  lemma WireToUnit(g: Graph, sourceName: string, sourceIndex: int, targetName: string, targetIndex: int)
    requires GraphValid(g)
    ensures var g' := Wire(g, ToUnit(sourceName, sourceIndex, targetName, targetIndex));
            var src := Resolve(g, sourceName, sourceIndex);
            var t := Resolve(g, targetName, targetIndex);
            if src.Some? && t.Some? && t.value < |g.units| && (g.units[t.value].Output? || g.units[t.value].Divider?) then
              && |g'.units| == |g.units|
              && KindOf(g'.units[t.value]) == KindOf(g.units[t.value])
              && g'.units[t.value].inputs == g.units[t.value].inputs + [src.value]
              && g'.units[t.value].(inputs := g.units[t.value].inputs) == g.units[t.value]
              && (forall i :: 0 <= i < |g.units| && i != t.value ==> g'.units[i] == g.units[i])
            else g' == g
  {
  }

  /** Wiring never touches the per-kind lists, the kinds, or the multiplexors' active slots. */
  lemma WireKeepsShape(g: Graph, e: Edge)
    ensures var g' := Wire(g, e);
            && |g'.units| == |g.units|
            && g'.inputUnit == g.inputUnit && g'.dividers == g.dividers
            && g'.multiplexors == g.multiplexors && g'.outputUnit == g.outputUnit
            && forall i :: 0 <= i < |g.units| ==> KindOf(g'.units[i]) == KindOf(g.units[i])
  {
  }

  lemma ReplaceUnitValid(g: Graph, t: UnitId, u: Unit)
    requires GraphValid(g) && t < |g.units|
    requires KindOf(u) == KindOf(g.units[t])
    requires forall k :: 0 <= k < |Wired(u)| ==> Wired(u)[k] < |g.units|
    requires u.Multiplexor? ==> DistinctKeys(u.ports)
    ensures GraphValid(g.(units := g.units[t := u]))
  {
    var us := g.units[t := u];
    assert forall i :: 0 <= i < |us| ==> KindOf(us[i]) == KindOf(g.units[i]);
  }

  /** Writing a port of a multiplexor wires in nothing but the written source. */
  lemma WritePortBounded(m: Unit, m': Unit, key: int, source: UnitId, n: nat)
    requires m.Multiplexor? && source < n && m' == m.(ports := WritePort(m.ports, key, source))
    requires forall k :: 0 <= k < |Wired(m)| ==> Wired(m)[k] < n
    ensures forall k :: 0 <= k < |Wired(m')| ==> Wired(m')[k] < n
  {
    var ports := m'.ports;
    forall k | 0 <= k < |Wired(m')| ensures Wired(m')[k] < n {
      assert Wired(m')[k] == ports[k].source;
      assert ports[k] in ports;
      if ports[k] != Port(key, source) {
        var j :| 0 <= j < |m.ports| && m.ports[j] == ports[k];
        assert Wired(m)[j] == ports[k].source;
      }
    }
  }

  lemma WireMultiplexorValid(g: Graph, sourceName: string, sourceIndex: int, targetIndex: int, port: int)
    requires GraphValid(g)
    ensures GraphValid(Wire(g, ToMultiplexor(sourceName, sourceIndex, targetIndex, port)))
  {
    var src := Resolve(g, sourceName, sourceIndex);
    var t := Resolve(g, "multiplexor", targetIndex);
    if src.Some? && t.Some? && t.value < |g.units| && g.units[t.value].Multiplexor? {
      ResolveValid(g, sourceName, sourceIndex);
      var m := g.units[t.value];
      var m' := m.(ports := WritePort(m.ports, port, src.value));
      WritePortDistinct(m.ports, port, src.value);
      assert forall k :: 0 <= k < |Wired(m)| ==> Wired(m)[k] < |g.units|;
      WritePortBounded(m, m', port, src.value, |g.units|);
      assert KindOf(m') == KindOf(m);
      ReplaceUnitValid(g, t.value, m');
    }
  }

  lemma WireUnitValid(g: Graph, sourceName: string, sourceIndex: int, targetName: string, targetIndex: int)
    requires GraphValid(g)
    ensures GraphValid(Wire(g, ToUnit(sourceName, sourceIndex, targetName, targetIndex)))
  {
    var t := Resolve(g, targetName, targetIndex);
    var src := Resolve(g, sourceName, sourceIndex);
    if src.Some? && t.Some? && t.value < |g.units| && (g.units[t.value].Output? || g.units[t.value].Divider?) {
      ResolveValid(g, sourceName, sourceIndex);
      var u' := AppendInput(g.units[t.value], src.value);
      assert Wired(u') == Wired(g.units[t.value]) + [src.value];
      ReplaceUnitValid(g, t.value, u');
    }
  }

  lemma WirePreservesValid(g: Graph, e: Edge)
    requires GraphValid(g)
    ensures GraphValid(Wire(g, e))
  {
    match e
    case ToMultiplexor(sourceName, sourceIndex, targetIndex, port) =>
      WireMultiplexorValid(g, sourceName, sourceIndex, targetIndex, port);
    case ToUnit(sourceName, sourceIndex, targetName, targetIndex) =>
      WireUnitValid(g, sourceName, sourceIndex, targetName, targetIndex);
  }

  /** A unit as created by the first pass: nothing wired into it yet. */
  predicate Unwired(u: Unit) {
    Wired(u) == [] && (u.Multiplexor? ==> u.ports == [])
  }

  lemma AddUnitListed(g: Graph, u: Unit, kind: Kind)
    requires Listed(g.units, g.List(kind), kind)
    ensures Listed(AddUnit(g, u).units, AddUnit(g, u).List(kind), kind)
  {
    var g' := AddUnit(g, u);
    assert g'.units == g.units + [u];
    if KindOf(u) == kind {
      assert g'.List(kind) == g.List(kind) + [|g.units|];
    } else {
      assert g'.List(kind) == g.List(kind);
    }
  }

  lemma AddUnitPreservesValid(g: Graph, u: Unit)
    requires GraphValid(g) && Unwired(u)
    ensures GraphValid(AddUnit(g, u))
  {
    var g' := AddUnit(g, u);
    assert g'.units == g.units + [u];
    AddUnitListed(g, u, InputKind);
    AddUnitListed(g, u, DividerKind);
    AddUnitListed(g, u, MultiplexorKind);
    AddUnitListed(g, u, OutputKind);
  }

  function ChainConfig(f: real, d: real): Config {
    Config([UnitsEntry("input", 1), UnitsEntry("divider", 1), UnitsEntry("output", 1)],
           [ToUnit("input", 0, "divider", 0), ToUnit("divider", 0, "output", 0)],
           Params(Some([f]), Some([d]), None))
  }

  lemma ChainInstantiated(f: real, d: real)
    ensures InstantiateAll(EmptyGraph, ChainConfig(f, d).units, ChainConfig(f, d).params)
         == Ok(Graph([Input(f), Divider(d, []), Output([])], [0], [1], [], [2]))
  {
    var p := ChainConfig(f, d).params;
    var entries := ChainConfig(f, d).units;
    var g1 := Graph([Input(f)], [0], [], [], []);
    var g2 := Graph([Input(f), Divider(d, [])], [0], [1], [], []);
    var g3 := Graph([Input(f), Divider(d, []), Output([])], [0], [1], [], [2]);
    assert [f][..1] == [f];
    assert InputsOf([f]) == [Input(f)];
    assert AddUnits(EmptyGraph, [Input(f)]) == AddUnits(g1, []);
    assert Instantiate(EmptyGraph, entries[0], p) == Ok(g1);
    assert DividersOf([d]) == [Divider(d, [])];
    assert AddUnits(g1, [Divider(d, [])]) == AddUnits(g2, []);
    assert Instantiate(g1, entries[1], p) == Ok(g2);
    assert seq(1, _ => Output([])) == [Output([])];
    assert AddUnits(g2, [Output([])]) == AddUnits(g3, []);
    assert Instantiate(g2, entries[2], p) == Ok(g3);
    assert entries[1..][1..] == [entries[2]];
  }

  function ChainGraph(f: real, d: real): Graph {
    Graph([Input(f), Divider(d, [0]), Output([1])], [0], [1], [], [2])
  }

  lemma ChainWired(f: real, d: real)
    ensures WireAll(Graph([Input(f), Divider(d, []), Output([])], [0], [1], [], [2]), ChainConfig(f, d).tree)
         == ChainGraph(f, d)
  {
    var edges := ChainConfig(f, d).tree;
    var g3 := Graph([Input(f), Divider(d, []), Output([])], [0], [1], [], [2]);
    var g4 := Graph([Input(f), Divider(d, [0]), Output([])], [0], [1], [], [2]);
    var g5 := Graph([Input(f), Divider(d, [0]), Output([1])], [0], [1], [], [2]);
    assert Resolve(g3, "input", 0) == Some(0) && Resolve(g3, "divider", 0) == Some(1);
    assert AppendInput(Divider(d, []), 0).inputs == [0];
    assert g3.units[1 := AppendInput(g3.units[1], 0)] == g4.units;
    assert Wire(g3, edges[0]) == g4;
    assert Resolve(g4, "divider", 0) == Some(1) && Resolve(g4, "output", 0) == Some(2);
    assert AppendInput(Output([]), 1).inputs == [1];
    assert g4.units[2 := AppendInput(g4.units[2], 1)] == g5.units;
    assert Wire(g4, edges[1]) == g5;
    assert edges[1..][1..] == [];
  }

  /**
   * A model description with one input of frequency f feeding one divider
   * by d feeding the output builds the chain, and its output signal is f / d.
   */
  lemma DividerChainExample(f: real, d: real)
    requires d != 0.0
    ensures var g := Build(EmptyGraph, ChainConfig(f, d));
            && g.Ok?
            && GraphValid(g.value)
            && WellRanked(g.value.units, [0, 1, 2])
            && OutputSignal(g.value, [0, 1, 2]) == Ok(f / d)
  {
    ChainInstantiated(f, d);
    ChainWired(f, d);
    ChainRanked(f, d);
    ChainSignal(f, d);
  }

  lemma ChainRanked(f: real, d: real)
    ensures GraphValid(ChainGraph(f, d)) && WellRanked(ChainGraph(f, d).units, [0, 1, 2])
  {
    var g5 := ChainGraph(f, d);
    assert Wired(g5.units[0]) == [] && Wired(g5.units[1]) == [0] && Wired(g5.units[2]) == [1];
  }

  lemma ChainSignal(f: real, d: real)
    requires d != 0.0
    ensures GraphValid(ChainGraph(f, d)) && WellRanked(ChainGraph(f, d).units, [0, 1, 2])
    ensures OutputSignal(ChainGraph(f, d), [0, 1, 2]) == Ok(f / d)
  {
    ChainRanked(f, d);
    var g5 := ChainGraph(f, d);
    assert GetSignalFrom(g5.units, [0, 1, 2], NodeRef(0)) == Ok(f);
    assert GetSignalFrom(g5.units, [0, 1, 2], NodeRef(1)) == Ok(f / d);
  }

  // ---------------------------------------------------------------------
  // The clock model object

  /**
   * `ClockModel`: the unit arena and the four per-kind lists, filled in
   * place by `LoadModelFromConfig`. The multiplexors' active slots are
   * written later by the adjusters.
   */
  class ClockModel {
    var units: seq<Unit>
    var inputUnit: seq<UnitId>
    var multiplexors: seq<UnitId>
    var dividers: seq<UnitId>
    var outputUnit: seq<UnitId>

    function Snapshot(): Graph
      reads this
    {
      Graph(units, inputUnit, dividers, multiplexors, outputUnit)
    }

    predicate Valid()
      reads this
    {
      GraphValid(Snapshot())
    }

    constructor ()
      ensures Snapshot() == EmptyGraph && Valid()
    {
      units, inputUnit, multiplexors, dividers, outputUnit := [], [], [], [], [];
    }

    /** Appends a freshly created unit to the arena and to the list of its kind. */
    method Append(u: Unit)
      requires Valid() && Unwired(u)
      modifies this
      ensures Valid()
      ensures Snapshot() == AddUnit(old(Snapshot()), u)
    {
      AddUnitPreservesValid(Snapshot(), u);
      var id := |units|;
      units := units + [u];
      match KindOf(u)
      case InputKind => inputUnit := inputUnit + [id];
      case DividerKind => dividers := dividers + [id];
      case MultiplexorKind => multiplexors := multiplexors + [id];
      case OutputKind => outputUnit := outputUnit + [id];
    }

    /** Appends `us` one by one, as the per-kind loops of the first pass do. */
    method AppendAll(us: seq<Unit>)
      requires Valid() && forall k :: 0 <= k < |us| ==> Unwired(us[k])
      modifies this
      ensures Valid()
      ensures Snapshot() == AddUnits(old(Snapshot()), us)
    {
      var k := 0;
      while k < |us|
        invariant 0 <= k <= |us| && Valid()
        invariant AddUnits(old(Snapshot()), us) == AddUnits(Snapshot(), us[k..])
      {
        assert us[k..][1..] == us[k + 1..];
        Append(us[k]);
        k := k + 1;
      }
    }

    /** The first pass for one entry of the units section. */
    method InstantiateEntry(e: UnitsEntry, p: Params) returns (r: Outcome)
      requires Valid()
      modifies this
      ensures Valid()
      ensures Instantiate(old(Snapshot()), e, p).Err? ==> r == Fail(Instantiate(old(Snapshot()), e, p).error)
      ensures Instantiate(old(Snapshot()), e, p).Ok? ==> r == Pass && Snapshot() == Instantiate(old(Snapshot()), e, p).value
    {
      r := Pass;
      if e.name == "input" {
        if e.count > 0 && (p.input.None? || |p.input.value| < e.count) {
          return Fail(MissingParameter("input"));
        }
        if e.count > 0 {
          AppendAll(InputsOf(p.input.value[..e.count]));
        }
      } else if e.name == "divider" {
        if p.divider.None? {
          return Fail(MissingParameter("divider"));
        }
        AppendAll(DividersOf(p.divider.value));
      } else if e.name == "multiplexor" {
        if e.count > 0 && (p.multiplexor.None? || |p.multiplexor.value| < e.count) {
          return Fail(MissingParameter("multiplexor"));
        }
        if e.count > 0 {
          AppendAll(MultiplexorsOf(p.multiplexor.value[..e.count]));
        }
      } else if e.name == "output" {
        AppendAll(seq(e.count, _ => Output([])));
      } else {
        return Fail(UnknownUnitKind(e.name));
      }
    }

    /** The second pass for one connection; a failed lookup leaves the model as it was. */
    method WireEdge(e: Edge)
      requires Valid()
      modifies this
      ensures Valid()
      ensures Snapshot() == Wire(old(Snapshot()), e)
    {
      WirePreservesValid(Snapshot(), e);
      match e
      case ToMultiplexor(sourceName, sourceIndex, targetIndex, port) =>
        var src := Resolve(Snapshot(), sourceName, sourceIndex);
        var t := Resolve(Snapshot(), "multiplexor", targetIndex);
        if src.Some? && t.Some? && t.value < |units| && units[t.value].Multiplexor? {
          var m := units[t.value];
          units := units[t.value := m.(ports := WritePort(m.ports, port, src.value))];
        }
      case ToUnit(sourceName, sourceIndex, targetName, targetIndex) =>
        var t := Resolve(Snapshot(), targetName, targetIndex);
        var src := Resolve(Snapshot(), sourceName, sourceIndex);
        if src.Some? && t.Some? && t.value < |units| && (units[t.value].Output? || units[t.value].Divider?) {
          units := units[t.value := AppendInput(units[t.value], src.value)];
        }
    }

    /**
     * `load_model_from_config`: the first pass creates the units of each
     * entry of the units section in turn and raises on an unknown kind or a
     * missing parameter; the second pass wires every connection of the tree
     * section in turn and swallows whatever goes wrong there.
     */
    method LoadModelFromConfig(config: Config) returns (r: Outcome)
      requires Valid()
      modifies this
      ensures Valid()
      ensures Build(old(Snapshot()), config).Err? ==> r == Fail(Build(old(Snapshot()), config).error)
      ensures Build(old(Snapshot()), config).Ok? ==> r == Pass && Snapshot() == Build(old(Snapshot()), config).value
    {
      var p := config.params;
      var i := 0;
      while i < |config.units|
        invariant 0 <= i <= |config.units| && Valid()
        invariant InstantiateAll(old(Snapshot()), config.units, p) == InstantiateAll(Snapshot(), config.units[i..], p)
      {
        assert config.units[i..][0] == config.units[i] && config.units[i..][1..] == config.units[i + 1..];
        r := InstantiateEntry(config.units[i], p);
        if r.Fail? {
          return;
        }
        i := i + 1;
      }
      var j := 0;
      while j < |config.tree|
        invariant 0 <= j <= |config.tree| && Valid()
        invariant Build(old(Snapshot()), config) == Ok(WireAll(Snapshot(), config.tree[j..]))
      {
        assert config.tree[j..][0] == config.tree[j] && config.tree[j..][1..] == config.tree[j + 1..];
        WireEdge(config.tree[j]);
        j := j + 1;
      }
      return Pass;
    }
  }
}
