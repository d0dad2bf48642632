/**
 * The four kinds of clock unit. Units live in an arena and refer to the
 * units feeding them by their index in it.
 */
module Units {
  import opened Results

  type UnitId = nat

  /** One entry of a multiplexor's port dictionary: the port key and the unit wired to it. */
  datatype Port = Port(key: int, source: UnitId)

  /**
   * A unit. Dividers and outputs keep the list of units wired to them, a
   * multiplexor keeps its port dictionary in insertion order and the key of
   * its active port.
   */
  datatype Unit =
    | Input(inputData: real)
    | Output(inputs: seq<UnitId>)
    | Divider(divisor: real, inputs: seq<UnitId>)
    | Multiplexor(ports: seq<Port>, activeInputSlot: int)

  /** What feeds a unit: a fixed value (for an input) or another unit. */
  datatype ActiveInput = Terminal(value: real) | NodeRef(id: UnitId)

  /** The keys of a port dictionary, in insertion order. */
  function Keys(ports: seq<Port>): (ks: seq<int>)
    ensures |ks| == |ports|
    ensures forall j :: 0 <= j < |ports| ==> ks[j] == ports[j].key
  {
    if ports == [] then [] else [ports[0].key] + Keys(ports[1..])
  }

  /** A dictionary never holds a key twice. */
  predicate DistinctKeys(ports: seq<Port>) {
    forall a, b :: 0 <= a < b < |ports| ==> ports[a].key != ports[b].key
  }

  /** Every unit wired into `u`, whether or not it is the active one. */
  function Wired(u: Unit): seq<UnitId> {
    match u
    case Input(_) => []
    case Output(ins) => ins
    case Divider(_, ins) => ins
    case Multiplexor(ports, _) => seq(|ports|, j requires 0 <= j < |ports| => ports[j].source)
  }

  /** The dictionary read `_inputs[key]`; `None` is the KeyError. */
  function Lookup(ports: seq<Port>, key: int): (r: Option<UnitId>)
    ensures r.None? <==> key !in Keys(ports)
    ensures r.Some? ==> exists j :: 0 <= j < |ports| && ports[j] == Port(key, r.value)
  {
    if ports == [] then None
    else
      assert Keys(ports) == [ports[0].key] + Keys(ports[1..]);
      if ports[0].key == key then Some(ports[0].source)
      else
        var r := Lookup(ports[1..], key);
        assert r.Some? ==> exists j :: 0 <= j < |ports[1..]| && ports[1..][j] == Port(key, r.value);
        assert r.Some? ==> exists j :: 1 <= j < |ports| && ports[j] == Port(key, r.value);
        r
  }

  lemma {:induction false} LookupAt(ports: seq<Port>, j: nat)
    requires DistinctKeys(ports) && j < |ports|
    ensures Lookup(ports, ports[j].key) == Some(ports[j].source)
  {
    if j > 0 {
      assert ports[0].key != ports[j].key;
      LookupAt(ports[1..], j - 1);
    }
  }

  /**
   * `get_active_input_unit`: an input yields its value, a divider or an
   * output its first wired unit, a multiplexor the unit under its active
   * slot. The unit yielded is always one wired into `u`.
   */
  function GetActiveInputUnit(u: Unit): (r: Result<ActiveInput>)
    ensures u.Input? ==> r == Ok(Terminal(u.inputData))
    ensures !u.Input? ==> r.Err? || (r.value.NodeRef? && r.value.id in Wired(u))
    ensures (u.Output? || u.Divider?) ==>
              (r.Ok? <==> u.inputs != []) &&
              (r.Ok? ==> r.value == NodeRef(u.inputs[0])) &&
              (r.Err? ==> r.error == NoWiredInput)
    ensures u.Multiplexor? ==>
              (r.Ok? <==> u.activeInputSlot in Keys(u.ports)) &&
              (r.Ok? ==> Port(u.activeInputSlot, r.value.id) in u.ports) &&
              (r.Err? ==> r.error == NoSuchPort(u.activeInputSlot))
  {
    match u
    case Input(v) => Ok(Terminal(v))
    case Output(ins) => if ins == [] then Err(NoWiredInput) else Ok(NodeRef(ins[0]))
    case Divider(_, ins) => if ins == [] then Err(NoWiredInput) else Ok(NodeRef(ins[0]))
    case Multiplexor(ports, slot) =>
      match Lookup(ports, slot)
      case None => Err(NoSuchPort(slot))
      case Some(id) =>
        var j :| 0 <= j < |ports| && ports[j] == Port(slot, id);
        assert Wired(u)[j] == id;
        Ok(NodeRef(id))
  }

  /**
   * `get_output_signal`: a divider divides the signal by its divisor (a zero
   * divisor raises), every other kind passes it through unchanged.
   */
  function GetOutputSignal(u: Unit, signal: real): (r: Result<real>)
    ensures r.Err? <==> u.Divider? && u.divisor == 0.0
    ensures r.Err? ==> r.error == DivisionByZero
    ensures r.Ok? && u.Divider? ==> r.value * u.divisor == signal
    ensures !u.Divider? ==> r == Ok(signal)
  {
    match u
    case Divider(d, _) => if d == 0.0 then Err(DivisionByZero) else Ok(signal / d)
    case _ => Ok(signal)
  }

  /** `enumerated_ports`: port number j (from 0) is the j-th key wired, in insertion order. */
  function EnumeratedPorts(u: Unit): (r: seq<int>)
    requires u.Multiplexor?
    ensures |r| == |u.ports|
    ensures forall j :: 0 <= j < |r| ==> r[j] == u.ports[j].key
  {
    Keys(u.ports)
  }

  /** Selecting the j-th enumerated port routes the j-th wired unit through the multiplexor. */
  lemma {:induction false} EnumeratedPortSelects(u: Unit, j: nat)
    requires u.Multiplexor? && DistinctKeys(u.ports) && j < |u.ports|
    ensures GetActiveInputUnit(u.(activeInputSlot := EnumeratedPorts(u)[j])) == Ok(NodeRef(u.ports[j].source))
  {
    LookupAt(u.ports, j);
  }

  /** A multiplexor as created: no port is wired, so its active slot names no port yet. */
  lemma NewMultiplexorUnwired(slot: int)
    ensures EnumeratedPorts(Multiplexor([], slot)) == []
    ensures GetActiveInputUnit(Multiplexor([], slot)) == Err(NoSuchPort(slot))
  {
  }

  /**
   * The dictionary write `_inputs[key] = source`: afterwards `key` reads
   * `source` and every other key reads as before.
   */
  function WritePort(ports: seq<Port>, key: int, source: UnitId): (r: seq<Port>)
    ensures Lookup(r, key) == Some(source)
    ensures forall k :: k != key ==> Lookup(r, k) == Lookup(ports, k)
    ensures forall p :: p in r ==> p in ports || p == Port(key, source)
  {
    if ports == [] then [Port(key, source)]
    else if ports[0].key == key then [Port(key, source)] + ports[1..]
    else
      var r := [ports[0]] + WritePort(ports[1..], key, source);
      assert r[1..] == WritePort(ports[1..], key, source);
      r
  }

  /** An existing key keeps its place in the dictionary and a new key goes last. */
  lemma {:induction false} WritePortKeys(ports: seq<Port>, key: int, source: UnitId)
    ensures key in Keys(ports) ==> Keys(WritePort(ports, key, source)) == Keys(ports)
    ensures key !in Keys(ports) ==> Keys(WritePort(ports, key, source)) == Keys(ports) + [key]
  {
    var r := WritePort(ports, key, source);
    if ports != [] && ports[0].key != key {
      var rest := WritePort(ports[1..], key, source);
      WritePortKeys(ports[1..], key, source);
      assert r == [ports[0]] + rest;
      assert key in Keys(ports) <==> key in Keys(ports[1..]);
      assert Keys(r) == [ports[0].key] + Keys(rest);
      assert Keys(ports) == [ports[0].key] + Keys(ports[1..]);
    } else if ports != [] {
      assert r == [Port(key, source)] + ports[1..];
      assert Keys(r) == [key] + Keys(ports[1..]);
    }
  }

  /** Writing a port never doubles a key. */
  lemma WritePortDistinct(ports: seq<Port>, key: int, source: UnitId)
    requires DistinctKeys(ports)
    ensures DistinctKeys(WritePort(ports, key, source))
  {
    var r := WritePort(ports, key, source);
    WritePortKeys(ports, key, source);
    forall a, b | 0 <= a < b < |r| ensures r[a].key != r[b].key {
      assert r[a].key == Keys(r)[a] && r[b].key == Keys(r)[b];
      if b < |ports| {
        assert Keys(r)[a] == Keys(ports)[a] && Keys(r)[b] == Keys(ports)[b];
      } else {
        assert Keys(r)[a] == Keys(ports)[a] && Keys(r)[b] == key;
      }
    }
  }

  /** Wiring one more unit into a divider or an output appends it to the unit's input list. */
  function AppendInput(u: Unit, source: UnitId): (r: Unit)
    requires u.Output? || u.Divider?
    ensures r.Output? || r.Divider?
    ensures r.inputs == u.inputs + [source] && r.(inputs := u.inputs) == u
    ensures GetActiveInputUnit(r) == if u.inputs == [] then Ok(NodeRef(source)) else GetActiveInputUnit(u)
  {
    u.(inputs := u.inputs + [source])
  }
}
