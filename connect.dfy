/** The NEURON back end's `single_connect`: validate the source gid and the target
    cell, resolve synapse type, weight and delay, then wire a NetCon from the
    source gid to the target's synapse. */
module NeuronConnect {
  import opened Common
  import NeuronState

  /** The source argument: an int (a gid), or any other value. */
  datatype SourceArg = IntSource(gid: int) | NonIntSource

  /** The target argument: an ID (an IDMixin) with what `single_connect` reads of it
      (whether its cell class name contains "cond", and the names of the synapses
      its cell has), or any other value. */
  datatype TargetArg = CellTarget(id: Id, conductanceBased: bool, synapses: set<string>) | NonCellTarget

  /** The ConnectionErrors `single_connect` raises, and the missing synapse attribute. */
  datatype ConnectError =
    | InvalidSource
    | InvalidTarget
    | DelayTooSmall(delay: real, minDelay: real)
    | NoSuchSynapse(synapseType: string)

  /** What `single_connect` decides before wiring. */
  datatype Wiring = Wiring(gid: int, target: Id, synapseType: string, weight: real, delay: real)

  const Excitatory: string := "excitatory"
  const Inhibitory: string := "inhibitory"

  function Abs(x: real): real
  {
    if x < 0.0 then -x else x
  }

  predicate ValidSource(source: SourceArg, gidCounter: int)
  {
    source.IntSource? && 0 <= source.gid <= gidCounter
  }

  /** The synapse type `single_connect` uses: the given one, else "excitatory" for a
      weight that is at least 0 and "inhibitory" otherwise, a missing weight included
      (decided before the default weight is substituted). */
  function ResolveSynapseType(weight: Option<real>, synapseType: Option<string>): (st: string)
    ensures synapseType.Some? ==> st == synapseType.value
    ensures synapseType.None? ==> (st == Excitatory <==> weight.Some? && weight.value >= 0.0)
    ensures synapseType.None? ==> (st == Inhibitory <==> !(weight.Some? && weight.value >= 0.0))
  {
    if synapseType.Some? then synapseType.value
    else if weight.Some? && weight.value >= 0.0 then Excitatory
    else Inhibitory
  }

  /** The weight `single_connect` stores: the given one or the default; its magnitude
      on a conductance-based target; negated if positive on an inhibitory synapse of a
      current-based target. */
  function ResolveWeight(weight: Option<real>, conductanceBased: bool, synapseType: string, defaultWeight: real): (w: real)
    ensures var given := if weight.Some? then weight.value else defaultWeight;
      Abs(w) == Abs(given) &&
      (conductanceBased ==> w >= 0.0) &&
      (!conductanceBased && synapseType == Inhibitory ==> w <= 0.0) &&
      (!conductanceBased && synapseType != Inhibitory ==> w == given)
  {
    var w := if weight.Some? then weight.value else defaultWeight;
    if conductanceBased then Abs(w)
    else if synapseType == Inhibitory && w > 0.0 then -w
    else w
  }

  /** Everything `single_connect` decides, or the error it raises. */
  function ResolveConnection(source: SourceArg, target: TargetArg, weight: Option<real>, delay: Option<real>,
                             synapseType: Option<string>, gidCounter: int, minDelay: real, defaultWeight: real)
    : (r: Result<Wiring, ConnectError>)
    ensures r == Err(InvalidSource) <==> !ValidSource(source, gidCounter)
    ensures r == Err(InvalidTarget) <==> ValidSource(source, gidCounter) && target.NonCellTarget?
    ensures r.Err? && r.error.DelayTooSmall? <==>
      ValidSource(source, gidCounter) && target.CellTarget? && delay.Some? && delay.value < minDelay
    ensures r.Err? && r.error.DelayTooSmall? ==> r.error == DelayTooSmall(delay.value, minDelay)
    ensures r.Ok? <==> (ValidSource(source, gidCounter) && target.CellTarget? &&
      !(delay.Some? && delay.value < minDelay) && ResolveSynapseType(weight, synapseType) in target.synapses)
    ensures r == Err(NoSuchSynapse(ResolveSynapseType(weight, synapseType))) <==>
      ValidSource(source, gidCounter) && target.CellTarget? && !(delay.Some? && delay.value < minDelay) &&
      ResolveSynapseType(weight, synapseType) !in target.synapses
    ensures r.Ok? ==> (ValidSource(source, gidCounter) && target.CellTarget? &&
      r.value.gid == source.gid && r.value.target == target.id &&
      r.value.synapseType in target.synapses &&
      r.value.delay >= minDelay &&
      r.value.delay == (if delay.Some? then delay.value else minDelay))
    ensures r.Ok? ==> r.value.synapseType == ResolveSynapseType(weight, synapseType)
    ensures r.Ok? && synapseType.None? ==>
      (r.value.synapseType == Excitatory <==> weight.Some? && weight.value >= 0.0)
    ensures r.Ok? ==> r.value.weight == ResolveWeight(weight, target.conductanceBased, r.value.synapseType, defaultWeight)
    ensures r.Ok? && target.conductanceBased ==> r.value.weight >= 0.0
    ensures r.Ok? && !target.conductanceBased && r.value.synapseType == Inhibitory ==> r.value.weight <= 0.0
  {
    if !ValidSource(source, gidCounter) then Err(InvalidSource)
    else if target.NonCellTarget? then Err(InvalidTarget)
    else
      var st := ResolveSynapseType(weight, synapseType);
      var w := ResolveWeight(weight, target.conductanceBased, st, defaultWeight);
      if delay.Some? && delay.value < minDelay then Err(DelayTooSmall(delay.value, minDelay))
      else
        var d := if delay.Some? then delay.value else minDelay;
        if st !in target.synapses then Err(NoSuchSynapse(st))
        else Ok(Wiring(source.gid, target.id, st, w, d))
  }

  /** Gid 5 registered, a local target with an excitatory synapse, weight 2.5 and no
      delay: the connection gets weight 2.5 and the minimum delay. */
  lemma DefaultDelayScenario(target: TargetArg, gidCounter: int, minDelay: real, defaultWeight: real)
    requires target.CellTarget? && Excitatory in target.synapses && gidCounter >= 5
    ensures ResolveConnection(IntSource(5), target, Some(2.5), None, None, gidCounter, minDelay, defaultWeight)
      == Ok(Wiring(5, target.id, Excitatory, 2.5, minDelay))
  {
  }

  /** The connection object the parallel context's `gid_connect` returns. */
  class NetCon {
    const sourceGid: int
    const target: Id
    const synapse: string
    var weight: real
    var delay: real

    constructor GidConnect(sourceGid: int, target: Id, synapse: string)
      ensures this.sourceGid == sourceGid && this.target == target && this.synapse == synapse
    {
      this.sourceGid := sourceGid;
      this.target := target;
      this.synapse := synapse;
    }
  }

  /** The record `single_connect` returns. */
  datatype Connection = Connection(pre: int, post: Id, nc: NetCon)

  method SingleConnect(state: NeuronState.State, source: SourceArg, target: TargetArg, weight: Option<real>,
                       delay: Option<real>, synapseType: Option<string>, defaultWeight: real)
    returns (r: Result<Connection, ConnectError>)
    ensures var w := ResolveConnection(source, target, weight, delay, synapseType,
                                       state.gidCounter, state.minDelay, defaultWeight);
      (r.Err? <==> w.Err?) &&
      (r.Err? ==> r.error == w.error) &&
      (r.Ok? ==> (fresh(r.value.nc) &&
        r.value.pre == w.value.gid && r.value.post == w.value.target &&
        r.value.nc.sourceGid == w.value.gid && r.value.nc.target == w.value.target &&
        r.value.nc.synapse == w.value.synapseType &&
        r.value.nc.weight == w.value.weight && r.value.nc.delay == w.value.delay))
  {
    var resolved := ResolveConnection(source, target, weight, delay, synapseType,
                                      state.gidCounter, state.minDelay, defaultWeight);
    if resolved.Err? {
      return Err(resolved.error);
    }
    var wiring := resolved.value;
    var nc := new NetCon.GidConnect(wiring.gid, wiring.target, wiring.synapseType);
    nc.weight := wiring.weight;
    nc.delay := wiring.delay;
    r := Ok(Connection(source.gid, target.id, nc));
  }
}
