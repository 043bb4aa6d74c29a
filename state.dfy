/** The NEURON back end's simulator state and its reset/run lifecycle. The
    engine's global variables `t`, `dt`, `tstop` and `min_delay` are plain fields;
    the collective engine calls are recorded in order. */
module NeuronState {
  import opened Common
  import NeuronInitializer

  /** A call into the engine made by `run`. */
  datatype EngineCall = SetMaxstepCall(maxstep: real) | FinitializeCall | PsolveCall(tstop: real)

  /** The assertion `run` makes on a multi-process first run. */
  datatype RunError = MinDelayTooLarge(localMinimumDelay: real, minDelay: real)

  /** The largest step `run` asks the parallel context for. */
  const MaxStep: real := 10.0

  class State {
    var gidCounter: nat
    var running: bool
    var initialized: bool
    var t: real
    var dt: real
    var tstop: real
    var minDelay: real
    const numProcesses: nat
    const mpiRank: nat
    var engineCalls: seq<EngineCall>

    /** `numProcesses` and `mpiRank` are what the parallel context reports. */
    constructor (numProcesses: nat, mpiRank: nat)
      requires mpiRank < numProcesses
      ensures this.numProcesses == numProcesses && this.mpiRank == mpiRank
      ensures gidCounter == 0 && !running && !initialized
      ensures minDelay == 0.0 && tstop == 0.0 && engineCalls == []
    {
      this.numProcesses := numProcesses;
      this.mpiRank := mpiRank;
      gidCounter := 0;
      running := false;
      initialized := false;
      minDelay := 0.0;
      tstop := 0.0;
      engineCalls := [];
    }

    method Reset()
      modifies this`running, this`t, this`tstop
      ensures !running && t == 0.0 && tstop == 0.0
    {
      running := false;
      t := 0.0;
      tstop := 0.0;
    }

    /** The engine's `finitialize`: time goes back to 0 and the registered
        initialize handler (the initializer) runs. */
    method Finitialize(init: NeuronInitializer.Initializer)
      requires init.Valid()
      modifies this`t, this`engineCalls, init`membInitCalls
      ensures t == 0.0 && engineCalls == old(engineCalls) + [FinitializeCall]
      ensures init.membInitCalls ==
        old(init.membInitCalls) + NeuronInitializer.InitOrder(init.cellList, init.populationList)
    {
      t := 0.0;
      engineCalls := engineCalls + [FinitializeCall];
      init.Initialize();
    }

    /** The engine's `psolve`: integrate up to the stop time; a run whose stop time
        is already behind the clock does not move it. */
    method Psolve(stop: real)
      modifies this`t, this`engineCalls
      ensures t == if old(t) < stop then stop else old(t)
      ensures engineCalls == old(engineCalls) + [PsolveCall(stop)]
    {
      if t < stop {
        t := stop;
      }
      engineCalls := engineCalls + [PsolveCall(stop)];
    }

    /** `localMinimumDelay` is what the parallel context's `set_maxstep` answers. */
    method Run(simtime: real, localMinimumDelay: real, init: NeuronInitializer.Initializer) returns (r: Result<real, RunError>)
      requires init.Valid()
      modifies this`running, this`t, this`tstop, this`engineCalls, init`membInitCalls
      ensures running
      ensures r.Err? <==> !old(running) && numProcesses > 1 && localMinimumDelay < minDelay
      ensures r.Err? ==> r.error == MinDelayTooLarge(localMinimumDelay, minDelay)
      ensures old(running) ==> init.membInitCalls == old(init.membInitCalls)
      ensures !old(running) ==> (init.membInitCalls ==
        old(init.membInitCalls) + NeuronInitializer.InitOrder(init.cellList, init.populationList))
      ensures r.Err? ==> (t == 0.0 && tstop == 0.0 &&
        engineCalls == old(engineCalls) + [SetMaxstepCall(MaxStep), FinitializeCall])
      ensures r.Ok? ==> (tstop == simtime && r.value == t &&
        var start := if old(running) then old(t) else 0.0;
        t == if start < simtime then simtime else start)
      ensures r.Ok? && old(running) ==> engineCalls == old(engineCalls) + [PsolveCall(simtime)]
      ensures r.Ok? && !old(running) ==> (engineCalls ==
        old(engineCalls) + [SetMaxstepCall(MaxStep), FinitializeCall, PsolveCall(simtime)])
    {
      if !running {
        running := true;
        engineCalls := engineCalls + [SetMaxstepCall(MaxStep)];
        Finitialize(init);
        tstop := 0.0;
        if numProcesses > 1 && localMinimumDelay < minDelay {
          return Err(MinDelayTooLarge(localMinimumDelay, minDelay));
        }
      }
      tstop := simtime;
      Psolve(tstop);
      r := Ok(t);
    }
  }

  /** `reset()` then `run(50)` then `run(30)` leaves the stop time at 30, because
      `run` sets the stop time to its argument, and leaves the clock at 50, which
      does not go back. */
  method ResetRunRunScenario() returns (stop: real, now: real)
    ensures stop == 30.0 && now == 50.0
  {
    var init := new NeuronInitializer.Initializer();
    var state := new State(1, 0);
    state.Reset();
    var first := state.Run(50.0, MaxStep, init);
    var second := state.Run(30.0, MaxStep, init);
    stop, now := state.tstop, second.value;
  }

  /** With two processes, a minimum delay of 0.1 and a connection of delay 0.05
      (so `set_maxstep` answers 0.05), the first `run` fails its assertion. */
  method MinDelayScenario() returns (failed: bool)
    ensures failed
  {
    var init := new NeuronInitializer.Initializer();
    var state := new State(2, 0);
    state.minDelay := 0.1;
    var r := state.Run(10.0, 0.05, init);
    failed := r.Err?;
  }
}
