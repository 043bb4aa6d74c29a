# PyNN simulator back ends: NEURON state layer and NEST 9ML cell types

A Dafny model of the logic that two PyNN back ends keep for themselves. Everything
else they hand to the simulation engines.

- **NEURON state and bookkeeping** (`src/neuron2/simulator.py`) has four parts:
  - the `Recorder`: a growing set of recorded cell ids, tracing switched on once per
    new id, and the table built from the traces the engine collected;
  - the deferred `_Initializer`: registration lists, and the order of `memb_init`
    calls when the engine initialises;
  - the `_State` lifecycle: `reset` and `run`, with one-time initialisation and the
    multi-process minimum-delay assertion;
  - `single_connect`: source and target validation, resolution of synapse type,
    weight and delay, and wiring of a `NetCon`.
- **NEST 9ML cell types** (`src/nest/nineml.py`): the metadata
  `_nest_build_nineml_celltype.__new__` derives from a reduced 9ML component and
  its synapse components. That is the synapse port names, default parameters and
  initial values, synapse types, recordables, weight variables and the initial
  regime. The model also covers the description of the NEST build it requests.

Modules: `Common` (ids, populations, Option/Result), `NeuronRecorder`,
`NeuronInitializer`, `NeuronState`, `NeuronConnect` and `NestNineml`.

How the model stands in for the engines:
- Engine side effects are kept as call logs in fields:
  - the tracing calls `record(1)` and `record_v(1)` are in `Recorder.traceCalls`;
  - the `memb_init` calls are in `Initializer.membInitCalls`;
  - `set_maxstep`, `finitialize` and `psolve` are in `State.engineCalls`.
- The engine's `t`, `dt`, `tstop` and `min_delay` are plain fields.
- What `set_maxstep` answers is a parameter of `Run`.
- `finitialize` sets `t` to 0 and runs the initializer, because the initializer
  registers itself as the engine's initialize handler.
- `psolve(tstop)` is modelled as integration up to `tstop`. It leaves `t` alone when
  `t` is already past `tstop`.
- The traces the engine collected are a parameter of `Get`.
- `common.DEFAULT_WEIGHT` is a parameter of `single_connect`, because `pyNN.common`
  is not part of this model.
- Class-name substring tests become flags on the input: "Source" is
  `Population.isSpikeSource` and "cond" is `TargetArg.conductanceBased`.
- Times, weights and delays are `real`.

## Behaviour worth noting

- `run` sets `tstop` to its argument (simulator.py:170). `NeuronState.ResetRunRunScenario`
  shows `reset(); run(50); run(30)` leaving the stop time at 30 and the clock at 50.
- A synapse component without exactly one receive event port raises `ValueError`
  (nineml.py:95-96), for zero ports as well as for several. A namespace that is not a
  sub-node of the model raises `KeyError` first (nineml.py:92).
- `run` sets `running` and calls `finitialize` before it checks the minimum delay
  (simulator.py:162-169). After a failed assertion the state is therefore already
  running, with `t` and `tstop` at 0.
- With no weight and no synapse type, Python 2 evaluates `None >= 0` as false, so
  the type is "inhibitory". This is decided before the default weight is substituted.
- The initial regime is the first entry of the regime map. The map is modelled as the
  sequence of regime names in the order the map yields them.

## Model

| member | source | states |
|---|---|---|
| `NeuronRecorder.Recorder.constructor` | src/neuron2/simulator.py:34-44 | A new recorder keeps its variable and population and starts with no recorded ids and no tracing calls. |
| `NeuronRecorder.Recorder.Record` | src/neuron2/simulator.py:47-63 | The recorded set becomes the old set united with the accepted ids, so it never shrinks. With a population, only ids in its local ids are accepted; without one, all given ids are. Earlier tracing calls stay as they were. The new calls trace exactly the accepted ids not recorded before, and only for "spikes" or "v". `Valid` is preserved: each recorded id was traced exactly once across all calls, with the variable's own call. |
| `NeuronRecorder.Recorder.Get` | src/neuron2/simulator.py:65-82 | Any variable other than "spikes" or "v" gives an error. Otherwise the table is the rows of every recorded id, each exactly once, in some order. For "spikes" every row is (time, id) with the id recorded and time at most now + 1e-9. For "v" every row is (t, v, id) with the id recorded. |
| `NeuronRecorder.SpikeRows` | src/neuron2/simulator.py:70-73 | The spike rows of one cell are (time, id) rows for that cell's id. Each time is one of its spike times and at most now + 1e-9, and there are no more rows than spike times. |
| `NeuronRecorder.SpikeRowsComplete` | src/neuron2/simulator.py:71 | Every spike time at most now + 1e-9 appears as a row: the filter drops only later spikes. |
| `NeuronRecorder.SpikeRowsSplit` | src/neuron2/simulator.py:71 | The filter keeps the engine's order: the rows of concatenated spike times are the rows of the first part followed by those of the second. |
| `NeuronRecorder.SpikeRowsCount` | src/neuron2/simulator.py:71 | The filter keeps multiplicity: a spike time at most now + 1e-9 yields exactly as many rows as the engine recorded it, and a later time yields none. |
| `NeuronRecorder.VRows` | src/neuron2/simulator.py:78-80 | Voltage row k of a cell is (record_times[k], vtrace[k], id), and there is one row per sample. |
| `NeuronRecorder.TableProvenance` | src/neuron2/simulator.py:69-81 | Every row of the table names, in its id column, a recorded id whose own trace produced that row. |
| `NeuronRecorder.TableComplete` | src/neuron2/simulator.py:69-81 | Every row a listed cell's trace yields appears in the table: no recorded cell's rows are lost. |
| `NeuronRecorder.TableShape` | src/neuron2/simulator.py:67-81 | A "spikes" table holds only (time, id) rows, with time among that id's spike times and at most now + 1e-9. A "v" table holds only (t, v, id) rows. |
| `NeuronInitializer.Initializer.constructor` | src/neuron2/simulator.py:94-96 | A new initializer has empty cell and population lists. |
| `NeuronInitializer.Initializer.Register` | src/neuron2/simulator.py:105-112 | The cell list grows by the accepted cells in order, and the population list by the accepted populations in order. No `memb_init` call is made. `Valid` is preserved: no spike-source population and no cell without `memb_init` is ever listed. |
| `NeuronInitializer.AcceptedCellsExactly` | src/neuron2/simulator.py:110-112 | A non-population item is registered exactly when it was offered and its cell has `memb_init`. |
| `NeuronInitializer.AcceptedPopulationsExactly` | src/neuron2/simulator.py:107-109 | A population is registered exactly when it was offered and its cell type is not a spike source. |
| `NeuronInitializer.AcceptedSplit` | src/neuron2/simulator.py:105-112 | Registering items over two calls lists the same cells and populations, in the same order, as one call with all of them. |
| `NeuronInitializer.Initializer.Initialize` | src/neuron2/simulator.py:114-121 | The `memb_init` calls are every listed cell in order, then every member of every listed population, population by population. |
| `NeuronInitializer.CellsFirst` | src/neuron2/simulator.py:117-118 | The first calls of an initialisation are the listed cells, call k on cell k. |
| `NeuronInitializer.CellIdsExactly` | src/neuron2/simulator.py:117-118 | An id is initialised as a listed cell exactly when some listed cell has that id. |
| `NeuronInitializer.InitCallsSafe` | src/neuron2/simulator.py:105-121 | With the lists registration keeps, every `memb_init` call goes to a listed cell that has `memb_init`, or to a member of a listed population that is not a spike source. |
| `NeuronInitializer.MembersSplit` | src/neuron2/simulator.py:119-121 | Populations are initialised in list order: the members of two lists of populations are those of the first, then those of the second. |
| `NeuronInitializer.MembersExactly` | src/neuron2/simulator.py:119-121 | An id is initialised as a population member exactly when it is a member of some listed population. |
| `NeuronState.State.constructor` | src/neuron2/simulator.py:133-143 | The gid counter starts at 0. The state is not running and not initialised, `min_delay` and `tstop` are 0, and the process count and rank are those the parallel context reports. |
| `NeuronState.State.Reset` | src/neuron2/simulator.py:155-158 | After `reset`, `running` is false and `t` and `tstop` are 0. |
| `NeuronState.State.Finitialize` | src/neuron2/simulator.py:99 | Engine initialisation sets `t` to 0 and runs the initializer's `memb_init` calls, because the initializer is the registered handler. |
| `NeuronState.State.Psolve` | src/neuron2/simulator.py:172 | Integration up to the stop time. The clock ends at the stop time, or stays where it was if it is already past it. |
| `NeuronState.State.Run` | src/neuron2/simulator.py:160-173 | The one-time setup happens exactly when the state was not running: `set_maxstep(10)`, `finitialize` with its `memb_init` calls, and `tstop` set to 0. The run fails its assertion exactly on a first run with more than one process and a local minimum delay below `min_delay`. After a failure the state is running with `t` and `tstop` at 0. On success, `tstop` equals the `simtime` argument, `psolve(simtime)` is called, and the engine's resulting `t` is returned. |
| `NeuronState.ResetRunRunScenario` | src/neuron2/simulator.py:155-173 | `reset`, then `run(50)`, then `run(30)` leaves the stop time at 30 and returns 50. |
| `NeuronState.MinDelayScenario` | src/neuron2/simulator.py:166-169 | With two processes, `min_delay` 0.1 and a local minimum delay of 0.05, the first `run` fails its assertion. |
| `NeuronConnect.ResolveSynapseType` | src/neuron2/simulator.py:211-212 | A given synapse type is used as is. Without one, the type is "excitatory" exactly when a weight was given and it is at least 0, and "inhibitory" otherwise, a missing weight included. |
| `NeuronConnect.ResolveWeight` | src/neuron2/simulator.py:213-218 | The stored weight has the magnitude of the given or default weight. It is non-negative on a conductance-based target. It is never positive on an inhibitory synapse of a current-based target. Otherwise it is unchanged. |
| `NeuronConnect.ResolveConnection` | src/neuron2/simulator.py:206-223 | `InvalidSource` is raised exactly when the source is not an int with 0 <= source <= gid_counter. `InvalidTarget` is raised exactly when the source is valid and the target is not an ID. `DelayTooSmall(delay, min_delay)` is raised exactly when both are valid and an explicit delay is below `min_delay`. `NoSuchSynapse` is raised exactly when all of those pass and the resolved synapse type is not on the target. The call succeeds exactly when all of those pass and the synapse is on the target. On success the delay is the given one or `min_delay`, so it is at least `min_delay`, the synapse exists on the target, and the weight is the one `ResolveWeight` gives for the resolved type. A missing type is "excitatory" exactly when a weight was given and it is at least 0. A conductance-based target gets a non-negative weight, and an inhibitory synapse on a current-based target gets a weight of at most 0. |
| `NeuronConnect.DefaultDelayScenario` | src/neuron2/simulator.py:211-222 | From gid 5, with weight 2.5 and no delay, the connection is excitatory with weight 2.5 and delay `min_delay`. |
| `NeuronConnect.NetCon.GidConnect` | src/neuron2/simulator.py:224 | `gid_connect` gives a connection object from the source gid to the target's synapse. |
| `NeuronConnect.SingleConnect` | src/neuron2/simulator.py:194-227 | Raises exactly the error `ResolveConnection` decides, and no connection exists then. Otherwise it returns a fresh `NetCon` from the source gid to the named synapse, with the resolved weight and delay, inside a `Connection(source, target, nc)`. |
| `NestNineml.SynapsePorts` | src/nest/nineml.py:87-97 | Succeeds exactly when every synapse namespace is a sub-node with exactly one receive event port. It then gives one entry per synapse component, in input order, each being the namespace, "_" and the port symbol. Otherwise the error is that of the first component that fails: `KeyError` or `ValueError`. |
| `NestNineml.DefaultParameters` | src/nest/nineml.py:104 | The default-parameter map has exactly the component's parameters as keys, each mapped to 1.0. |
| `NestNineml.DefaultInitialValues` | src/nest/nineml.py:105 | The initial-value map has exactly the component's state variables as keys, each mapped to 0.0. |
| `NestNineml.SynapseTypes` | src/nest/nineml.py:106 | `synapse_types` is the synapse namespaces, one per component, in input order. |
| `NestNineml.StandardReceptorTypeAsWritten` | src/nest/nineml.py:107 | As written, `standard_receptor_type` compares a list with a tuple, so it is false for every list of synapse types. |
| `NestNineml.StandardReceptorType` | src/nest/nineml.py:107 | As intended, the flag holds exactly when the synapse types are "excitatory" then "inhibitory". |
| `NestNineml.StandardPairMisjudged` | src/nest/nineml.py:107 | For the conventional pair, the intended flag is true and the computed one is false. |
| `NestNineml.Recordable` | src/nest/nineml.py:115 | `recordable` is the analog port names in order, then "spikes", then "regime". |
| `NestNineml.WeightVariables` | src/nest/nineml.py:119-120 | Every weight variable comes from a component with that namespace: it is the namespace, "_" and that component's weight connector. |
| `NestNineml.WeightVariablesKeys` | src/nest/nineml.py:119-120 | The `weight_variables` keys are exactly the synapse types. |
| `NestNineml.WeightVariableOfLast` | src/nest/nineml.py:119-120 | A namespace's weight variable is the namespace, "_" and the weight connector of the last component with that namespace. So with distinct namespaces, each component gets its own. |
| `NestNineml.BuildCellType` | src/nest/nineml.py:66-138 | Succeeds exactly when every synapse component has one receive port and the regime map is non-empty. Port errors come first, from the first failing component, before any metadata or build. Then `NoRegime` is raised exactly when the ports are fine and there is no regime. On success the metadata has these defaults: parameters at 1.0 and state variables at 0.0. `synapse_types` are in order and `recordable` is as above. `standard_receptor_type` is the list-against-tuple comparison as written, so it is false. The `weight_variables` keys are the synapse types. `injectable` and `conductance_based` are true, and the model names are the class name. The build gets the class name, the synapse ports, the first regime, the same two default maps, and module "mymodule". |

## Findings

| source | as written | input that shows it | evidently intended | confidence | as-written member | corrected member |
|---|---|---|---|---|---|---|
| src/nest/nineml.py:107 | `standard_receptor_type` compares the list `synapse_types` with the tuple `('excitatory', 'inhibitory')`; a Python list never equals a tuple | synapse components with namespaces "excitatory", "inhibitory": the flag is False | the flag is True exactly when the synapse types are the conventional excitatory/inhibitory pair | high; not executed | `NestNineml.StandardReceptorTypeAsWritten`, shown by `NestNineml.StandardPairMisjudged` | `NestNineml.StandardReceptorType`; `NestNineml.BuildCellType` records the flag as written |

## Left out

- `load_mechanisms`: filesystem probing and foreign library loading.
- `finalize` and `register_gid`: they only make engine and parallel-context calls (`done` and `h.quit()`; `set_gid2node`, a temporary `NetCon` and `cell`) and have no logic of their own.
- `nativeRNG_pick`: NEURON's native random number generator.
- `Recorder.write` and the recorder's `filename`: file output through numpy and the compatible-output writer.
- The `gather` argument of `get`: it has no effect in this layer.
- Logging, and module-import construction of the `state` and `initializer` singletons. The model passes the state and the initializer explicitly.
- The `_State` engine handles: `spike_compress` and `CVode`.
- `_Initializer.__init__`'s hoc setup (simulator.py:97-99): the `initializer` object reference and the `FInitializeHandler`. Its effect is modelled by `State.Finitialize` calling `Initialize`.
- The engine's integration itself. `psolve` is reduced to where the clock ends, and `set_maxstep` is reduced to the value it answers.
- The 9ML model reduction (`reduce_to_single_component`, `backsub_all`), the component descriptions, NEST code generation and compilation, and `nest.Install`. The reduced component is an input, and the build is returned as a description of what is requested.
- `nineml_celltype_from_model` and `NineMLCellType`: the first only passes its arguments to the metaclass, and `NineMLCellType` is the base class and only defers to `NativeCellType`. The class object, its bases and the `combined_model` entry are not modelled.
- IEEE floating point: times, weights, delays and the 1e-9 tolerance are exact reals.
- `NeuronRecorder.Recorder.Record`: does not model Python's truthiness of the population object. A population is either attached or not.
- `NeuronRecorder.Recorder.Get`: requires equal-length time and voltage traces for "v". numpy's behaviour on traces of different lengths is not modelled.
- `NeuronConnect.ResolveConnection`: `isinstance(source, int)` is a flag on the input. Python 2 `long` and `bool` sources are not distinguished.
