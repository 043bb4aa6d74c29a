/** The NEST back end's 9ML cell-type builder: the metadata it derives from a
    reduced 9ML component and its synapse components before it hands the component
    to the NEST code generator. */
module NestNineml {
  import opened Common

  /** The parts of the reduced (flattened) component the builder reads: the names of
      its parameters, state variables and analog ports, and its regime names in the
      order the regime map yields them. */
  datatype ReducedComponent = ReducedComponent(
    parameters: seq<string>,
    stateVariables: seq<string>,
    analogPorts: seq<string>,
    regimeNames: seq<string>)

  /** A synapse component: its namespace in the 9ML model and its weight connector. */
  datatype SynapseComponent = SynapseComponent(namespace: string, weightConnector: string)

  /** The 9ML model's sub-nodes by namespace, each given by the symbols of its
      receive event ports. */
  type Subnodes = map<string, seq<string>>

  datatype BuildError =
    | UnknownNamespace(namespace: string)                  // KeyError on the sub-node lookup
    | AmbiguousRecvPort(namespace: string, ports: nat)     // ValueError: not exactly one receive port
    | NoRegime                                             // IndexError on an empty regime map

  /** The arguments the builder hands to the NEST file builder, and the module it installs. */
  datatype NestBuild = NestBuild(
    classname: string,
    synapsePorts: seq<string>,
    initialRegime: string,
    initialValues: map<string, real>,
    defaultValues: map<string, real>,
    installedModule: string)

  /** The class attributes of the generated cell type. */
  datatype CellTypeMetadata = CellTypeMetadata(
    defaultParameters: map<string, real>,
    defaultInitialValues: map<string, real>,
    synapseTypes: seq<string>,
    standardReceptorType: bool,
    injectable: bool,
    conductanceBased: bool,
    modelName: string,
    nestModel: string,
    recordable: seq<string>,
    weightVariables: map<string, string>,
    build: NestBuild)

  /** The NEST module every build installs, whatever the cell type is called. */
  const InstalledModule: string := "mymodule"

  function Prefixed(namespace: string, symbol: string): string
  {
    namespace + "_" + symbol
  }

  /** A synapse component the builder accepts: its namespace is a sub-node of the
      model with exactly one receive event port. */
  predicate HasOneRecvPort(subnodes: Subnodes, syn: SynapseComponent)
  {
    syn.namespace in subnodes && |subnodes[syn.namespace]| == 1
  }

  /** Component `i` is the first one without exactly one receive port. */
  predicate FirstBadPort(subnodes: Subnodes, syns: seq<SynapseComponent>, i: int)
  {
    0 <= i < |syns| && !HasOneRecvPort(subnodes, syns[i]) &&
    forall j :: 0 <= j < i ==> HasOneRecvPort(subnodes, syns[j])
  }

  function PortError(subnodes: Subnodes, syn: SynapseComponent): BuildError
    requires !HasOneRecvPort(subnodes, syn)
  {
    if syn.namespace !in subnodes then UnknownNamespace(syn.namespace)
    else AmbiguousRecvPort(syn.namespace, |subnodes[syn.namespace]|)
  }

  /** One port name per synapse component, in input order: the namespace, "_", and the
      symbol of its one receive event port. The first component without exactly one
      receive port stops the loop with its error. */
  method SynapsePorts(subnodes: Subnodes, syns: seq<SynapseComponent>) returns (r: Result<seq<string>, BuildError>)
    ensures r.Ok? <==> forall i :: 0 <= i < |syns| ==> HasOneRecvPort(subnodes, syns[i])
    ensures r.Ok? ==> (|r.value| == |syns| &&
      forall i :: 0 <= i < |syns| ==> r.value[i] == Prefixed(syns[i].namespace, subnodes[syns[i].namespace][0]))
    ensures r.Err? ==>
      exists i :: FirstBadPort(subnodes, syns, i) && r.error == PortError(subnodes, syns[i])
  {
    var ports: seq<string> := [];
    for i := 0 to |syns|
      invariant |ports| == i
      invariant forall j :: 0 <= j < i ==> HasOneRecvPort(subnodes, syns[j])
      invariant forall j :: 0 <= j < i ==> ports[j] == Prefixed(syns[j].namespace, subnodes[syns[j].namespace][0])
    {
      var syn := syns[i];
      if syn.namespace !in subnodes {
        return Err(UnknownNamespace(syn.namespace));
      }
      var recv := subnodes[syn.namespace];
      if |recv| != 1 {
        return Err(AmbiguousRecvPort(syn.namespace, |recv|));
      }
      ports := ports + [Prefixed(syn.namespace, recv[0])];
    }
    r := Ok(ports);
  }

  /** Every parameter defaults to 1.0. */
  function DefaultParameters(parameters: seq<string>): (m: map<string, real>)
    ensures m.Keys == set p <- parameters
    ensures forall p <- m.Keys :: m[p] == 1.0
  {
    map p <- parameters :: 1.0
  }

  /** Every state variable starts at 0.0. */
  function DefaultInitialValues(stateVariables: seq<string>): (m: map<string, real>)
    ensures m.Keys == set v <- stateVariables
    ensures forall v <- m.Keys :: m[v] == 0.0
  {
    map v <- stateVariables :: 0.0
  }

  /** The synapse namespaces, in input order. */
  function SynapseTypes(syns: seq<SynapseComponent>): (types: seq<string>)
    ensures |types| == |syns|
    ensures forall i :: 0 <= i < |syns| ==> types[i] == syns[i].namespace
  {
    seq(|syns|, i requires 0 <= i < |syns| => syns[i].namespace)
  }

  /** The analog port names in order, then "spikes", then "regime". */
  function Recordable(analogPorts: seq<string>): (names: seq<string>)
    ensures |names| == |analogPorts| + 2
    ensures names[..|analogPorts|] == analogPorts
    ensures names[|analogPorts|] == "spikes" && names[|analogPorts| + 1] == "regime"
  {
    analogPorts + ["spikes", "regime"]
  }

  /** The weight variable of each synapse namespace, built entry by entry so that a
      later component with the same namespace overrides an earlier one. */
  function WeightVariables(syns: seq<SynapseComponent>): (m: map<string, string>)
    ensures forall ns <- m.Keys :: exists syn <- syns ::
      syn.namespace == ns && m[ns] == Prefixed(ns, syn.weightConnector)
  {
    if syns == [] then map[]
    else
      var last := syns[|syns| - 1];
      WeightVariables(syns[..|syns| - 1])[last.namespace := Prefixed(last.namespace, last.weightConnector)]
  }

  /** The weight-variable map has exactly the synapse types as keys. */
  lemma {:induction false} WeightVariablesKeys(syns: seq<SynapseComponent>)
    ensures WeightVariables(syns).Keys == set t <- SynapseTypes(syns)
  {
    if syns != [] {
      var init := syns[..|syns| - 1];
      WeightVariablesKeys(init);
      var types, initTypes := SynapseTypes(syns), SynapseTypes(init);
      assert types == initTypes + [syns[|syns| - 1].namespace];
    }
  }

  /** The weight variable of a namespace is that namespace, "_", and the weight
      connector of the last component with that namespace. */
  lemma {:induction false} WeightVariableOfLast(syns: seq<SynapseComponent>, i: nat)
    requires i < |syns|
    requires forall j :: i < j < |syns| ==> syns[j].namespace != syns[i].namespace
    ensures syns[i].namespace in WeightVariables(syns)
    ensures WeightVariables(syns)[syns[i].namespace] == Prefixed(syns[i].namespace, syns[i].weightConnector)
  {
    if i < |syns| - 1 {
      WeightVariableOfLast(syns[..|syns| - 1], i);
    }
  }

  /** A Python value of the kind `standard_receptor_type` compares. */
  datatype PyValue = PyList(items: seq<string>) | PyTuple(elements: seq<string>)

  /** Python equality: a list never equals a tuple, whatever their items. */
  predicate PyEquals(a: PyValue, b: PyValue)
  {
    match (a, b)
    case (PyList(x), PyList(y)) => x == y
    case (PyTuple(x), PyTuple(y)) => x == y
    case _ => false
  }

  const StandardPair: seq<string> := ["excitatory", "inhibitory"]

  /** `standard_receptor_type` as the builder computes it: the synapse-type list
      compared with a tuple, which is false for every list of synapse types. */
  function StandardReceptorTypeAsWritten(synapseTypes: seq<string>): (flag: bool)
    ensures !flag
  {
    PyEquals(PyList(synapseTypes), PyTuple(StandardPair))
  }

  /** The flag as intended: the synapse types are exactly "excitatory", "inhibitory". */
  function StandardReceptorType(synapseTypes: seq<string>): (standard: bool)
    ensures standard <==> |synapseTypes| == 2 && synapseTypes[0] == "excitatory" && synapseTypes[1] == "inhibitory"
  {
    PyEquals(PyList(synapseTypes), PyList(StandardPair))
  }

  /** The conventional pair is where the two disagree. */
  lemma StandardPairMisjudged()
    ensures StandardReceptorType(StandardPair) && !StandardReceptorTypeAsWritten(StandardPair)
  {
  }

  /** The metadata of a cell type built from these inputs: the default maps, the
      synapse types in order, the receptor flag as the builder computes it, recordables, weight variables
      and the build request with the synapse ports and the first regime. */
  ghost predicate DescribesCellType(m: CellTypeMetadata, name: string, subnodes: Subnodes,
                                    reduced: ReducedComponent, syns: seq<SynapseComponent>)
  {
    (forall i :: 0 <= i < |syns| ==> HasOneRecvPort(subnodes, syns[i])) &&
    reduced.regimeNames != [] &&
    m.defaultParameters.Keys == (set p <- reduced.parameters) &&
    (forall p <- m.defaultParameters.Keys :: m.defaultParameters[p] == 1.0) &&
    m.defaultInitialValues.Keys == (set v <- reduced.stateVariables) &&
    (forall v <- m.defaultInitialValues.Keys :: m.defaultInitialValues[v] == 0.0) &&
    m.synapseTypes == SynapseTypes(syns) &&
    m.standardReceptorType == StandardReceptorTypeAsWritten(m.synapseTypes) &&
    m.injectable && m.conductanceBased && m.modelName == name && m.nestModel == name &&
    m.recordable == Recordable(reduced.analogPorts) &&
    m.weightVariables.Keys == (set t <- m.synapseTypes) &&
    m.weightVariables == WeightVariables(syns) &&
    m.build.classname == name &&
    |m.build.synapsePorts| == |syns| &&
    (forall i :: 0 <= i < |syns| ==>
      m.build.synapsePorts[i] == Prefixed(syns[i].namespace, subnodes[syns[i].namespace][0])) &&
    m.build.initialRegime == reduced.regimeNames[0] &&
    m.build.initialValues == m.defaultInitialValues &&
    m.build.defaultValues == m.defaultParameters &&
    m.build.installedModule == InstalledModule
  }

  /** Build the cell type's metadata: check the synapse ports first, then derive the
      defaults, synapse types, recordables and weight variables, take the first regime
      as the initial one, and describe the NEST build. */
  method BuildCellType(name: string, subnodes: Subnodes, reduced: ReducedComponent, syns: seq<SynapseComponent>)
    returns (r: Result<CellTypeMetadata, BuildError>)
    ensures r.Ok? <==> (forall i :: 0 <= i < |syns| ==> HasOneRecvPort(subnodes, syns[i])) && reduced.regimeNames != []
    ensures r == Err(NoRegime) <==>
      (forall i :: 0 <= i < |syns| ==> HasOneRecvPort(subnodes, syns[i])) && reduced.regimeNames == []
    ensures r.Err? && r.error != NoRegime ==>
      exists i :: FirstBadPort(subnodes, syns, i) && r.error == PortError(subnodes, syns[i])
    ensures r.Ok? ==> DescribesCellType(r.value, name, subnodes, reduced, syns)
    ensures r.Ok? ==> !r.value.standardReceptorType
  {
    var ports := SynapsePorts(subnodes, syns);
    if ports.Err? {
      return Err(ports.error);
    }
    var defaultParameters := DefaultParameters(reduced.parameters);
    var defaultInitialValues := DefaultInitialValues(reduced.stateVariables);
    var synapseTypes := SynapseTypes(syns);
    var standard := StandardReceptorTypeAsWritten(synapseTypes);
    var recordable := Recordable(reduced.analogPorts);
    var weightVariables := WeightVariables(syns);
    WeightVariablesKeys(syns);
    if reduced.regimeNames == [] {
      return Err(NoRegime);
    }
    var initialRegime := reduced.regimeNames[0];
    var build := NestBuild(name, ports.value, initialRegime, defaultInitialValues, defaultParameters, InstalledModule);
    r := Ok(CellTypeMetadata(defaultParameters, defaultInitialValues, synapseTypes, standard, true, true,
                             name, name, recordable, weightVariables, build));
  }
}
