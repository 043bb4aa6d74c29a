/** The NEURON back end's Recorder: a growing set of recorded cell ids, the
    tracing calls it makes on each newly recorded cell, and the table it builds
    from the traces the engine collected. */
module NeuronRecorder {
  import opened Common

  /** The recorded variable. Only "spikes" and "v" switch on tracing and have a table;
      `OtherVariable` stands for any other name, and a recorder is never built with
      `OtherVariable("spikes")` or `OtherVariable("v")`. */
  datatype Variable = Spikes | V | OtherVariable(name: string)

  /** A tracing call made on a cell: `record(1)` for spike times, `record_v(1)` for the voltage. */
  datatype TraceCall = RecordSpikes(id: Id) | RecordV(id: Id)

  /** What the engine recorded on one cell. */
  datatype CellTrace = CellTrace(spikeTimes: seq<real>, vtrace: seq<real>, recordTimes: seq<real>)

  /** One row of the returned table: (time, id) for spikes, (t, v, id) for the voltage. */
  datatype Row = SpikeRow(time: real, id: Id) | VRow(time: real, v: real, id: Id)

  /** `get` on any other variable leaves its table unbound (an UnboundLocalError). */
  datatype GetError = NoTable(variable: string)

  /** Spike times up to this much past the current time are still returned. */
  const SpikeTolerance: real := 0.000000001

  function TraceCallFor(variable: Variable, id: Id): TraceCall
    requires !variable.OtherVariable?
  {
    if variable.Spikes? then RecordSpikes(id) else RecordV(id)
  }

  function TracedIds(calls: seq<TraceCall>): set<Id>
  {
    set c <- calls :: c.id
  }

  /** No cell is traced twice. */
  ghost predicate TracedOnce(calls: seq<TraceCall>)
  {
    forall i, j :: 0 <= i < j < |calls| ==> calls[i].id != calls[j].id
  }

  /** The spike rows of one cell: its spike times no later than `now` plus the
      tolerance, in the order the engine recorded them. */
  function SpikeRows(times: seq<real>, id: Id, now: real): (rows: seq<Row>)
    ensures |rows| <= |times|
    ensures forall r <- rows :: r.SpikeRow? && r.id == id && r.time <= now + SpikeTolerance && r.time in times
  {
    if times == [] then []
    else
      (if times[0] <= now + SpikeTolerance then [SpikeRow(times[0], id)] else [])
      + SpikeRows(times[1..], id, now)
  }

  /** Every spike time within the bound is returned. */
  lemma {:induction false} SpikeRowsComplete(times: seq<real>, id: Id, now: real, t: real)
    requires t in times && t <= now + SpikeTolerance
    ensures SpikeRow(t, id) in SpikeRows(times, id, now)
  {
    if times[0] != t {
      SpikeRowsComplete(times[1..], id, now, t);
    }
  }

  /** Filtering keeps the engine's order: the rows of a concatenation of spike
      times are the rows of its parts, one after the other. */
  lemma {:induction false} SpikeRowsSplit(a: seq<real>, b: seq<real>, id: Id, now: real)
    ensures SpikeRows(a + b, id, now) == SpikeRows(a, id, now) + SpikeRows(b, id, now)
  {
    if a == [] {
      assert a + b == b;
    } else {
      var head := if a[0] <= now + SpikeTolerance then [SpikeRow(a[0], id)] else [];
      assert (a + b)[0] == a[0] && (a + b)[1..] == a[1..] + b;
      assert SpikeRows(a + b, id, now) == head + SpikeRows(a[1..] + b, id, now);
      SpikeRowsSplit(a[1..], b, id, now);
    }
  }

  /** Filtering keeps multiplicity: a spike time within the bound gives as many rows
      as the engine recorded it, a later one none. */
  lemma {:induction false} SpikeRowsCount(times: seq<real>, id: Id, now: real, t: real)
    ensures multiset(SpikeRows(times, id, now))[SpikeRow(t, id)] ==
      if t <= now + SpikeTolerance then multiset(times)[t] else 0
  {
    if times != [] {
      SpikeRowsCount(times[1..], id, now, t);
      assert times == [times[0]] + times[1..];
    }
  }

  /** The voltage rows of one cell: sample k is (times[k], vs[k], id). */
  function VRows(times: seq<real>, vs: seq<real>, id: Id): (rows: seq<Row>)
    requires |times| == |vs|
    ensures |rows| == |times|
    ensures forall k :: 0 <= k < |rows| ==> rows[k] == VRow(times[k], vs[k], id)
  {
    if times == [] then []
    else [VRow(times[0], vs[0], id)] + VRows(times[1..], vs[1..], id)
  }

  /** The engine left matching time and voltage traces on a cell. */
  predicate Aligned(c: CellTrace)
  {
    |c.recordTimes| == |c.vtrace|
  }

  function CellRows(variable: Variable, c: CellTrace, id: Id, now: real): seq<Row>
    requires variable.Spikes? || (variable.V? && Aligned(c))
  {
    if variable.Spikes? then SpikeRows(c.spikeTimes, id, now)
    else VRows(c.recordTimes, c.vtrace, id)
  }

  /** What `get` may be asked for: every cell in `order` has a trace, aligned for "v". */
  ghost predicate Tabulable(variable: Variable, order: seq<Id>, cells: map<Id, CellTrace>)
  {
    (variable.Spikes? || variable.V?) &&
    forall id <- order :: id in cells && (variable.V? ==> Aligned(cells[id]))
  }

  /** The rows of every cell in `order`, concatenated in that order. */
  function Table(variable: Variable, order: seq<Id>, cells: map<Id, CellTrace>, now: real): seq<Row>
    requires Tabulable(variable, order, cells)
  {
    if order == [] then []
    else
      var last := order[|order| - 1];
      Table(variable, order[..|order| - 1], cells, now) + CellRows(variable, cells[last], last, now)
  }

  /** Each row of the table names, in its id column, the cell whose trace produced it,
      and is one of the rows that trace yields. */
  lemma {:induction false} TableProvenance(variable: Variable, order: seq<Id>, cells: map<Id, CellTrace>, now: real)
    requires Tabulable(variable, order, cells)
    ensures forall r <- Table(variable, order, cells, now) ::
      r.id in order && r in CellRows(variable, cells[r.id], r.id, now)
  {
    if order != [] {
      var init, last := order[..|order| - 1], order[|order| - 1];
      TableProvenance(variable, init, cells, now);
      var rows := CellRows(variable, cells[last], last, now);
      forall r <- rows ensures r.id == last {
        if variable.V? {
          var k :| 0 <= k < |rows| && rows[k] == r;
        }
      }
    }
  }

  /** Every row of a listed cell appears in the table. */
  lemma {:induction false} TableComplete(variable: Variable, order: seq<Id>, cells: map<Id, CellTrace>, now: real,
                                         id: Id, r: Row)
    requires Tabulable(variable, order, cells) && id in order
    requires r in CellRows(variable, cells[id], id, now)
    ensures r in Table(variable, order, cells, now)
  {
    var init, last := order[..|order| - 1], order[|order| - 1];
    if id != last {
      assert id in init;
      TableComplete(variable, init, cells, now, id, r);
    }
  }

  /** For "spikes" every row is (time, id) with time at most `now` plus the tolerance;
      for "v" every row is (t, v, id). */
  lemma {:induction false} TableShape(variable: Variable, order: seq<Id>, cells: map<Id, CellTrace>, now: real)
    requires Tabulable(variable, order, cells)
    ensures variable.Spikes? ==> forall r <- Table(variable, order, cells, now) ::
      r.id in order && r.SpikeRow? && r.time <= now + SpikeTolerance && r.time in cells[r.id].spikeTimes
    ensures variable.V? ==> forall r <- Table(variable, order, cells, now) :: r.VRow?
  {
    TableProvenance(variable, order, cells, now);
    var table := Table(variable, order, cells, now);
    forall r <- table | variable.V? ensures r.VRow? {
      var rows := CellRows(variable, cells[r.id], r.id, now);
      var k :| 0 <= k < |rows| && rows[k] == r;
    }
  }

  class Recorder {
    const variable: Variable
    /** The population the recorder belongs to, if any. */
    const population: Option<Population>
    var recorded: set<Id>
    /** The tracing calls made on cells, in the order they were made. */
    var traceCalls: seq<TraceCall>

    /** Every recorded cell has had exactly one tracing call of the recorder's kind;
        a recorder of any other variable makes none. */
    ghost predicate Valid()
      reads this
    {
      TracedOnce(traceCalls) &&
      if variable.OtherVariable? then traceCalls == []
      else TracedIds(traceCalls) == recorded &&
           forall c <- traceCalls :: c == TraceCallFor(variable, c.id)
    }

    constructor (variable: Variable, population: Option<Population>)
      requires variable.OtherVariable? ==> variable.name != "spikes" && variable.name != "v"
      ensures Valid()
      ensures this.variable == variable && this.population == population
      ensures recorded == {} && traceCalls == []
    {
      this.variable := variable;
      this.population := population;
      recorded := {};
      traceCalls := [];
    }

    /** The ids `record` keeps: those local to the population, or all of them. */
    predicate Keeps(id: Id)
    {
      population.None? || id in population.value.localIds
    }

    method Record(ids: seq<Id>)
      requires Valid()
      modifies this
      ensures Valid()
      ensures forall id :: id in recorded <==> id in old(recorded) || (id in ids && Keeps(id))
      ensures |traceCalls| >= |old(traceCalls)| && traceCalls[..|old(traceCalls)|] == old(traceCalls)
      ensures forall id :: id in TracedIds(traceCalls[|old(traceCalls)|..]) <==>
        !variable.OtherVariable? && id in ids && Keeps(id) && id !in old(recorded)
    {
      var accepted := set id <- ids | Keeps(id);
      var newIds := accepted - recorded;
      recorded := recorded + accepted;
      ghost var before := traceCalls;
      if !variable.OtherVariable? {
        var pending := newIds;
        while pending != {}
          invariant pending <= newIds
          invariant recorded == old(recorded) + accepted
          invariant |traceCalls| >= |before| && traceCalls[..|before|] == before
          invariant TracedIds(traceCalls[|before|..]) == newIds - pending
          invariant TracedIds(traceCalls) == recorded - pending
          invariant TracedOnce(traceCalls)
          invariant forall c <- traceCalls :: c == TraceCallFor(variable, c.id)
          decreases pending
        {
          NonEmptyHasMember(pending);
          var id :| id in pending;
          ghost var prev := traceCalls;
          traceCalls := traceCalls + [TraceCallFor(variable, id)];
          assert traceCalls[|before|..] == prev[|before|..] + [TraceCallFor(variable, id)];
          assert TracedIds(traceCalls[|before|..]) == TracedIds(prev[|before|..]) + {id};
          assert TracedIds(traceCalls) == TracedIds(prev) + {id};
          pending := pending - {id};
        }
      }
    }

    /** The recorded table: for every recorded cell, in some order, its rows. */
    method Get(cells: map<Id, CellTrace>, now: real) returns (r: Result<seq<Row>, GetError>, ghost order: seq<Id>)
      requires forall id <- recorded :: id in cells
      requires variable.V? ==> forall id <- recorded :: Aligned(cells[id])
      ensures r.Err? <==> variable.OtherVariable?
      ensures r.Ok? ==>
        (forall i, j :: 0 <= i < j < |order| ==> order[i] != order[j]) &&
        (forall id <- order :: id in recorded) && (forall id <- recorded :: id in order) &&
        Tabulable(variable, order, cells) && r.value == Table(variable, order, cells, now)
      ensures r.Ok? && variable.Spikes? ==> forall row <- r.value ::
        row.SpikeRow? && row.id in recorded && row.time <= now + SpikeTolerance
      ensures r.Ok? && variable.V? ==> forall row <- r.value :: row.VRow? && row.id in recorded
    {
      order := [];
      if variable.OtherVariable? {
        return Err(NoTable(variable.name)), order;
      }
      var data: seq<Row> := [];
      var remaining := recorded;
      while remaining != {}
        invariant remaining <= recorded
        invariant forall id <- order :: id in recorded && id !in remaining
        invariant forall id <- recorded :: id in remaining || id in order
        invariant forall i, j :: 0 <= i < j < |order| ==> order[i] != order[j]
        invariant forall id <- order :: id in cells && (variable.V? ==> Aligned(cells[id]))
        invariant data == Table(variable, order, cells, now)
        decreases remaining
      {
        NonEmptyHasMember(remaining);
        var id :| id in remaining;
        ghost var prev := order;
        data := data + CellRows(variable, cells[id], id, now);
        order := order + [id];
        assert order[..|order| - 1] == prev;
        remaining := remaining - {id};
      }
      TableProvenance(variable, order, cells, now);
      TableShape(variable, order, cells, now);
      r := Ok(data);
    }
  }
}
