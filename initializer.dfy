/** The NEURON back end's deferred initializer: two registration lists, and the
    membrane initialisation it runs on them when the engine initialises. */
module NeuronInitializer {
  import opened Common

  /** A single cell offered for registration; `hasMembInit` says whether its
      underlying cell object has a `memb_init` method. */
  datatype CellRef = CellRef(id: Id, hasMembInit: bool)

  /** An item passed to `register`: a whole population, or anything else (a cell id). */
  datatype Item = PopulationItem(population: Population) | CellItem(cell: CellRef)

  /** The cells of `items` that registration keeps, in order. */
  function AcceptedCells(items: seq<Item>): seq<CellRef>
  {
    if items == [] then []
    else
      var last := items[|items| - 1];
      AcceptedCells(items[..|items| - 1]) +
      (if last.CellItem? && last.cell.hasMembInit then [last.cell] else [])
  }

  /** The populations of `items` that registration keeps, in order. */
  function AcceptedPopulations(items: seq<Item>): seq<Population>
  {
    if items == [] then []
    else
      var last := items[|items| - 1];
      AcceptedPopulations(items[..|items| - 1]) +
      (if last.PopulationItem? && !last.population.isSpikeSource then [last.population] else [])
  }

  /** A cell is kept exactly when it was offered and has `memb_init`. */
  lemma {:induction false} AcceptedCellsExactly(items: seq<Item>, c: CellRef)
    ensures c in AcceptedCells(items) <==> CellItem(c) in items && c.hasMembInit
  {
    if items != [] {
      var init := items[..|items| - 1];
      AcceptedCellsExactly(init, c);
      assert items == init + [items[|items| - 1]];
    }
  }

  /** A population is kept exactly when it was offered and is not a spike source. */
  lemma {:induction false} AcceptedPopulationsExactly(items: seq<Item>, p: Population)
    ensures p in AcceptedPopulations(items) <==> PopulationItem(p) in items && !p.isSpikeSource
  {
    if items != [] {
      var init := items[..|items| - 1];
      AcceptedPopulationsExactly(init, p);
      assert items == init + [items[|items| - 1]];
    }
  }

  /** Registering in two calls keeps the same items, in the same order, as one call. */
  lemma {:induction false} AcceptedSplit(a: seq<Item>, b: seq<Item>)
    ensures AcceptedCells(a + b) == AcceptedCells(a) + AcceptedCells(b)
    ensures AcceptedPopulations(a + b) == AcceptedPopulations(a) + AcceptedPopulations(b)
  {
    if b == [] {
      assert a + b == a;
    } else {
      var init := b[..|b| - 1];
      AcceptedSplit(a, init);
      assert (a + b)[..|a + b| - 1] == a + init;
    }
  }

  function CellIds(cells: seq<CellRef>): seq<Id>
  {
    if cells == [] then [] else CellIds(cells[..|cells| - 1]) + [cells[|cells| - 1].id]
  }

  /** The members of every population, population by population. */
  function Members(populations: seq<Population>): seq<Id>
  {
    if populations == [] then []
    else Members(populations[..|populations| - 1]) + populations[|populations| - 1].cells
  }

  /** The `memb_init` calls of one initialisation: every listed cell in order,
      then every member of every listed population in order. */
  function InitOrder(cells: seq<CellRef>, populations: seq<Population>): seq<Id>
  {
    CellIds(cells) + Members(populations)
  }

  /** Cells come first: call k, for k below the number of listed cells, is on cell k. */
  lemma {:induction false} CellsFirst(cells: seq<CellRef>, populations: seq<Population>, k: nat)
    requires k < |cells|
    ensures |InitOrder(cells, populations)| >= |cells|
    ensures InitOrder(cells, populations)[k] == cells[k].id
  {
    CellIdsAt(cells, k);
  }

  lemma {:induction false} CellIdsAt(cells: seq<CellRef>, k: nat)
    requires k < |cells|
    ensures |CellIds(cells)| == |cells| && CellIds(cells)[k] == cells[k].id
  {
    if k < |cells| - 1 {
      CellIdsAt(cells[..|cells| - 1], k);
    } else if |cells| > 1 {
      CellIdsAt(cells[..|cells| - 1], 0);
    }
  }

  /** An id is initialised as a listed cell exactly when some listed cell has it. */
  lemma {:induction false} CellIdsExactly(cells: seq<CellRef>, id: Id)
    ensures id in CellIds(cells) <==> exists c <- cells :: c.id == id
  {
    if cells != [] {
      var init := cells[..|cells| - 1];
      CellIdsExactly(init, id);
      assert cells == init + [cells[|cells| - 1]];
    }
  }

  /** What the registration filter buys: every `memb_init` call of an initialisation
      goes to a listed cell that has `memb_init`, or to a member of a listed
      population that is not a spike source. */
  lemma InitCallsSafe(cells: seq<CellRef>, populations: seq<Population>, id: Id)
    requires forall c <- cells :: c.hasMembInit
    requires forall p <- populations :: !p.isSpikeSource
    requires id in InitOrder(cells, populations)
    ensures (exists c <- cells :: c.id == id && c.hasMembInit) ||
            (exists p <- populations :: id in p.cells && !p.isSpikeSource)
  {
    CellIdsExactly(cells, id);
    MembersExactly(populations, id);
  }

  /** The members of a list of populations are those of its two parts, in order. */
  lemma {:induction false} MembersSplit(a: seq<Population>, b: seq<Population>)
    ensures Members(a + b) == Members(a) + Members(b)
  {
    if b == [] {
      assert a + b == a;
    } else {
      var init := b[..|b| - 1];
      MembersSplit(a, init);
      assert (a + b)[..|a + b| - 1] == a + init;
    }
  }

  /** Every member of every listed population is initialised, and nothing else
      after the cells. */
  lemma {:induction false} MembersExactly(populations: seq<Population>, id: Id)
    ensures id in Members(populations) <==> exists p <- populations :: id in p.cells
  {
    if populations != [] {
      var init := populations[..|populations| - 1];
      MembersExactly(init, id);
      assert populations == init + [populations[|populations| - 1]];
    }
  }

  class Initializer {
    var cellList: seq<CellRef>
    var populationList: seq<Population>
    /** The `memb_init` calls made, in order. */
    var membInitCalls: seq<Id>

    /** Only cells with `memb_init` and populations that are not spike sources are listed. */
    ghost predicate Valid()
      reads this
    {
      (forall c <- cellList :: c.hasMembInit) &&
      (forall p <- populationList :: !p.isSpikeSource)
    }

    constructor ()
      ensures Valid()
      ensures cellList == [] && populationList == [] && membInitCalls == []
    {
      cellList := [];
      populationList := [];
      membInitCalls := [];
    }

    method Register(items: seq<Item>)
      requires Valid()
      modifies this
      ensures Valid()
      ensures cellList == old(cellList) + AcceptedCells(items)
      ensures populationList == old(populationList) + AcceptedPopulations(items)
      ensures membInitCalls == old(membInitCalls)
    {
      for i := 0 to |items|
        invariant Valid()
        invariant cellList == old(cellList) + AcceptedCells(items[..i])
        invariant populationList == old(populationList) + AcceptedPopulations(items[..i])
        invariant membInitCalls == old(membInitCalls)
      {
        var item := items[i];
        assert items[..i + 1][..i] == items[..i];
        if item.PopulationItem? {
          if !item.population.isSpikeSource {
            populationList := populationList + [item.population];
          }
        } else {
          if item.cell.hasMembInit {
            cellList := cellList + [item.cell];
          }
        }
      }
      assert items[..|items|] == items;
    }

    method Initialize()
      requires Valid()
      modifies this`membInitCalls
      ensures membInitCalls == old(membInitCalls) + InitOrder(cellList, populationList)
    {
      for i := 0 to |cellList|
        invariant membInitCalls == old(membInitCalls) + CellIds(cellList[..i])
      {
        assert cellList[..i + 1][..i] == cellList[..i];
        membInitCalls := membInitCalls + [cellList[i].id];
      }
      assert cellList[..|cellList|] == cellList;
      ghost var afterCells := membInitCalls;
      for i := 0 to |populationList|
        invariant membInitCalls == afterCells + Members(populationList[..i])
      {
        var cells := populationList[i].cells;
        ghost var start := membInitCalls;
        for j := 0 to |cells|
          invariant membInitCalls == start + cells[..j]
        {
          membInitCalls := membInitCalls + [cells[j]];
          assert cells[..j + 1] == cells[..j] + [cells[j]];
        }
        assert cells[..|cells|] == cells;
        assert populationList[..i + 1][..i] == populationList[..i];
      }
      assert populationList[..|populationList|] == populationList;
    }
  }
}
