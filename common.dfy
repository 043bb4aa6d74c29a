/** Values shared by the NEURON and NEST back-end models: cell identifiers,
    populations, and the wrappers that stand for the source's exceptions. */
module Common {

  datatype Option<+T> = None | Some(value: T)

  /** A call that either returns a value or raises the error it carries. */
  datatype Result<+T, +E> = Ok(value: T) | Err(error: E)

  /** A cell identifier. PyNN's ID is an int subclass and doubles as the cell's gid. */
  type Id = int

  /** What the back end reads of a population: the cells that iterating it yields,
      the ids local to this process (`_local_ids`), and whether its cell-type class
      name contains "Source" (a spike source, which has no membrane state). */
  datatype Population = Population(cells: seq<Id>, localIds: set<Id>, isSpikeSource: bool)

  /** A set with no member is empty (set extensionality, stated once). */
  lemma NoMemberEmpty(s: set<Id>)
    requires forall x :: x !in s
    ensures s == {}
  {
    assert forall x :: x in s <==> x in {};
  }

  /** A non-empty set has a member, so a loop over a set can pick one. */
  lemma NonEmptyHasMember(s: set<Id>)
    requires s != {}
    ensures exists x :: x in s
  {
    if forall x :: x !in s {
      NoMemberEmpty(s);
    }
  }
}
