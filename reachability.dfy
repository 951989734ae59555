/** The module state of src/reachability.js: the installed graph and the set
    of cut markers, with the operations that change or query them. */
module Reachability {
  import opened CutSet

  datatype Option<T> = None | Some(value: T)

  /** One instance stands for the module's two top-level variables.  The graph
      type `G` is left abstract: nothing in the module looks inside a graph. */
  class Store<G> {
    /** The installed graph; `None` until `SetGraph` is first called. */
    var graph: Option<G>
    /** The markers currently cut. */
    var cutSet: set<Id>
    /** Every marker passed to `ToggleCut` so far, oldest first. */
    ghost var history: seq<Id>

    /** The cut set is always what the toggles so far make of the empty set. */
    ghost predicate Valid()
      reads this
    {
      cutSet == ApplyToggles({}, history)
    }

    /** Module load: no graph, nothing cut. */
    constructor ()
      ensures Valid()
      ensures graph == None && cutSet == {} && history == []
    {
      graph := None;
      cutSet := {};
      history := [];
    }

    /** Installs `g` as the current graph, then recalculates; the cut set is
        kept. */
    method SetGraph(g: G)
      requires Valid()
      modifies this`graph
      ensures Valid()
      ensures graph == Some(g)
      ensures cutSet == old(cutSet) && history == old(history)
    {
      graph := Some(g);
      Recalculate();
    }

    /** Flips whether `id` is cut, then recalculates. */
    method ToggleCut(id: Id)
      requires Valid()
      modifies this`cutSet, this`history
      ensures Valid()
      ensures cutSet == Toggle(old(cutSet), id)
      ensures id in cutSet <==> id !in old(cutSet)
      ensures forall x :: x != id ==> (x in cutSet <==> x in old(cutSet))
      ensures graph == old(graph) && history == old(history) + [id]
    {
      if id in cutSet {
        cutSet := cutSet - {id};
      } else {
        cutSet := cutSet + {id};
      }
      ApplyTogglesSnoc({}, history, id);
      history := history + [id];
      Recalculate();
    }

    /** Whether `id` is cut: it is in the set, which is the case exactly when
        it has been toggled an odd number of times. */
    method IsCut(id: Id) returns (r: bool)
      requires Valid()
      ensures r <==> id in cutSet
      ensures r <==> Odd(multiset(history)[id])
    {
      r := id in cutSet;
      ApplyTogglesParity({}, history, id);
    }

    /** Returns at once when no graph is installed, and changes nothing
        otherwise either. */
    method Recalculate()
      ensures graph == old(graph) && cutSet == old(cutSet) && history == old(history)
    {
      if graph.None? {
        return;
      }
    }
  }
}
