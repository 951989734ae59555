# Cut store of bundle-bobble's reachability module

bundle-bobble is a browser tool for exploring a bundler's dependency graph.
The user "cuts" nodes or edges, and the tool is meant to work out which
modules can still be reached. The module `src/reachability.js` holds two
pieces of module-level state: the installed `graph` and `cutSet`, the set of
cut markers. Four operations use them:

- `setGraph(g)` installs a graph and recalculates.
- `toggleCut(id)` adds `id` to the cut set when it is absent, removes it when
  present, and recalculates.
- `isCut(id)` asks whether `id` is in the cut set.
- `recalculate()` returns at once when no graph is installed. In this version
  of the module it does nothing in either case.

The model has two modules.

- `CutSet` (`cut_set.dfy`) describes the cut set as a value. `Toggle` is one
  flip. `ApplyToggles` folds a whole history of flips over a starting set. The
  lemmas prove what follows from this:
  - toggling twice is the identity;
  - toggles of different markers commute;
  - membership after a history depends only on how often each marker was
    toggled (its parity);
  - so the order of the toggles does not matter, and repeating a history
    undoes it.
- `Reachability` (`reachability.dfy`) is the module state, written as the
  class `Store<G>`. The graph type `G` is a type parameter, because the module
  never looks inside a graph. A ghost field `history` records every marker
  passed to `ToggleCut`. The object invariant `Valid()` says that the cut set
  is always `ApplyToggles({}, history)`. From this, `IsCut` proves that a
  marker is cut exactly when it has been toggled an odd number of times.

## Model

| member | source | states |
|---|---|---|
| `CutSet.Toggle` | src/reachability.js:12-13 | the toggled marker's membership is flipped; every other marker keeps its membership |
| `CutSet.ToggleInvolutive` | src/reachability.js:12-13 | toggling the same marker twice restores the original set |
| `CutSet.ToggleCommutes` | src/reachability.js:11-15 | toggles of two markers give the same set in either order |
| `CutSet.ApplyToggles` | src/reachability.js:11-15 | after a sequence of toggles, a marker that was never toggled keeps its membership |
| `CutSet.ApplyTogglesParity` | src/reachability.js:11-15 | after a sequence of toggles, a marker is present iff its starting membership differs from the parity of its toggle count |
| `CutSet.ApplyTogglesReorder` | src/reachability.js:11-15 | two toggle histories with the same multiset of markers give the same set |
| `CutSet.ApplyTogglesTwice` | src/reachability.js:11-15 | repeating a toggle history a second time restores the starting set |
| `CutSet.ApplyTogglesAppend` | src/reachability.js:11-15 | toggling one history and then another is the same as toggling their concatenation |
| `CutSet.ApplyTogglesSnoc` | src/reachability.js:11-15 | one more `toggleCut` call at the end of a history is one more single toggle |
| `Reachability.Store.constructor` | src/reachability.js:3-4 | at module load no graph is installed, the cut set is empty and nothing has been toggled |
| `Reachability.Store.SetGraph` | src/reachability.js:6-9 | the installed graph becomes `g`; the cut set and the toggle history are unchanged; the invariant is kept |
| `Reachability.Store.ToggleCut` | src/reachability.js:11-15 | the id's membership flips, every other marker keeps its membership, and the graph is unchanged; the call is appended to the history and the invariant is kept |
| `Reachability.Store.IsCut` | src/reachability.js:17-19 | the answer is membership in the cut set, which holds iff the id has been toggled an odd number of times; no state changes |
| `Reachability.Store.Recalculate` | src/reachability.js:21-23 | returns at once when no graph is installed; the graph, the cut set and the history are unchanged in every case |

## Left out

- The mobx wrappers `observable.set` and `action` (src/reachability.js:1, 4, 11) are left out. The cut set is a plain set. Change notification to observers is library behaviour outside this model.
- Ids are modelled as strings. A JavaScript `Set` accepts any value as a key, and numbers and strings are then different keys. No id format is built in this module.
- Reachability.Store.SetGraph: the model always stores an installed graph (`Some(g)`). Passing `null` or `undefined` to `setGraph` would make `recalculate` behave as if no graph were installed. This case is not modelled.
- The module builds no graph, traverses nothing and counts no multiplicities, because `recalculate` has an empty body. So the model has none of these either.
- src/index.js (the React UI, the upload form and its IndexedDB write), src/data.js (asynchronous loading and JSON parsing), src/logging.js (log output to the DOM) and src/queuedRenders.js (a render scheduler driven by timers) are UI and I/O. They are not part of this model.
