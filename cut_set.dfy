/** The cut set of src/reachability.js as a value: a set of cut markers that
    the user flips one marker at a time.  Node ids and any other markers are
    the same kind of key here; nothing inspects their shape. */
module CutSet {

  /** A cut marker, as stored in the cut set. */
  type Id = string

  /** The set after one toggle: `id` is removed when present and added when
      absent; every other marker keeps its membership. */
  function Toggle(s: set<Id>, id: Id): (r: set<Id>)
    ensures id in r <==> id !in s
    ensures forall x :: x != id ==> (x in r <==> x in s)
  {
    if id in s then s - {id} else s + {id}
  }

  /** Toggling the same marker twice gives back the set one started from. */
  lemma ToggleInvolutive(s: set<Id>, id: Id)
    ensures Toggle(Toggle(s, id), id) == s
  {
  }

  /** Toggles of two markers can be done in either order. */
  lemma ToggleCommutes(s: set<Id>, a: Id, b: Id)
    ensures Toggle(Toggle(s, a), b) == Toggle(Toggle(s, b), a)
  {
  }

  /** The set after toggling `ids` one after the other, starting from `s`. */
  function ApplyToggles(s: set<Id>, ids: seq<Id>): (r: set<Id>)
    ensures forall x :: x !in ids ==> (x in r <==> x in s)
    decreases ids
  {
    if ids == [] then s else ApplyToggles(Toggle(s, ids[0]), ids[1..])
  }

  predicate Odd(n: nat) {
    n % 2 == 1
  }

  /** A marker is in the set after a toggle history exactly when its
      membership at the start differs from the parity of the number of times
      it was toggled. */
  lemma {:induction false} ApplyTogglesParity(s: set<Id>, ids: seq<Id>, x: Id)
    ensures x in ApplyToggles(s, ids) <==> (x in s) != Odd(multiset(ids)[x])
    decreases ids
  {
    if ids != [] {
      var t := Toggle(s, ids[0]);
      ApplyTogglesParity(t, ids[1..], x);
      assert ids == [ids[0]] + ids[1..];
      assert multiset(ids) == multiset{ids[0]} + multiset(ids[1..]);
      assert x in t <==> (x in s) != (x == ids[0]);
    }
  }

  /** Only how often each marker was toggled matters, not the order. */
  lemma ApplyTogglesReorder(s: set<Id>, ids: seq<Id>, jds: seq<Id>)
    requires multiset(ids) == multiset(jds)
    ensures ApplyToggles(s, ids) == ApplyToggles(s, jds)
  {
    forall x ensures x in ApplyToggles(s, ids) <==> x in ApplyToggles(s, jds) {
      ApplyTogglesParity(s, ids, x);
      ApplyTogglesParity(s, jds, x);
    }
  }

  /** Repeating a whole toggle history a second time undoes it. */
  lemma ApplyTogglesTwice(s: set<Id>, ids: seq<Id>)
    ensures ApplyToggles(s, ids + ids) == s
  {
    forall x ensures x in ApplyToggles(s, ids + ids) <==> x in s {
      ApplyTogglesParity(s, ids + ids, x);
      assert multiset(ids + ids)[x] == 2 * multiset(ids)[x];
    }
  }

  /** Toggling `ids` and then `jds` is toggling their concatenation. */
  lemma {:induction false} ApplyTogglesAppend(s: set<Id>, ids: seq<Id>, jds: seq<Id>)
    ensures ApplyToggles(s, ids + jds) == ApplyToggles(ApplyToggles(s, ids), jds)
    decreases ids
  {
    if ids != [] {
      assert (ids + jds)[1..] == ids[1..] + jds;
      ApplyTogglesAppend(Toggle(s, ids[0]), ids[1..], jds);
    } else {
      assert ids + jds == jds;
    }
  }

  /** One more toggle at the end of a history is one more `Toggle`. */
  lemma ApplyTogglesSnoc(s: set<Id>, ids: seq<Id>, id: Id)
    ensures ApplyToggles(s, ids + [id]) == Toggle(ApplyToggles(s, ids), id)
  {
    ApplyTogglesAppend(s, ids, [id]);
    assert [id][1..] == [];
  }
}
