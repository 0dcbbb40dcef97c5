/** The folder tree as a parent map: guarded walks, rootedness and subtrees. */
module Tree {
  import opened Types

  // ---------------------------------------------------------------------
  // Upward walks
  // ---------------------------------------------------------------------

  /** The `k`-th ancestor of `i`, following parent pointers without any guard. */
  ghost function Up(o: Objects, i: Id, k: nat): Option<Id>
    decreases k
  {
    if i !in o then None
    else if k == 0 then Some(i)
    else if o[i].parent.None? then None
    else Up(o, o[i].parent.value, k - 1)
  }

  /** `subject` lies on the unguarded parent chain of `candidate`. */
  ghost predicate Under(o: Objects, candidate: Id, subject: Id) {
    exists k: nat :: Up(o, candidate, k) == Some(subject)
  }

  /** The recursive ancestor query: it stops at a missing row and at a repeated id. */
  function Ancestors(o: Objects, i: Id, visited: set<Id>): set<Id>
    decreases o.Keys - visited
  {
    if i !in o || i in visited then {}
    else if o[i].parent.None? then {i}
    else {i} + Ancestors(o, o[i].parent.value, visited + {i})
  }

  predicate IsSelfOrDescendant(o: Objects, candidate: Id, subject: Id) {
    subject in Ancestors(o, candidate, {})
  }

  lemma {:induction false} AncestorsAreUp(o: Objects, i: Id, visited: set<Id>, a: Id)
    requires a in Ancestors(o, i, visited)
    ensures Under(o, i, a)
    decreases o.Keys - visited
  {
    if a == i {
      assert Up(o, i, 0) == Some(a);
    } else {
      var p := o[i].parent.value;
      AncestorsAreUp(o, p, visited + {i}, a);
      var k: nat :| Up(o, p, k) == Some(a);
      assert Up(o, i, k + 1) == Some(a);
    }
  }

  /** The guarded walk is closed under parents, up to the ids it was told to skip. */
  lemma {:induction false} AncestorsClosed(o: Objects, i: Id, visited: set<Id>, a: Id)
    requires a in Ancestors(o, i, visited)
    requires a in o && o[a].parent.Some? && o[a].parent.value in o
    ensures o[a].parent.value in Ancestors(o, i, visited) + visited
    decreases o.Keys - visited
  {
    if a != i {
      AncestorsClosed(o, o[i].parent.value, visited + {i}, a);
    }
  }

  lemma {:induction false} UpStaysInAncestors(o: Objects, i: Id, j: Id, k: nat)
    requires j in Ancestors(o, i, {})
    ensures Up(o, j, k).Some? ==> Up(o, j, k).value in Ancestors(o, i, {})
    decreases k
  {
    if k > 0 && j in o && o[j].parent.Some? && o[j].parent.value in o {
      AncestorsClosed(o, i, {}, j);
      UpStaysInAncestors(o, i, o[j].parent.value, k - 1);
    }
  }

  /** On every parent map, cyclic or not, the guarded walk answers exactly
      whether `subject` is reached from `candidate` by parent steps. */
  lemma AncestorWalkExact(o: Objects, candidate: Id, subject: Id)
    ensures IsSelfOrDescendant(o, candidate, subject) <==> Under(o, candidate, subject)
  {
    if IsSelfOrDescendant(o, candidate, subject) {
      AncestorsAreUp(o, candidate, {}, subject);
    }
    if Under(o, candidate, subject) {
      var k: nat :| Up(o, candidate, k) == Some(subject);
      UpStaysInAncestors(o, candidate, candidate, k);
    }
  }

  // ---------------------------------------------------------------------
  // Rootedness
  // ---------------------------------------------------------------------

  /** The parent chain of `i` ends at the root after exactly `n` steps. */
  ghost predicate AtDepth(o: Objects, i: Id, n: nat)
    decreases n
  {
    && i in o
    && if n == 0 then i == ROOT
       else i != ROOT && o[i].parent.Some? && AtDepth(o, o[i].parent.value, n - 1)
  }

  ghost predicate ReachesRoot(o: Objects, i: Id) {
    exists n: nat :: AtDepth(o, i, n)
  }

  /** Every chain ends at the root, so the parent map has no cycle. */
  ghost predicate Rooted(o: Objects) {
    && ROOT in o
    && o[ROOT].parent == None
    && forall i :: i in o ==> ReachesRoot(o, i)
  }

  lemma {:induction false} DepthUnique(o: Objects, i: Id, n: nat, m: nat)
    requires AtDepth(o, i, n) && AtDepth(o, i, m)
    ensures n == m
    decreases n
  {
    if n > 0 && m > 0 {
      DepthUnique(o, o[i].parent.value, n - 1, m - 1);
    }
  }

  lemma {:induction false} UpLowersDepth(o: Objects, i: Id, n: nat, k: nat)
    requires AtDepth(o, i, n) && Up(o, i, k).Some?
    requires ROOT in o && o[ROOT].parent == None
    ensures k <= n && AtDepth(o, Up(o, i, k).value, n - k)
    decreases k
  {
    if k > 0 {
      UpLowersDepth(o, o[i].parent.value, n - 1, k - 1);
    }
  }

  /** In a rooted map no object is its own proper ancestor. */
  lemma RootedIsAcyclic(o: Objects, i: Id, k: nat)
    requires Rooted(o) && i in o && k > 0
    ensures Up(o, i, k) != Some(i)
  {
    var n: nat :| AtDepth(o, i, n);
    if Up(o, i, k) == Some(i) {
      UpLowersDepth(o, i, n, k);
      DepthUnique(o, i, n, n - k);
    }
  }

  /** Chains that avoid `x` are unaffected by rewriting the row of `x`. */
  lemma {:induction false} DepthAvoiding(o: Objects, x: Id, row: Row, i: Id, n: nat)
    requires AtDepth(o, i, n)
    requires !Under(o[x := row], i, x)
    ensures AtDepth(o[x := row], i, n)
    decreases n
  {
    var o' := o[x := row];
    assert Up(o', i, 0) == Some(i);
    if n > 0 {
      var p := o[i].parent.value;
      forall k: nat ensures Up(o', p, k) != Some(x) {
        assert Up(o', i, k + 1) == Up(o', p, k);
      }
      DepthAvoiding(o, x, row, p, n - 1);
    }
  }

  lemma {:induction false} DepthAfterMove(o: Objects, x: Id, row: Row, i: Id, n: nat)
    requires AtDepth(o, i, n)
    requires x != ROOT && ReachesRoot(o[x := row], x)
    ensures ReachesRoot(o[x := row], i)
    decreases n
  {
    var o' := o[x := row];
    if i != x {
      if n == 0 {
        assert AtDepth(o', i, 0);
      } else {
        DepthAfterMove(o, x, row, o[i].parent.value, n - 1);
        var m: nat :| AtDepth(o', o[i].parent.value, m);
        assert AtDepth(o', i, m + 1);
      }
    }
  }

  /** Re-hanging `x`, new or existing, under a destination whose chain in the
      resulting map avoids `x` keeps every chain ending at the root. */
  lemma PlacementKeepsRooted(o: Objects, x: Id, row: Row)
    requires Rooted(o) && x != ROOT
    requires row.parent.Some? && row.parent.value in o
    requires !Under(o[x := row], row.parent.value, x)
    ensures Rooted(o[x := row])
  {
    var o' := o[x := row];
    var d := row.parent.value;
    assert ReachesRoot(o, d);
    var m: nat :| AtDepth(o, d, m);
    DepthAvoiding(o, x, row, d, m);
    assert AtDepth(o', x, m + 1);
    forall i | i in o' ensures ReachesRoot(o', i) {
      if i != x {
        assert ReachesRoot(o, i);
        var n: nat :| AtDepth(o, i, n);
        DepthAfterMove(o, x, row, i, n);
      }
    }
  }

  /** Rewriting rows without touching parent pointers changes no depth. */
  lemma {:induction false} DepthIgnoresRest(o: Objects, o': Objects, i: Id, n: nat)
    requires AtDepth(o, i, n)
    requires forall j :: j in o ==> j in o' && o'[j].parent == o[j].parent
    ensures AtDepth(o', i, n)
    decreases n
  {
    if n > 0 {
      DepthIgnoresRest(o, o', o[i].parent.value, n - 1);
    }
  }

  lemma SameParentsKeepRooted(o: Objects, o': Objects)
    requires Rooted(o) && o'.Keys == o.Keys
    requires forall j :: j in o ==> o'[j].parent == o[j].parent
    ensures Rooted(o')
  {
    forall i | i in o' ensures ReachesRoot(o', i) {
      assert ReachesRoot(o, i);
      var n: nat :| AtDepth(o, i, n);
      DepthIgnoresRest(o, o', i, n);
    }
  }

  // ---------------------------------------------------------------------
  // The tree invariant
  // ---------------------------------------------------------------------

  ghost predicate ParentOk(o: Objects, i: Id) {
    && i in o
    && o[i].parent.Some?
    && o[i].parent.value in o
    && o[o[i].parent.value].kind == Folder
    && (!o[i].deleted ==> !o[o[i].parent.value].deleted)
  }

  /** Every chain ends at the root, every parent is a folder, and no live
      object hangs under a deleted one. */
  ghost predicate TreeInv(o: Objects) {
    && Rooted(o)
    && LiveFolder(o, ROOT)
    && o[ROOT].name == []
    && forall i :: i in o && i != ROOT ==> ParentOk(o, i)
  }

  /** Nothing lies beneath a file, so moving one can close no cycle. */
  lemma NothingUnderFile(o: Objects, x: Id, row: Row, d: Id)
    requires TreeInv(o) && x != ROOT
    requires x in o ==> o[x].kind == File
    requires d in o && o[d].kind == Folder
    ensures !Under(o[x := row], d, x)
  {
    var o' := o[x := row];
    forall k: nat ensures Up(o', d, k) != Some(x) {
      FileNotAbove(o, x, row, d, k);
    }
  }

  lemma {:induction false} FileNotAbove(o: Objects, x: Id, row: Row, d: Id, k: nat)
    requires TreeInv(o) && x != ROOT
    requires x in o ==> o[x].kind == File
    requires d in o && o[d].kind == Folder
    ensures Up(o[x := row], d, k) != Some(x)
    decreases k
  {
    if k > 0 && o[d].parent.Some? {
      assert d != ROOT;
      assert ParentOk(o, d);
      FileNotAbove(o, x, row, o[d].parent.value, k - 1);
    }
  }

  // ---------------------------------------------------------------------
  // Live subtrees
  // ---------------------------------------------------------------------

  /** `i` is a live object exactly `n` live steps beneath the live object `x`. */
  ghost predicate LivePath(o: Objects, i: Id, x: Id, n: nat)
    decreases n
  {
    && Live(o, i)
    && if n == 0 then i == x
       else o[i].parent.Some? && LivePath(o, o[i].parent.value, x, n - 1)
  }

  ghost predicate Beneath(o: Objects, i: Id, x: Id) {
    exists n: nat :: LivePath(o, i, x, n)
  }

  /** One row of the descendant query: an id with its depth below the subject. */
  datatype Entry = Entry(depth: nat, id: Id)

  /** `ORDER BY depth DESC, id ASC`. */
  predicate Before(a: Entry, b: Entry) {
    a.depth > b.depth || (a.depth == b.depth && a.id < b.id)
  }

  /** `es` is the ordered result of the descendant query on `x`. */
  ghost predicate IsListing(o: Objects, x: Id, es: seq<Entry>) {
    && (forall k :: 0 <= k < |es| ==> LivePath(o, es[k].id, x, es[k].depth))
    && (forall i, n: nat :: LivePath(o, i, x, n) ==> Entry(n, i) in es)
    && (forall j, k :: 0 <= j < k < |es| ==> Before(es[j], es[k]))
  }

  lemma {:induction false} LivePathDepth(o: Objects, i: Id, x: Id, n: nat, b: nat)
    requires LivePath(o, i, x, n) && AtDepth(o, x, b)
    requires ROOT in o && o[ROOT].parent == None
    ensures AtDepth(o, i, b + n)
    decreases n
  {
    if n > 0 {
      LivePathDepth(o, o[i].parent.value, x, n - 1, b);
    }
  }

  lemma LivePathUnique(o: Objects, i: Id, x: Id, n: nat, m: nat)
    requires Rooted(o)
    requires LivePath(o, i, x, n) && LivePath(o, i, x, m)
    ensures n == m
  {
    LivePathLive(o, i, x, n);
    assert ReachesRoot(o, x);
    var b: nat :| AtDepth(o, x, b);
    LivePathDepth(o, i, x, n, b);
    LivePathDepth(o, i, x, m, b);
    DepthUnique(o, i, b + n, b + m);
  }

  lemma {:induction false} LivePathLive(o: Objects, i: Id, x: Id, n: nat)
    requires LivePath(o, i, x, n)
    ensures Live(o, x)
    decreases n
  {
    if n > 0 {
      LivePathLive(o, o[i].parent.value, x, n - 1);
    }
  }

  /** In a listing of a rooted map every object appears once. */
  lemma ListingHasNoRepeats(o: Objects, x: Id, es: seq<Entry>)
    requires Rooted(o) && IsListing(o, x, es)
    ensures forall j, k :: 0 <= j < k < |es| ==> es[j].id != es[k].id
  {
    forall j, k | 0 <= j < k < |es| ensures es[j].id != es[k].id {
      assert Before(es[j], es[k]);
      if es[j].id == es[k].id {
        LivePathUnique(o, es[j].id, x, es[j].depth, es[k].depth);
      }
    }
  }

  /** Every child is listed before its parent. */
  lemma ListingChildFirst(o: Objects, x: Id, es: seq<Entry>, c: int, p: int)
    requires Rooted(o) && IsListing(o, x, es)
    requires 0 <= c < |es| && 0 <= p < |es|
    requires o[es[c].id].parent == Some(es[p].id)
    ensures c < p
  {
    var child := es[c];
    var parent := es[p];
    assert p < c ==> Before(parent, child);
    assert LivePath(o, child.id, x, child.depth);
    assert LivePath(o, parent.id, x, parent.depth);
    assert LivePath(o, child.id, x, parent.depth + 1);
    LivePathUnique(o, child.id, x, child.depth, parent.depth + 1);
  }

  /** Deepest first, and in id order at one depth. */
  lemma ListingOrder(o: Objects, x: Id, es: seq<Entry>, j: int, k: int)
    requires IsListing(o, x, es) && 0 <= j < k < |es|
    ensures es[j].depth > es[k].depth || (es[j].depth == es[k].depth && es[j].id < es[k].id)
  {
  }

  /** A subtree is closed: a live child of a member is a member. */
  lemma ListingClosed(o: Objects, x: Id, es: seq<Entry>, i: Id, k: int)
    requires IsListing(o, x, es) && 0 <= k < |es|
    requires Live(o, i) && o[i].parent == Some(es[k].id)
    ensures Entry(es[k].depth + 1, i) in es
  {
    assert LivePath(o, i, x, es[k].depth + 1);
  }

  ghost predicate NoLiveChildren(o: Objects, x: Id) {
    forall i :: Live(o, i) ==> o[i].parent != Some(x)
  }

  /** A live object without live children is its own whole subtree. */
  lemma {:induction false} LeafPath(o: Objects, x: Id, i: Id, n: nat)
    requires NoLiveChildren(o, x) && LivePath(o, i, x, n)
    ensures n == 0
    decreases n
  {
    if n > 0 {
      LeafPath(o, x, o[i].parent.value, n - 1);
    }
  }

  lemma LeafListing(o: Objects, x: Id)
    requires Live(o, x) && NoLiveChildren(o, x)
    ensures IsListing(o, x, [Entry(0, x)])
  {
    forall i, n: nat | LivePath(o, i, x, n) ensures Entry(n, i) in [Entry(0, x)] {
      LeafPath(o, x, i, n);
    }
  }
}
