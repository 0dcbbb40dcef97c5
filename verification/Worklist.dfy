/** The recursive delete's worklist: it terminates on the tree invariant and
    lists each live descendant exactly once, children before parents. */
module Worklist {
  import opened Types
  import opened Tree

  // ---------------------------------------------------------------------
  // Sorting the collected entries
  // ---------------------------------------------------------------------

  ghost predicate Sorted(es: seq<Entry>) {
    forall j, k :: 0 <= j < k < |es| ==> Before(es[j], es[k])
  }

  function InsertEntry(es: seq<Entry>, e: Entry): seq<Entry> {
    if es == [] then [e]
    else if Before(e, es[0]) then [e] + es
    else [es[0]] + InsertEntry(es[1..], e)
  }

  function SortEntries(es: seq<Entry>): seq<Entry> {
    if es == [] then [] else InsertEntry(SortEntries(es[..|es| - 1]), es[|es| - 1])
  }

  lemma {:induction false} InsertMembers(es: seq<Entry>, e: Entry)
    ensures forall x :: x in InsertEntry(es, e) <==> x == e || x in es
    decreases |es|
  {
    if es != [] && !Before(e, es[0]) {
      InsertMembers(es[1..], e);
      assert es == [es[0]] + es[1..];
    }
  }

  lemma {:induction false} InsertSorts(es: seq<Entry>, e: Entry)
    requires Sorted(es) && e !in es
    ensures Sorted(InsertEntry(es, e))
    decreases |es|
  {
    if es != [] {
      if Before(e, es[0]) {
        forall k | 0 <= k < |es| ensures Before(e, es[k]) {
          assert k > 0 ==> Before(es[0], es[k]);
        }
      } else {
        InsertSorts(es[1..], e);
        InsertMembers(es[1..], e);
        var rest := InsertEntry(es[1..], e);
        forall k | 0 <= k < |rest| ensures Before(es[0], rest[k]) {
          assert rest[k] == e || rest[k] in es[1..];
        }
      }
    }
  }

  ghost predicate Distinct(es: seq<Entry>) {
    forall j, k :: 0 <= j < k < |es| ==> es[j] != es[k]
  }

  lemma {:induction false} SortCorrect(es: seq<Entry>)
    requires Distinct(es)
    ensures Sorted(SortEntries(es))
    ensures forall x :: x in SortEntries(es) <==> x in es
    decreases |es|
  {
    if es != [] {
      var n := |es| - 1;
      SortCorrect(es[..n]);
      InsertMembers(SortEntries(es[..n]), es[n]);
      InsertSorts(SortEntries(es[..n]), es[n]);
      assert es == es[..n] + [es[n]];
    }
  }

  // ---------------------------------------------------------------------
  // The worklist invariant
  // ---------------------------------------------------------------------

  ghost predicate ChildOf(o: Objects, i: Id, e: Entry) {
    Live(o, i) && o[i].parent == Some(e.id)
  }

  /** An entry below the root hangs under one that has been expanded. */
  ghost predicate Hung(o: Objects, seen: set<Entry>, open: set<Entry>, e: Entry) {
    && LivePath(o, e.id, e.id, 0)
    && (e.depth > 0 ==> o[e.id].parent.Some? && Entry(e.depth - 1, o[e.id].parent.value) in seen - open)
  }

  ghost predicate ChildrenSeen(o: Objects, seen: set<Entry>, e: Entry) {
    forall i :: ChildOf(o, i, e) ==> Entry(e.depth + 1, i) in seen
  }

  ghost predicate Collected(o: Objects, root: Id, seen: set<Entry>, open: set<Entry>) {
    && open <= seen
    && Entry(0, root) in seen
    && (forall e :: e in seen ==> LivePath(o, e.id, root, e.depth) && Hung(o, seen, open, e))
  }

  /** `seen` holds genuine members, each below an expanded one, and every child of
      an expanded member, one that is no longer `open`, has been seen. */
  ghost predicate WorkInv(o: Objects, root: Id, seen: set<Entry>, open: set<Entry>) {
    && Collected(o, root, seen, open)
    && (forall e :: e in seen - open ==> ChildrenSeen(o, seen, e))
  }

  /** While `cur` is being expanded, its children are seen exactly as they leave `todo`. */
  ghost predicate ExpandInv(o: Objects, root: Id, seen: set<Entry>, open: set<Entry>, cur: Entry, todo: set<Id>) {
    && Collected(o, root, seen, open)
    && cur in seen && cur !in open
    && (forall e :: e in seen - open && e != cur ==> ChildrenSeen(o, seen, e))
    && (forall i :: ChildOf(o, i, cur) ==> (Entry(cur.depth + 1, i) in seen <==> i !in todo))
  }

  lemma StartExpanding(o: Objects, root: Id, seen: set<Entry>, open: set<Entry>, cur: Entry)
    requires WorkInv(o, root, seen, open) && cur in open
    ensures ExpandInv(o, root, seen, open - {cur}, cur, o.Keys)
  {
    forall i | ChildOf(o, i, cur) ensures Entry(cur.depth + 1, i) !in seen {
      var e := Entry(cur.depth + 1, i);
      assert e in seen ==> Hung(o, seen, open, e);
    }
    forall e | e in seen ensures Hung(o, seen, open - {cur}, e) {
      assert Hung(o, seen, open, e);
    }
  }

  lemma ExpandChild(o: Objects, root: Id, seen: set<Entry>, open: set<Entry>, cur: Entry, todo: set<Id>, i: Id)
    requires ExpandInv(o, root, seen, open, cur, todo) && i in todo && ChildOf(o, i, cur)
    ensures var e := Entry(cur.depth + 1, i);
            e !in seen && ExpandInv(o, root, seen + {e}, open + {e}, cur, todo - {i})
  {
    var e := Entry(cur.depth + 1, i);
    forall f | f in seen + {e} ensures Hung(o, seen + {e}, open + {e}, f) && LivePath(o, f.id, root, f.depth) {
      if f != e { assert Hung(o, seen, open, f); }
    }
    forall f | f in seen - open && f != cur ensures ChildrenSeen(o, seen + {e}, f) {
      assert ChildrenSeen(o, seen, f);
    }
  }

  lemma SkipOther(o: Objects, root: Id, seen: set<Entry>, open: set<Entry>, cur: Entry, todo: set<Id>, i: Id)
    requires ExpandInv(o, root, seen, open, cur, todo) && i in todo && !ChildOf(o, i, cur)
    ensures ExpandInv(o, root, seen, open, cur, todo - {i})
  {
  }

  lemma DoneExpanding(o: Objects, root: Id, seen: set<Entry>, open: set<Entry>, cur: Entry)
    requires ExpandInv(o, root, seen, open, cur, {})
    ensures WorkInv(o, root, seen, open)
  {
    assert ChildrenSeen(o, seen, cur);
  }

  lemma {:induction false} AllSeen(o: Objects, root: Id, seen: set<Entry>, i: Id, n: nat)
    requires WorkInv(o, root, seen, {}) && LivePath(o, i, root, n)
    ensures Entry(n, i) in seen
    decreases n
  {
    if n > 0 {
      var p := o[i].parent.value;
      AllSeen(o, root, seen, p, n - 1);
      assert ChildrenSeen(o, seen, Entry(n - 1, p)) && ChildOf(o, i, Entry(n - 1, p));
    }
  }

  /** Every seen entry has its own object, so at most one entry per row is collected. */
  lemma SeenIsSmall(o: Objects, root: Id, seen: set<Entry>)
    requires Rooted(o) && forall e :: e in seen ==> LivePath(o, e.id, root, e.depth)
    ensures |seen| <= |o|
  {
    var ids := set e | e in seen :: e.id;
    forall e, f | e in seen && f in seen && e.id == f.id ensures e == f {
      LivePathUnique(o, e.id, root, e.depth, f.depth);
    }
    InjectiveImage(seen);
    Subset(ids, o.Keys);
  }

  lemma {:induction false} InjectiveImage(seen: set<Entry>)
    requires forall e, f :: e in seen && f in seen && e.id == f.id ==> e == f
    ensures |set e | e in seen :: e.id| == |seen|
    decreases |seen|
  {
    if seen != {} {
      var x :| x in seen;
      InjectiveImage(seen - {x});
      assert (set e | e in seen :: e.id) == (set e | e in seen - {x} :: e.id) + {x.id};
    }
  }

  lemma {:induction false} Subset(a: set<Id>, b: set<Id>)
    requires a <= b
    ensures |a| <= |b|
    decreases |a|
  {
    if a != {} {
      var x :| x in a;
      Subset(a - {x}, b - {x});
    }
  }

  ghost function Elements(es: seq<Entry>): set<Entry> {
    set e | e in es
  }

  lemma AddElement(es: seq<Entry>, e: Entry)
    requires e !in es && Distinct(es)
    ensures Elements(es + [e]) == Elements(es) + {e} && Distinct(es + [e])
  {
  }

  lemma DropLast(es: seq<Entry>)
    requires es != [] && Distinct(es)
    ensures Elements(es[..|es| - 1]) == Elements(es) - {es[|es| - 1]} && Distinct(es[..|es| - 1])
  {
  }

  lemma {:induction false} ElementsSize(es: seq<Entry>)
    requires Distinct(es)
    ensures |Elements(es)| == |es|
    decreases |es|
  {
    if es != [] {
      DropLast(es);
      ElementsSize(es[..|es| - 1]);
      assert Elements(es) == Elements(es[..|es| - 1]) + {es[|es| - 1]};
    }
  }

  // ---------------------------------------------------------------------
  // The loops
  // ---------------------------------------------------------------------

  /** Pushes the live children of `cur`, one pass over all rows. */
  method Expand(o: Objects, root: Id, result: seq<Entry>, frontier: seq<Entry>, cur: Entry)
    returns (result': seq<Entry>, frontier': seq<Entry>)
    requires Distinct(result) && Distinct(frontier)
    requires ExpandInv(o, root, Elements(result), Elements(frontier), cur, o.Keys)
    ensures Distinct(result') && Distinct(frontier')
    ensures WorkInv(o, root, Elements(result'), Elements(frontier'))
    ensures |result'| - |result| == |frontier'| - |frontier| >= 0
  {
    result', frontier' := result, frontier;
    var todo := o.Keys;
    while todo != {}
      invariant Distinct(result') && Distinct(frontier')
      invariant ExpandInv(o, root, Elements(result'), Elements(frontier'), cur, todo)
      invariant todo <= o.Keys
      invariant |result'| - |result| == |frontier'| - |frontier| >= 0
      decreases |todo|
    {
      var i :| i in todo;
      if !o[i].deleted && o[i].parent == Some(cur.id) {
        var entry := Entry(cur.depth + 1, i);
        ExpandChild(o, root, Elements(result'), Elements(frontier'), cur, todo, i);
        AddElement(result', entry);
        AddElement(frontier', entry);
        result' := result' + [entry];
        frontier' := frontier' + [entry];
      } else {
        SkipOther(o, root, Elements(result'), Elements(frontier'), cur, todo, i);
      }
      todo := todo - {i};
    }
    DoneExpanding(o, root, Elements(result'), Elements(frontier'), cur);
  }

  /** The live subtree of `root`, each member once, ordered children first. */
  method Descendants(o: Objects, root: Id) returns (es: seq<Entry>)
    requires Rooted(o) && Live(o, root)
    ensures IsListing(o, root, es)
  {
    var result := [Entry(0, root)];
    var frontier := [Entry(0, root)];
    assert Elements(result) == {Entry(0, root)};
    while frontier != []
      invariant Distinct(result) && Distinct(frontier)
      invariant WorkInv(o, root, Elements(result), Elements(frontier))
      invariant |result| <= |o|
      decreases 2 * (|o| - |result|) + |frontier|
    {
      var cur := frontier[|frontier| - 1];
      StartExpanding(o, root, Elements(result), Elements(frontier), cur);
      DropLast(frontier);
      result, frontier := Expand(o, root, result, frontier[..|frontier| - 1], cur);
      SeenIsSmall(o, root, Elements(result));
      ElementsSize(result);
    }
    es := SortEntries(result);
    SortCorrect(result);
    assert Elements(frontier) == {};
    forall i, n: nat | LivePath(o, i, root, n) ensures Entry(n, i) in es {
      AllSeen(o, root, Elements(result), i, n);
    }
    forall k | 0 <= k < |es| ensures LivePath(o, es[k].id, root, es[k].depth) {
      assert es[k] in Elements(result);
    }
  }
}
