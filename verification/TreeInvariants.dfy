/** Every accepted mutation keeps the tree and the name index. */
module TreeInvariants {
  import opened Types
  import opened Tree
  import opened Store

  /** Names are valid, and unique among the live children of a folder. */
  ghost predicate NamesInv(o: Objects) {
    && (forall i :: i in o && i != ROOT ==> ValidName(o[i].name))
    && (forall i, j :: Live(o, i) && Live(o, j) && i != j ==>
          !(o[i].parent == o[j].parent && o[i].name == o[j].name))
  }

  /** Up to its first meeting with `x`, a chain does not see the row of `x`. */
  lemma {:induction false} UpIgnoresOwnRow(o: Objects, x: Id, row: Row, d: Id, k: nat)
    requires x in o && Up(o[x := row], d, k) == Some(x)
    ensures Under(o, d, x)
    decreases k
  {
    if d == x {
      assert Up(o, d, 0) == Some(x);
    } else {
      UpIgnoresOwnRow(o, x, row, o[d].parent.value, k - 1);
      var m: nat :| Up(o, o[d].parent.value, m) == Some(x);
      assert Up(o, d, m + 1) == Some(x);
    }
  }

  /** The ancestor check gives the same answer before and after a mover's own
      write, so a check of the committed rows rules out the cycle. */
  lemma OwnWriteInvisible(o: Objects, x: Id, row: Row, d: Id)
    requires x in o
    ensures IsSelfOrDescendant(o[x := row], d, x) <==> IsSelfOrDescendant(o, d, x)
  {
    var o' := o[x := row];
    AncestorWalkExact(o, d, x);
    AncestorWalkExact(o', d, x);
    if Under(o', d, x) {
      var k: nat :| Up(o', d, k) == Some(x);
      UpIgnoresOwnRow(o, x, row, d, k);
    }
    if Under(o, d, x) {
      var k: nat :| Up(o, d, k) == Some(x);
      assert o'[x := o[x]] == o;
      UpIgnoresOwnRow(o', x, o[x], d, k);
    }
  }

  lemma PlacementKeepsTree(o: Objects, x: Id, row: Row)
    requires TreeInv(o) && x != ROOT && !row.deleted
    requires row.parent.Some? && LiveFolder(o, row.parent.value)
    requires !Under(o[x := row], row.parent.value, x)
    requires x in o ==> Live(o, x) && o[x].kind == row.kind
    ensures TreeInv(o[x := row])
  {
    var o' := o[x := row];
    PlacementKeepsRooted(o, x, row);
    assert Up(o', row.parent.value, 0) == Some(row.parent.value);
    forall i | i in o' && i != ROOT ensures ParentOk(o', i) {
      assert i != x ==> ParentOk(o, i);
    }
  }

  /** Rewriting a row in place, without moving, reviving or deleting it. */
  lemma RewriteKeepsTree(o: Objects, x: Id, row: Row)
    requires TreeInv(o) && x in o
    requires row.parent == o[x].parent && row.kind == o[x].kind && row.deleted == o[x].deleted
    requires x == ROOT ==> row.name == []
    ensures TreeInv(o[x := row])
  {
    var o' := o[x := row];
    SameParentsKeepRooted(o, o');
    forall i | i in o' && i != ROOT ensures ParentOk(o', i) {
      assert ParentOk(o, i);
    }
  }

  lemma ReplaceKeepsNames(o: Objects, x: Id, row: Row)
    requires NamesInv(o)
    requires x != ROOT ==> ValidName(row.name)
    requires row.deleted || NameFree(o, x, row.parent, row.name)
    ensures NamesInv(o[x := row])
  {
    var o' := o[x := row];
    forall i, j | Live(o', i) && Live(o', j) && i != j
      ensures !(o'[i].parent == o'[j].parent && o'[i].name == o'[j].name)
    {
      assert i != x && j != x ==> Live(o, i) && Live(o, j);
    }
  }

  lemma CreateKeepsTree(s: State, now: int, cmd: Cmd, es: seq<Entry>, d: Delta)
    requires TreeInv(s.objects) && NamesInv(s.objects)
    requires cmd.Create? && Accepts(s, now, cmd, es, d)
    ensures TreeInv(s.objects + d.rows) && NamesInv(s.objects + d.rows)
  {
    var o, row := s.objects, NewRow(cmd);
    assert o + d.rows == o[cmd.id := row];
    NothingUnderFile(o, cmd.id, row, cmd.parent);
    PlacementKeepsTree(o, cmd.id, row);
    ReplaceKeepsNames(o, cmd.id, row);
  }

  lemma PatchKeepsTree(s: State, now: int, cmd: Cmd, es: seq<Entry>, d: Delta)
    requires TreeInv(s.objects) && NamesInv(s.objects)
    requires cmd.Patch? && Accepts(s, now, cmd, es, d)
    ensures TreeInv(s.objects + d.rows) && NamesInv(s.objects + d.rows)
  {
    var o, x := s.objects, cmd.id;
    if PatchIsNoOp(o[x], cmd) {
      assert o + d.rows == o;
    } else {
      var t := PatchedRow(o[x], cmd);
      assert o + d.rows == o[x := t];
      ReplaceKeepsNames(o, x, t);
      if PatchMoves(o[x], cmd) {
        MoveAvoidsCycle(o, x, t);
        PlacementKeepsTree(o, x, t);
      } else {
        RewriteKeepsTree(o, x, t);
      }
    }
  }

  lemma MoveAvoidsCycle(o: Objects, x: Id, t: Row)
    requires TreeInv(o) && x in o && x != ROOT && t.kind == o[x].kind
    requires t.parent.Some? && LiveFolder(o, t.parent.value)
    requires t.kind == Folder ==> !IsSelfOrDescendant(o, t.parent.value, x)
    ensures !Under(o[x := t], t.parent.value, x)
  {
    var d := t.parent.value;
    if t.kind == Folder {
      OwnWriteInvisible(o, x, t, d);
      AncestorWalkExact(o[x := t], d, x);
    } else {
      NothingUnderFile(o, x, t, d);
    }
  }

  lemma ListedInStore(o: Objects, x: Id, es: seq<Entry>)
    requires IsListing(o, x, es)
    ensures forall k :: 0 <= k < |es| ==> Live(o, es[k].id)
  {
    forall k | 0 <= k < |es| ensures Live(o, es[k].id) {
      assert LivePath(o, es[k].id, x, es[k].depth);
    }
  }

  /** `o'` is `o` with exactly the listed rows tombstoned. */
  ghost predicate TombstonedIn(o: Objects, o': Objects, ids: set<Id>) {
    && o'.Keys == o.Keys
    && forall i :: i in o ==> o'[i] == (if i in ids then Tombstoned(o[i]) else o[i])
  }

  lemma DeleteTombstones(o: Objects, es: seq<Entry>)
    ensures TombstonedIn(o, o + DeletedRows(o, es), Ids(es))
  {
  }

  /** A live child of a listed object is listed. */
  lemma ChildrenListed(o: Objects, x: Id, es: seq<Entry>, i: Id)
    requires IsListing(o, x, es)
    requires Live(o, i) && o[i].parent.Some? && o[i].parent.value in Ids(es)
    ensures i in Ids(es)
  {
    var k :| 0 <= k < |es| && es[k].id == o[i].parent.value;
    ListingClosed(o, x, es, i, k);
    var m :| 0 <= m < |es| && es[m] == Entry(es[k].depth + 1, i);
    assert es[m].id == i;
  }

  /** Deleting a whole live subtree leaves no live object under a deleted one. */
  lemma DeleteKeepsTree(o: Objects, o': Objects, x: Id, es: seq<Entry>)
    requires TreeInv(o) && x != ROOT && IsListing(o, x, es)
    requires TombstonedIn(o, o', Ids(es))
    ensures TreeInv(o')
  {
    SameParentsKeepRooted(o, o');
    RootNotListed(o, x, es);
    forall i | i in o' && i != ROOT ensures ParentOk(o', i) {
      assert ParentOk(o, i);
      if Live(o, i) && o[i].parent.value in Ids(es) {
        ChildrenListed(o, x, es, i);
      }
    }
  }

  lemma DeleteKeepsNames(o: Objects, o': Objects, ids: set<Id>)
    requires NamesInv(o) && TombstonedIn(o, o', ids)
    ensures NamesInv(o')
  {
    forall i, j | Live(o', i) && Live(o', j) && i != j
      ensures !(o'[i].parent == o'[j].parent && o'[i].name == o'[j].name)
    {
      assert Live(o, i) && Live(o, j);
    }
  }

  lemma RootNotListed(o: Objects, x: Id, es: seq<Entry>)
    requires TreeInv(o) && x != ROOT && IsListing(o, x, es)
    ensures ROOT !in Ids(es)
  {
    forall k | 0 <= k < |es| ensures es[k].id != ROOT {
      assert LivePath(o, es[k].id, x, es[k].depth);
    }
  }

  lemma CommitKeepsTree(s: State, now: int, cmd: Cmd, es: seq<Entry>, d: Delta)
    requires TreeInv(s.objects) && NamesInv(s.objects)
    requires cmd.Commit? && Accepts(s, now, cmd, es, d)
    ensures TreeInv(s.objects + d.rows) && NamesInv(s.objects + d.rows)
  {
    var o, x := s.objects, cmd.id;
    if s.uploads[cmd.upload].state.Completed? {
      assert o + d.rows == o;
    } else {
      var t := CommittedRow(o[x], cmd);
      assert o + d.rows == o[x := t];
      RewriteKeepsTree(o, x, t);
      forall j | j in o && !o[j].deleted && j != x
        ensures !(o[j].parent == t.parent && o[j].name == t.name)
      {
        assert Live(o, j) && Live(o, x);
      }
      ReplaceKeepsNames(o, x, t);
    }
  }
}
