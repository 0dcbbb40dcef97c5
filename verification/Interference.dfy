/** What a commit of one transaction may do to the rows another one relies on. */
module Interference {
  import opened Types
  import opened Tree
  import opened Store
  import opened Protocol

  /** Each written row is exclusively locked; it keeps its kind and was live; if
      it stays live, a new parent is share-locked and a new key is key-locked. */
  ghost predicate RowGuarded(o: Objects, i: Id, row: Row, x: set<Res>, sh: set<Id>) {
    && ObjRow(i) in x
    && (i in o ==> !o[i].deleted && row.kind == o[i].kind)
    && (!row.deleted && (i !in o || row.parent != o[i].parent) ==>
          row.parent.Some? && row.parent.value in sh)
    && (!row.deleted && (i !in o || row.parent != o[i].parent || row.name != o[i].name) ==>
          NameKey(row.parent, row.name) in x)
  }

  ghost predicate Guarded(o: Objects, rows: Objects, x: set<Res>, sh: set<Id>) {
    forall i :: i in rows ==> RowGuarded(o, i, rows[i], x, sh)
  }

  /** The locks of two transactions are compatible. */
  ghost predicate Apart(x: set<Res>, sh: set<Id>, x': set<Res>, sh': set<Id>) {
    && x !! x'
    && (forall i :: i in sh ==> ObjRow(i) !in x')
    && (forall i :: i in sh' ==> ObjRow(i) !in x)
  }

  /** Everything a holder of locks `x'` and `sh'` can rely on while others commit. */
  ghost predicate Stable(o: Objects, o': Objects, x': set<Res>, sh': set<Id>) {
    && (forall i: Id :: ObjRow(i) in x' || i in sh' ==> (i in o <==> i in o') && (i in o ==> o'[i] == o[i]))
    && (forall i :: i in o ==> i in o' && (o[i].deleted ==> o'[i] == o[i]))
    && (forall i :: Live(o', i) && (i !in o || o'[i].parent != o[i].parent) ==>
          o'[i].parent.Some? && ObjRow(o'[i].parent.value) !in x')
    && (forall i :: Live(o', i) && (i !in o || o'[i].parent != o[i].parent || o'[i].name != o[i].name) ==>
          NameKey(o'[i].parent, o'[i].name) !in x')
  }

  lemma GuardedIsStable(o: Objects, rows: Objects, x: set<Res>, sh: set<Id>, x': set<Res>, sh': set<Id>)
    requires Guarded(o, rows, x, sh) && Apart(x, sh, x', sh')
    ensures Stable(o, o + rows, x', sh')
  {
    forall i: Id ensures i in rows ==> RowGuarded(o, i, rows[i], x, sh) {
    }
  }

  lemma StableNoLiveChildren(o: Objects, o': Objects, x': set<Res>, sh': set<Id>, d: Id)
    requires Stable(o, o', x', sh') && ObjRow(d) in x' && NoLiveChildren(o, d)
    ensures NoLiveChildren(o', d)
  {
    forall i | Live(o', i) ensures o'[i].parent != Some(d) {
      assert i in o && o'[i].parent == o[i].parent ==> Live(o, i);
    }
  }

  lemma StableNameFree(o: Objects, o': Objects, x': set<Res>, sh': set<Id>, i: Id, p: Option<Id>, name: Text)
    requires Stable(o, o', x', sh') && NameKey(p, name) in x' && NameFree(o, i, p, name)
    ensures NameFree(o', i, p, name)
  {
    forall j | j in o' && !o'[j].deleted && j != i ensures !(o'[j].parent == p && o'[j].name == name) {
      assert Live(o', j);
    }
  }

  lemma LockedEntry(es: seq<Entry>, k: int, x: set<Res>)
    requires 0 <= k < |es| && TargetLocks(es) <= x
    ensures ObjRow(es[k].id) in x
  {
    assert es[k].id in Ids(es);
    assert ObjRow(es[k].id) in TargetLocks(es);
  }

  /** A listed path survives, because every row on it is locked. */
  lemma {:induction false} PathSurvives(o: Objects, o': Objects, x': set<Res>, sh': set<Id>, r: Id,
      es: seq<Entry>, i: Id, n: nat)
    requires Stable(o, o', x', sh') && IsListing(o, r, es) && TargetLocks(es) <= x'
    requires LivePath(o, i, r, n)
    ensures LivePath(o', i, r, n)
    decreases n
  {
    var k :| 0 <= k < |es| && es[k] == Entry(n, i);
    LockedEntry(es, k, x');
    if n > 0 {
      PathSurvives(o, o', x', sh', r, es, o[i].parent.value, n - 1);
    }
  }

  /** No new path appears: a new child would have needed a share lock on a locked parent. */
  lemma {:induction false} NoNewPath(o: Objects, o': Objects, x': set<Res>, sh': set<Id>, r: Id,
      es: seq<Entry>, i: Id, n: nat)
    requires Stable(o, o', x', sh') && IsListing(o, r, es) && TargetLocks(es) <= x'
    requires LivePath(o, r, r, 0) && LivePath(o', i, r, n)
    ensures LivePath(o, i, r, n)
    decreases n
  {
    if n > 0 {
      var p := o'[i].parent.value;
      NoNewPath(o, o', x', sh', r, es, p, n - 1);
      var k :| 0 <= k < |es| && es[k] == Entry(n - 1, p);
      LockedEntry(es, k, x');
      assert Live(o', i) && o'[i].parent == Some(p);
      StillLive(o, o', x', sh', i);
    }
  }

  /** Nothing is revived. */
  lemma StillLive(o: Objects, o': Objects, x': set<Res>, sh': set<Id>, i: Id)
    requires Stable(o, o', x', sh') && Live(o', i) && i in o
    ensures Live(o, i)
  {
  }

  /** Once every member is locked, the derived subtree cannot change until commit. */
  lemma StableListing(o: Objects, o': Objects, x': set<Res>, sh': set<Id>, r: Id, es: seq<Entry>)
    requires Stable(o, o', x', sh') && IsListing(o, r, es) && TargetLocks(es) <= x' && Live(o, r)
    ensures IsListing(o', r, es)
  {
    forall k | 0 <= k < |es| ensures LivePath(o', es[k].id, r, es[k].depth) {
      PathSurvives(o, o', x', sh', r, es, es[k].id, es[k].depth);
    }
    forall i, n: nat | LivePath(o', i, r, n) ensures Entry(n, i) in es {
      assert LivePath(o, r, r, 0);
      NoNewPath(o, o', x', sh', r, es, i, n);
    }
  }

  /** The write set of a delete depends only on its locked targets. */
  lemma StableDeleteDelta(o: Objects, o': Objects, x': set<Res>, sh': set<Id>, es: seq<Entry>, now: int)
    requires Stable(o, o', x', sh') && TargetLocks(es) <= x'
    requires forall k :: 0 <= k < |es| ==> es[k].id in o && es[k].id in o'
    ensures DeleteDelta(o', es, now) == DeleteDelta(o, es, now)
  {
    forall k | 0 <= k < |es| ensures o'[es[k].id] == o[es[k].id] {
      LockedEntry(es, k, x');
    }
    assert DeletedRows(o', es) == DeletedRows(o, es);
    assert DeletedBlobs(o', es) == DeletedBlobs(o, es);
    assert Tombstones(o', es) == Tombstones(o, es);
  }
}
