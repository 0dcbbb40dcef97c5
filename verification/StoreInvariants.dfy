/** Invariants of the whole store, kept by every atomic step. */
module StoreInvariants {
  import opened Types
  import opened Tree
  import opened Store
  import opened TreeInvariants

  // ---------------------------------------------------------------------
  // The Change log determines each object
  // ---------------------------------------------------------------------

  /** What a reader of one object's Changes knows after some prefix. */
  datatype Track =
    | Absent
    | Known(revision: nat, live: bool, ready: bool, last: Action)
    | Bad

  /** Legal next records: a revision steps by one, or is shared by one PATCH as
      renamed, then moved, then metadata updated; nothing follows a tombstone. */
  function Follow(t: Track, c: Change): Track {
    match t
    case Bad => Bad
    case Absent =>
      if c.action == Created && c.revision == 1 then Known(1, true, false, Created) else Bad
    case Known(revision, live, ready, last) =>
      var steps := c.revision == revision + 1;
      var shares := c.revision == revision;
      if !live then Bad else
      match c.action
      case Created => Bad
      case Renamed => if steps then Known(c.revision, true, ready, Renamed) else Bad
      case Moved =>
        if steps || (shares && last == Renamed) then Known(c.revision, true, ready, Moved) else Bad
      case MetadataUpdated =>
        if steps || (shares && (last == Renamed || last == Moved))
        then Known(c.revision, true, ready, MetadataUpdated) else Bad
      case ContentReady => if steps && !ready then Known(c.revision, true, true, ContentReady) else Bad
      case ContentReplaced => if steps && ready then Known(c.revision, true, true, ContentReplaced) else Bad
      case Deleted => if steps then Known(c.revision, false, ready, Deleted) else Bad
  }

  /** The root exists at revision 1 without a record. */
  function Start(i: Id): Track {
    if i == ROOT then Known(1, true, false, Created) else Absent
  }

  function FoldFrom(t: Track, cs: seq<Change>, i: Id): Track {
    if cs == [] then t
    else
      var c := cs[|cs| - 1];
      var before := FoldFrom(t, cs[..|cs| - 1], i);
      if c.oid == i then Follow(before, c) else before
  }

  function Fold(log: seq<Change>, i: Id): Track {
    FoldFrom(Start(i), log, i)
  }

  ghost predicate Describes(t: Track, o: Objects, i: Id) {
    if i in o then
      t.Known? && t.revision == o[i].revision && t.live == !o[i].deleted && t.ready == o[i].blob.Some?
    else t.Absent?
  }

  /** Folding an object's records gives its revision, liveness and content state. */
  ghost predicate LogInv(o: Objects, log: seq<Change>) {
    forall i: Id :: Describes(Fold(log, i), o, i)
  }

  lemma {:induction false} FoldConcat(t: Track, a: seq<Change>, b: seq<Change>, i: Id)
    ensures FoldFrom(t, a + b, i) == FoldFrom(FoldFrom(t, a, i), b, i)
    decreases |b|
  {
    if b == [] {
      assert a + b == a;
    } else {
      assert (a + b)[..|a + b| - 1] == a + b[..|b| - 1];
      FoldConcat(t, a, b[..|b| - 1], i);
    }
  }

  lemma {:induction false} FoldSkips(t: Track, cs: seq<Change>, i: Id)
    requires forall k :: 0 <= k < |cs| ==> cs[k].oid != i
    ensures FoldFrom(t, cs, i) == t
    decreases |cs|
  {
    if cs != [] {
      FoldSkips(t, cs[..|cs| - 1], i);
    }
  }

  lemma FoldOne(t: Track, c: Change, i: Id)
    requires c.oid == i
    ensures FoldFrom(t, [c], i) == Follow(t, c)
  {
    assert [c][..0] == [];
  }

  lemma {:induction false} FoldOnlyAt(t: Track, cs: seq<Change>, i: Id, k: int)
    requires 0 <= k < |cs| && cs[k].oid == i
    requires forall j :: 0 <= j < |cs| && j != k ==> cs[j].oid != i
    ensures FoldFrom(t, cs, i) == Follow(t, cs[k])
    decreases |cs|
  {
    var m := |cs| - 1;
    if k == m {
      FoldSkips(t, cs[..m], i);
    } else {
      FoldOnlyAt(t, cs[..m], i, k);
    }
  }

  /** A mutation that touches only object `x` describes every other object as before. */
  lemma LogAfterOne(o: Objects, log: seq<Change>, x: Id, row: Row, cs: seq<Change>)
    requires LogInv(o, log)
    requires forall k :: 0 <= k < |cs| ==> cs[k].oid == x
    requires Describes(FoldFrom(Fold(log, x), cs, x), o[x := row], x)
    ensures LogInv(o[x := row], log + cs)
  {
    forall i: Id ensures Describes(Fold(log + cs, i), o[x := row], i) {
      FoldConcat(Start(i), log, cs, i);
      assert Describes(Fold(log, i), o, i);
      if i != x { FoldSkips(Fold(log, i), cs, i); }
    }
  }

  lemma CreateKeepsLog(s: State, now: int, cmd: Cmd, es: seq<Entry>, d: Delta, base: nat)
    requires LogInv(s.objects, s.log) && cmd.Create? && Accepts(s, now, cmd, es, d)
    ensures LogInv(s.objects + d.rows, s.log + Stamp(d.pending, base, now))
  {
    var o, x, row := s.objects, cmd.id, NewRow(cmd);
    var cs := Stamp(d.pending, base, now);
    assert o + d.rows == o[x := row];
    assert cs == [Change(base, x, 1, Created, now)];
    assert Describes(Fold(s.log, x), o, x);
    FoldOne(Fold(s.log, x), cs[0], x);
    LogAfterOne(o, s.log, x, row, cs);
  }

  /** Folding one PATCH's records, whichever of the three it emits. */
  lemma FoldPatch(t: Track, x: Id, row: Row, cmd: Cmd, base: nat, now: int)
    requires cmd.Patch? && !PatchIsNoOp(row, cmd)
    requires t.Known? && t.live && t.revision == row.revision
    ensures var r := FoldFrom(t, Stamp(PatchPending(x, row, cmd), base, now), x);
            r.Known? && r.revision == row.revision + 1 && r.live && r.ready == t.ready
  {
    var ps := PatchPending(x, row, cmd);
    var cs := Stamp(ps, base, now);
    var m := |cs| - 1;
    assert cs[..m] == Stamp(ps[..m], base, now);
    if m == 0 {
      assert cs == [cs[0]];
      FoldOne(t, cs[0], x);
    } else if m == 1 {
      assert cs[..m] == [cs[0]];
      FoldOne(t, cs[0], x);
    } else {
      assert cs[..m][..1] == [cs[0]];
      FoldOne(t, cs[0], x);
      assert cs[..m] == [cs[0], cs[1]];
    }
  }

  lemma PatchKeepsLog(s: State, now: int, cmd: Cmd, es: seq<Entry>, d: Delta, base: nat)
    requires LogInv(s.objects, s.log) && cmd.Patch? && Accepts(s, now, cmd, es, d)
    ensures LogInv(s.objects + d.rows, s.log + Stamp(d.pending, base, now))
  {
    var o, x := s.objects, cmd.id;
    if PatchIsNoOp(o[x], cmd) {
      assert o + d.rows == o;
      assert s.log + Stamp(d.pending, base, now) == s.log;
    } else {
      var row := PatchedRow(o[x], cmd);
      assert o + d.rows == o[x := row];
      assert Describes(Fold(s.log, x), o, x);
      FoldPatch(Fold(s.log, x), x, o[x], cmd, base, now);
      LogAfterOne(o, s.log, x, row, Stamp(d.pending, base, now));
    }
  }

  lemma CommitKeepsLog(s: State, now: int, cmd: Cmd, es: seq<Entry>, d: Delta, base: nat)
    requires LogInv(s.objects, s.log) && cmd.Commit? && Accepts(s, now, cmd, es, d)
    ensures LogInv(s.objects + d.rows, s.log + Stamp(d.pending, base, now))
  {
    var o, x := s.objects, cmd.id;
    if s.uploads[cmd.upload].state.Completed? {
      assert o + d.rows == o;
      assert s.log + Stamp(d.pending, base, now) == s.log;
    } else {
      var row := CommittedRow(o[x], cmd);
      var cs := Stamp(d.pending, base, now);
      assert o + d.rows == o[x := row];
      assert Describes(Fold(s.log, x), o, x);
      assert cs == [cs[0]];
      FoldOne(Fold(s.log, x), cs[0], x);
      LogAfterOne(o, s.log, x, row, cs);
    }
  }

  /** Folding a delete's tombstones: one for each listed object, none for others. */
  lemma FoldTombstones(t: Track, o: Objects, es: seq<Entry>, i: Id, base: nat, now: int)
    requires forall k :: 0 <= k < |es| ==> es[k].id in o
    requires forall j, k :: 0 <= j < k < |es| ==> es[j].id != es[k].id
    ensures var r := FoldFrom(t, Stamp(Tombstones(o, es), base, now), i);
            if i in Ids(es)
            then t.Known? && t.live && t.revision == o[i].revision ==>
                   r == Known(t.revision + 1, false, t.ready, Deleted)
            else r == t
  {
    var cs := Stamp(Tombstones(o, es), base, now);
    if i in Ids(es) {
      var k :| 0 <= k < |es| && es[k].id == i;
      FoldOnlyAt(t, cs, i, k);
    } else {
      forall k | 0 <= k < |cs| ensures cs[k].oid != i { assert es[k].id in Ids(es); }
      FoldSkips(t, cs, i);
    }
  }

  lemma DeleteKeepsLog(o: Objects, o': Objects, log: seq<Change>, es: seq<Entry>, base: nat, now: int)
    requires LogInv(o, log) && TombstonedIn(o, o', Ids(es))
    requires forall k :: 0 <= k < |es| ==> es[k].id in o && !o[es[k].id].deleted
    requires forall j, k :: 0 <= j < k < |es| ==> es[j].id != es[k].id
    ensures LogInv(o', log + Stamp(Tombstones(o, es), base, now))
  {
    var cs := Stamp(Tombstones(o, es), base, now);
    forall i: Id ensures Describes(Fold(log + cs, i), o', i) {
      FoldConcat(Start(i), log, cs, i);
      assert Describes(Fold(log, i), o, i);
      FoldTombstones(Fold(log, i), o, es, i, base, now);
    }
  }

  // ---------------------------------------------------------------------
  // Upload sessions, blobs and the collection queue
  // ---------------------------------------------------------------------

  ghost predicate Idle(s: State, b: Blob) {
    b !in s.gc && b !in s.claimed && b !in s.collected
  }

  ghost predicate QueuedOrCollected(s: State, b: Blob) {
    b in s.gc || b in s.collected
  }

  /** The class of one session's blob: pending, the current pointer of its live
      object, or retired. Only a retired blob is ever queued, claimed or collected. */
  ghost predicate UploadOk(s: State, u: UploadId)
    requires u in s.uploads
  {
    var up := s.uploads[u];
    && up.blob == Blob(u)
    && up.oid in s.objects
    && if PendingUpload(up.state) then Idle(s, up.blob)
       else if up.state.Completed? && PointsAt(s.objects, up.oid, up.blob) then Idle(s, up.blob)
       else QueuedOrCollected(s, up.blob)
  }

  ghost predicate PointerOk(s: State, i: Id)
    requires i in s.objects
  {
    s.objects[i].blob.Some? ==>
      var b := s.objects[i].blob.value;
      && b.upload in s.uploads
      && s.uploads[b.upload].state.Completed?
      && s.uploads[b.upload].oid == i
  }

  ghost predicate BlobInv(s: State) {
    && (forall u :: u in s.uploads ==> UploadOk(s, u))
    && (forall i :: i in s.objects ==> PointerOk(s, i))
    && (forall b :: b in s.gc || b in s.claimed || b in s.collected ==> b.upload in s.uploads)
  }

  lemma CreateKeepsBlobs(s: State, now: int, cmd: Cmd, es: seq<Entry>, d: Delta, base: nat)
    requires BlobInv(s) && cmd.Create? && Accepts(s, now, cmd, es, d)
    ensures BlobInv(Merge(s, d, base, now))
  {
    var s' := Merge(s, d, base, now);
    forall u | u in s'.uploads ensures UploadOk(s', u) { assert UploadOk(s, u); }
    forall i | i in s'.objects ensures PointerOk(s', i) { assert i in s.objects ==> PointerOk(s, i); }
  }

  lemma PatchKeepsBlobs(s: State, now: int, cmd: Cmd, es: seq<Entry>, d: Delta, base: nat)
    requires BlobInv(s) && cmd.Patch? && Accepts(s, now, cmd, es, d)
    ensures BlobInv(Merge(s, d, base, now))
  {
    PatchedState(s, now, cmd, es, d, base);
    hide Accepts, Merge;
    var s' := Merge(s, d, base, now);
    forall u | u in s'.uploads ensures UploadOk(s', u) { assert UploadOk(s, u); }
    forall i | i in s'.objects ensures PointerOk(s', i) { assert PointerOk(s, i); }
  }

  lemma PatchedState(s: State, now: int, cmd: Cmd, es: seq<Entry>, d: Delta, base: nat)
    requires cmd.Patch? && Accepts(s, now, cmd, es, d)
    ensures var s' := Merge(s, d, base, now);
            && s' == s.(objects := s'.objects, log := s'.log)
            && s'.objects.Keys == s.objects.Keys
            && forall i :: i in s.objects ==>
                 s'.objects[i].blob == s.objects[i].blob && s'.objects[i].deleted == s.objects[i].deleted
  {
  }

  lemma DeleteKeepsBlobs(s: State, s': State, ids: set<Id>, queue: map<Blob, GcRow>)
    requires BlobInv(s) && TombstonedIn(s.objects, s'.objects, ids)
    requires forall i :: i in ids ==> Live(s.objects, i)
    requires forall b :: b in queue <==> exists i :: i in ids && i in s.objects && s.objects[i].blob == Some(b)
    requires s'.gc == queue + s.gc && s'.uploads == s.uploads
    requires s'.claimed == s.claimed && s'.collected == s.collected
    ensures BlobInv(s')
  {
    forall u | u in s'.uploads ensures UploadOk(s', u) {
      assert UploadOk(s, u);
      var up := s.uploads[u];
      assert PointerOk(s, up.oid);
      if up.blob in queue {
        var i :| i in ids && i in s.objects && s.objects[i].blob == Some(up.blob);
        assert PointerOk(s, i);
      }
    }
    forall i | i in s'.objects ensures PointerOk(s', i) { assert PointerOk(s, i); }
    forall b | b in s'.gc ensures b.upload in s'.uploads {
      if b in queue {
        var i :| i in ids && i in s.objects && s.objects[i].blob == Some(b);
        assert PointerOk(s, i);
      }
    }
  }

  /** A first content commit of an upload, seen only through the tables it writes. */
  ghost predicate ContentStep(s: State, s': State, cmd: Cmd) {
    && cmd.Commit? && cmd.upload in s.uploads && cmd.id in s.objects
    && UploadRowOk(s.uploads[cmd.upload], cmd) && !s.uploads[cmd.upload].state.Completed?
    && CommitRowOk(s.objects[cmd.id], cmd)
    && s'.objects == s.objects[cmd.id := CommittedRow(s.objects[cmd.id], cmd)]
    && s'.uploads == s.uploads[cmd.upload := s.uploads[cmd.upload].(state := Completed)]
    && (forall b :: b in s'.gc <==> b != cmd.blob && (b in s.gc || s.objects[cmd.id].blob == Some(b)))
    && s'.claimed == s.claimed && s'.collected == s.collected
  }

  /** A content commit moves at most two blobs: its own becomes the pointer,
      the one it supersedes is queued. */
  lemma CommitKeepsUpload(s: State, s': State, cmd: Cmd, u: UploadId)
    requires BlobInv(s) && ContentStep(s, s', cmd) && u in s'.uploads
    ensures UploadOk(s', u)
  {
    var x := cmd.id;
    assert UploadOk(s, cmd.upload) && UploadOk(s, u) && PointerOk(s, x);
    if u != cmd.upload {
      var up := s.uploads[u];
      assert s'.uploads[u] == up && up.blob != cmd.blob;
      if s.objects[x].blob == Some(up.blob) {
        assert up.oid == x;
      } else {
        assert PointsAt(s'.objects, up.oid, up.blob) <==> PointsAt(s.objects, up.oid, up.blob);
      }
    }
  }

  lemma ContentStepKeepsBlobs(s: State, s': State, cmd: Cmd)
    requires BlobInv(s) && ContentStep(s, s', cmd)
    ensures BlobInv(s')
  {
    forall u | u in s'.uploads ensures UploadOk(s', u) { CommitKeepsUpload(s, s', cmd, u); }
    assert UploadOk(s, cmd.upload) && PointerOk(s, cmd.id);
    forall i | i in s'.objects ensures PointerOk(s', i) { assert PointerOk(s, i); }
  }

  lemma CommitIsContentStep(s: State, now: int, cmd: Cmd, es: seq<Entry>, d: Delta, base: nat)
    requires cmd.Commit? && Accepts(s, now, cmd, es, d)
    requires !s.uploads[cmd.upload].state.Completed?
    ensures ContentStep(s, Merge(s, d, base, now), cmd)
  {
    var s' := Merge(s, d, base, now);
    assert s'.objects == s.objects[cmd.id := CommittedRow(s.objects[cmd.id], cmd)];
    assert s'.uploads == s.uploads[cmd.upload := s.uploads[cmd.upload].(state := Completed)];
  }

  /** Rewriting one session that is not completed, and queueing its blob if it is now retired. */
  lemma SessionKeepsBlobs(s: State, s': State, u: UploadId)
    requires BlobInv(s) && u in s'.uploads && s'.objects == s.objects
    requires s'.claimed == s.claimed && s'.collected == s.collected
    requires s'.uploads == s.uploads[u := s'.uploads[u]] && s'.uploads[u].blob == Blob(u)
    requires s'.uploads[u].oid in s.objects && !s'.uploads[u].state.Completed?
    requires u in s.uploads ==> !s.uploads[u].state.Completed?
    requires if PendingUpload(s'.uploads[u].state)
             then s'.gc == s.gc && (u in s.uploads ==> PendingUpload(s.uploads[u].state))
             else u in s.uploads && Blob(u) in s'.gc && forall b :: b != Blob(u) ==> (b in s'.gc <==> b in s.gc)
    ensures BlobInv(s')
  {
    forall v | v in s'.uploads ensures UploadOk(s', v) {
      assert v in s.uploads ==> UploadOk(s, v);
      assert v != u ==> Blob(v) != Blob(u);
    }
    forall i | i in s'.objects ensures PointerOk(s', i) { assert PointerOk(s, i); }
  }

  /** Expiry seen through the blob classes: pending sessions become retired and queued. */
  ghost predicate ExpiryStep(s: State, s': State, us: set<UploadId>) {
    && s' == s.(uploads := s'.uploads, gc := s'.gc)
    && s'.uploads.Keys == s.uploads.Keys
    && (forall u :: u in s.uploads ==>
          s'.uploads[u] == if u in us then s.uploads[u].(state := Expired) else s.uploads[u])
    && (forall u :: u in us ==> u in s.uploads && PendingUpload(s.uploads[u].state))
    && forall b :: b in s'.gc <==> b in s.gc || b.upload in us
  }

  lemma ExpiryKeepsUpload(s: State, s': State, us: set<UploadId>, u: UploadId)
    requires ExpiryStep(s, s', us) && u in s.uploads && UploadOk(s, u)
    ensures UploadOk(s', u)
  {
  }

  lemma ExpiryKeepsPointer(s: State, s': State, us: set<UploadId>, i: Id)
    requires ExpiryStep(s, s', us) && i in s.objects && PointerOk(s, i)
    ensures PointerOk(s', i)
  {
  }

  lemma ExpiryKeepsBlobs(s: State, s': State, us: set<UploadId>)
    requires ExpiryStep(s, s', us) && BlobInv(s)
    ensures BlobInv(s')
  {
    hide UploadOk, PointerOk;
    forall u | u in s'.uploads ensures UploadOk(s', u) { ExpiryKeepsUpload(s, s', us, u); }
    forall i | i in s'.objects ensures PointerOk(s', i) { ExpiryKeepsPointer(s, s', us, i); }
  }

  lemma ExpireKeepsBlobs(s: State, us: set<UploadId>, now: int)
    requires BlobInv(s) && SideEnabled(s, ExpireUploads(us, now))
    ensures BlobInv(SideApply(s, ExpireUploads(us, now)))
  {
    ExpiredExactly(s, us);
    ExpiredState(s, us, now);
    hide BlobInv, ExpiredBlobs, SideApply;
    ExpiryKeepsBlobs(s, SideApply(s, ExpireUploads(us, now)), us);
  }

  lemma ExpiredState(s: State, us: set<UploadId>, now: int)
    requires SideEnabled(s, ExpireUploads(us, now))
    ensures var s' := SideApply(s, ExpireUploads(us, now));
            && s' == s.(uploads := s'.uploads, gc := s'.gc)
            && s'.uploads.Keys == s.uploads.Keys
            && (forall u :: u in s.uploads ==>
                  s'.uploads[u] == if u in us then s.uploads[u].(state := Expired) else s.uploads[u])
            && s'.gc.Keys == ExpiredBlobs(s.uploads, us) + s.gc.Keys
  {
  }

  lemma ExpiredExactly(s: State, us: set<UploadId>)
    requires BlobInv(s)
    ensures forall b :: b in ExpiredBlobs(s.uploads, us) <==> b.upload in us && b.upload in s.uploads
  {
    forall b ensures b in ExpiredBlobs(s.uploads, us) <==> b.upload in us && b.upload in s.uploads {
      if b.upload in s.uploads { assert UploadOk(s, b.upload); }
      if b in ExpiredBlobs(s.uploads, us) {
        var v :| v in us && v in s.uploads && s.uploads[v].blob == b;
        assert UploadOk(s, v);
      }
    }
  }

  /** Claiming, finishing and backing off touch only queued or claimed blobs. */
  lemma CollectionKeepsBlobs(s: State, op: SideOp)
    requires BlobInv(s) && SideEnabled(s, op) && (op.ClaimGc? || op.FinishGc? || op.FailGc?)
    ensures BlobInv(SideApply(s, op))
  {
    var s' := SideApply(s, op);
    forall u | u in s.uploads ensures UploadOk(s', u) { assert UploadOk(s, u); }
    forall i | i in s'.objects ensures PointerOk(s', i) { assert PointerOk(s, i); }
  }

  lemma SideKeepsBlobs(s: State, op: SideOp)
    requires BlobInv(s) && SideEnabled(s, op)
    ensures BlobInv(SideApply(s, op))
  {
    match op
    case OpenUpload(u, oid, _) => SessionKeepsBlobs(s, SideApply(s, op), u) by { FreshBlobIdle(s, u); }
    case AdvanceUpload(u, _) => assert UploadOk(s, u); SessionKeepsBlobs(s, SideApply(s, op), u);
    case AbortUpload(u, _) => assert UploadOk(s, u); SessionKeepsBlobs(s, SideApply(s, op), u);
    case ExpireUploads(us, now) => ExpireKeepsBlobs(s, us, now);
    case ClaimGc(_, _) => CollectionKeepsBlobs(s, op);
    case FinishGc(_) => CollectionKeepsBlobs(s, op);
    case FailGc(_, _) => CollectionKeepsBlobs(s, op);
  }

  lemma FreshBlobIdle(s: State, u: UploadId)
    requires BlobInv(s) && u !in s.uploads
    ensures Idle(s, Blob(u))
  {
    assert Blob(u).upload == u;
  }
}
