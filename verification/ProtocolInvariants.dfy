/** What every open transaction has established, and the proof that each step
    and each commit by another transaction keeps it. */
module ProtocolInvariants {
  import opened Types
  import opened Tree
  import opened TreeInvariants
  import opened Store
  import opened StoreTheorems
  import opened Protocol
  import opened Interference

  function Level(st: Stage): nat {
    match st
    case Begin => 0
    case UploadLocked => 1
    case Locked => 2
    case Shared => 3
    case Deriving => 3
    case Checked => 4
    case Written => 5
    case Ordered => 6
    case Verified => 7
    case Appended => 8
    case Finished => 9
  }

  ghost predicate HoldsRow(o: Objects, tx: Tx) {
    && ObjRow(tx.cmd.id) in tx.x
    && tx.cmd.id in o
    && tx.row == Some(o[tx.cmd.id])
    && RowAccepted(o[tx.cmd.id], tx.cmd)
  }

  ghost predicate HoldsDestination(o: Objects, tx: Tx) {
    && Destination(tx).Some?
    && Destination(tx).value in tx.sh
    && LiveFolder(o, Destination(tx).value)
  }

  ghost predicate CreateInv(o: Objects, tx: Tx)
    requires tx.cmd.Create?
  {
    && (tx.stage == Begin || Level(tx.stage) >= 4)
    && !tx.noop
    && (Level(tx.stage) >= 4 ==> HoldsDestination(o, tx))
    && (Level(tx.stage) >= 5 ==>
          && WriteLocks(o, tx) <= tx.x
          && IndexAdmits(o, tx)
          && tx.delta == CreateDelta(tx.cmd))
  }

  ghost predicate PatchInv(o: Objects, tx: Tx)
    requires tx.cmd.Patch?
  {
    && tx.stage != UploadLocked && tx.stage != Deriving
    && (Level(tx.stage) >= 2 ==> HoldsRow(o, tx))
    && (tx.noop ==> HoldsRow(o, tx) && PatchIsNoOp(o[tx.cmd.id], tx.cmd) && tx.delta == NO_DELTA)
    && (Level(tx.stage) >= 3 && !tx.noop ==>
          && !PatchIsNoOp(o[tx.cmd.id], tx.cmd)
          && (PatchMoves(o[tx.cmd.id], tx.cmd) ==> HoldsDestination(o, tx)))
    && (Level(tx.stage) >= 5 && !tx.noop ==>
          && WriteLocks(o, tx) <= tx.x
          && IndexAdmits(o, tx)
          && tx.delta == PatchDelta(o[tx.cmd.id], tx.cmd))
    && (Level(tx.stage) >= 7 && !tx.noop && MovesFolder(tx) ==>
          !IsSelfOrDescendant(o, Destination(tx).value, tx.cmd.id))
  }

  ghost predicate DeleteInv(o: Objects, tx: Tx)
    requires tx.cmd.Delete?
  {
    && tx.stage != UploadLocked && tx.stage != Shared
    && !tx.noop
    && (Level(tx.stage) >= 2 ==> HoldsRow(o, tx))
    && (Level(tx.stage) >= 4 ==>
          && IsListing(o, tx.cmd.id, tx.es)
          && TargetLocks(tx.es) <= tx.x
          && (!tx.cmd.recursive ==> NoLiveChildren(o, tx.cmd.id)))
    && (Level(tx.stage) >= 5 ==>
          && (forall k :: 0 <= k < |tx.es| ==> Live(o, tx.es[k].id))
          && tx.delta == DeleteDelta(o, tx.es, tx.now))
  }

  ghost predicate CommitInv(s: State, tx: Tx)
    requires tx.cmd.Commit?
  {
    && tx.stage != Shared && tx.stage != Deriving
    && (Level(tx.stage) >= 1 ==>
          && UploadRow(tx.cmd.upload) in tx.x
          && tx.cmd.upload in s.uploads
          && tx.up == Some(s.uploads[tx.cmd.upload])
          && UploadRowOk(tx.up.value, tx.cmd))
    && (Level(tx.stage) >= 2 ==> HoldsRow(s.objects, tx))
    && (tx.noop ==> tx.up.Some? && tx.up.value.state.Completed? && tx.delta == NO_DELTA)
    && (Level(tx.stage) >= 4 && !tx.noop ==> !tx.up.value.state.Completed?)
    && (Level(tx.stage) >= 5 && !tx.noop ==>
          tx.delta == CommitDelta(tx.up.value, s.objects[tx.cmd.id], tx.cmd))
  }

  ghost predicate CmdInv(s: State, tx: Tx) {
    match tx.cmd
    case Create(_, _, _, _, _) => CreateInv(s.objects, tx)
    case Patch(_, _, _, _, _) => PatchInv(s.objects, tx)
    case Delete(_, _, _) => DeleteInv(s.objects, tx)
    case Commit(_, _, _, _, _) => CommitInv(s, tx)
  }

  /** The Change-order lock comes after every row, key and queue lock, and the
      idempotency row after that. */
  ghost predicate OrderInv(tx: Tx) {
    && (tx.noop ==> Level(tx.stage) >= 8)
    && (ChangeOrder in tx.x <==> Level(tx.stage) >= 6 && !tx.noop)
    && (forall k :: IdemRow(k) in tx.x ==> tx.stage == Finished)
    && (Level(tx.stage) < 5 ==> tx.delta == NO_DELTA)
  }

  ghost predicate SeqInv(s: State, nextSeq: nat, tx: Tx) {
    Level(tx.stage) >= 8 && !tx.noop ==>
      && (forall k :: 0 <= k < |s.log| ==> s.log[k].seqNo < tx.base)
      && 0 < tx.base && tx.base + |tx.delta.pending| <= nextSeq
  }

  ghost predicate TxInv(s: State, nextSeq: nat, tx: Tx) {
    WellFormed(tx.cmd) && CmdInv(s, tx) && OrderInv(tx) && SeqInv(s, nextSeq, tx)
  }

  ghost predicate LocksApart(txs: map<TxId, Tx>) {
    forall t, v :: t in txs && v in txs && t != v ==> Apart(txs[t].x, txs[t].sh, txs[v].x, txs[v].sh)
  }

  ghost predicate LogBelow(log: seq<Change>, nextSeq: nat) {
    forall k :: 0 <= k < |log| ==> log[k].seqNo < nextSeq
  }

  ghost predicate DbInv(db: Db) {
    && Inv(db.store)
    && 0 < db.nextSeq && LogBelow(db.store.log, db.nextSeq)
    && LocksApart(db.txs)
    && forall t :: t in db.txs ==> TxInv(db.store, db.nextSeq, db.txs[t])
  }

  // ---------------------------------------------------------------------
  // Local steps establish the next stage's facts
  // ---------------------------------------------------------------------

  lemma {:induction false} AllLive(o: Objects, es: seq<Entry>)
    requires forall k :: 0 <= k < |es| ==> Live(o, es[k].id)
    ensures LiveEntries(o, es) == es
    decreases |es|
  {
    if es != [] {
      AllLive(o, es[..|es| - 1]);
    }
  }

  lemma CheckedChildren(o: Objects, tx: Tx)
    requires TreeInv(o) && tx.cmd.Delete? && DeleteInv(o, tx) && tx.stage == Locked
    requires tx.row.value.kind == Folder ==> NoLiveChildren(o, tx.cmd.id)
    ensures NoLiveChildren(o, tx.cmd.id) && IsListing(o, tx.cmd.id, [Entry(0, tx.cmd.id)])
    ensures TargetLocks([Entry(0, tx.cmd.id)]) <= tx.x
  {
    var x := tx.cmd.id;
    forall i | Live(o, i) ensures o[i].parent != Some(x) {
      assert i != ROOT ==> ParentOk(o, i);
    }
    LeafListing(o, x);
    var es := [Entry(0, x)];
    assert forall i :: i in Ids(es) ==> i == x;
  }

  lemma CreateStep(db: Db, t: TxId, step: Local)
    requires t in db.txs && db.txs[t].cmd.Create?
    requires CreateInv(db.store.objects, db.txs[t]) && LocalEnabled(db, t, db.txs[t], step)
    ensures CreateInv(db.store.objects, LocalNext(db.store, db.txs[t], step))
  {
  }

  lemma PatchStep(db: Db, t: TxId, step: Local)
    requires t in db.txs && db.txs[t].cmd.Patch?
    requires OrderInv(db.txs[t])
    requires PatchInv(db.store.objects, db.txs[t]) && LocalEnabled(db, t, db.txs[t], step)
    ensures PatchInv(db.store.objects, LocalNext(db.store, db.txs[t], step))
  {
    var o, tx := db.store.objects, db.txs[t];
    if step.Recheck? && MovesFolder(tx) {
      RecheckSeesCommitted(o, tx);
    }
    if step.Write? {
      PatchWrite(db, t);
      return;
    }
    hide FreeExclusive, FreeShared, AllFree, NameFree, PatchRowOk, LiveFolder, PatchDelta, PatchedRow, PatchIsNoOp,
         PatchMoves, IsSelfOrDescendant, IsListing, IdList, TargetLocks;
  }

  lemma PatchWrite(db: Db, t: TxId)
    requires t in db.txs && db.txs[t].cmd.Patch? && OrderInv(db.txs[t])
    requires PatchInv(db.store.objects, db.txs[t]) && LocalEnabled(db, t, db.txs[t], Write)
    ensures PatchInv(db.store.objects, LocalNext(db.store, db.txs[t], Write))
  {
    hide FreeExclusive, AllFree, NameFree, PatchDelta, PatchedRow, PatchIsNoOp, PatchMoves, IsSelfOrDescendant;
  }

  /** The re-check reads the mover's own write, and answers as the committed rows would. */
  lemma RecheckSeesCommitted(o: Objects, tx: Tx)
    requires tx.cmd.Patch? && PatchInv(o, tx) && OrderInv(tx) && tx.stage == Ordered && MovesFolder(tx)
    ensures Destination(tx).Some?
    ensures IsSelfOrDescendant(o + tx.delta.rows, Destination(tx).value, tx.cmd.id) <==>
            IsSelfOrDescendant(o, Destination(tx).value, tx.cmd.id)
  {
    var row := PatchedRow(o[tx.cmd.id], tx.cmd);
    assert o + tx.delta.rows == o[tx.cmd.id := row];
    OwnWriteInvisible(o, tx.cmd.id, row, Destination(tx).value);
  }

  lemma DeleteStep(db: Db, t: TxId, step: Local)
    requires t in db.txs && db.txs[t].cmd.Delete? && TreeInv(db.store.objects)
    requires DeleteInv(db.store.objects, db.txs[t]) && LocalEnabled(db, t, db.txs[t], step)
    ensures DeleteInv(db.store.objects, LocalNext(db.store, db.txs[t], step))
  {
    var o, tx := db.store.objects, db.txs[t];
    if step.CheckChildren? {
      CheckedChildren(o, tx);
    }
    if step.Derive? && IdList(step.found) == IdList(tx.es) {
      SameIdsSameLocks(step.found, tx.es);
    }
    if step.Write? {
      ListedInStore(o, tx.cmd.id, tx.es);
      AllLive(o, tx.es);
    }
  }

  /** Two derivations with the same ids, whatever their depths, lock the same rows. */
  lemma SameIdsSameLocks(a: seq<Entry>, b: seq<Entry>)
    requires IdList(a) == IdList(b)
    ensures TargetLocks(a) == TargetLocks(b)
  {
    forall i ensures i in Ids(a) <==> i in Ids(b) {
      if i in Ids(a) {
        var k :| 0 <= k < |a| && a[k].id == i;
        assert IdList(b)[k] == b[k].id;
      }
      if i in Ids(b) {
        var k :| 0 <= k < |b| && b[k].id == i;
        assert IdList(a)[k] == a[k].id;
      }
    }
  }

  lemma CommitStep(db: Db, t: TxId, step: Local)
    requires t in db.txs && db.txs[t].cmd.Commit?
    requires OrderInv(db.txs[t])
    requires CommitInv(db.store, db.txs[t]) && LocalEnabled(db, t, db.txs[t], step)
    ensures CommitInv(db.store, LocalNext(db.store, db.txs[t], step))
  {
    hide FreeExclusive, CommitDelta, UploadRowOk, CommitRowOk;
  }

  lemma OrderStep(db: Db, t: TxId, step: Local)
    requires t in db.txs && CmdInv(db.store, db.txs[t])
    requires OrderInv(db.txs[t]) && LocalEnabled(db, t, db.txs[t], step)
    ensures OrderInv(LocalNext(db.store, db.txs[t], step))
  {
    hide IsListing, NoLiveChildren, NameFree, IsSelfOrDescendant, WriteSet, DeleteDelta, Destination, IndexAdmits,
         FreeExclusive, FreeShared, AllFree, RowAccepted, HoldsDestination, TargetLocks, IdList;
  }
}
