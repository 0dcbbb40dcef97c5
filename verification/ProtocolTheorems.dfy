/** Every interleaving refines the atomic store, and the Change-order lock never
    takes part in a cycle of waiting. */
module ProtocolTheorems {
  import opened Types
  import opened Tree
  import opened TreeInvariants
  import opened Store
  import opened StoreTheorems
  import opened Protocol
  import opened Interference
  import opened ProtocolInvariants

  // ---------------------------------------------------------------------
  // Steps that leave the committed store alone
  // ---------------------------------------------------------------------

  /** A locking step keeps every pair of transactions compatible. */
  lemma LocalLocksApart(db: Db, t: TxId, step: Local)
    requires t in db.txs && LocksApart(db.txs) && LocalEnabled(db, t, db.txs[t], step)
    ensures LocksApart(db.txs[t := LocalNext(db.store, db.txs[t], step)])
  {
    var tx := db.txs[t];
    var tx' := LocalNext(db.store, tx, step);
    forall v | v in db.txs && v != t
      ensures Apart(tx'.x, tx'.sh, db.txs[v].x, db.txs[v].sh) && Apart(db.txs[v].x, db.txs[v].sh, tx'.x, tx'.sh)
    {
      assert Apart(tx.x, tx.sh, db.txs[v].x, db.txs[v].sh);
    }
  }

  lemma LocalKeepsTx(db: Db, t: TxId, step: Local)
    requires DbInv(db) && t in db.txs && LocalEnabled(db, t, db.txs[t], step)
    ensures TxInv(db.store, db.nextSeq, LocalNext(db.store, db.txs[t], step))
  {
    assert TreeInv(db.store.objects) && TxInv(db.store, db.nextSeq, db.txs[t]);
    hide DbInv, TreeInv, OrderInv, SeqInv, LocalEnabled, CreateInv, PatchInv, DeleteInv, CommitInv;
    LocalKeepsCommand(db, t, step);
    LocalKeepsSeq(db, t, step);
    LocalKeepsCmd(db, t, step);
    OrderStep(db, t, step);
  }

  lemma LocalKeepsCommand(db: Db, t: TxId, step: Local)
    requires t in db.txs
    ensures LocalNext(db.store, db.txs[t], step).cmd == db.txs[t].cmd
  {
  }

  lemma LocalKeepsCmd(db: Db, t: TxId, step: Local)
    requires t in db.txs && TreeInv(db.store.objects) && OrderInv(db.txs[t])
    requires CmdInv(db.store, db.txs[t]) && LocalEnabled(db, t, db.txs[t], step)
    ensures CmdInv(db.store, LocalNext(db.store, db.txs[t], step))
  {
    LocalKeepsCommand(db, t, step);
    hide TreeInv, OrderInv, LocalEnabled, LocalNext, CreateInv, PatchInv, DeleteInv, CommitInv;
    match db.txs[t].cmd
    case Create(_, _, _, _, _) => CreateStep(db, t, step);
    case Patch(_, _, _, _, _) => PatchStep(db, t, step);
    case Delete(_, _, _) => DeleteStep(db, t, step);
    case Commit(_, _, _, _, _) => CommitStep(db, t, step);
  }

  lemma LocalKeepsSeq(db: Db, t: TxId, step: Local)
    requires t in db.txs && OrderInv(db.txs[t]) && SeqInv(db.store, db.nextSeq, db.txs[t])
    requires LocalEnabled(db, t, db.txs[t], step)
    ensures SeqInv(db.store, db.nextSeq, LocalNext(db.store, db.txs[t], step))
  {
  }

  lemma RunKeepsInv(db: Db, db': Db, t: TxId, step: Local)
    requires DbInv(db) && Next(db, db', Run(t, step))
    ensures DbInv(db')
  {
    LocalLocksApart(db, t, step);
    LocalKeepsTx(db, t, step);
  }

  lemma AppendedKeepsTx(s: State, nextSeq: nat, tx: Tx, tx': Tx)
    requires TxInv(s, nextSeq, tx) && tx.stage == Verified && 0 < nextSeq && LogBelow(s.log, nextSeq)
    requires tx' == tx.(stage := Appended, base := nextSeq)
    ensures TxInv(s, nextSeq + |tx.delta.pending|, tx')
  {
    AppendKeepsCmd(s, tx, tx');
    hide CmdInv;
  }

  lemma LaterNumbersKeepTx(s: State, nextSeq: nat, later: nat, tx: Tx)
    requires TxInv(s, nextSeq, tx) && nextSeq <= later
    ensures TxInv(s, later, tx)
  {
    hide CmdInv, OrderInv;
  }

  lemma AppendKeepsTxs(s: State, nextSeq: nat, txs: map<TxId, Tx>, t: TxId, tx': Tx)
    requires forall v :: v in txs ==> TxInv(s, nextSeq, txs[v])
    requires t in txs && txs[t].stage == Verified && 0 < nextSeq && LogBelow(s.log, nextSeq)
    requires tx' == txs[t].(stage := Appended, base := nextSeq)
    ensures var later := nextSeq + |txs[t].delta.pending|;
            forall v :: v in txs ==> TxInv(s, later, txs[t := tx'][v])
  {
    hide TxInv, LogBelow;
    AppendedKeepsTx(s, nextSeq, txs[t], tx');
    forall v | v in txs && v != t ensures TxInv(s, nextSeq + |txs[t].delta.pending|, txs[v]) {
      LaterNumbersKeepTx(s, nextSeq, nextSeq + |txs[t].delta.pending|, txs[v]);
    }
  }

  lemma LogStaysBelow(log: seq<Change>, nextSeq: nat, later: nat)
    requires LogBelow(log, nextSeq) && nextSeq <= later
    ensures LogBelow(log, later)
  {
  }

  lemma AppendKeepsInv(db: Db, db': Db, t: TxId)
    requires DbInv(db) && Next(db, db', Append(t))
    ensures DbInv(db')
  {
    hide Inv, TxInv, LocksApart, LogBelow;
    AppendKeepsTxs(db.store, db.nextSeq, db.txs, t, db'.txs[t]);
    LogStaysBelow(db.store.log, db.nextSeq, db'.nextSeq);
    SameLocksApart(db.txs, db'.txs);
  }

  lemma SameLocksApart(txs: map<TxId, Tx>, txs': map<TxId, Tx>)
    requires LocksApart(txs)
    requires forall v :: v in txs' ==> v in txs && txs'[v].x == txs[v].x && txs'[v].sh == txs[v].sh
    ensures LocksApart(txs')
  {
    forall u, v | u in txs' && v in txs' && u != v ensures Apart(txs'[u].x, txs'[u].sh, txs'[v].x, txs'[v].sh) {
      assert Apart(txs[u].x, txs[u].sh, txs[v].x, txs[v].sh);
    }
  }

  lemma AppendKeepsCmd(s: State, tx: Tx, tx': Tx)
    requires CmdInv(s, tx) && OrderInv(tx) && tx.stage == Verified
    requires tx' == tx.(stage := Appended, base := tx'.base)
    ensures CmdInv(s, tx') && OrderInv(tx')
  {
    assert Destination(tx') == Destination(tx) && WriteLocks(s.objects, tx') == WriteLocks(s.objects, tx);
  }

  lemma StartKeepsInv(db: Db, db': Db, t: TxId, cmd: Cmd, now: int, idem: Option<Key>)
    requires DbInv(db) && Next(db, db', Start(t, cmd, now, idem))
    ensures DbInv(db')
  {
    forall u, v | u in db'.txs && v in db'.txs && u != v
      ensures Apart(db'.txs[u].x, db'.txs[u].sh, db'.txs[v].x, db'.txs[v].sh)
    {
      assert u != t && v != t ==> Apart(db.txs[u].x, db.txs[u].sh, db.txs[v].x, db.txs[v].sh);
    }
    assert TxInv(db.store, db.nextSeq, NewTx(cmd, now, idem));
  }

  lemma RollbackKeepsInv(db: Db, db': Db, t: TxId)
    requires DbInv(db) && Next(db, db', Rollback(t))
    ensures DbInv(db')
  {
    forall v | v in db'.txs ensures TxInv(db'.store, db'.nextSeq, db'.txs[v]) {
      assert TxInv(db.store, db.nextSeq, db.txs[v]);
    }
  }

  // ---------------------------------------------------------------------
  // A finished transaction is an atomic mutation of the current store
  // ---------------------------------------------------------------------

  /** At commit time, every check the transaction made still holds of the
      committed store, and its write set is what the atomic mutation writes now. */
  lemma FinishedAccepts(s: State, nextSeq: nat, tx: Tx)
    requires TxInv(s, nextSeq, tx) && tx.stage == Finished
    ensures Accepts(s, tx.now, tx.cmd, tx.es, tx.delta)
  {
    match tx.cmd
    case Create(_, _, _, _, _) =>
    case Patch(id, _, _, _, _) =>
      var row := s.objects[id];
      assert tx.row == Some(row);
    case Delete(_, _, _) =>
    case Commit(_, _, _, _, _) =>
  }

  lemma FinishedGuarded(s: State, nextSeq: nat, tx: Tx)
    requires TxInv(s, nextSeq, tx) && tx.stage == Finished
    ensures Guarded(s.objects, tx.delta.rows, tx.x, tx.sh)
  {
    var o := s.objects;
    match tx.cmd
    case Create(id, parent, _, name, _) =>
      assert WriteLocks(o, tx) == {ObjRow(id), NameKey(Some(parent), name)};
    case Patch(id, _, _, _, _) =>
      if !tx.noop {
        var t := PatchedRow(o[id], tx.cmd);
        assert WriteLocks(o, tx) == {NameKey(t.parent, t.name)};
      }
    case Delete(_, _, _) =>
      forall i | i in tx.delta.rows ensures RowGuarded(o, i, tx.delta.rows[i], tx.x, tx.sh) {
        var k :| 0 <= k < |tx.es| && tx.es[k].id == i;
        LockedEntry(tx.es, k, tx.x);
      }
    case Commit(_, _, _, _, _) =>
  }

  lemma FinishedUploads(s: State, nextSeq: nat, tx: Tx, u: UploadId)
    requires TxInv(s, nextSeq, tx) && tx.stage == Finished
    ensures u in tx.delta.uploads ==> UploadRow(u) in tx.x
  {
  }

  lemma FinishedNoop(s: State, nextSeq: nat, tx: Tx)
    requires TxInv(s, nextSeq, tx)
    ensures tx.noop ==> tx.delta == NO_DELTA
  {
  }

  /** The sequence base of a commit; a no-op commits no records and uses none. */
  function BaseOf(nextSeq: nat, tx: Tx): nat {
    if tx.noop then nextSeq else tx.base
  }

  lemma FinishedMutates(s: State, nextSeq: nat, tx: Tx)
    requires TxInv(s, nextSeq, tx) && tx.stage == Finished && LogBelow(s.log, nextSeq)
    ensures Mutates(s, Merge(s, tx.delta, tx.base, tx.now), tx.now, tx.cmd, tx.es, tx.delta, BaseOf(nextSeq, tx))
  {
    FinishedAccepts(s, nextSeq, tx);
    FinishedNoop(s, nextSeq, tx);
    hide CmdInv, Accepts, OrderInv, Merge;
    if tx.noop {
      NoDeltaKeepsBlobs(s, tx.base, tx.now);
      NoDeltaKeepsBlobs(s, nextSeq, tx.now);
    }
  }

  /** The atomic step a commit performs, with the sequence base it used. */
  lemma CommitMutates(db: Db, db': Db, t: TxId)
    requires DbInv(db) && Next(db, db', CommitTx(t))
    ensures var tx := db.txs[t];
            Mutates(db.store, db'.store, tx.now, tx.cmd, tx.es, tx.delta, BaseOf(db.nextSeq, tx))
  {
    hide Mutates, Inv, LocksApart, TxInv, LogBelow, Merge, BaseOf;
    FinishedMutates(db.store, db.nextSeq, db.txs[t]);
  }

  // ---------------------------------------------------------------------
  // Other transactions keep their facts across a commit
  // ---------------------------------------------------------------------

  lemma StableRow(s: State, s': State, tx: Tx)
    requires Stable(s.objects, s'.objects, tx.x, tx.sh) && HoldsRow(s.objects, tx)
    ensures HoldsRow(s'.objects, tx)
  {
  }

  lemma StableDestination(s: State, s': State, tx: Tx)
    requires Stable(s.objects, s'.objects, tx.x, tx.sh) && HoldsDestination(s.objects, tx)
    ensures HoldsDestination(s'.objects, tx)
  {
  }

  lemma StableCreate(s: State, s': State, tx: Tx)
    requires tx.cmd.Create? && CreateInv(s.objects, tx) && Stable(s.objects, s'.objects, tx.x, tx.sh)
    ensures CreateInv(s'.objects, tx)
  {
    var o, o' := s.objects, s'.objects;
    if Level(tx.stage) >= 4 { StableDestination(s, s', tx); }
    if Level(tx.stage) >= 5 {
      assert WriteLocks(o, tx) == WriteLocks(o', tx) == {ObjRow(tx.cmd.id), NameKey(Some(tx.cmd.parent), tx.cmd.name)};
      StableNameFree(o, o', tx.x, tx.sh, tx.cmd.id, Some(tx.cmd.parent), tx.cmd.name);
    }
  }

  lemma StablePatch(s: State, s': State, tx: Tx)
    requires tx.cmd.Patch? && PatchInv(s.objects, tx) && Stable(s.objects, s'.objects, tx.x, tx.sh)
    requires Level(tx.stage) < 6 || tx.noop
    ensures PatchInv(s'.objects, tx)
  {
    var o, o' := s.objects, s'.objects;
    if Level(tx.stage) >= 2 {
      StableRow(s, s', tx);
      var t := PatchedRow(o[tx.cmd.id], tx.cmd);
      if Level(tx.stage) >= 3 && !tx.noop && PatchMoves(o[tx.cmd.id], tx.cmd) {
        StableDestination(s, s', tx);
      }
      if Level(tx.stage) >= 5 && !tx.noop {
        assert WriteLocks(o, tx) == WriteLocks(o', tx) == {NameKey(t.parent, t.name)};
        StableNameFree(o, o', tx.x, tx.sh, tx.cmd.id, t.parent, t.name);
      }
    }
  }

  lemma StableDelete(s: State, s': State, tx: Tx)
    requires tx.cmd.Delete? && DeleteInv(s.objects, tx) && Stable(s.objects, s'.objects, tx.x, tx.sh)
    ensures DeleteInv(s'.objects, tx)
  {
    var o, o' := s.objects, s'.objects;
    if Level(tx.stage) >= 2 { StableRow(s, s', tx); }
    if Level(tx.stage) >= 4 {
      StableListing(o, o', tx.x, tx.sh, tx.cmd.id, tx.es);
      if !tx.cmd.recursive { StableNoLiveChildren(o, o', tx.x, tx.sh, tx.cmd.id); }
    }
    if Level(tx.stage) >= 5 {
      ListedInStore(o', tx.cmd.id, tx.es);
      StableDeleteDelta(o, o', tx.x, tx.sh, tx.es, tx.now);
    }
  }

  lemma StableCommit(s: State, s': State, tx: Tx)
    requires tx.cmd.Commit? && CommitInv(s, tx) && Stable(s.objects, s'.objects, tx.x, tx.sh)
    requires forall u :: UploadRow(u) in tx.x && u in s.uploads ==> u in s'.uploads && s'.uploads[u] == s.uploads[u]
    ensures CommitInv(s', tx)
  {
    if Level(tx.stage) >= 2 { StableRow(s, s', tx); }
  }

  lemma StableCmd(s: State, s': State, tx: Tx)
    requires CmdInv(s, tx) && Stable(s.objects, s'.objects, tx.x, tx.sh)
    requires forall u :: UploadRow(u) in tx.x && u in s.uploads ==> u in s'.uploads && s'.uploads[u] == s.uploads[u]
    requires Level(tx.stage) < 6 || tx.noop
    ensures CmdInv(s', tx)
  {
    match tx.cmd
    case Create(_, _, _, _, _) => StableCreate(s, s', tx);
    case Patch(_, _, _, _, _) => StablePatch(s, s', tx);
    case Delete(_, _, _) => StableDelete(s, s', tx);
    case Commit(_, _, _, _, _) => StableCommit(s, s', tx);
  }

  /** What a commit that writes leaves of another transaction's facts. */
  lemma WriteKeepsOther(s: State, s': State, nextSeq: nat, tx: Tx, other: Tx)
    requires TxInv(s, nextSeq, tx) && tx.stage == Finished && !tx.noop
    requires TxInv(s, nextSeq, other) && Apart(tx.x, tx.sh, other.x, other.sh)
    requires s' == Merge(s, tx.delta, tx.base, tx.now)
    ensures TxInv(s', nextSeq, other)
  {
    assert ChangeOrder in tx.x;
    assert Level(other.stage) < 6 || other.noop;
    FinishedGuarded(s, nextSeq, tx);
    GuardedIsStable(s.objects, tx.delta.rows, tx.x, tx.sh, other.x, other.sh);
    forall u | UploadRow(u) in other.x && u in s.uploads ensures u in s'.uploads && s'.uploads[u] == s.uploads[u] {
      FinishedUploads(s, nextSeq, tx, u);
    }
    hide CmdInv, Stable, Guarded, Stamp;
    StableCmd(s, s', other);
  }

  lemma CommitKeepsOther(db: Db, db': Db, t: TxId, v: TxId)
    requires DbInv(db) && Next(db, db', CommitTx(t)) && v in db'.txs
    ensures TxInv(db'.store, db'.nextSeq, db'.txs[v])
  {
    hide Inv, TxInv, Apart, Merge, LogBelow;
    var s, tx, other := db.store, db.txs[t], db.txs[v];
    assert TxInv(s, db.nextSeq, tx) && TxInv(s, db.nextSeq, other);
    assert Apart(tx.x, tx.sh, other.x, other.sh);
    FinishedNoop(s, db.nextSeq, tx);
    if tx.noop {
      NoDeltaKeepsBlobs(s, tx.base, tx.now);
    } else {
      WriteKeepsOther(s, db'.store, db.nextSeq, tx, other);
    }
  }

  lemma CommitKeepsNumbers(db: Db, db': Db, t: TxId)
    requires LogBelow(db.store.log, db.nextSeq) && Next(db, db', CommitTx(t))
    requires TxInv(db.store, db.nextSeq, db.txs[t])
    ensures LogBelow(db'.store.log, db'.nextSeq)
  {
    FinishedNoop(db.store, db.nextSeq, db.txs[t]);
    hide CmdInv;
  }

  lemma CommitKeepsInv(db: Db, db': Db, t: TxId)
    requires DbInv(db) && Next(db, db', CommitTx(t))
    ensures DbInv(db')
  {
    hide Inv, Mutates;
    var tx := db.txs[t];
    assert TxInv(db.store, db.nextSeq, tx);
    CommitMutates(db, db', t);
    MutationKeepsInv(db.store, db'.store, tx.now, tx.cmd, tx.es, tx.delta, BaseOf(db.nextSeq, tx));
    CommitKeepsNumbers(db, db', t);
    hide LogBelow, Merge;
    forall v | v in db'.txs ensures TxInv(db'.store, db'.nextSeq, db'.txs[v]) {
      CommitKeepsOther(db, db', t, v);
    }
  }

  /** A side operation leaves objects, the log and every session it did not lock as they are. */
  lemma SideTouchesItsRows(s: State, op: SideOp, u: UploadId)
    requires SideEnabled(s, op) && UploadRow(u) !in SideRows(op) && u in s.uploads
    ensures u in SideApply(s, op).uploads && SideApply(s, op).uploads[u] == s.uploads[u]
  {
  }

  lemma CmdInvFrame(s: State, s': State, tx: Tx)
    requires CmdInv(s, tx) && s'.objects == s.objects
    requires tx.cmd.Commit? && tx.cmd.upload in s.uploads && UploadRow(tx.cmd.upload) in tx.x ==>
               tx.cmd.upload in s'.uploads && s'.uploads[tx.cmd.upload] == s.uploads[tx.cmd.upload]
    ensures CmdInv(s', tx)
  {
  }

  lemma SideKeepsOther(db: Db, db': Db, op: SideOp, v: TxId)
    requires DbInv(db) && Next(db, db', Side(op)) && v in db.txs
    ensures TxInv(db'.store, db'.nextSeq, db.txs[v])
  {
    var s, s', tx := db.store, db'.store, db.txs[v];
    assert TxInv(s, db.nextSeq, tx);
    CompletedUntouched(s, op, ROOT);
    if tx.cmd.Commit? && tx.cmd.upload in s.uploads && UploadRow(tx.cmd.upload) in tx.x {
      SideTouchesItsRows(s, op, tx.cmd.upload);
    }
    CmdInvFrame(s, s', tx);
  }

  lemma SideStepKeepsInv(db: Db, db': Db, op: SideOp)
    requires DbInv(db) && Next(db, db', Side(op))
    ensures DbInv(db')
  {
    SideKeepsInv(db.store, op);
    forall v | v in db'.txs ensures TxInv(db'.store, db'.nextSeq, db'.txs[v]) {
      SideKeepsOther(db, db', op, v);
    }
  }

  // ---------------------------------------------------------------------
  // Main results
  // ---------------------------------------------------------------------

  lemma StepKeepsDbInv(db: Db, db': Db, step: Step)
    requires DbInv(db) && Next(db, db', step)
    ensures DbInv(db')
  {
    match step
    case Start(t, cmd, now, idem) => StartKeepsInv(db, db', t, cmd, now, idem);
    case Run(t, local) => RunKeepsInv(db, db', t, local);
    case Append(t) => AppendKeepsInv(db, db', t);
    case CommitTx(t) => CommitKeepsInv(db, db', t);
    case Rollback(t) => RollbackKeepsInv(db, db', t);
    case Side(op) => SideStepKeepsInv(db, db', op);
  }

  /** Refinement: seen through its committed rows, every step of every
      interleaving is one atomic step of the store, and a commit is the atomic
      mutation of its own command on the store as it is at that moment. */
  lemma StepRefinesStore(db: Db, db': Db, step: Step)
    requires DbInv(db) && Next(db, db', step)
    ensures AtomicStep(db.store, db'.store)
    ensures step.CommitTx? ==>
              exists base: nat ::
                Mutates(db.store, db'.store, db.txs[step.t].now, db.txs[step.t].cmd, db.txs[step.t].es,
                        db.txs[step.t].delta, base)
  {
    match step
    case CommitTx(t) => CommitMutates(db, db', t);
    case Side(op) =>
    case _ =>
  }

  lemma InitialDbInv(db: Db)
    requires InitialDb(db)
    ensures DbInv(db)
  {
    InitialInv(db.store);
  }

  /** Every state of every interleaving satisfies the protocol and store invariants. */
  lemma {:induction false} ExecutionInv(run: seq<Db>, steps: seq<Step>, k: nat)
    requires IsExecution(run, steps) && k < |run|
    ensures DbInv(run[k])
    decreases k
  {
    hide DbInv, Next, InitialDb;
    if k == 0 {
      InitialDbInv(run[0]);
    } else {
      ExecutionInv(run, steps, k - 1);
      assert Next(run[k - 1], run[k - 1 + 1], steps[k - 1]);
      StepKeepsDbInv(run[k - 1], run[k], steps[k - 1]);
    }
  }

  /** In every interleaving the committed tree is sound: chains end at the root
      and no live object hangs under a deleted one. */
  lemma CommittedTreeSound(run: seq<Db>, steps: seq<Step>, k: nat, i: Id)
    requires IsExecution(run, steps) && k < |run|
    requires Live(run[k].store.objects, i) && i != ROOT
    ensures var o := run[k].store.objects;
            && o[i].parent.Some? && LiveFolder(o, o[i].parent.value)
            && ReachesRoot(o, i)
            && forall n: nat :: n > 0 ==> Up(o, i, n) != Some(i)
  {
    var o := run[k].store.objects;
    ExecutionInv(run, steps, k);
    assert ParentOk(o, i);
    forall n: nat | n > 0 ensures Up(o, i, n) != Some(i) {
      RootedIsAcyclic(o, i, n);
    }
  }

  lemma LogOnlyGrows(db: Db, db': Db, step: Step)
    requires DbInv(db) && Next(db, db', step)
    ensures db.store.log <= db'.store.log
  {
    if step.Side? { CompletedUntouched(db.store, step.op, ROOT); }
  }

  lemma LogPrefix(run: seq<Db>, steps: seq<Step>, j: nat, k: nat)
    requires IsExecution(run, steps) && j <= k < |run|
    ensures run[j].store.log <= run[k].store.log
    decreases k
  {
    hide DbInv, Next, InitialDb;
    if j < k {
      LogPrefix(run, steps, j, k - 1);
      ExecutionInv(run, steps, k - 1);
      assert Next(run[k - 1], run[k - 1 + 1], steps[k - 1]);
      LogOnlyGrows(run[k - 1], run[k], steps[k - 1]);
    }
  }

  /** Sequence numbers become visible in order: a commit only appends, and only
      above everything already committed, although numbers are allocated earlier
      and rolled-back ones are lost. */
  lemma CommitAppendsAbove(run: seq<Db>, steps: seq<Step>, j: nat, k: nat)
    requires IsExecution(run, steps) && j <= k < |run|
    ensures var early, late := run[j].store.log, run[k].store.log;
            && early <= late
            && forall m, n :: 0 <= m < |early| <= n < |late| ==> early[m].seqNo < late[n].seqNo
  {
    LogPrefix(run, steps, j, k);
    ExecutionInv(run, steps, k);
    assert Increasing(run[k].store.log);
  }

  // ---------------------------------------------------------------------
  // Waiting
  // ---------------------------------------------------------------------

  /** The exclusive locks the transaction's next statement needs. */
  function WantsExclusive(o: Objects, tx: Tx): set<Res> {
    match tx.stage
    case Begin =>
      (match tx.cmd
       case Create(_, _, _, _, _) => {}
       case Commit(upload, _, _, _, _) => {UploadRow(upload)}
       case _ => {ObjRow(tx.cmd.id)})
    case UploadLocked => {ObjRow(tx.cmd.id)}
    case Locked => {}
    case Shared => {}
    case Deriving => TargetLocks(tx.es) - tx.x
    case Checked => WriteLocks(o, tx)
    case Written => {ChangeOrder}
    case Ordered => {}
    case Verified => {}
    case Appended => if tx.idem.Some? then {IdemRow(tx.idem.value)} else {}
    case Finished => {}
  }

  function WantsShared(tx: Tx): set<Id> {
    if ((tx.stage == Begin && tx.cmd.Create?) || (tx.stage == Locked && tx.cmd.Patch?)) && Destination(tx).Some?
    then {Destination(tx).value} else {}
  }

  /** The next statement of `t` has to wait for a lock that `v` holds. */
  ghost predicate BlockedBy(db: Db, t: TxId, v: TxId) {
    && t in db.txs && v in db.txs && t != v
    && ((exists r :: r in WantsExclusive(db.store.objects, db.txs[t]) &&
                     (r in db.txs[v].x || (r.ObjRow? && r.id in db.txs[v].sh))) ||
        (exists i :: i in WantsShared(db.txs[t]) && ObjRow(i) in db.txs[v].x))
  }

  ghost predicate WaitChain(db: Db, chain: seq<TxId>) {
    && |chain| >= 2
    && (forall k :: 0 <= k < |chain| ==> chain[k] in db.txs)
    && forall k :: 0 <= k < |chain| - 1 ==> BlockedBy(db, chain[k], chain[k + 1])
  }

  /** Past the Change-order lock a transaction asks only for its idempotency row. */
  lemma HolderWants(o: Objects, tx: Tx, r: Res)
    requires OrderInv(tx) && ChangeOrder in tx.x
    ensures WantsShared(tx) == {}
    ensures r in WantsExclusive(o, tx) ==> r.IdemRow?
  {
  }

  lemma IdemHolderWantsNothing(o: Objects, tx: Tx, key: Key)
    requires OrderInv(tx) && IdemRow(key) in tx.x
    ensures tx.stage == Finished && WantsShared(tx) == {} && WantsExclusive(o, tx) == {}
  {
  }

  lemma BlockerOfHolder(db: Db, h: TxId, v: TxId)
    requires BlockedBy(db, h, v) && ChangeOrder in db.txs[h].x
    requires OrderInv(db.txs[h]) && OrderInv(db.txs[v])
    ensures exists key :: IdemRow(key) in db.txs[v].x
  {
    var o := db.store.objects;
    HolderWants(o, db.txs[h], ChangeOrder);
    var r :| r in WantsExclusive(o, db.txs[h]) && (r in db.txs[v].x || (r.ObjRow? && r.id in db.txs[v].sh));
    HolderWants(o, db.txs[h], r);
    assert IdemRow(r.key) in db.txs[v].x;
  }

  /** The holder of the Change-order lock waits at most for one idempotency row,
      whose holder waits for nothing. */
  lemma HolderWaitsShortly(db: Db, chain: seq<TxId>)
    requires DbInv(db) && WaitChain(db, chain)
    requires ChangeOrder in db.txs[chain[0]].x
    ensures |chain| == 2 && WantsExclusive(db.store.objects, db.txs[chain[1]]) == {}
  {
    hide Inv, CmdInv, SeqInv, OrderInv, WantsExclusive, WantsShared;
    var h, v := chain[0], chain[1];
    assert BlockedBy(db, chain[0], chain[0 + 1]);
    assert TxInv(db.store, db.nextSeq, db.txs[h]) && TxInv(db.store, db.nextSeq, db.txs[v]);
    BlockerOfHolder(db, h, v);
    var key :| IdemRow(key) in db.txs[v].x;
    IdemHolderWantsNothing(db.store.objects, db.txs[v], key);
    assert |chain| > 2 ==> BlockedBy(db, chain[1], chain[1 + 1]);
  }

  /** In every reachable state no chain of waiting leads from the holder of the
      Change-order lock to a transaction that itself waits for that lock. */
  lemma HolderNeverWaitsForWaiter(run: seq<Db>, steps: seq<Step>, k: nat, db: Db, chain: seq<TxId>)
    requires IsExecution(run, steps) && k < |run| && db == run[k]
    requires WaitChain(db, chain) && ChangeOrder in db.txs[chain[0]].x
    ensures ChangeOrder !in WantsExclusive(db.store.objects, db.txs[chain[|chain| - 1]])
  {
    assert DbInv(db) by { ExecutionInv(run, steps, k); }
    assert |chain| == 2 && WantsExclusive(db.store.objects, db.txs[chain[1]]) == {} by {
      HolderWaitsShortly(db, chain);
    }
  }
}
