/** The concurrent protocol delivers Changes to the feed the way the feed needs
    them: each commit is one append above everything already committed. */
module FeedRefinement {
  import opened Types
  import opened Store
  import opened StoreTheorems
  import opened Protocol
  import opened ProtocolInvariants
  import opened ProtocolTheorems
  import Feed
  import FeedTheorems

  /** Records numbered from above the log extend it in order. */
  lemma StampExtends(log: seq<Change>, pending: seq<Pending>, base: nat, now: int)
    requires pending != [] ==> 0 < base && forall k :: 0 <= k < |log| ==> log[k].seqNo < base
    ensures FeedTheorems.CanAppend(log, Stamp(pending, base, now))
  {
  }

  lemma FinishedExtends(s: State, nextSeq: nat, tx: Tx)
    requires TxInv(s, nextSeq, tx) && tx.stage == Finished
    ensures FeedTheorems.CanAppend(s.log, Stamp(tx.delta.pending, tx.base, tx.now))
  {
    FinishedNoop(s, nextSeq, tx);
    hide CmdInv, OrderInv;
    StampExtends(s.log, tx.delta.pending, tx.base, tx.now);
  }

  /** Whatever a transaction's own numbers were allocated after, its commit
      appends its records, in order, above every committed sequence number. */
  lemma CommitIsFeedAppend(db: Db, db': Db, t: TxId)
    requires DbInv(db) && Next(db, db', CommitTx(t))
    ensures var tx := db.txs[t];
            var batch := Stamp(tx.delta.pending, tx.base, tx.now);
            db'.store.log == db.store.log + batch && FeedTheorems.CanAppend(db.store.log, batch)
  {
    hide Inv, TxInv, LocksApart;
    FinishedExtends(db.store, db.nextSeq, db.txs[t]);
  }

  /** A feed that mirrors the committed log and applies each commit as an append
      keeps mirroring it, and keeps the feed invariant. */
  lemma FeedFollowsCommits(db: Db, db': Db, step: Step, s: Feed.FeedState)
    requires DbInv(db) && Next(db, db', step) && FeedTheorems.FeedInv(s) && s.full == db.store.log
    ensures if step.CommitTx? then
              var tx := db.txs[step.t];
              var s' := Feed.Append(s, Stamp(tx.delta.pending, tx.base, tx.now));
              FeedTheorems.FeedInv(s') && s'.full == db'.store.log
            else db'.store.log == s.full
  {
    match step
    case CommitTx(t) =>
      CommitIsFeedAppend(db, db', t);
      FeedTheorems.AppendKeepsInv(s, Stamp(db.txs[t].delta.pending, db.txs[t].base, db.txs[t].now));
    case Side(op) => CompletedUntouched(db.store, op, ROOT);
    case _ =>
  }
}
