/** What readers and the collector can rely on in every state of every
    interleaving of transactions. */
module Reachable {
  import opened Types
  import opened Tree
  import opened TreeInvariants
  import opened Store
  import opened StoreTheorems
  import opened Protocol
  import opened ProtocolInvariants
  import opened ProtocolTheorems
  import Paths
  import PathTheorems
  import Feed
  import FeedTheorems
  import FeedRefinement
  import Completions
  import Effects

  lemma ReachableStore(run: seq<Db>, steps: seq<Step>, k: nat)
    requires IsExecution(run, steps) && k < |run|
    ensures Inv(run[k].store) && TreeInv(run[k].store.objects) && NamesInv(run[k].store.objects)
  {
    hide IsExecution, TxInv, LocksApart, LogBelow, TreeInv, NamesInv;
    ExecutionInv(run, steps, k);
  }

  /** Resolving a live object's rendered path returns it. */
  lemma RenderThenResolve(run: seq<Db>, steps: seq<Step>, k: nat, i: Id)
    requires IsExecution(run, steps) && k < |run| && Live(run[k].store.objects, i)
    ensures PathTheorems.Resolve(run[k].store.objects, PathTheorems.PathOf(run[k].store.objects, i)) == Some(i)
  {
    ReachableStore(run, steps, k);
    hide IsExecution, Inv, TreeInv, NamesInv, PathTheorems.PathOf, PathTheorems.Resolve;
    PathTheorems.ResolveRendered(run[k].store.objects, i);
  }

  /** Every path that resolves to an object normalises to its rendered path. */
  lemma ResolveThenRender(run: seq<Db>, steps: seq<Step>, k: nat, path: Text, i: Id)
    requires IsExecution(run, steps) && k < |run|
    requires PathTheorems.Resolve(run[k].store.objects, path) == Some(i)
    ensures Live(run[k].store.objects, i)
    ensures Paths.Split(path).Some?
    ensures PathTheorems.PathOf(run[k].store.objects, i) == Paths.Render(Paths.Split(path).value)
  {
    assert Paths.Split(path).Some?;
    ReachableStore(run, steps, k);
    hide IsExecution, Inv, TreeInv, NamesInv, PathTheorems.PathOf, PathTheorems.Resolve, Paths.Split, Paths.Render;
    PathTheorems.RenderedIsNormal(run[k].store.objects, path);
  }

  /** The committed stores of an execution, one for each of its states. */
  ghost function Stores(run: seq<Db>): (stores: seq<State>)
    ensures |stores| == |run| && forall k :: 0 <= k < |run| ==> stores[k] == run[k].store
  {
    seq(|run|, k requires 0 <= k < |run| => run[k].store)
  }

  /** Whatever interleaves, the committed stores form a run of the atomic store. */
  lemma ExecutionIsRun(run: seq<Db>, steps: seq<Step>)
    requires IsExecution(run, steps)
    ensures IsRun(Stores(run))
  {
    var stores := Stores(run);
    hide DbInv, AtomicStep, Initial, Next;
    forall k | 0 <= k < |stores| - 1 ensures AtomicStep(stores[k], stores[k + 1]) {
      ExecutionInv(run, steps, k);
      StepRefinesStore(run[k], run[k + 1], steps[k]);
    }
  }

  /** Once claimed for collection, a blob is never live content again. */
  lemma ClaimedStaysDead(run: seq<Db>, steps: seq<Step>, j: nat, k: nat, b: Blob)
    requires IsExecution(run, steps) && j <= k < |run| && b in run[j].store.claimed
    ensures !LiveBlob(run[k].store.objects, b)
  {
    ExecutionIsRun(run, steps);
    hide IsExecution, IsRun;
    ClaimedNeverLive(Stores(run), j, k, b);
  }

  /** From any state on, every completed session keeps its own content record, and
      new completions get records of their own. */
  lemma CommittedCompletions(run: seq<Db>, steps: seq<Step>, j: nat, k: nat, rec: Completions.Ledger)
    returns (later: Completions.Ledger)
    requires IsExecution(run, steps) && j <= k < |run| && Completions.IsLedger(run[j].store, rec)
    ensures Completions.IsLedger(run[k].store, later) && Completions.Extends(rec, later)
  {
    ExecutionIsRun(run, steps);
    hide IsExecution, IsRun, Completions.IsLedger;
    later := Completions.LedgerGrows(Stores(run), j, k, rec);
  }

  /** Completed sessions and content records correspond one to one in every state. */
  lemma CompletionsAreRecords(run: seq<Db>, steps: seq<Step>, k: nat)
    requires IsExecution(run, steps) && k < |run|
    ensures exists rec :: Completions.IsLedger(run[k].store, rec)
  {
    ExecutionIsRun(run, steps);
    hide IsExecution, IsRun, Completions.IsLedger;
    Completions.CompletionBijection(Stores(run), k);
  }

  /** A session once aborted or expired never completes, whatever runs beside it. */
  lemma EndedSessionsStayEnded(run: seq<Db>, steps: seq<Step>, j: nat, k: nat, u: UploadId)
    requires IsExecution(run, steps) && j <= k < |run| && Completions.Ended(run[j].store, u)
    ensures Completions.Ended(run[k].store, u) && !Completions.IsCompleted(run[k].store, u)
  {
    ExecutionIsRun(run, steps);
    hide IsExecution, IsRun;
    Completions.EndedNeverCompletes(Stores(run), j, k, u);
  }

  /** Every session's blob is in exactly one class, and no object's current blob
      is queued, claimed or collected. */
  lemma BlobsClassified(run: seq<Db>, steps: seq<Step>, k: nat, u: UploadId)
    requires IsExecution(run, steps) && k < |run| && u in run[k].store.uploads
    ensures var s := run[k].store;
            && (IsPending(s, u) || IsCurrent(s, u) || IsRetired(s, u))
            && !(IsPending(s, u) && IsCurrent(s, u))
            && !(IsPending(s, u) && IsRetired(s, u))
            && !(IsCurrent(s, u) && IsRetired(s, u))
    ensures LiveBlob(run[k].store.objects, run[k].store.uploads[u].blob) ==>
              && run[k].store.uploads[u].blob !in run[k].store.gc
              && run[k].store.uploads[u].blob !in run[k].store.claimed
              && run[k].store.uploads[u].blob !in run[k].store.collected
  {
    ReachableStore(run, steps, k);
    hide IsExecution, Inv, IsPending, IsCurrent, IsRetired, LiveBlob;
    BlobClasses(run[k].store, u);
    LiveBlobsAreSafe(run[k].store, run[k].store.uploads[u].blob);
  }

  /** A committed patch, whatever ran beside it, moves the object's subtree as a whole. */
  lemma CommittedPatchMovesSubtree(run: seq<Db>, steps: seq<Step>, k: nat, t: TxId, i: Id)
    requires IsExecution(run, steps) && k < |steps| && steps[k] == CommitTx(t)
    requires t in run[k].txs && run[k].txs[t].cmd.Patch? && run[k].txs[t].cmd.id != ROOT
    requires i in run[k].store.objects
    ensures PathTheorems.MovesAsWhole(run[k].store.objects, run[k + 1].store.objects, run[k].txs[t].cmd.id, i)
  {
    assert Next(run[k], run[k + 1], steps[k]);
    ExecutionInv(run, steps, k);
    ReachableStore(run, steps, k);
    hide IsExecution, Inv, DbInv, Next, Mutates, PathTheorems.MovesAsWhole;
    var tx := run[k].txs[t];
    CommitMutates(run[k], run[k + 1], t);
    PathTheorems.PatchMovesWholeSubtree(run[k].store, run[k + 1].store, tx.now, tx.cmd, tx.es, tx.delta,
                                        BaseOf(run[k].nextSeq, tx), i);
  }

  /** Whatever ran beside it, a committed transaction writes exactly what its command
      asks for, on the rows as they are at the commit. */
  lemma CommittedWrites(run: seq<Db>, steps: seq<Step>, k: nat, t: TxId)
    requires IsExecution(run, steps) && k < |steps| && steps[k] == CommitTx(t) && t in run[k].txs
    ensures var tx := run[k].txs[t];
            && Effects.Writes(run[k].store, run[k + 1].store, tx.cmd, tx.now)
            && Effects.Appends(run[k].store, run[k + 1].store, tx.now, BaseOf(run[k].nextSeq, tx))
  {
    assert Next(run[k], run[k + 1], steps[k]);
    ExecutionInv(run, steps, k);
    ReachableStore(run, steps, k);
    assert Rooted(run[k].store.objects);
    hide IsExecution, Inv, DbInv, Next, Mutates, TreeInv, NamesInv, Rooted, Effects.Writes, Effects.Appends;
    var tx := run[k].txs[t];
    CommitMutates(run[k], run[k + 1], t);
    Effects.MutationWrites(run[k].store, run[k + 1].store, tx.now, tx.cmd, tx.es, tx.delta,
                           BaseOf(run[k].nextSeq, tx));
  }

  /** No lost update: a transaction sent with a revision commits only while that is
      the object's committed revision. */
  lemma CommittedOnMatchedRevision(run: seq<Db>, steps: seq<Step>, k: nat, t: TxId)
    requires IsExecution(run, steps) && k < |steps| && steps[k] == CommitTx(t) && t in run[k].txs
    requires !run[k].txs[t].cmd.Create? && run[k].txs[t].cmd.ifMatch.Some?
    ensures var cmd := run[k].txs[t].cmd;
            cmd.id in run[k].store.objects && run[k].store.objects[cmd.id].revision == cmd.ifMatch.value
  {
    assert Next(run[k], run[k + 1], steps[k]);
    ExecutionInv(run, steps, k);
    ReachableStore(run, steps, k);
    assert Rooted(run[k].store.objects);
    hide IsExecution, Inv, DbInv, Next, Mutates, TreeInv, NamesInv, Rooted;
    var tx := run[k].txs[t];
    CommitMutates(run[k], run[k + 1], t);
    Effects.MatchedRevision(run[k].store, run[k + 1].store, tx.now, tx.cmd, tx.es, tx.delta,
                            BaseOf(run[k].nextSeq, tx));
  }

  /** A committed delete, whatever ran beside it, ends exactly the live subtree of
      its target as it is at the commit. */
  lemma CommittedDeleteRemovesExactly(run: seq<Db>, steps: seq<Step>, k: nat, t: TxId, i: Id)
    requires IsExecution(run, steps) && k < |steps| && steps[k] == CommitTx(t)
    requires t in run[k].txs && run[k].txs[t].cmd.Delete? && Live(run[k].store.objects, i)
    ensures !Live(run[k + 1].store.objects, i) <==> Beneath(run[k].store.objects, i, run[k].txs[t].cmd.id)
  {
    assert Next(run[k], run[k + 1], steps[k]);
    ExecutionInv(run, steps, k);
    hide IsExecution, Inv, DbInv, Next, Mutates, SubtreeDeleted, Beneath;
    var tx := run[k].txs[t];
    CommitMutates(run[k], run[k + 1], t);
    DeleteTombstonesSubtree(run[k].store, run[k + 1].store, tx.now, tx.cmd, tx.es, tx.delta,
                            BaseOf(run[k].nextSeq, tx));
    DeleteRemovesExactly(run[k].store, run[k + 1].store, tx.cmd.id, tx.es, i);
  }

  /** Its records are one tombstone per member, at the member's next revision, every
      child before its parent. */
  lemma CommittedDeleteChildFirst(run: seq<Db>, steps: seq<Step>, k: nat, t: TxId, c: int, p: int)
    requires IsExecution(run, steps) && k < |steps| && steps[k] == CommitTx(t)
    requires t in run[k].txs && run[k].txs[t].cmd.Delete?
    requires |run[k].store.log| <= c < |run[k + 1].store.log| && |run[k].store.log| <= p < |run[k + 1].store.log|
    requires var o, log := run[k].store.objects, run[k + 1].store.log;
             log[c].oid in o && o[log[c].oid].parent == Some(log[p].oid)
    ensures var o, log := run[k].store.objects, run[k + 1].store.log;
            && c < p && log[c].action == Deleted && log[p].action == Deleted
            && log[c].revision == o[log[c].oid].revision + 1
            && forall m :: |run[k].store.log| <= m < |log| && m != c ==> log[m].oid != log[c].oid
  {
    assert Next(run[k], run[k + 1], steps[k]);
    ExecutionInv(run, steps, k);
    ReachableStore(run, steps, k);
    assert Rooted(run[k].store.objects);
    hide IsExecution, Inv, DbInv, Next, Mutates, SubtreeDeleted, TreeInv, NamesInv, Rooted;
    var tx := run[k].txs[t];
    CommitMutates(run[k], run[k + 1], t);
    DeleteTombstonesSubtree(run[k].store, run[k + 1].store, tx.now, tx.cmd, tx.es, tx.delta,
                            BaseOf(run[k].nextSeq, tx));
    TombstonesChildFirst(run[k].store, run[k + 1].store, tx.cmd.id, tx.es, c, p);
  }

  /** The feed of an execution: one append per commit. */
  ghost function FeedAt(run: seq<Db>, steps: seq<Step>, k: nat): Feed.FeedState
    requires |run| == |steps| + 1 && k < |run|
  {
    if k == 0 then Feed.FeedState([], map[], 0, [], {}, map[])
    else
      var before := FeedAt(run, steps, k - 1);
      if steps[k - 1].CommitTx? && steps[k - 1].t in run[k - 1].txs then
        var tx := run[k - 1].txs[steps[k - 1].t];
        Feed.Append(before, Stamp(tx.delta.pending, tx.base, tx.now))
      else before
  }

  /** In every execution the feed is the committed log, and every commit was an
      append a follower can rely on. */
  lemma {:induction false} FeedMirrorsExecution(run: seq<Db>, steps: seq<Step>, k: nat)
    requires IsExecution(run, steps) && k < |run|
    ensures FeedAt(run, steps, k).full == run[k].store.log && FeedTheorems.FeedInv(FeedAt(run, steps, k))
    decreases k
  {
    hide DbInv, Next, Initial, Feed.Append, FeedTheorems.FeedInv;
    EmptyFeedOk();
    NoLogYet(run[0].store);
    if k > 0 {
      FeedMirrorsExecution(run, steps, k - 1);
      ExecutionInv(run, steps, k - 1);
      assert Next(run[k - 1], run[k - 1 + 1], steps[k - 1]);
      FeedStep(run[k - 1], run[k], steps[k - 1], FeedAt(run, steps, k - 1));
    }
  }

  lemma EmptyFeedOk()
    ensures FeedTheorems.FeedInv(Feed.FeedState([], map[], 0, [], {}, map[]))
  {
  }

  lemma NoLogYet(s: State)
    ensures Initial(s) ==> s.log == []
  {
  }

  lemma FeedStep(db: Db, db': Db, step: Step, s: Feed.FeedState)
    requires DbInv(db) && Next(db, db', step) && FeedTheorems.FeedInv(s) && s.full == db.store.log
    ensures step.CommitTx? ==> step.t in db.txs
    ensures var s' := if step.CommitTx?
                      then var tx := db.txs[step.t]; Feed.Append(s, Stamp(tx.delta.pending, tx.base, tx.now))
                      else s;
            FeedTheorems.FeedInv(s') && s'.full == db'.store.log
  {
    FeedRefinement.FeedFollowsCommits(db, db', step, s);
  }
}
