/** Transactions and idempotency records together: one keyed request changes the
    store at most once.

    A client first acquires its key, then runs the mutation in a transaction that
    carries its owner token. The transaction's last statement finalises the record,
    guarded by the token, and its commit publishes rows, Changes and record at once. */
module ExactlyOnce {
  import opened Types
  import opened Tree
  import opened Store
  import opened StoreTheorems
  import opened Protocol
  import opened ProtocolInvariants
  import opened ProtocolTheorems
  import opened Idempotency
  import IdempotencyTheorems

  type Table = IdempotencyTheorems.Table

  /** `claims` holds the owner token each open keyed transaction carries. */
  datatype World = World(db: Db, table: Table, claims: map<TxId, Token>)

  datatype Event =
    | BeginTx(t: TxId, cmd: Cmd, now: int, token: Option<Token>)
    | Statement(step: Protocol.Step)
    | FinaliseTx(t: TxId, response: Response, expiresAt: int)
    | PublishTx(t: TxId)
    | AbandonTx(t: TxId)
    | Records(change: IdempotencyTheorems.Step)

  /** The attempt a record-only step belongs to. */
  function ActingToken(step: IdempotencyTheorems.Step): Option<Token> {
    match step
    case DoAcquire(_) => None
    case DoPurge(_) => None
    case _ => Some(step.token)
  }

  /** The statements that neither begin, finalise nor end a transaction, and the
      side operations. */
  predicate IsPlain(w: World, step: Protocol.Step) {
    match step
    case Run(t, local) => local.Finish? ==> t !in w.claims
    case Append(_) => true
    case Side(_) => true
    case _ => false
  }

  ghost predicate WorldNext(w: World, w': World, e: Event) {
    match e
    case BeginTx(t, cmd, now, None) =>
      && Next(w.db, w'.db, Start(t, cmd, now, None))
      && w'.table == w.table && w'.claims == w.claims
    case BeginTx(t, cmd, now, Some(token)) =>
      && token in w.table.attempts && w.table.attempts[token].phase == IdempotencyTheorems.Running
      && token !in w.claims.Values
      && Next(w.db, w'.db, Start(t, cmd, now, Some(w.table.attempts[token].key)))
      && w'.table == w.table && w'.claims == w.claims[t := token]
    case Statement(step) =>
      && IsPlain(w, step) && Next(w.db, w'.db, step)
      && w'.table == w.table && w'.claims == w.claims
    case FinaliseTx(t, response, expiresAt) =>
      && t in w.claims
      && Next(w.db, w'.db, Run(t, Finish))
      && IdempotencyTheorems.FinalizeStep(w.table, w'.table, w.claims[t], response, expiresAt)
      && w'.claims == w.claims
    case PublishTx(t) =>
      && Next(w.db, w'.db, CommitTx(t))
      && (if t in w.claims then IdempotencyTheorems.CommitStep(w.table, w'.table, w.claims[t])
          else w'.table == w.table)
      && w'.claims == w.claims - {t}
    case AbandonTx(t) =>
      && Next(w.db, w'.db, Rollback(t))
      && (if t in w.claims then IdempotencyTheorems.RollbackStep(w.table, w'.table, w.claims[t])
          else w'.table == w.table)
      && w'.claims == w.claims - {t}
    case Records(change) =>
      && (ActingToken(change).Some? ==> ActingToken(change).value !in w.claims.Values)
      && IdempotencyTheorems.Next(w.table, w'.table, change)
      && w'.db == w.db && w'.claims == w.claims
  }

  ghost predicate IsHistory(run: seq<World>, events: seq<Event>) {
    && |run| == |events| + 1
    && InitialDb(run[0].db)
    && run[0].table == IdempotencyTheorems.Table(map[], map[], {}, []) && run[0].claims == map[]
    && forall k :: 0 <= k < |events| ==> WorldNext(run[k], run[k + 1], events[k])
  }

  // ---------------------------------------------------------------------
  // Invariant
  // ---------------------------------------------------------------------

  /** A keyed transaction belongs to a live attempt on its key, and has finalised
      the record exactly when the attempt has. */
  ghost predicate ClaimOk(db: Db, table: Table, t: TxId, token: Token) {
    && t in db.txs && token in table.attempts
    && db.txs[t].idem == Some(table.attempts[token].key)
    && (db.txs[t].stage == Finished <==> table.attempts[token].phase.Finalised?)
  }

  ghost predicate ClaimsInv(w: World) {
    && (forall t :: t in w.claims ==> ClaimOk(w.db, w.table, t, w.claims[t]))
    && (forall t :: t in w.db.txs && w.db.txs[t].idem.Some? ==> t in w.claims)
    && (forall t, v :: t in w.claims && v in w.claims && w.claims[t] == w.claims[v] ==> t == v)
  }

  ghost predicate WorldInv(w: World) {
    DbInv(w.db) && IdempotencyTheorems.TableInv(w.table) && ClaimsInv(w)
  }

  /** The protocol step an event performs, if any. */
  function ProtocolStep(w: World, e: Event): Option<Protocol.Step> {
    match e
    case BeginTx(t, cmd, now, token) =>
      if token.None? then Some(Start(t, cmd, now, None))
      else if token.value in w.table.attempts then Some(Start(t, cmd, now, Some(w.table.attempts[token.value].key)))
      else None
    case Statement(step) => Some(step)
    case FinaliseTx(t, _, _) => Some(Run(t, Finish))
    case PublishTx(t) => Some(CommitTx(t))
    case AbandonTx(t) => Some(Rollback(t))
    case Records(_) => None
  }

  lemma DbStep(w: World, w': World, e: Event)
    requires DbInv(w.db) && WorldNext(w, w', e)
    ensures DbInv(w'.db)
    ensures match ProtocolStep(w, e)
            case Some(step) => Next(w.db, w'.db, step)
            case None => w'.db == w.db
  {
    hide DbInv, Next;
    var step := ProtocolStep(w, e);
    if step.Some? {
      StepKeepsDbInv(w.db, w'.db, step.value);
    }
  }

  lemma TableStep(w: World, w': World, e: Event)
    requires IdempotencyTheorems.TableInv(w.table) && WorldNext(w, w', e)
    ensures IdempotencyTheorems.TableInv(w'.table)
  {
    hide Protocol.Next, IdempotencyTheorems.TableInv;
    match e
    case FinaliseTx(t, response, expiresAt) =>
      IdempotencyTheorems.StepKeepsInv(w.table, w'.table,
                                       IdempotencyTheorems.DoFinalize(w.claims[t], response, expiresAt));
    case PublishTx(t) =>
      if t in w.claims {
        IdempotencyTheorems.StepKeepsInv(w.table, w'.table, IdempotencyTheorems.DoCommit(w.claims[t]));
      }
    case AbandonTx(t) =>
      if t in w.claims {
        IdempotencyTheorems.StepKeepsInv(w.table, w'.table, IdempotencyTheorems.DoRollback(w.claims[t]));
      }
    case Records(change) => IdempotencyTheorems.StepKeepsInv(w.table, w'.table, change);
    case _ =>
  }

  /** A finalised attempt holds its record's row, so it still owns it. */
  lemma FinalisedOwns(table: Table, token: Token)
    requires IdempotencyTheorems.TableInv(table) && token in table.attempts
    ensures table.attempts[token].phase.Finalised? ==> OwnedBy(table.records, table.attempts[token].key, token)
  {
    assert IdempotencyTheorems.AttemptOk(table, token);
  }

  lemma LocalFrame(db: Db, t: TxId, local: Local)
    requires t in db.txs && LocalEnabled(db, t, db.txs[t], local)
    ensures var tx' := LocalNext(db.store, db.txs[t], local);
            && tx'.idem == db.txs[t].idem
            && db.txs[t].stage != Finished
            && (tx'.stage == Finished <==> local.Finish?)
  {
    hide FreeExclusive, FreeShared, AllFree, WriteLocks, WriteSet, IsListing, IsSelfOrDescendant, IdList;
  }

  lemma OtherTxsKept(db: Db, db': Db, step: Protocol.Step)
    requires Next(db, db', step)
    ensures step.Side? ==> db'.txs == db.txs
    ensures !step.Side? ==> forall v :: v != step.t ==> (v in db'.txs <==> v in db.txs)
    ensures !step.Side? ==> forall v :: v != step.t && v in db.txs ==> db'.txs[v] == db.txs[v]
    ensures step.Start? ==> step.t !in db.txs && step.t in db'.txs
                            && db'.txs[step.t].idem == step.idem && db'.txs[step.t].stage == Begin
    ensures step.Run? || step.Append? ==>
              && step.t in db.txs && step.t in db'.txs && db'.txs[step.t].idem == db.txs[step.t].idem
              && db.txs[step.t].stage != Finished
              && (db'.txs[step.t].stage == Finished <==> step.Run? && step.step.Finish?)
    ensures step.CommitTx? || step.Rollback? ==> step.t in db.txs && step.t !in db'.txs
    ensures step.CommitTx? ==> db.txs[step.t].stage == Finished
  {
    hide LocalEnabled, LocalNext, SideEnabled, SideApply, SideUnlocked, Merge, WellFormed;
    if step.Run? {
      LocalFrame(db, step.t, step.step);
    }
  }

  /** A record-only step leaves the attempts of busy tokens alone. */
  lemma OtherAttemptsKept(t: Table, t': Table, step: IdempotencyTheorems.Step, token: Token)
    requires IdempotencyTheorems.TableInv(t) && IdempotencyTheorems.Next(t, t', step)
    requires token in t.attempts && ActingToken(step) != Some(token)
    ensures token in t'.attempts && t'.attempts[token] == t.attempts[token]
  {
    assert IdempotencyTheorems.AttemptOk(t, token);
  }

  lemma BeginKeepsClaims(w: World, w': World, e: Event)
    requires WorldInv(w) && WorldNext(w, w', e) && (e.BeginTx?)
    ensures ClaimsInv(w')
  {
    hide DbInv, Protocol.Next, IdempotencyTheorems.TableInv, IdempotencyTheorems.PurgeStep;
    DbStep(w, w', e);
    OtherTxsKept(w.db, w'.db, ProtocolStep(w, e).value);
    forall t | t in w'.claims ensures ClaimOk(w'.db, w'.table, t, w'.claims[t]) {
      assert t in w.claims ==> ClaimOk(w.db, w.table, t, w.claims[t]);
    }
  }

  lemma WorkKeepsClaims(w: World, w': World, e: Event)
    requires WorldInv(w) && WorldNext(w, w', e) && (e.Statement? || e.FinaliseTx?)
    ensures ClaimsInv(w')
  {
    hide DbInv, Protocol.Next, IdempotencyTheorems.TableInv, IdempotencyTheorems.PurgeStep;
    DbStep(w, w', e);
    OtherTxsKept(w.db, w'.db, ProtocolStep(w, e).value);
    forall t | t in w'.claims ensures ClaimOk(w'.db, w'.table, t, w'.claims[t]) {
      assert t in w.claims ==> ClaimOk(w.db, w.table, t, w.claims[t]);
    }
  }

  lemma EndKeepsClaims(w: World, w': World, e: Event)
    requires WorldInv(w) && WorldNext(w, w', e) && (e.PublishTx? || e.AbandonTx?)
    ensures ClaimsInv(w')
  {
    hide DbInv, Protocol.Next, IdempotencyTheorems.TableInv, IdempotencyTheorems.PurgeStep;
    DbStep(w, w', e);
    OtherTxsKept(w.db, w'.db, ProtocolStep(w, e).value);
    forall t | t in w'.claims ensures ClaimOk(w'.db, w'.table, t, w'.claims[t]) {
      assert t in w.claims ==> ClaimOk(w.db, w.table, t, w.claims[t]);
    }
  }

  lemma RecordsKeepClaims(w: World, w': World, e: Event)
    requires WorldInv(w) && WorldNext(w, w', e) && (e.Records?)
    ensures ClaimsInv(w')
  {
    hide DbInv, Protocol.Next, IdempotencyTheorems.TableInv, IdempotencyTheorems.PurgeStep;
    forall t | t in w'.claims ensures ClaimOk(w'.db, w'.table, t, w'.claims[t]) {
      assert ClaimOk(w.db, w.table, t, w.claims[t]);
      OtherAttemptsKept(w.table, w'.table, e.change, w.claims[t]);
    }
  }

  lemma StepKeepsClaims(w: World, w': World, e: Event)
    requires WorldInv(w) && WorldNext(w, w', e)
    ensures ClaimsInv(w')
  {
    hide WorldInv, WorldNext, ClaimsInv;
    match e
    case BeginTx(_, _, _, _) => BeginKeepsClaims(w, w', e);
    case Statement(_) => WorkKeepsClaims(w, w', e);
    case FinaliseTx(_, _, _) => WorkKeepsClaims(w, w', e);
    case PublishTx(_) => EndKeepsClaims(w, w', e);
    case AbandonTx(_) => EndKeepsClaims(w, w', e);
    case Records(_) => RecordsKeepClaims(w, w', e);
  }

  lemma StepKeepsWorldInv(w: World, w': World, e: Event)
    requires WorldInv(w) && WorldNext(w, w', e)
    ensures WorldInv(w')
  {
    DbStep(w, w', e);
    TableStep(w, w', e);
    StepKeepsClaims(w, w', e);
  }

  /** Every state of every history satisfies the joint invariant. */
  lemma {:induction false} HistoryInv(run: seq<World>, events: seq<Event>, k: nat)
    requires IsHistory(run, events) && k < |run|
    ensures WorldInv(run[k])
    decreases k
  {
    hide WorldNext, DbInv, IdempotencyTheorems.TableInv;
    if k == 0 {
      InitialWorld(run[0]);
    } else {
      HistoryInv(run, events, k - 1);
      assert WorldNext(run[k - 1], run[k - 1 + 1], events[k - 1]);
      StepKeepsWorldInv(run[k - 1], run[k], events[k - 1]);
    }
  }

  lemma InitialWorld(w: World)
    requires InitialDb(w.db) && w.table == IdempotencyTheorems.Table(map[], map[], {}, []) && w.claims == map[]
    ensures WorldInv(w)
  {
    InitialDbInv(w.db);
    hide DbInv;
  }

  // ---------------------------------------------------------------------
  // Exactly once
  // ---------------------------------------------------------------------

  predicate IsCompleted(table: Table, k: Key) {
    k in table.records && table.records[k].state.Completed?
  }

  /** The event commits something under key `k`: a mutation transaction, or the
      separate completion of an operation without one. */
  ghost predicate CommitsUnder(w: World, e: Event, k: Key) {
    || (e.PublishTx? && e.t in w.db.txs && w.db.txs[e.t].idem == Some(k))
    || (e.Records? && e.change.DoCommit? && e.change.token in w.table.attempts
        && w.table.attempts[e.change.token].key == k)
  }

  /** A keyed commit is all or nothing: the record is in progress and owned by the
      transaction's token until the very step that applies the atomic mutation, and
      completed by that step. */
  lemma KeyedCommitIsAtomic(w: World, w': World, t: TxId, k: Key)
    requires WorldInv(w) && WorldNext(w, w', PublishTx(t)) && t in w.db.txs && w.db.txs[t].idem == Some(k)
    ensures t in w.claims && OwnedBy(w.table.records, k, w.claims[t]) && IsCompleted(w'.table, k)
    ensures w.claims[t] in w.table.attempts && w.table.attempts[w.claims[t]].phase.Finalised?
    ensures var phase, row := w.table.attempts[w.claims[t]].phase, w.table.records[k];
            w'.table.records[k] ==
              Record(row.hash, row.createdAt, phase.expiresAt, RecordState.Completed(phase.response))
    ensures var tx := w.db.txs[t];
            Mutates(w.db.store, w'.db.store, tx.now, tx.cmd, tx.es, tx.delta, BaseOf(w.db.nextSeq, tx))
    ensures forall other :: other in w.table.records && other != k ==>
              other in w'.table.records && w'.table.records[other] == w.table.records[other]
  {
    hide DbInv, Protocol.Next, Mutates, IdempotencyTheorems.TableInv;
    assert ClaimOk(w.db, w.table, t, w.claims[t]);
    OtherTxsKept(w.db, w'.db, CommitTx(t));
    FinalisedOwns(w.table, w.claims[t]);
    CommitMutates(w.db, w'.db, t);
  }

  lemma CommitCompletesKey(w: World, w': World, e: Event, k: Key)
    requires WorldInv(w) && WorldNext(w, w', e) && CommitsUnder(w, e, k)
    ensures !IsCompleted(w.table, k) && IsCompleted(w'.table, k)
  {
    hide DbInv, Protocol.Next, IdempotencyTheorems.TableInv;
    if e.PublishTx? {
      assert ClaimOk(w.db, w.table, e.t, w.claims[e.t]);
      FinalisedOwns(w.table, w.claims[e.t]);
    } else {
      FinalisedOwns(w.table, e.change.token);
    }
  }

  /** A completed record stays as it is, response included, until it is removed, and
      nothing but a commit under its key completes one. */
  lemma CompletionStep(w: World, w': World, e: Event, k: Key)
    requires WorldInv(w) && WorldNext(w, w', e)
    ensures IsCompleted(w.table, k) && k in w'.table.records ==> w'.table.records[k] == w.table.records[k]
    ensures !IsCompleted(w.table, k) && IsCompleted(w'.table, k) ==> CommitsUnder(w, e, k)
  {
    hide DbInv, Protocol.Next, IdempotencyTheorems.TableInv;
    if e.PublishTx? && e.t in w.claims {
      assert ClaimOk(w.db, w.table, e.t, w.claims[e.t]);
      FinalisedOwns(w.table, w.claims[e.t]);
    }
    if e.Records? && e.change.DoCommit? {
      FinalisedOwns(w.table, e.change.token);
    }
  }

  ghost predicate RemovedAt(run: seq<World>, m: int, k: Key) {
    0 <= m < |run| - 1 && k in run[m].table.records && k !in run[m + 1].table.records
  }

  lemma {:induction false} CompletedUntilRemoved(run: seq<World>, events: seq<Event>, i: nat, j: nat, k: Key)
    requires IsHistory(run, events) && i <= j < |run| && IsCompleted(run[i].table, k)
    requires forall m :: i <= m < j ==> !RemovedAt(run, m, k)
    ensures k in run[j].table.records && run[j].table.records[k] == run[i].table.records[k]
    decreases j
  {
    hide WorldNext, WorldInv;
    if i < j {
      CompletedUntilRemoved(run, events, i, j - 1, k);
      HistoryInv(run, events, j - 1);
      assert WorldNext(run[j - 1], run[j - 1 + 1], events[j - 1]);
      CompletionStep(run[j - 1], run[j], events[j - 1], k);
      assert !RemovedAt(run, j - 1, k);
    }
  }

  /** In every history of transactions, acquires, takeovers, crashes, releases and
      purges, between two commits under one key that key's record was removed: while
      it is retained, at most one mutation commits for it. */
  lemma AtMostOneMutation(run: seq<World>, events: seq<Event>, i: nat, j: nat, k: Key)
    requires IsHistory(run, events) && i < j < |events|
    requires CommitsUnder(run[i], events[i], k) && CommitsUnder(run[j], events[j], k)
    ensures exists m :: i < m < j && RemovedAt(run, m, k)
  {
    hide WorldNext, WorldInv, CommitsUnder;
    assert WorldNext(run[i], run[i + 1], events[i]) && WorldNext(run[j], run[j + 1], events[j]);
    HistoryInv(run, events, i);
    HistoryInv(run, events, j);
    CommitCompletesKey(run[i], run[i + 1], events[i], k);
    CommitCompletesKey(run[j], run[j + 1], events[j], k);
    if forall m :: i + 1 <= m < j ==> !RemovedAt(run, m, k) {
      CompletedUntilRemoved(run, events, i + 1, j, k);
    }
  }

  /** A completed record, and so every replay of it, has a commit behind it: some
      earlier event committed under the key, and the record was not removed since. */
  lemma {:induction false} CompletedWasCommitted(run: seq<World>, events: seq<Event>, j: nat, k: Key) returns (i: nat)
    requires IsHistory(run, events) && j < |run| && IsCompleted(run[j].table, k)
    ensures i < j && CommitsUnder(run[i], events[i], k)
    ensures forall m :: i < m < j ==> !RemovedAt(run, m, k)
    decreases j
  {
    hide WorldNext, WorldInv, CommitsUnder;
    HistoryInv(run, events, j - 1);
    assert WorldNext(run[j - 1], run[j - 1 + 1], events[j - 1]);
    CompletionStep(run[j - 1], run[j], events[j - 1], k);
    if IsCompleted(run[j - 1].table, k) {
      i := CompletedWasCommitted(run, events, j - 1, k);
    } else {
      i := j - 1;
    }
  }

  /** What a replay of key `k` answers at the `i`-th event, if it is one. */
  ghost predicate Replays(w: World, e: Event, k: Key, hash: Hash, response: Response) {
    && e.Records? && e.change.DoAcquire? && e.change.req.key == k && e.change.req.hash == hash
    && Acquire(w.table.records, e.change.req).1 == Replay(response)
  }

  /** A replay answers with the response that was committed together with the
      mutation: nothing removed the record between the commit and the replay. */
  lemma ReplayAnswersCommit(run: seq<World>, events: seq<Event>, i: nat, j: nat, k: Key, hash: Hash, response: Response)
    requires IsHistory(run, events) && i < j < |events|
    requires CommitsUnder(run[i], events[i], k) && Replays(run[j], events[j], k, hash, response)
    requires forall m :: i < m < j ==> !RemovedAt(run, m, k)
    ensures k in run[i + 1].table.records && run[i + 1].table.records[k].state == RecordState.Completed(response)
    ensures run[i + 1].table.records[k].hash == hash
  {
    hide WorldNext, WorldInv, CommitsUnder;
    assert WorldNext(run[i], run[i + 1], events[i]);
    HistoryInv(run, events, i);
    CommitCompletesKey(run[i], run[i + 1], events[i], k);
    CompletedUntilRemoved(run, events, i + 1, j, k);
  }

  ghost function Stores(run: seq<World>): (stores: seq<State>)
    ensures |stores| == |run| && forall k :: 0 <= k < |run| ==> stores[k] == run[k].db.store
  {
    seq(|run|, k requires 0 <= k < |run| => run[k].db.store)
  }

  lemma StoreStep(w: World, w': World, e: Event)
    requires DbInv(w.db) && WorldNext(w, w', e)
    ensures AtomicStep(w.db.store, w'.db.store)
  {
    hide DbInv, WorldNext, Protocol.Next, AtomicStep;
    DbStep(w, w', e);
    var step := ProtocolStep(w, e);
    if step.Some? {
      StepRefinesStore(w.db, w'.db, step.value);
    } else {
      NoStep(w.db.store);
    }
  }

  lemma NoStep(s: State)
    ensures AtomicStep(s, s)
  {
  }

  /** Seen without the records, a history is a run of the atomic store, so
      everything proved of runs holds of it. */
  lemma HistoryIsRun(run: seq<World>, events: seq<Event>)
    requires IsHistory(run, events)
    ensures IsRun(Stores(run))
  {
    var stores := Stores(run);
    hide DbInv, AtomicStep, Initial, WorldNext, IdempotencyTheorems.TableInv, ClaimsInv;
    forall k | 0 <= k < |stores| - 1 ensures AtomicStep(stores[k], stores[k + 1]) {
      HistoryInv(run, events, k);
      StoreStep(run[k], run[k + 1], events[k]);
    }
  }
}
