/** Exactly-once over every run of attempts, takeovers, crashes and purges. */
module IdempotencyTheorems {
  import opened Idempotency

  /** An attempt that acquired the key. `Finalised` means its open transaction has
      updated the record and holds its row lock, but has not committed. */
  datatype Phase = Running | Finalised(response: Response, expiresAt: int)

  datatype Attempt = Attempt(key: Key, hash: Hash, resourceToken: int, phase: Phase)

  /** What happened, in commit order. */
  datatype Event =
    | Owned(key: Key, hash: Hash, resourceToken: int)
    | Committed(key: Key, hash: Hash, response: Response)
    | Replayed(key: Key, hash: Hash, response: Response)
    | Removed(keys: set<Key>)

  /** The committed records, the open attempts, every token ever used, the history. */
  datatype Table = Table(
    records: map<Key, Record>,
    attempts: map<Token, Attempt>,
    used: set<Token>,
    history: seq<Event>)

  datatype Step =
    | DoAcquire(req: Request)
    | DoFinalize(token: Token, response: Response, expiresAt: int)
    | DoCommit(token: Token)
    | DoRollback(token: Token)
    | DoCrash(token: Token)
    | DoRelease(token: Token)
    | DoPurge(now: int)

  /** Some open transaction holds the row lock of `key`'s record. */
  ghost predicate RowLocked(t: Table, key: Key) {
    exists a :: a in t.attempts && t.attempts[a].key == key && t.attempts[a].phase.Finalised?
  }

  function Recorded(req: Request, d: Decision): seq<Event> {
    match d
    case Owner(resourceToken) => [Owned(req.key, req.hash, resourceToken)]
    case Replay(response) => [Replayed(req.key, req.hash, response)]
    case _ => []
  }

  /** A takeover waits for the row lock; every attempt brings a token of its own. */
  ghost predicate AcquireStep(t: Table, t': Table, req: Request) {
    var (records, d) := Acquire(t.records, req);
    && req.token !in t.used
    && (req.key in t.records && d.Owner? ==> !RowLocked(t, req.key))
    && t' == Table(
      records,
      if d.Owner? then t.attempts[req.token := Attempt(req.key, req.hash, d.resourceToken, Running)] else t.attempts,
      t.used + {req.token},
      t.history + Recorded(req, d))
  }

  /** The mutation transaction updates the record only if it still owns it. */
  ghost predicate FinalizeStep(t: Table, t': Table, token: Token, response: Response, expiresAt: int) {
    && token in t.attempts && t.attempts[token].phase == Running
    && OwnedBy(t.records, t.attempts[token].key, token)
    && t' == t.(attempts := t.attempts[token := t.attempts[token].(phase := Finalised(response, expiresAt))])
  }

  /** The mutation and its record commit together; the caller may still try a release. */
  ghost predicate CommitStep(t: Table, t': Table, token: Token) {
    && token in t.attempts && t.attempts[token].phase.Finalised?
    && var a := t.attempts[token];
    && a.key in t.records
    && t' == t.(records := t.records[a.key := Finalize(t.records[a.key], a.phase.response, a.phase.expiresAt)],
                attempts := t.attempts[token := a.(phase := Running)],
                history := t.history + [Committed(a.key, a.hash, a.phase.response)])
  }

  ghost predicate RollbackStep(t: Table, t': Table, token: Token) {
    && token in t.attempts
    && t' == t.(attempts := t.attempts[token := t.attempts[token].(phase := Running)])
  }

  ghost predicate ReleaseStep(t: Table, t': Table, token: Token) {
    && token in t.attempts && t.attempts[token].phase == Running
    && var a := t.attempts[token];
    && t' == if OwnedBy(t.records, a.key, token)
             then t.(records := t.records - {a.key}, attempts := t.attempts - {token},
                     history := t.history + [Removed({a.key})])
             else t.(attempts := t.attempts - {token})
  }

  ghost predicate PurgeStep(t: Table, t': Table, now: int) {
    var keys := ExpiredKeys(t.records, now);
    && (forall k :: k in keys ==> !RowLocked(t, k))
    && t' == t.(records := t.records - keys, history := t.history + [Removed(keys)])
  }

  ghost predicate Next(t: Table, t': Table, step: Step) {
    match step
    case DoAcquire(req) => AcquireStep(t, t', req)
    case DoFinalize(token, response, expiresAt) => FinalizeStep(t, t', token, response, expiresAt)
    case DoCommit(token) => CommitStep(t, t', token)
    case DoRollback(token) => RollbackStep(t, t', token)
    case DoCrash(token) => token in t.attempts && t' == t.(attempts := t.attempts - {token})
    case DoRelease(token) => ReleaseStep(t, t', token)
    case DoPurge(now) => PurgeStep(t, t', now)
  }

  ghost predicate IsRun(run: seq<Table>, steps: seq<Step>) {
    && |run| == |steps| + 1
    && run[0] == Table(map[], map[], {}, [])
    && forall k :: 0 <= k < |steps| ==> Next(run[k], run[k + 1], steps[k])
  }

  // ---------------------------------------------------------------------
  // One life of a record, as its history tells it
  // ---------------------------------------------------------------------

  /** `Unclaimed`, then claimed with one hash and resource token, then done with one response. */
  datatype Life =
    | Unclaimed
    | Claimed(hash: Hash, resourceToken: int)
    | Done(hash: Hash, resourceToken: int, response: Response)
    | Broken

  function Live(l: Life, e: Event, k: Key): Life {
    match e
    case Removed(keys) => if k in keys then Unclaimed else l
    case Owned(key, hash, resourceToken) =>
      if key != k then l
      else if l == Unclaimed || l == Claimed(hash, resourceToken) then Claimed(hash, resourceToken)
      else Broken
    case Committed(key, hash, response) =>
      if key != k then l
      else if l.Claimed? && l.hash == hash then Done(hash, l.resourceToken, response) else Broken
    case Replayed(key, hash, response) =>
      if key != k then l
      else if l.Done? && l.hash == hash && l.response == response then l else Broken
  }

  function LifeOf(h: seq<Event>, k: Key): Life {
    if h == [] then Unclaimed else Live(LifeOf(h[..|h| - 1], k), h[|h| - 1], k)
  }

  function LifeOfRecord(records: map<Key, Record>, k: Key): Life {
    if k !in records then Unclaimed
    else match records[k].state
      case InProgress(_, _) => Claimed(records[k].hash, records[k].createdAt)
      case Completed(response) => Done(records[k].hash, records[k].createdAt, response)
  }

  lemma LifeAppend(h: seq<Event>, e: Event, k: Key)
    ensures LifeOf(h + [e], k) == Live(LifeOf(h, k), e, k)
  {
    assert (h + [e])[..|h|] == h;
  }

  /** The history tells each record's state, an owner's attempt remembers its
      record's hash and resource token, and a row lock belongs to the owner. */
  ghost predicate AttemptOk(t: Table, token: Token)
    requires token in t.attempts
  {
    var a := t.attempts[token];
    && token in t.used
    && (OwnedBy(t.records, a.key, token) ==>
          t.records[a.key].hash == a.hash && t.records[a.key].createdAt == a.resourceToken)
    && (a.phase.Finalised? ==> OwnedBy(t.records, a.key, token))
  }

  ghost predicate TableInv(t: Table) {
    && (forall k: Key :: LifeOf(t.history, k) == LifeOfRecord(t.records, k))
    && (forall token :: token in t.attempts ==> AttemptOk(t, token))
    && (forall k :: k in t.records && t.records[k].state.InProgress? ==> t.records[k].state.owner in t.used)
  }

  lemma AcquireKeepsAttempts(t: Table, t': Table, req: Request, token: Token)
    requires AcquireStep(t, t', req) && token in t'.attempts
    requires token in t.attempts ==> AttemptOk(t, token)
    requires forall k :: k in t.records && t.records[k].state.InProgress? ==> t.records[k].state.owner in t.used
    ensures AttemptOk(t', token)
  {
  }

  lemma AcquireKeepsHistory(t: Table, t': Table, req: Request, k: Key)
    requires AcquireStep(t, t', req) && LifeOf(t.history, k) == LifeOfRecord(t.records, k)
    ensures LifeOf(t'.history, k) == LifeOfRecord(t'.records, k)
  {
    var d := Acquire(t.records, req).1;
    if d.Owner? || d.Replay? {
      LifeAppend(t.history, Recorded(req, d)[0], k);
    } else {
      assert t'.history == t.history;
    }
  }

  lemma AcquireKeepsInv(t: Table, t': Table, req: Request)
    requires TableInv(t) && AcquireStep(t, t', req)
    ensures TableInv(t')
  {
    hide LifeOf, LifeOfRecord, AttemptOk;
    forall k: Key ensures LifeOf(t'.history, k) == LifeOfRecord(t'.records, k) {
      AcquireKeepsHistory(t, t', req, k);
    }
    forall token | token in t'.attempts ensures AttemptOk(t', token) {
      AcquireKeepsAttempts(t, t', req, token);
    }
  }

  lemma CommitKeepsInv(t: Table, t': Table, token: Token)
    requires TableInv(t) && CommitStep(t, t', token)
    ensures TableInv(t')
  {
    var a := t.attempts[token];
    assert AttemptOk(t, token);
    forall k: Key ensures LifeOf(t'.history, k) == LifeOfRecord(t'.records, k) {
      assert LifeOf(t.history, k) == LifeOfRecord(t.records, k);
      LifeAppend(t.history, Committed(a.key, a.hash, a.phase.response), k);
    }
    forall b | b in t'.attempts ensures AttemptOk(t', b) { assert AttemptOk(t, b); }
  }

  lemma RemoveKeepsInv(t: Table, t': Table, keys: set<Key>)
    requires TableInv(t) && t'.records == t.records - keys && t'.history == t.history + [Removed(keys)]
    requires t'.used == t.used && t'.attempts.Keys <= t.attempts.Keys
    requires forall a :: a in t'.attempts ==> t'.attempts[a] == t.attempts[a]
    requires forall a :: a in t'.attempts && t'.attempts[a].phase.Finalised? ==> t'.attempts[a].key !in keys
    ensures TableInv(t')
  {
    forall k: Key ensures LifeOf(t'.history, k) == LifeOfRecord(t'.records, k) {
      assert LifeOf(t.history, k) == LifeOfRecord(t.records, k);
      LifeAppend(t.history, Removed(keys), k);
    }
    forall b | b in t'.attempts ensures AttemptOk(t', b) { assert AttemptOk(t, b); }
  }

  lemma StepKeepsInv(t: Table, t': Table, step: Step)
    requires TableInv(t) && Next(t, t', step)
    ensures TableInv(t')
  {
    match step
    case DoAcquire(req) => AcquireKeepsInv(t, t', req);
    case DoCommit(token) => CommitKeepsInv(t, t', token);
    case DoRelease(token) =>
      assert AttemptOk(t, token);
      if OwnedBy(t.records, t.attempts[token].key, token) {
        forall b | b in t'.attempts ensures AttemptOk(t, b) {}
        RemoveKeepsInv(t, t', {t.attempts[token].key});
      } else {
        forall b | b in t'.attempts ensures AttemptOk(t', b) { assert AttemptOk(t, b); }
      }
    case DoPurge(now) => RemoveKeepsInv(t, t', ExpiredKeys(t.records, now));
    case _ =>
      forall b | b in t'.attempts ensures AttemptOk(t', b) { assert AttemptOk(t, b); }
  }

  lemma {:induction false} RunInv(run: seq<Table>, steps: seq<Step>, k: nat)
    requires IsRun(run, steps) && k < |run|
    ensures TableInv(run[k])
    decreases k
  {
    if k > 0 {
      RunInv(run, steps, k - 1);
      assert Next(run[k - 1], run[k - 1 + 1], steps[k - 1]);
      StepKeepsInv(run[k - 1], run[k], steps[k - 1]);
    }
  }

  // ---------------------------------------------------------------------
  // Exactly once
  // ---------------------------------------------------------------------

  ghost predicate Removes(e: Event, k: Key) {
    e.Removed? && k in e.keys
  }

  /** A life never changes hash or resource token, and once done never changes at all. */
  ghost predicate Continues(l: Life, m: Life) {
    && (l.Claimed? ==> (m.Claimed? || m.Done?) && m.hash == l.hash && m.resourceToken == l.resourceToken)
    && (l.Done? ==> m == l)
    && (l.Broken? ==> m.Broken?)
  }

  lemma {:induction false} LifeContinues(h: seq<Event>, k: Key, i: nat, j: nat)
    requires i <= j <= |h| && !LifeOf(h[..j], k).Broken?
    requires forall m :: i <= m < j ==> !Removes(h[m], k)
    ensures Continues(LifeOf(h[..i], k), LifeOf(h[..j], k))
    decreases j
  {
    if i < j {
      assert h[..j][..j - 1] == h[..j - 1];
      LifeContinues(h, k, i, j - 1);
    }
  }

  /** Every prefix of a run's history is sound, removals included. */
  lemma {:induction false} PrefixSound(run: seq<Table>, steps: seq<Step>, r: nat, k: Key, i: nat)
    requires IsRun(run, steps) && r < |run| && i <= |run[r].history|
    ensures !LifeOf(run[r].history[..i], k).Broken?
    decreases r
  {
    RunInv(run, steps, r);
    var h := run[r].history;
    assert LifeOf(h, k) == LifeOfRecord(run[r].records, k);
    if i == |h| {
      assert h[..i] == h;
    } else if r > 0 {
      assert Next(run[r - 1], run[r - 1 + 1], steps[r - 1]);
      HistoryStep(run[r - 1], run[r], steps[r - 1]);
      assert h[..i] == run[r - 1].history[..i];
      PrefixSound(run, steps, r - 1, k, i);
    }
  }

  lemma HistoryStep(t: Table, t': Table, step: Step)
    requires Next(t, t', step)
    ensures t.history <= t'.history && |t'.history| <= |t.history| + 1
  {
  }

  predicate SuccessOf(e: Event, k: Key) {
    (e.Committed? || e.Replayed?) && e.key == k
  }

  lemma LifeAt(run: seq<Table>, steps: seq<Step>, r: nat, k: Key, i: nat)
    requires IsRun(run, steps) && r < |run| && i < |run[r].history|
    ensures var h := run[r].history;
            LifeOf(h[..i + 1], k) == Live(LifeOf(h[..i], k), h[i], k) && !LifeOf(h[..i + 1], k).Broken?
  {
    var h := run[r].history;
    assert h[..i + 1] == h[..i] + [h[i]];
    LifeAppend(h[..i], h[i], k);
    PrefixSound(run, steps, r, k, i + 1);
  }

  /** Between two committed mutations of one key its record was removed, so while
      a record is retained at most one mutation commits. */
  lemma AtMostOneCommit(run: seq<Table>, steps: seq<Step>, r: nat, k: Key, i: nat, j: nat)
    requires IsRun(run, steps) && r < |run| && i < j < |run[r].history|
    requires run[r].history[i].Committed? && run[r].history[i].key == k
    requires run[r].history[j].Committed? && run[r].history[j].key == k
    ensures exists m :: i < m < j && Removes(run[r].history[m], k)
  {
    var h := run[r].history;
    LifeAt(run, steps, r, k, i);
    LifeAt(run, steps, r, k, j);
    PrefixSound(run, steps, r, k, j);
    if forall m :: i + 1 <= m < j ==> !Removes(h[m], k) {
      LifeContinues(h, k, i + 1, j);
    }
  }

  /** While the record is retained every success, first or replayed, returns the
      same response for the same request hash. */
  lemma SameResponse(run: seq<Table>, steps: seq<Step>, r: nat, k: Key, i: nat, j: nat)
    requires IsRun(run, steps) && r < |run| && i < j < |run[r].history|
    requires SuccessOf(run[r].history[i], k) && SuccessOf(run[r].history[j], k)
    requires forall m :: i < m < j ==> !Removes(run[r].history[m], k)
    ensures run[r].history[j].Replayed?
    ensures run[r].history[i].response == run[r].history[j].response
    ensures run[r].history[i].hash == run[r].history[j].hash
  {
    var h := run[r].history;
    LifeAt(run, steps, r, k, i);
    LifeAt(run, steps, r, k, j);
    PrefixSound(run, steps, r, k, j);
    LifeContinues(h, k, i + 1, j);
  }

  /** A key that is done was committed, and its record has not been removed since. */
  lemma {:induction false} DoneHasCommit(run: seq<Table>, steps: seq<Step>, r: nat, k: Key, j: nat) returns (i: nat)
    requires IsRun(run, steps) && r < |run| && j <= |run[r].history|
    requires LifeOf(run[r].history[..j], k).Done?
    ensures var l := LifeOf(run[r].history[..j], k);
            i < j && run[r].history[i] == Committed(k, l.hash, l.response)
    ensures forall m :: i < m < j ==> !Removes(run[r].history[m], k)
    decreases j
  {
    var h := run[r].history;
    LifeAt(run, steps, r, k, j - 1);
    assert h[..j][..j - 1] == h[..j - 1];
    if LifeOf(h[..j - 1], k).Done? {
      i := DoneHasCommit(run, steps, r, k, j - 1);
    } else {
      i := j - 1;
    }
  }

  /** Every replayed response was committed earlier with that hash, in the same
      life of the record. */
  lemma ReplayHasCommit(run: seq<Table>, steps: seq<Step>, r: nat, j: nat)
    requires IsRun(run, steps) && r < |run| && j < |run[r].history| && run[r].history[j].Replayed?
    ensures var e := run[r].history[j];
            exists i ::
              && 0 <= i < j && run[r].history[i] == Committed(e.key, e.hash, e.response)
              && forall m :: i < m < j ==> !Removes(run[r].history[m], e.key)
  {
    var k := run[r].history[j].key;
    LifeAt(run, steps, r, k, j);
    var i := DoneHasCommit(run, steps, r, k, j);
  }

  // ---------------------------------------------------------------------
  // Leases
  // ---------------------------------------------------------------------

  /** The `i`-th step makes its request the owner of `k`. */
  ghost predicate TakesOwnership(run: seq<Table>, steps: seq<Step>, i: int, k: Key) {
    && 0 <= i < |steps| && i < |run|
    && steps[i].DoAcquire? && steps[i].req.key == k
    && Acquire(run[i].records, steps[i].req).1.Owner?
  }

  ghost predicate RemovedAt(run: seq<Table>, m: int, k: Key) {
    0 <= m < |run| - 1 && k in run[m].records && k !in run[m + 1].records
  }

  /** Until the next owner or a removal, the record is the last owner's, with the
      lease it asked for. */
  ghost predicate HeldFor(t: Table, k: Key, req: Request) {
    && k in t.records
    && (t.records[k].state.InProgress? ==>
          t.records[k].state.owner == req.token && t.records[k].state.leaseUntil == req.leaseUntil)
  }

  lemma OwnershipStarts(t: Table, t': Table, req: Request)
    requires AcquireStep(t, t', req) && Acquire(t.records, req).1.Owner?
    ensures HeldFor(t', req.key, req)
  {
  }

  lemma OwnershipLasts(t: Table, t': Table, step: Step, k: Key, req: Request)
    requires Next(t, t', step) && HeldFor(t, k, req) && k in t'.records
    requires step.DoAcquire? && step.req.key == k ==> !Acquire(t.records, step.req).1.Owner?
    ensures HeldFor(t', k, req)
  {
  }

  lemma {:induction false} LeaseHeld(run: seq<Table>, steps: seq<Step>, i: nat, n: nat, k: Key)
    requires IsRun(run, steps) && i < n < |run| && TakesOwnership(run, steps, i, k)
    requires forall m :: i < m < n ==> !TakesOwnership(run, steps, m, k) && !RemovedAt(run, m, k)
    ensures HeldFor(run[n], k, steps[i].req)
    decreases n
  {
    hide Next, HeldFor, Acquire;
    assert Next(run[n - 1], run[n - 1 + 1], steps[n - 1]);
    if n == i + 1 {
      AcquireIsStep(run[i], run[i + 1], steps[i]);
      OwnershipStarts(run[i], run[i + 1], steps[i].req);
    } else {
      LeaseHeld(run, steps, i, n - 1, k);
      assert !TakesOwnership(run, steps, n - 1, k) && !RemovedAt(run, n - 1, k);
      HeldMeansPresent(run[n - 1], k, steps[i].req);
      OwnershipLasts(run[n - 1], run[n], steps[n - 1], k, steps[i].req);
    }
  }

  lemma AcquireIsStep(t: Table, t': Table, step: Step)
    requires Next(t, t', step) && step.DoAcquire?
    ensures AcquireStep(t, t', step.req)
  {
  }

  lemma HeldMeansPresent(t: Table, k: Key, req: Request)
    requires HeldFor(t, k, req)
    ensures k in t.records
  {
  }

  /** An owner is followed by another one only when its lease has run out, unless the
      record was removed in between. */
  lemma LeaseRespected(run: seq<Table>, steps: seq<Step>, i: nat, j: nat, k: Key)
    requires IsRun(run, steps) && i < j
    requires TakesOwnership(run, steps, i, k) && TakesOwnership(run, steps, j, k)
    requires forall m :: i < m < j ==> !TakesOwnership(run, steps, m, k)
    ensures steps[i].req.leaseUntil <= steps[j].req.now || exists m :: i < m < j && RemovedAt(run, m, k)
  {
    if forall m :: i < m < j ==> !RemovedAt(run, m, k) {
      LeaseHeld(run, steps, i, j, k);
    }
  }

  // ---------------------------------------------------------------------
  // Derived resources
  // ---------------------------------------------------------------------

  /** `derived_id`, with the digest taken as injective on the scope it hashes. */
  datatype DerivedId = DerivedId(key: Key, hash: Hash, resourceToken: int)

  function DeriveFrom(e: Event): DerivedId
    requires e.Owned?
  {
    DerivedId(e.key, e.hash, e.resourceToken)
  }

  /** Only the same scope derives the same id. */
  lemma DerivedIdsDiffer(a: Event, b: Event)
    requires a.Owned? && b.Owned?
    ensures DeriveFrom(a) == DeriveFrom(b) <==> a.key == b.key && a.hash == b.hash && a.resourceToken == b.resourceToken
  {
  }

  /** All owners during one retained record's life derive the same upload id, so
      inserting by that id leaves at most one session however often the lease is
      taken over. */
  lemma OwnersDeriveSameId(run: seq<Table>, steps: seq<Step>, r: nat, k: Key, i: nat, j: nat)
    requires IsRun(run, steps) && r < |run| && i < j < |run[r].history|
    requires run[r].history[i].Owned? && run[r].history[i].key == k
    requires run[r].history[j].Owned? && run[r].history[j].key == k
    requires forall m :: i < m < j ==> !Removes(run[r].history[m], k)
    ensures DeriveFrom(run[r].history[i]) == DeriveFrom(run[r].history[j])
  {
    var h := run[r].history;
    LifeAt(run, steps, r, k, i);
    LifeAt(run, steps, r, k, j);
    PrefixSound(run, steps, r, k, j);
    LifeContinues(h, k, i + 1, j);
  }
}
