/** Idempotency records: leases, takeover, finalisation inside the mutation
    transaction, release, crash and purge. */
module Idempotency {
  import opened Types

  type Token = nat
  type Hash = nat
  type Response = nat

  /** The record's scope: principal, operation and idempotency key. */
  datatype Key = Key(principal: Text, operation: Text, key: Text)

  datatype RecordState =
    | InProgress(owner: Token, leaseUntil: int)
    | Completed(response: Response)

  datatype Record = Record(hash: Hash, createdAt: int, expiresAt: int, state: RecordState)

  datatype Request = Request(key: Key, hash: Hash, token: Token, now: int, leaseUntil: int, expiresAt: int)

  datatype Decision = Owner(resourceToken: int) | Replay(response: Response) | Conflict | RateLimited

  function Claim(req: Request): Record {
    Record(req.hash, req.now, req.expiresAt, InProgress(req.token, req.leaseUntil))
  }

  predicate LeaseExpired(row: Record, now: int) {
    row.state.InProgress? && row.state.leaseUntil <= now
  }

  /** `acquire` as one step: the decision and the records it leaves behind. */
  function Acquire(records: map<Key, Record>, req: Request): (map<Key, Record>, Decision) {
    if req.key !in records then (records[req.key := Claim(req)], Owner(req.now))
    else
      var row := records[req.key];
      if row.hash != req.hash then (records, Conflict)
      else if row.state.Completed? then (records, Replay(row.state.response))
      else if LeaseExpired(row, req.now)
      then (records[req.key := row.(state := InProgress(req.token, req.leaseUntil))], Owner(row.createdAt))
      else (records, RateLimited)
  }

  predicate OwnedBy(records: map<Key, Record>, key: Key, token: Token) {
    key in records && records[key].state.InProgress? && records[key].state.owner == token
  }

  function Finalize(row: Record, response: Response, expiresAt: int): Record {
    row.(state := Completed(response), expiresAt := expiresAt)
  }

  function ExpiredKeys(records: map<Key, Record>, now: int): set<Key> {
    set k | k in records && records[k].expiresAt <= now
  }

  /** What `acquire` answers and writes, by the record it finds: a fresh claim, a
      conflict, the stored response, a wait, or the takeover of a lease that has run
      out, which keeps hash and resource token. */
  ghost predicate AcquireOutcome(before: map<Key, Record>, after: map<Key, Record>, req: Request, d: Decision) {
    if req.key !in before then
      && d == Owner(req.now)
      && after == before[req.key := Record(req.hash, req.now, req.expiresAt, InProgress(req.token, req.leaseUntil))]
    else
      var row := before[req.key];
      if row.hash != req.hash then d == Conflict && after == before
      else
        match row.state
        case Completed(response) => d == Replay(response) && after == before
        case InProgress(_, leaseUntil) =>
          if req.now < leaseUntil then d == RateLimited && after == before
          else
            && d == Owner(row.createdAt)
            && after == before[req.key :=
                 Record(row.hash, row.createdAt, row.expiresAt, InProgress(req.token, req.leaseUntil))]
  }

  lemma AcquireHasOutcome(records: map<Key, Record>, req: Request)
    ensures AcquireOutcome(records, Acquire(records, req).0, req, Acquire(records, req).1)
  {
  }

  /** Exactly the records whose time is up are gone. */
  ghost predicate PurgeOutcome(before: map<Key, Record>, after: map<Key, Record>, now: int, count: nat) {
    && (forall k :: k in after <==> k in before && before[k].expiresAt > now)
    && (forall k :: k in after ==> after[k] == before[k])
    && count == |set k | k in before && before[k].expiresAt <= now|
  }

  /** The adapter's own object: one table, updated in place. */
  class IdempotencyStore {
    var records: map<Key, Record>

    method AcquireKey(req: Request) returns (d: Decision)
      modifies this
      ensures (records, d) == Acquire(old(records), req)
      ensures AcquireOutcome(old(records), records, req, d)
    {
      if req.key !in records {
        records := records[req.key := Claim(req)];
        return Owner(req.now);
      }
      var row := records[req.key];
      if row.hash != req.hash {
        return Conflict;
      }
      if row.state.Completed? {
        return Replay(row.state.response);
      }
      if row.state.leaseUntil <= req.now {
        records := records[req.key := row.(state := InProgress(req.token, req.leaseUntil))];
        return Owner(row.createdAt);
      }
      return RateLimited;
    }

    /** Fails, changing nothing, when the lease was taken over or the record is gone. */
    method Complete(key: Key, token: Token, response: Response, expiresAt: int) returns (ok: bool)
      modifies this
      ensures ok <==> && key in old(records) && old(records)[key].state.InProgress?
                      && old(records)[key].state.owner == token
      ensures ok ==>
                var row := old(records)[key];
                records == old(records)[key :=
                  Record(row.hash, row.createdAt, expiresAt, RecordState.Completed(response))]
      ensures ok == OwnedBy(old(records), key, token)
      ensures records == if ok then old(records)[key := Finalize(old(records)[key], response, expiresAt)]
                         else old(records)
    {
      ok := OwnedBy(records, key, token);
      if ok {
        records := records[key := Finalize(records[key], response, expiresAt)];
      }
    }

    method FailOrRelease(key: Key, token: Token)
      modifies this
      ensures records == if OwnedBy(old(records), key, token) then old(records) - {key} else old(records)
      ensures forall k :: k in records <==>
                && k in old(records)
                && !(k == key && old(records)[k].state.InProgress? && old(records)[k].state.owner == token)
      ensures forall k :: k in records ==> records[k] == old(records)[k]
    {
      if OwnedBy(records, key, token) {
        records := records - {key};
      }
    }

    method Purge(now: int) returns (count: nat)
      modifies this
      ensures records == old(records) - ExpiredKeys(old(records), now)
      ensures count == |ExpiredKeys(old(records), now)|
      ensures PurgeOutcome(old(records), records, now, count)
    {
      var keys := ExpiredKeys(records, now);
      count := |keys|;
      records := records - keys;
    }
  }
}
