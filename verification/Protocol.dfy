/** The concurrent transactions of the PostgreSQL adapter, statement by statement.

    A statement reads the committed rows as of its own start. A locking read is
    enabled only once the lock is compatible, and then sees the newest row. Locks
    are held to the end of the transaction. A rollback, which stands for every
    error return, timeout and crash, is enabled at any point and gives back
    everything except allocated sequence numbers. */
module Protocol {
  import opened Types
  import opened Tree
  import opened Store
  import Idempotency

  type TxId = nat
  type Key = Idempotency.Key

  datatype Res =
    | ObjRow(id: Id)
    | UploadRow(upload: UploadId)
    | NameKey(parent: Option<Id>, name: Text)
    | QueueRow(blob: Blob)
    | ChangeOrder
    | IdemRow(key: Key)

  datatype Stage =
    | Begin
    | UploadLocked
    | Locked
    | Shared
    | Deriving
    | Checked
    | Written
    | Ordered
    | Verified
    | Appended
    | Finished

  /** One open transaction. `x` and `sh` are its exclusive and shared locks;
      `row` and `up` are the rows it read under lock; `es` is the subtree it last
      derived; `delta` is its uncommitted write set. */
  datatype Tx = Tx(
    cmd: Cmd,
    now: int,
    idem: Option<Key>,
    stage: Stage,
    noop: bool,
    x: set<Res>,
    sh: set<Id>,
    row: Option<Row>,
    up: Option<Upload>,
    es: seq<Entry>,
    attempts: nat,
    delta: Delta,
    base: nat)

  datatype Db = Db(store: State, nextSeq: nat, txs: map<TxId, Tx>)

  const DESCENDANT_LOCK_ATTEMPTS: nat := 5

  function NewTx(cmd: Cmd, now: int, idem: Option<Key>): Tx {
    Tx(cmd, now, idem, Begin, false, {}, {}, None, None, [], 0, NO_DELTA, 0)
  }

  // ---------------------------------------------------------------------
  // Locks
  // ---------------------------------------------------------------------

  /** No other transaction holds any lock on `r`. */
  ghost predicate FreeExclusive(db: Db, t: TxId, r: Res) {
    forall v :: v in db.txs && v != t ==> r !in db.txs[v].x && (r.ObjRow? ==> r.id !in db.txs[v].sh)
  }

  /** No other transaction holds row `i` exclusively. */
  ghost predicate FreeShared(db: Db, t: TxId, i: Id) {
    forall v :: v in db.txs && v != t ==> ObjRow(i) !in db.txs[v].x
  }

  ghost predicate AllFree(db: Db, t: TxId, rs: set<Res>) {
    forall r :: r in rs ==> FreeExclusive(db, t, r)
  }

  /** The object whose parent folder a create or a move locks in share mode. */
  function Destination(tx: Tx): Option<Id> {
    match tx.cmd
    case Create(_, parent, _, _, _) => Some(parent)
    case Patch(_, _, _, _, _) => if tx.row.Some? then PatchedRow(tx.row.value, tx.cmd).parent else None
    case _ => None
  }

  /** The index keys, new rows and queue rows the write statements lock. */
  function WriteLocks(o: Objects, tx: Tx): set<Res> {
    match tx.cmd
    case Create(id, parent, _, name, _) => {ObjRow(id), NameKey(Some(parent), name)}
    case Patch(_, _, _, _, _) =>
      if tx.row.Some?
      then var t := PatchedRow(tx.row.value, tx.cmd); {NameKey(t.parent, t.name)}
      else {}
    case Delete(_, _, _) => set b | b in DeletedBlobs(o, tx.es) :: QueueRow(b)
    case Commit(_, _, _, blob, _) =>
      {QueueRow(blob)} +
      (if tx.row.Some? && tx.row.value.blob.Some? then {QueueRow(tx.row.value.blob.value)} else {})
  }

  /** What a derivation returns: ids alone, deepest first. */
  function IdList(es: seq<Entry>): (ids: seq<Id>)
    ensures |ids| == |es| && forall k :: 0 <= k < |es| ==> ids[k] == es[k].id
  {
    seq(|es|, k requires 0 <= k < |es| => es[k].id)
  }

  function TargetLocks(es: seq<Entry>): set<Res> {
    set i | i in Ids(es) :: ObjRow(i)
  }

  // ---------------------------------------------------------------------
  // Steps
  // ---------------------------------------------------------------------

  /** `UPDATE ... WHERE deleted_at IS NULL` skips targets that are no longer live. */
  function LiveEntries(o: Objects, es: seq<Entry>): (r: seq<Entry>)
    ensures forall k :: 0 <= k < |r| ==> r[k].id in o
  {
    if es == [] then []
    else
      var e := es[|es| - 1];
      LiveEntries(o, es[..|es| - 1]) + (if Live(o, e.id) then [e] else [])
  }

  /** The write set of the transaction's own statements, from the rows it read
      under lock and, for a delete, the committed rows it updates. */
  function WriteSet(o: Objects, tx: Tx): Delta {
    match tx.cmd
    case Create(_, _, _, _, _) => CreateDelta(tx.cmd)
    case Patch(_, _, _, _, _) => if tx.row.Some? then PatchDelta(tx.row.value, tx.cmd) else NO_DELTA
    case Delete(_, _, _) => DeleteDelta(o, LiveEntries(o, tx.es), tx.now)
    case Commit(_, _, _, _, _) =>
      if tx.row.Some? && tx.up.Some? then CommitDelta(tx.up.value, tx.row.value, tx.cmd) else NO_DELTA
  }

  /** The unique index admits the row a create or a patch writes. */
  ghost predicate IndexAdmits(o: Objects, tx: Tx) {
    match tx.cmd
    case Create(id, parent, _, name, _) => id !in o && NameFree(o, id, Some(parent), name)
    case Patch(id, _, _, _, _) =>
      tx.row.Some? &&
      var t := PatchedRow(tx.row.value, tx.cmd);
      NameFree(o, id, t.parent, t.name)
    case _ => true
  }

  /** A folder move, the one mutation that can close a cycle. */
  ghost predicate MovesFolder(tx: Tx) {
    && tx.cmd.Patch? && tx.row.Some?
    && PatchMoves(tx.row.value, tx.cmd) && tx.row.value.kind == Folder
  }

  /** What a locking read of the object row must find. */
  ghost predicate RowAccepted(row: Row, cmd: Cmd) {
    match cmd
    case Create(_, _, _, _, _) => false
    case Patch(_, _, _, _, _) => PatchRowOk(row, cmd)
    case Delete(_, _, _) => DeleteRowOk(row, cmd)
    case Commit(_, _, _, _, _) => CommitRowOk(row, cmd)
  }

  /** Steps that change only the transaction itself. */
  datatype Local =
    | LockUpload
    | LockObject
    | LockDestination
    | WalkUnlocked
    | SkipMove
    | CheckChildren
    | Derive(found: seq<Entry>)
    | LockTarget(target: Id)
    | CheckUpload
    | SkipWrite
    | Write
    | TakeOrder
    | Recheck
    | Finish

  datatype Step =
    | Start(t: TxId, cmd: Cmd, now: int, idem: Option<Key>)
    | Run(t: TxId, step: Local)
    | Append(t: TxId)
    | CommitTx(t: TxId)
    | Rollback(t: TxId)
    | Side(op: SideOp)

  ghost predicate LocalEnabled(db: Db, t: TxId, tx: Tx, step: Local) {
    var o := db.store.objects;
    match step
    case LockUpload =>
      && tx.stage == Begin && tx.cmd.Commit?
      && FreeExclusive(db, t, UploadRow(tx.cmd.upload))
      && tx.cmd.upload in db.store.uploads
      && UploadRowOk(db.store.uploads[tx.cmd.upload], tx.cmd)
    case LockObject =>
      && ((tx.stage == Begin && (tx.cmd.Patch? || tx.cmd.Delete?)) || tx.stage == UploadLocked)
      && FreeExclusive(db, t, ObjRow(tx.cmd.id))
      && tx.cmd.id in o && RowAccepted(o[tx.cmd.id], tx.cmd)
    case LockDestination =>
      && ((tx.stage == Begin && tx.cmd.Create?) ||
          (tx.stage == Locked && tx.cmd.Patch? && tx.row.Some? && PatchMoves(tx.row.value, tx.cmd)))
      && Destination(tx).Some?
      && FreeShared(db, t, Destination(tx).value)
      && LiveFolder(o, Destination(tx).value)
    case WalkUnlocked =>
      && tx.stage == Shared && Destination(tx).Some?
      && (MovesFolder(tx) ==> !IsSelfOrDescendant(o, Destination(tx).value, tx.cmd.id))
    case SkipMove =>
      && tx.stage == Locked && tx.cmd.Patch? && tx.row.Some?
      && !PatchMoves(tx.row.value, tx.cmd) && !PatchIsNoOp(tx.row.value, tx.cmd)
    case CheckChildren =>
      && tx.stage == Locked && tx.cmd.Delete? && tx.row.Some?
      && !(tx.row.value.kind == Folder && tx.cmd.recursive)
      && (tx.row.value.kind == Folder ==> NoLiveChildren(o, tx.cmd.id))
    case Derive(found) =>
      && tx.cmd.Delete? && tx.cmd.recursive && tx.row.Some? && tx.row.value.kind == Folder
      && (tx.stage == Locked || (tx.stage == Deriving && TargetLocks(tx.es) <= tx.x))
      && tx.attempts < DESCENDANT_LOCK_ATTEMPTS
      && IsListing(o, tx.cmd.id, found)
    case LockTarget(i) =>
      && tx.stage == Deriving && i in Ids(tx.es)
      && FreeExclusive(db, t, ObjRow(i))
    case CheckUpload =>
      tx.stage == Locked && tx.cmd.Commit? && tx.up.Some? && !tx.up.value.state.Completed?
    case SkipWrite =>
      && tx.stage == Locked && tx.row.Some?
      && ((tx.cmd.Patch? && PatchIsNoOp(tx.row.value, tx.cmd)) ||
          (tx.cmd.Commit? && tx.up.Some? && tx.up.value.state.Completed?))
    case Write =>
      tx.stage == Checked && AllFree(db, t, WriteLocks(o, tx)) && IndexAdmits(o, tx)
    case TakeOrder => tx.stage == Written && FreeExclusive(db, t, ChangeOrder)
    case Recheck =>
      && tx.stage == Ordered
      && (MovesFolder(tx) ==>
            && Destination(tx).Some?
            && !IsSelfOrDescendant(o + tx.delta.rows, Destination(tx).value, tx.cmd.id))
    case Finish =>
      tx.stage == Appended && (tx.idem.Some? ==> FreeExclusive(db, t, IdemRow(tx.idem.value)))
  }

  function LocalNext(s: State, tx: Tx, step: Local): Tx {
    match step
    case LockUpload =>
      if tx.cmd.Commit? && tx.cmd.upload in s.uploads
      then tx.(stage := UploadLocked, x := tx.x + {UploadRow(tx.cmd.upload)}, up := Some(s.uploads[tx.cmd.upload]))
      else tx
    case LockObject =>
      if tx.cmd.id in s.objects
      then tx.(stage := Locked, x := tx.x + {ObjRow(tx.cmd.id)}, row := Some(s.objects[tx.cmd.id]))
      else tx
    case LockDestination =>
      if Destination(tx).Some?
      then tx.(stage := if tx.cmd.Create? then Checked else Shared, sh := tx.sh + {Destination(tx).value})
      else tx
    case WalkUnlocked => tx.(stage := Checked)
    case SkipMove => tx.(stage := Checked)
    case CheckChildren => tx.(stage := Checked, es := [Entry(0, tx.cmd.id)])
    case Derive(found) =>
      if tx.stage == Deriving && IdList(found) == IdList(tx.es) then tx.(stage := Checked, es := found)
      else tx.(stage := Deriving, es := found, attempts := tx.attempts + 1)
    case LockTarget(i) => tx.(x := tx.x + {ObjRow(i)})
    case CheckUpload => tx.(stage := Checked)
    case SkipWrite => tx.(stage := Appended, noop := true)
    case Write =>
      tx.(stage := Written, x := tx.x + WriteLocks(s.objects, tx), delta := WriteSet(s.objects, tx))
    case TakeOrder => tx.(stage := Ordered, x := tx.x + {ChangeOrder})
    case Recheck => tx.(stage := Verified)
    case Finish =>
      tx.(stage := Finished, x := tx.x + (if tx.idem.Some? then {IdemRow(tx.idem.value)} else {}))
  }

  /** A side operation's statement waits for, or skips, rows other transactions hold. */
  ghost predicate SideUnlocked(db: Db, op: SideOp) {
    forall v, r :: v in db.txs && r in SideRows(op) ==> r !in db.txs[v].x
  }

  function SideRows(op: SideOp): set<Res> {
    match op
    case OpenUpload(u, _, _) => {UploadRow(u)}
    case AdvanceUpload(u, _) => {UploadRow(u)}
    case AbortUpload(u, _) => {UploadRow(u), QueueRow(Blob(u))}
    case ExpireUploads(us, _) => (set u | u in us :: UploadRow(u)) + (set u | u in us :: QueueRow(Blob(u)))
    case ClaimGc(bs, _) => set b | b in bs :: QueueRow(b)
    case FinishGc(b) => {QueueRow(b)}
    case FailGc(b, _) => {QueueRow(b)}
  }

  ghost predicate Next(db: Db, db': Db, step: Step) {
    match step
    case Start(t, cmd, now, idem) =>
      && t !in db.txs && WellFormed(cmd)
      && db' == db.(txs := db.txs[t := NewTx(cmd, now, idem)])
    case Run(t, local) =>
      && t in db.txs && LocalEnabled(db, t, db.txs[t], local)
      && db' == db.(txs := db.txs[t := LocalNext(db.store, db.txs[t], local)])
    case Append(t) =>
      && t in db.txs && db.txs[t].stage == Verified
      && db' == db.(nextSeq := db.nextSeq + |db.txs[t].delta.pending|,
                    txs := db.txs[t := db.txs[t].(stage := Appended, base := db.nextSeq)])
    case CommitTx(t) =>
      && t in db.txs && db.txs[t].stage == Finished
      && db' == db.(store := Merge(db.store, db.txs[t].delta, db.txs[t].base, db.txs[t].now),
                    txs := db.txs - {t})
    case Rollback(t) =>
      && t in db.txs
      && db' == db.(txs := db.txs - {t})
    case Side(op) =>
      && SideEnabled(db.store, op) && SideUnlocked(db, op)
      && db' == db.(store := SideApply(db.store, op))
  }

  ghost predicate InitialDb(db: Db) {
    Initial(db.store) && db.nextSeq == 1 && db.txs == map[]
  }

  ghost predicate IsExecution(run: seq<Db>, steps: seq<Step>) {
    && |run| == |steps| + 1
    && InitialDb(run[0])
    && forall k :: 0 <= k < |steps| ==> Next(run[k], run[k + 1], steps[k])
  }
}
