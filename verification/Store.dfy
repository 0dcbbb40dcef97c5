/** The metadata store as one atomic state: what each mutation accepts and the
    exact rows, Changes and queue entries it commits together. */
module Store {
  import opened Types
  import opened Tree

  datatype UploadState = Initiating | Ready | Completing | Completed | Aborted | Expired

  datatype Upload = Upload(oid: Id, state: UploadState, blob: Blob, expiresAt: int)

  datatype GcRow = GcRow(notBefore: int, attempts: nat)

  datatype Action =
    | Created
    | Renamed
    | Moved
    | MetadataUpdated
    | ContentReady
    | ContentReplaced
    | Deleted

  /** A Change about to be appended; it is a tombstone exactly when its action is `Deleted`. */
  datatype Pending = Pending(oid: Id, revision: nat, action: Action)

  datatype Change = Change(seqNo: nat, oid: Id, revision: nat, action: Action, at: int)

  /** `log` is the full Change history. `claimed` and `collected` remember the
      blobs garbage collection has ever claimed and ever finished. */
  datatype State = State(
    objects: Objects,
    uploads: map<UploadId, Upload>,
    gc: map<Blob, GcRow>,
    log: seq<Change>,
    claimed: set<Blob>,
    collected: set<Blob>)

  datatype MetadataPatch = MetadataPatch(assign: map<Text, Value>, remove: seq<Text>)

  datatype Cmd =
    | Create(id: Id, parent: Id, kind: Kind, name: Text, metadata: map<Text, Value>)
    | Patch(id: Id, ifMatch: Option<nat>, newName: Option<Text>, newParent: Option<Id>,
            patch: Option<MetadataPatch>)
    | Delete(id: Id, ifMatch: Option<nat>, recursive: bool)
    | Commit(upload: UploadId, id: Id, ifMatch: Option<nat>, blob: Blob, gcNotBefore: int)

  /** The application validates names before it builds a command. */
  predicate WellFormed(cmd: Cmd) {
    match cmd
    case Create(_, _, _, name, _) => ValidName(name)
    case Patch(_, _, newName, _, _) => newName.Some? ==> ValidName(newName.value)
    case _ => true
  }

  /** Everything one transaction writes. */
  datatype Delta = Delta(
    rows: Objects,
    uploads: map<UploadId, Upload>,
    enqueue: map<Blob, GcRow>,
    dequeue: set<Blob>,
    pending: seq<Pending>)

  const NO_DELTA: Delta := Delta(map[], map[], map[], {}, [])

  function Stamp(pending: seq<Pending>, base: nat, now: int): (cs: seq<Change>)
    ensures |cs| == |pending|
  {
    seq(|pending|, k requires 0 <= k < |pending| =>
      Change(base + k, pending[k].oid, pending[k].revision, pending[k].action, now))
  }

  /** Commits a write set. `enqueue` never overwrites a queued entry. */
  function Merge(s: State, d: Delta, base: nat, now: int): State {
    s.(objects := s.objects + d.rows,
       uploads := s.uploads + d.uploads,
       gc := (d.enqueue + s.gc) - d.dequeue,
       log := s.log + Stamp(d.pending, base, now))
  }

  // ---------------------------------------------------------------------
  // Checks and write sets of the four mutations
  // ---------------------------------------------------------------------

  predicate IfMatchOk(current: nat, ifMatch: Option<nat>) {
    ifMatch.None? || ifMatch.value == current
  }

  /** The live `(parent, name)` index holds no other entry for this key. */
  predicate NameFree(o: Objects, except: Id, parent: Option<Id>, name: Text) {
    forall j :: j in o && !o[j].deleted && j != except ==> !(o[j].parent == parent && o[j].name == name)
  }

  function NewRow(cmd: Cmd): Row
    requires cmd.Create?
  {
    Row(1, cmd.kind, cmd.name, Some(cmd.parent), cmd.metadata, None, false)
  }

  function CreateDelta(cmd: Cmd): Delta
    requires cmd.Create?
  {
    NO_DELTA.(rows := map[cmd.id := NewRow(cmd)], pending := [Pending(cmd.id, 1, Created)])
  }

  /** `remove` is applied after `assign`, so a key in both ends up removed. */
  function ApplyPatch(current: map<Text, Value>, p: Option<MetadataPatch>): map<Text, Value> {
    match p
    case None => current
    case Some(patch) => (current + patch.assign) - (set k | k in patch.remove)
  }

  /** The row a PATCH asks for, with its revision already raised. */
  function PatchedRow(row: Row, cmd: Cmd): Row
    requires cmd.Patch?
  {
    row.(revision := row.revision + 1,
         name := if cmd.newName.Some? then cmd.newName.value else row.name,
         parent := if cmd.newParent.Some? then cmd.newParent else row.parent,
         metadata := ApplyPatch(row.metadata, cmd.patch))
  }

  predicate PatchMoves(row: Row, cmd: Cmd)
    requires cmd.Patch?
  {
    PatchedRow(row, cmd).parent != row.parent
  }

  predicate PatchIsNoOp(row: Row, cmd: Cmd)
    requires cmd.Patch?
  {
    var t := PatchedRow(row, cmd);
    t.name == row.name && t.parent == row.parent && t.metadata == row.metadata
  }

  /** One PATCH raises the revision once; its Changes come renamed, moved, metadata updated. */
  function PatchPending(id: Id, row: Row, cmd: Cmd): seq<Pending>
    requires cmd.Patch?
  {
    var t := PatchedRow(row, cmd);
    (if t.name != row.name then [Pending(id, t.revision, Renamed)] else []) +
    (if t.parent != row.parent then [Pending(id, t.revision, Moved)] else []) +
    (if t.metadata != row.metadata then [Pending(id, t.revision, MetadataUpdated)] else [])
  }

  function PatchDelta(row: Row, cmd: Cmd): Delta
    requires cmd.Patch?
  {
    if PatchIsNoOp(row, cmd) then NO_DELTA
    else NO_DELTA.(rows := map[cmd.id := PatchedRow(row, cmd)],
                   pending := PatchPending(cmd.id, row, cmd))
  }

  /** What a PATCH demands of the row it has locked. */
  predicate PatchRowOk(row: Row, cmd: Cmd)
    requires cmd.Patch?
  {
    && !row.deleted
    && IfMatchOk(row.revision, cmd.ifMatch)
    && (cmd.id == ROOT ==> cmd.newParent.None? && cmd.newName.None?)
  }

  function Tombstoned(row: Row): Row {
    row.(revision := row.revision + 1, deleted := true)
  }

  function Ids(es: seq<Entry>): set<Id> {
    set k | 0 <= k < |es| :: es[k].id
  }

  function DeletedRows(o: Objects, es: seq<Entry>): Objects {
    map i | i in Ids(es) && i in o :: Tombstoned(o[i])
  }

  function DeletedBlobs(o: Objects, es: seq<Entry>): set<Blob> {
    set k | 0 <= k < |es| && es[k].id in o && o[es[k].id].blob.Some? :: o[es[k].id].blob.value
  }

  function Tombstones(o: Objects, es: seq<Entry>): (ps: seq<Pending>)
    requires forall k :: 0 <= k < |es| ==> es[k].id in o
    ensures |ps| == |es|
  {
    seq(|es|, k requires 0 <= k < |es| => Pending(es[k].id, o[es[k].id].revision + 1, Deleted))
  }

  function DeleteDelta(o: Objects, es: seq<Entry>, now: int): Delta
    requires forall k :: 0 <= k < |es| ==> es[k].id in o
  {
    Delta(DeletedRows(o, es), map[], map b | b in DeletedBlobs(o, es) :: GcRow(now, 0), {},
          Tombstones(o, es))
  }

  predicate DeleteRowOk(row: Row, cmd: Cmd)
    requires cmd.Delete?
  {
    !row.deleted && IfMatchOk(row.revision, cmd.ifMatch) && cmd.id != ROOT
  }

  predicate Completable(st: UploadState) {
    st.Ready? || st.Completing? || st.Completed?
  }

  predicate UploadRowOk(up: Upload, cmd: Cmd)
    requires cmd.Commit?
  {
    Completable(up.state) && up.oid == cmd.id && up.blob == cmd.blob
  }

  predicate CommitRowOk(row: Row, cmd: Cmd)
    requires cmd.Commit?
  {
    !row.deleted && row.kind == File && IfMatchOk(row.revision, cmd.ifMatch)
  }

  function CommittedRow(row: Row, cmd: Cmd): Row
    requires cmd.Commit?
  {
    row.(revision := row.revision + 1, blob := Some(cmd.blob))
  }

  function CommitDelta(up: Upload, row: Row, cmd: Cmd): Delta
    requires cmd.Commit?
  {
    if up.state.Completed? then NO_DELTA
    else Delta(
      map[cmd.id := CommittedRow(row, cmd)],
      map[cmd.upload := up.(state := Completed)],
      if row.blob.Some? && row.blob.value != cmd.blob
      then map[row.blob.value := GcRow(cmd.gcNotBefore, 0)] else map[],
      {cmd.blob},
      [Pending(cmd.id, row.revision + 1, if row.blob.None? then ContentReady else ContentReplaced)])
  }

  /** The atomic specification: `cmd`, run alone on `s`, succeeds and writes
      exactly `d`. For a delete, `es` is the subtree it removes. */
  ghost predicate Accepts(s: State, now: int, cmd: Cmd, es: seq<Entry>, d: Delta) {
    var o := s.objects;
    WellFormed(cmd) &&
    match cmd
    case Create(id, parent, _, name, _) =>
      && LiveFolder(o, parent)
      && id !in o
      && NameFree(o, id, Some(parent), name)
      && d == CreateDelta(cmd)
    case Patch(id, _, _, _, _) =>
      && id in o
      && PatchRowOk(o[id], cmd)
      && d == PatchDelta(o[id], cmd)
      && (!PatchIsNoOp(o[id], cmd) ==>
            var t := PatchedRow(o[id], cmd);
            && NameFree(o, id, t.parent, t.name)
            && (PatchMoves(o[id], cmd) ==>
                  && t.parent.Some?
                  && LiveFolder(o, t.parent.value)
                  && (t.kind == Folder ==> !IsSelfOrDescendant(o, t.parent.value, id))))
    case Delete(id, _, recursive) =>
      && id in o
      && DeleteRowOk(o[id], cmd)
      && (!recursive ==> NoLiveChildren(o, id))
      && IsListing(o, id, es)
      && d == DeleteDelta(o, es, now)
    case Commit(upload, id, _, _, _) =>
      && upload in s.uploads
      && UploadRowOk(s.uploads[upload], cmd)
      && id in o
      && CommitRowOk(o[id], cmd)
      && d == CommitDelta(s.uploads[upload], o[id], cmd)
  }

  // ---------------------------------------------------------------------
  // Upload sessions and garbage collection: one statement or one short
  // transaction each
  // ---------------------------------------------------------------------

  const GC_LEASE: int := 5 * 60

  predicate PendingUpload(st: UploadState) {
    st.Initiating? || st.Ready? || st.Completing?
  }

  ghost predicate PointsAt(o: Objects, i: Id, b: Blob) {
    Live(o, i) && o[i].blob == Some(b)
  }

  ghost predicate LiveBlob(o: Objects, b: Blob) {
    exists i :: PointsAt(o, i, b)
  }

  datatype SideOp =
    | OpenUpload(u: UploadId, oid: Id, expiresAt: int)
    | AdvanceUpload(u: UploadId, to: UploadState)
    | AbortUpload(u: UploadId, notBefore: int)
    | ExpireUploads(us: set<UploadId>, now: int)
    | ClaimGc(bs: set<Blob>, now: int)
    | FinishGc(b: Blob)
    | FailGc(b: Blob, retryAt: int)

  /** When the operation takes effect on `s`; otherwise it reports an error or
      does nothing and leaves `s` as it is. */
  ghost predicate SideEnabled(s: State, op: SideOp) {
    match op
    case OpenUpload(u, oid, _) => u !in s.uploads && oid in s.objects
    case AdvanceUpload(u, to) =>
      && u in s.uploads
      && ((to.Ready? && (s.uploads[u].state.Initiating? || s.uploads[u].state.Ready?)) ||
          (to.Completing? && (s.uploads[u].state.Ready? || s.uploads[u].state.Completing?)))
    case AbortUpload(u, _) => u in s.uploads && !s.uploads[u].state.Completed?
    case ExpireUploads(us, now) =>
      forall u :: u in us ==> u in s.uploads && PendingUpload(s.uploads[u].state) && s.uploads[u].expiresAt <= now
    case ClaimGc(bs, now) =>
      forall b :: b in bs ==> b in s.gc && s.gc[b].notBefore <= now && !LiveBlob(s.objects, b)
    case FinishGc(b) => b in s.claimed
    case FailGc(b, _) => b in s.claimed && b in s.gc
  }

  function ExpiredRows(ups: map<UploadId, Upload>, us: set<UploadId>): map<UploadId, Upload> {
    map u | u in us && u in ups :: ups[u].(state := Expired)
  }

  function ExpiredBlobs(ups: map<UploadId, Upload>, us: set<UploadId>): set<Blob> {
    set u | u in us && u in ups :: ups[u].blob
  }

  function ExpiredQueue(ups: map<UploadId, Upload>, us: set<UploadId>, now: int): map<Blob, GcRow> {
    map b | b in ExpiredBlobs(ups, us) :: GcRow(now, 0)
  }

  function LeasedRows(gc: map<Blob, GcRow>, bs: set<Blob>, now: int): map<Blob, GcRow> {
    map b | b in bs && b in gc :: gc[b].(notBefore := now + GC_LEASE)
  }

  function SideApply(s: State, op: SideOp): State {
    match op
    case OpenUpload(u, oid, expiresAt) =>
      s.(uploads := s.uploads[u := Upload(oid, Initiating, Blob(u), expiresAt)])
    case AdvanceUpload(u, to) =>
      if u in s.uploads then s.(uploads := s.uploads[u := s.uploads[u].(state := to)]) else s
    case AbortUpload(u, notBefore) =>
      if u in s.uploads then
        s.(uploads := s.uploads[u := s.uploads[u].(state := Aborted)],
           gc := map[s.uploads[u].blob := GcRow(notBefore, 0)] + s.gc)
      else s
    case ExpireUploads(us, now) =>
      s.(uploads := s.uploads + ExpiredRows(s.uploads, us),
         gc := ExpiredQueue(s.uploads, us, now) + s.gc)
    case ClaimGc(bs, now) =>
      s.(gc := s.gc + LeasedRows(s.gc, bs, now), claimed := s.claimed + bs)
    case FinishGc(b) =>
      s.(gc := s.gc - {b}, collected := s.collected + {b})
    case FailGc(b, retryAt) =>
      if b in s.gc then s.(gc := s.gc[b := GcRow(retryAt, s.gc[b].attempts + 1)]) else s
  }

  ghost predicate Initial(s: State) {
    && s.objects == map[ROOT := Row(1, Folder, [], None, map[], None, false)]
    && s.uploads == map[] && s.gc == map[] && s.log == []
    && s.claimed == {} && s.collected == {}
  }

  /** One atomic step of the store: a mutation with fresh, increasing sequence
      numbers, or a side operation. */
  ghost predicate AtomicStep(s: State, s': State) {
    || s' == s
    || (exists now, cmd, es, d, base: nat :: Mutates(s, s', now, cmd, es, d, base))
    || (exists op :: SideEnabled(s, op) && s' == SideApply(s, op))
  }

  ghost predicate Mutates(s: State, s': State, now: int, cmd: Cmd, es: seq<Entry>, d: Delta, base: nat) {
    && Accepts(s, now, cmd, es, d)
    && (forall k :: 0 <= k < |s.log| ==> s.log[k].seqNo < base)
    && s' == Merge(s, d, base, now)
  }
}
