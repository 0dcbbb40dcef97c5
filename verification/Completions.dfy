/** Which content record belongs to which completed upload. */
module Completions {
  import opened Types
  import Tree
  import opened Store
  import opened StoreInvariants
  import opened StoreTheorems

  /** For each completed session, the position of its content record in the log. */
  type Ledger = map<UploadId, nat>

  predicate IsCompleted(s: State, u: UploadId) {
    u in s.uploads && s.uploads[u].state.Completed?
  }

  /** Of one object's completed sessions, `u` has the latest record. */
  ghost predicate IsLatest(s: State, rec: Ledger, i: Id, u: UploadId) {
    && u in rec && u in s.uploads && s.uploads[u].oid == i
    && forall v :: v in rec && v in s.uploads && s.uploads[v].oid == i ==> rec[v] <= rec[u]
  }

  /** An object's pointer is the blob of its latest completed session, and is
      empty only while it has none. */
  ghost predicate PointerIsLatest(s: State, rec: Ledger, i: Id)
    requires i in s.objects
  {
    match s.objects[i].blob
    case Some(b) => IsLatest(s, rec, i, b.upload) && s.uploads[b.upload].blob == b
    case None => forall u :: u in rec && u in s.uploads ==> s.uploads[u].oid != i
  }

  /** `rec` is a bijection from the completed sessions to the content records, each
      of the session's own object. */
  ghost predicate IsLedger(s: State, rec: Ledger) {
    && (forall u :: u in rec <==> IsCompleted(s, u))
    && (forall u :: u in rec && u in s.uploads ==>
          rec[u] < |s.log| && IsContent(s.log[rec[u]]) && s.log[rec[u]].oid == s.uploads[u].oid)
    && (forall u, v :: u in rec && v in rec && rec[u] == rec[v] ==> u == v)
    && (forall m :: 0 <= m < |s.log| && IsContent(s.log[m]) ==> m in rec.Values)
    && (forall i :: i in s.objects ==> PointerIsLatest(s, rec, i))
  }

  // ---------------------------------------------------------------------
  // Steps that complete nothing
  // ---------------------------------------------------------------------

  ghost predicate QuietStep(s: State, s': State) {
    && (forall u :: IsCompleted(s, u) <==> IsCompleted(s', u))
    && (forall u :: IsCompleted(s, u) ==> s'.uploads[u] == s.uploads[u])
    && s.log <= s'.log
    && (forall m :: |s.log| <= m < |s'.log| ==> !IsContent(s'.log[m]))
    && (forall i :: i in s'.objects && i in s.objects ==> s'.objects[i].blob == s.objects[i].blob)
    && (forall i :: i in s'.objects && i !in s.objects ==>
          s'.objects[i].blob == None && forall u :: IsCompleted(s, u) ==> s.uploads[u].oid != i)
  }

  lemma QuietKeepsLedger(s: State, s': State, rec: Ledger)
    requires IsLedger(s, rec) && QuietStep(s, s')
    ensures IsLedger(s', rec)
  {
    forall i | i in s'.objects ensures PointerIsLatest(s', rec, i) {
      if i in s.objects {
        assert PointerIsLatest(s, rec, i);
      }
    }
    forall m | 0 <= m < |s'.log| && IsContent(s'.log[m]) ensures m in rec.Values {
      assert s'.log[m] == s.log[m];
    }
  }

  lemma SideIsQuiet(s: State, op: SideOp)
    requires SideEnabled(s, op)
    ensures QuietStep(s, SideApply(s, op))
  {
  }

  /** Only a content commit of an uncompleted session writes a pointer. */
  ghost predicate QuietRows(o: Objects, rows: Objects) {
    forall i :: i in rows ==> if i in o then rows[i].blob == o[i].blob else rows[i].blob == None
  }

  lemma AcceptedRowsQuiet(s: State, now: int, cmd: Cmd, es: seq<Tree.Entry>, d: Delta)
    requires Accepts(s, now, cmd, es, d) && (cmd.Commit? ==> IsCompleted(s, cmd.upload))
    ensures QuietRows(s.objects, d.rows)
  {
    match cmd
    case Create(_, _, _, _, _) =>
    case Patch(_, _, _, _, _) =>
    case Delete(_, _, _) =>
    case Commit(_, _, _, _, _) =>
  }

  lemma SessionObjects(s: State)
    requires Inv(s)
    ensures forall u :: u in s.uploads ==> s.uploads[u].oid in s.objects && s.uploads[u].blob == Blob(u)
  {
    forall u | u in s.uploads ensures s.uploads[u].oid in s.objects && s.uploads[u].blob == Blob(u) {
      assert UploadOk(s, u);
    }
  }

  lemma QuietMerge(s: State, d: Delta, base: nat, now: int)
    requires QuietRows(s.objects, d.rows) && d.uploads == map[]
    requires forall k :: 0 <= k < |d.pending| ==>
               d.pending[k].action != ContentReady && d.pending[k].action != ContentReplaced
    requires forall u :: u in s.uploads ==> s.uploads[u].oid in s.objects
    ensures QuietStep(s, Merge(s, d, base, now))
  {
    assert s.uploads + d.uploads == s.uploads;
  }

  lemma MutationIsQuiet(s: State, s': State, now: int, cmd: Cmd, es: seq<Tree.Entry>, d: Delta, base: nat)
    requires Inv(s) && Mutates(s, s', now, cmd, es, d, base)
    requires cmd.Commit? ==> IsCompleted(s, cmd.upload)
    ensures QuietStep(s, s')
  {
    hide Inv, Accepts, Merge, QuietRows, QuietStep;
    AcceptedUpload(s, now, cmd, es, d);
    QuietDelta(s, now, cmd, es, d);
    AcceptedRowsQuiet(s, now, cmd, es, d);
    SessionObjects(s);
    QuietMerge(s, d, base, now);
  }

  lemma AcceptedUpload(s: State, now: int, cmd: Cmd, es: seq<Tree.Entry>, d: Delta)
    requires Accepts(s, now, cmd, es, d)
    ensures cmd.Commit? ==> cmd.upload in s.uploads
  {
  }

  // ---------------------------------------------------------------------
  // The step that completes a session
  // ---------------------------------------------------------------------

  ghost predicate Completes(s: State, s': State, u: UploadId, c: Change) {
    && u in s.uploads && !s.uploads[u].state.Completed? && s.uploads[u].oid in s.objects
    && s'.uploads == s.uploads[u := s.uploads[u].(state := Completed)]
    && s'.log == s.log + [c] && IsContent(c) && c.oid == s.uploads[u].oid
    && var i := s.uploads[u].oid;
       s'.objects.Keys == s.objects.Keys && s'.objects[i].blob == Some(s.uploads[u].blob)
       && s.uploads[u].blob.upload == u
       && forall j :: j in s.objects && j != i ==> s'.objects[j].blob == s.objects[j].blob
  }

  lemma AcceptedCommit(s: State, now: int, cmd: Cmd, es: seq<Tree.Entry>, d: Delta)
    requires cmd.Commit? && Accepts(s, now, cmd, es, d) && !IsCompleted(s, cmd.upload)
    ensures cmd.upload in s.uploads && s.uploads[cmd.upload].oid == cmd.id && cmd.id in s.objects
    ensures d.uploads == map[cmd.upload := s.uploads[cmd.upload].(state := Completed)]
    ensures d.rows.Keys == {cmd.id} && d.rows[cmd.id].blob == Some(s.uploads[cmd.upload].blob)
    ensures |d.pending| == 1 && d.pending[0].oid == cmd.id
    ensures d.pending[0].action == ContentReady || d.pending[0].action == ContentReplaced
  {
  }

  lemma CommitCompletes(s: State, s': State, now: int, cmd: Cmd, es: seq<Tree.Entry>, d: Delta, base: nat)
    requires Inv(s) && Mutates(s, s', now, cmd, es, d, base)
    requires cmd.Commit? && !IsCompleted(s, cmd.upload)
    ensures |s'.log| == |s.log| + 1 && Completes(s, s', cmd.upload, s'.log[|s.log|])
  {
    hide Inv, Accepts;
    AcceptedCommit(s, now, cmd, es, d);
    SessionObjects(s);
  }

  lemma CompletionMovesPointer(s: State, s': State, rec: Ledger, u: UploadId, c: Change, i: Id)
    requires IsLedger(s, rec) && Completes(s, s', u, c) && i in s'.objects
    ensures PointerIsLatest(s', rec[u := |s.log|], i)
  {
    assert u !in rec;
    assert PointerIsLatest(s, rec, i);
  }

  lemma CompletionAddsRecord(s: State, s': State, rec: Ledger, u: UploadId, c: Change, m: nat)
    requires IsLedger(s, rec) && Completes(s, s', u, c) && m < |s'.log| && IsContent(s'.log[m])
    ensures m in rec[u := |s.log|].Values
  {
    var rec' := rec[u := |s.log|];
    assert u !in rec;
    if m < |s.log| {
      var v :| v in rec && rec[v] == m;
      assert rec'[v] == m;
    } else {
      assert rec'[u] == m;
    }
  }

  lemma CompletionExtendsLedger(s: State, s': State, rec: Ledger, u: UploadId, c: Change)
    requires IsLedger(s, rec) && Completes(s, s', u, c)
    ensures IsLedger(s', rec[u := |s.log|])
  {
    var rec' := rec[u := |s.log|];
    assert u !in rec;
    forall i | i in s'.objects ensures PointerIsLatest(s', rec', i) {
      CompletionMovesPointer(s, s', rec, u, c, i);
    }
    forall m | 0 <= m < |s'.log| && IsContent(s'.log[m]) ensures m in rec'.Values {
      CompletionAddsRecord(s, s', rec, u, c, m);
    }
    hide PointerIsLatest;
  }

  // ---------------------------------------------------------------------
  // Every run
  // ---------------------------------------------------------------------

  /** `later` keeps every entry of `rec`. */
  predicate Extends(rec: Ledger, later: Ledger) {
    forall u :: u in rec ==> u in later && later[u] == rec[u]
  }

  lemma NotInLedger(s: State, rec: Ledger, u: UploadId)
    requires IsLedger(s, rec) && !IsCompleted(s, u)
    ensures u !in rec
  {
  }

  lemma MutationExtendsLedger(s: State, s': State, rec: Ledger, now: int, cmd: Cmd, es: seq<Tree.Entry>, d: Delta,
                              base: nat)
    returns (rec': Ledger)
    requires Inv(s) && IsLedger(s, rec) && Mutates(s, s', now, cmd, es, d, base)
    ensures IsLedger(s', rec') && Extends(rec, rec')
  {
    hide Inv, Mutates, IsLedger, QuietStep, Completes, IsCompleted;
    if cmd.Commit? && !IsCompleted(s, cmd.upload) {
      CommitCompletes(s, s', now, cmd, es, d, base);
      CompletionExtendsLedger(s, s', rec, cmd.upload, s'.log[|s.log|]);
      NotInLedger(s, rec, cmd.upload);
      rec' := rec[cmd.upload := |s.log|];
    } else {
      MutationIsQuiet(s, s', now, cmd, es, d, base);
      QuietKeepsLedger(s, s', rec);
      rec' := rec;
    }
  }

  lemma StepExtendsLedger(s: State, s': State, rec: Ledger) returns (rec': Ledger)
    requires Inv(s) && AtomicStep(s, s') && IsLedger(s, rec)
    ensures IsLedger(s', rec') && Extends(rec, rec')
  {
    hide Inv, Mutates, SideEnabled, SideApply, IsLedger, QuietStep;
    rec' := rec;
    if s' != s {
      if now, cmd, es, d, base: nat :| Mutates(s, s', now, cmd, es, d, base) {
        rec' := MutationExtendsLedger(s, s', rec, now, cmd, es, d, base);
      } else {
        var op :| SideEnabled(s, op) && s' == SideApply(s, op);
        SideIsQuiet(s, op);
        QuietKeepsLedger(s, s', rec);
      }
    }
  }

  /** From any state of a run on, completed sessions keep their records and new
      completions get records of their own. */
  lemma {:induction false} LedgerGrows(run: seq<State>, j: nat, k: nat, rec: Ledger) returns (later: Ledger)
    requires IsRun(run) && j <= k < |run| && IsLedger(run[j], rec)
    ensures IsLedger(run[k], later) && Extends(rec, later)
    decreases k
  {
    hide Inv, AtomicStep, IsLedger, Initial;
    if j == k {
      later := rec;
    } else {
      later := LedgerGrows(run, j, k - 1, rec);
      RunInv(run, k - 1);
      assert AtomicStep(run[k - 1], run[k - 1 + 1]);
      later := StepExtendsLedger(run[k - 1], run[k], later);
    }
  }

  /** In every state of every run the completed sessions correspond one to one to
      the content records, and pointers follow the latest. */
  lemma CompletionBijection(run: seq<State>, k: nat)
    requires IsRun(run) && k < |run|
    ensures exists rec :: IsLedger(run[k], rec)
  {
    assert IsLedger(run[0], map[]);
    var rec := LedgerGrows(run, 0, k, map[]);
  }

  // ---------------------------------------------------------------------
  // Sessions that ended without content
  // ---------------------------------------------------------------------

  predicate Ended(s: State, u: UploadId) {
    u in s.uploads && (s.uploads[u].state.Aborted? || s.uploads[u].state.Expired?)
  }

  /** A mutation writes no session but the completable one it commits. */
  lemma AcceptedSessions(s: State, now: int, cmd: Cmd, es: seq<Tree.Entry>, d: Delta, u: UploadId)
    requires Accepts(s, now, cmd, es, d) && Ended(s, u)
    ensures u !in d.uploads
  {
  }

  lemma EndedStays(s: State, s': State, u: UploadId)
    requires AtomicStep(s, s') && Ended(s, u)
    ensures Ended(s', u)
  {
    if now, cmd, es, d, base: nat :| Mutates(s, s', now, cmd, es, d, base) {
      AcceptedSessions(s, now, cmd, es, d, u);
    }
    hide Accepts, Stamp, LiveBlob;
  }

  /** A session once aborted or expired never completes, so it never changes content. */
  lemma {:induction false} EndedNeverCompletes(run: seq<State>, j: nat, k: nat, u: UploadId)
    requires IsRun(run) && j <= k < |run| && Ended(run[j], u)
    ensures Ended(run[k], u) && !IsCompleted(run[k], u)
    decreases k
  {
    hide AtomicStep, Initial;
    if j < k {
      EndedNeverCompletes(run, j, k - 1, u);
      assert AtomicStep(run[k - 1], run[k - 1 + 1]);
      EndedStays(run[k - 1], run[k], u);
    }
  }
}
