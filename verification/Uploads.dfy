/** Upload sessions as the application drives them: opening that resumes, and
    completion that converges. */
module Uploads {
  import opened Types
  import opened Store
  import opened StoreTheorems
  import opened MetaStore
  import opened Effects
  import opened Environment
  import Completions

  /** What the blob store reports when asked to finish an upload. */
  datatype BlobReport = Unavailable | WrongContent | Verified

  /** The commit of session `u`, sent with `ifMatch`: it found an acceptable session
      and file at that revision, and published the content, or did nothing if the
      session was completed already. */
  ghost predicate Publishes(c: Call, u: UploadId, ifMatch: Option<nat>, gcNotBefore: int) {
    && u in c.before.uploads
    && var up := c.before.uploads[u];
    CommitWrites(c.before, c.after, Cmd.Commit(u, up.oid, ifMatch, up.blob, gcNotBefore))
  }

  /** The session's row, if it was not there, and then its mark as ready. */
  ghost predicate CreateCalls(calls: seq<Call>, u: UploadId, oid: Id, expiresAt: int) {
    && |calls| <= 2
    && (|calls| == 2 ==> Opens(calls[0].before, calls[0].after, u, oid, expiresAt))
    && (|calls| == 1 ==>
          || Opens(calls[0].before, calls[0].after, u, oid, expiresAt)
          || Advances(calls[0].before, calls[0].after, u, Ready))
    && (|calls| == 2 ==> Advances(calls[1].before, calls[1].after, u, Ready))
  }

  /** At most one mark as completing, then, on success, the commit. */
  ghost predicate CompleteCalls(calls: seq<Call>, u: UploadId, ifMatch: Option<nat>, gcNotBefore: int, ok: bool) {
    var marks := if ok then |calls| - 1 else |calls|;
    && 0 <= marks <= 1
    && (marks == 1 ==> Advances(calls[0].before, calls[0].after, u, Completing))
    && (ok ==> Publishes(calls[marks], u, ifMatch, gcNotBefore))
  }

  /** The only reasons to refuse opening a session; `s` is the store at the start
      and `s'` at the refusal. */
  ghost predicate CreateRefused(s: State, s': State, u: UploadId, oid: Id, prepared: bool, e: Error) {
    match e
    case ObjectNotFound => !Live(s.objects, oid)
    case NotAFile => Live(s.objects, oid) && s.objects[oid].kind == Folder
    case UploadNotFound => u in s'.uploads && s'.uploads[u].state !in {Initiating, Ready}
    case Internal => !prepared
    case _ => false
  }

  lemma PublishedCompletes(c: Call, u: UploadId, ifMatch: Option<nat>, gcNotBefore: int)
    requires Publishes(c, u, ifMatch, gcNotBefore)
    ensures u in c.after.uploads && c.after.uploads[u].state.Completed?
    ensures c.before.uploads[u].state.Completed? ==> c.after == c.before
  {
  }

  lemma StaysKnown(s: State, s': State, u: UploadId)
    requires Persists(s, s') && u in s.uploads
    ensures u in s'.uploads
  {
  }

  predicate MayComplete(s: State, u: UploadId) {
    u in s.uploads && s.uploads[u].state in {Ready, Completing, Completed}
  }

  /** Why the provider's part can fail. */
  ghost predicate ProviderRefused(s': State, u: UploadId, report: BlobReport, marked: bool, e: Error) {
    match e
    case UploadNotFound => !marked && u in s'.uploads && s'.uploads[u].state !in {Ready, Completing}
    case Internal => marked && report.Unavailable?
    case ChecksumMismatch => marked && report.WrongContent?
    case _ => false
  }

  function ProviderFailure(report: BlobReport): Option<Error> {
    match report
    case Unavailable => Some(Internal)
    case WrongContent => Some(ChecksumMismatch)
    case Verified => None
  }

  lemma ProviderFails(s': State, u: UploadId, report: BlobReport)
    ensures ProviderFailure(report).Some? ==> ProviderRefused(s', u, report, true, ProviderFailure(report).value)
  {
  }

  lemma MarkFails(s': State, u: UploadId, report: BlobReport)
    requires u in s'.uploads && s'.uploads[u].state !in {Ready, Completing}
    ensures ProviderRefused(s', u, report, false, UploadNotFound)
  {
  }

  /** Why the final commit can fail. */
  ghost predicate CommitRefused(s': State, u: UploadId, oid: Id, ifMatch: Option<nat>, e: Error) {
    match e
    case ObjectNotFound => !Live(s'.objects, oid)
    case NotAFile => Live(s'.objects, oid) && s'.objects[oid].kind == Folder
    case RevisionConflict(current) => Stale(s'.objects, oid, ifMatch) && current == s'.objects[oid].revision
    case UploadNotFound => u in s'.uploads && s'.uploads[u].state !in {Ready, Completing, Completed}
    case _ => false
  }

  /** The only reasons to refuse a completion; `s` is the store at the start and
      `s'` at the refusal. */
  ghost predicate CompleteRefused(s: State, s': State, u: UploadId, ifMatch: Option<nat>, report: BlobReport,
                                  marked: bool, e: Error) {
    if !MayComplete(s, u) then e == UploadNotFound && s' == s
    else
      || ProviderRefused(s', u, report, marked, e)
      || CommitRefused(s', u, s.uploads[u].oid, ifMatch, e)
  }

  lemma OneMark(calls: seq<Call>, u: UploadId, ifMatch: Option<nat>, gcNotBefore: int)
    requires |calls| <= 1 && (|calls| == 1 ==> Advances(calls[0].before, calls[0].after, u, Completing))
    ensures CompleteCalls(calls, u, ifMatch, gcNotBefore, false)
  {
  }

  lemma ThenPublished(calls: seq<Call>, last: Call, u: UploadId, ifMatch: Option<nat>, gcNotBefore: int)
    requires CompleteCalls(calls, u, ifMatch, gcNotBefore, false) && Publishes(last, u, ifMatch, gcNotBefore)
    ensures CompleteCalls(calls + [last], u, ifMatch, gcNotBefore, true)
  {
    hide Advances, Publishes;
  }

  lemma NothingCalled(u: UploadId, ifMatch: Option<nat>, gcNotBefore: int)
    ensures CompleteCalls([], u, ifMatch, gcNotBefore, false)
  {
  }

  lemma LastPublishes(calls: seq<Call>, u: UploadId, ifMatch: Option<nat>, gcNotBefore: int)
    requires CompleteCalls(calls, u, ifMatch, gcNotBefore, true)
    ensures calls != [] && Publishes(calls[|calls| - 1], u, ifMatch, gcNotBefore)
    ensures var found := calls[|calls| - 1].before;
            && u in found.uploads && found.uploads[u].oid in found.objects
            && (ifMatch.Some? ==> found.objects[found.uploads[u].oid].revision == ifMatch.value)
  {
    PublishedOnRevision(calls[|calls| - 1], u, ifMatch, gcNotBefore);
  }

  /** A completion that publishes found the file at the revision it was sent with. */
  lemma PublishedOnRevision(c: Call, u: UploadId, ifMatch: Option<nat>, gcNotBefore: int)
    requires Publishes(c, u, ifMatch, gcNotBefore)
    ensures var oid := c.before.uploads[u].oid;
            && oid in c.before.objects && !c.before.objects[oid].deleted
            && (ifMatch.Some? ==> c.before.objects[oid].revision == ifMatch.value)
  {
  }

  /** Completion converges: after one success, however the store evolves, another
      success changes nothing. */
  lemma SecondSuccessIsInert(first: Call, second: Call, u: UploadId, ifMatch: Option<nat>, ifMatch': Option<nat>,
                             gcNotBefore: int, gcNotBefore': int)
    requires Publishes(first, u, ifMatch, gcNotBefore) && Evolves(first.after, second.before)
    requires Publishes(second, u, ifMatch', gcNotBefore')
    ensures second.after == second.before
  {
    PublishedCompletes(first, u, ifMatch, gcNotBefore);
    EvolvesPersists(first.after, second.before);
  }

  predicate Closed(s: State, u: UploadId) {
    Completions.IsCompleted(s, u) || Completions.Ended(s, u)
  }

  class UploadService {
    const store: InMemoryMetaStore

    constructor (store: InMemoryMetaStore)
      ensures this.store == store
    {
      this.store := store;
    }

    /** Other clients may commit anything here. This body commits nothing, and its
        callers know nothing but the contract. */
    method Wait()
      requires store.Valid()
      modifies store
      ensures store.Valid() && Evolves(old(store.Value()), store.Value())
    {
      StandsStill(store.Value());
    }

    /** Waits between two calls; `calls` is what the workflow has done since `s`. */
    method Pause(ghost s: State, ghost calls: seq<Call>)
      requires store.Valid() && Interleaved(s, calls, store.Value())
      modifies store
      ensures store.Valid() && Interleaved(s, calls, store.Value())
      ensures Persists(old(store.Value()), store.Value())
    {
      hide Inv, Evolves, Interleaved, Persists;
      ghost var before := store.Value();
      Wait();
      EvolvesPersists(before, store.Value());
      InterleavedWait(s, calls, before, store.Value());
    }

    method Open(u: UploadId, oid: Id, expiresAt: int) returns (created: bool)
      requires store.Valid() && oid in store.objects
      modifies store
      ensures store.Valid() && created == (u !in old(store.uploads))
      ensures if created then Opens(old(store.Value()), store.Value(), u, oid, expiresAt)
              else store.Value() == old(store.Value())
      ensures created ==> store.uploads == old(store.uploads)[u := Upload(oid, Initiating, Blob(u), expiresAt)]
    {
      hide Inv;
      var inserted := store.CreateUploadRecord(u, oid, expiresAt);
      created := inserted == Some(true);
    }

    method Mark(u: UploadId, to: UploadState) returns (ok: bool)
      requires store.Valid() && u in store.uploads
      modifies store
      ensures store.Valid()
      ensures if ok then Advances(old(store.Value()), store.Value(), u, to)
              else store.Value() == old(store.Value())
      ensures !ok && to == Ready ==> store.uploads[u].state !in {Initiating, Ready}
      ensures !ok && to == Completing ==> store.uploads[u].state !in {Ready, Completing}
      ensures Persists(old(store.Value()), store.Value())
    {
      hide Inv;
      ok := store.UpdateUploadState(u, to);
    }

    /** Inserts the session's row unless it is there, and reads its state. */
    method OpenOrFind(ghost s: State, u: UploadId, oid: Id, expiresAt: int)
      returns (found: UploadState, ghost calls: seq<Call>)
      requires store.Valid() && Interleaved(s, [], store.Value()) && oid in store.objects
      modifies store
      ensures store.Valid() && Interleaved(s, calls, store.Value()) && Persists(old(store.Value()), store.Value())
      ensures u in store.uploads && store.uploads[u].state == found
      ensures if u in old(store.uploads) then calls == [] && found == old(store.uploads)[u].state
              else
                && |calls| == 1 && Opens(calls[0].before, calls[0].after, u, oid, expiresAt)
                && found == Initiating && store.uploads[u].oid == oid && store.uploads[u].blob == Blob(u)
    {
      hide Inv, Numbered, Evolves, Interleaved;
      ghost var before := store.Value();
      calls := [];
      var created := Open(u, oid, expiresAt);
      if created {
        InterleavedCall(s, calls, before, store.Value());
        calls := calls + [Call(before, store.Value())];
      }
      found := store.uploads[u].state;
    }

    /** Lets the provider prepare the upload and marks a new session as ready. */
    method Prepare(ghost s: State, ghost begun: seq<Call>, u: UploadId, found: UploadState, prepared: bool)
      returns (r: Result<UploadId>, ghost calls: seq<Call>)
      requires store.Valid() && Interleaved(s, begun, store.Value()) && u in store.uploads
      modifies store
      ensures store.Valid() && Interleaved(s, calls, store.Value()) && Persists(old(store.Value()), store.Value())
      ensures calls == begun || (r.Ok? && |calls| == |begun| + 1 && calls[..|begun|] == begun
                                   && Advances(calls[|begun|].before, calls[|begun|].after, u, Ready))
      ensures r.Ok? ==> r.value == u && (found.Initiating? ==> |calls| == |begun| + 1)
      ensures r.Err? ==> (r.error == Internal && !prepared) ||
                         (r.error == UploadNotFound && store.uploads[u].state !in {Initiating, Ready})
    {
      hide Inv, Numbered, Evolves, Interleaved, Advances, Persists;
      calls := begun;
      ghost var before := store.Value();
      Pause(s, calls);
      ghost var prepare := store.Value();
      StaysKnown(before, prepare, u);
      if !prepared {
        return Err(Internal), calls;
      }
      if found.Initiating? {
        var ok := Mark(u, Ready);
        PersistsJoin(before, prepare, store.Value());
        if !ok {
          return Err(UploadNotFound), calls;
        }
        InterleavedCall(s, calls, prepare, store.Value());
        calls := calls + [Call(prepare, store.Value())];
      }
      return Ok(u), calls;
    }

    /** Opens the session `u`, or resumes it when a retry derives the same id, while
        other clients run between the calls. All it ever writes is the row of `u`,
        once, and its mark as ready. `prepared` says that the provider prepared the
        upload, or was not asked to. */
    method Create(u: UploadId, oid: Id, expiresAt: int, prepared: bool)
      returns (r: Result<UploadId>, ghost calls: seq<Call>)
      requires store.Valid()
      modifies store
      ensures store.Valid() && Interleaved(old(store.Value()), calls, store.Value())
      ensures CreateCalls(calls, u, oid, expiresAt)
      ensures u in old(store.uploads) && calls != [] ==>
                |calls| == 1 && Advances(calls[0].before, calls[0].after, u, Ready)
      ensures r.Ok? ==> r.value == u && u in store.uploads
      ensures r.Err? ==> CreateRefused(old(store.Value()), store.Value(), u, oid, prepared, r.error)
      ensures |calls| == 2 ==> r.Ok? && store.uploads[u].oid == oid && store.uploads[u].blob == Blob(u)
      ensures !Live(old(store.objects), oid) ==> r == Err(ObjectNotFound) && calls == []
      ensures Live(old(store.objects), oid) && old(store.objects)[oid].kind == Folder ==>
                r == Err(NotAFile) && calls == []
      ensures Closed(old(store.Value()), u) ==> r.Err? && calls == []
    {
      hide Inv, Numbered, Evolves, Interleaved, Opens, Advances;
      ghost var s := store.Value();
      calls := [];
      NoCalls(s);
      if !Live(store.objects, oid) {
        return Err(ObjectNotFound), calls;
      }
      if store.objects[oid].kind != File {
        return Err(NotAFile), calls;
      }
      Pause(s, calls);
      var found;
      found, calls := OpenOrFind(s, u, oid, expiresAt);
      if found.Completed? || found.Aborted? || found.Expired? {
        return Err(UploadNotFound), calls;
      }
      r, calls := Prepare(s, calls, u, found, prepared);
    }

    /** Marks the session as completing and lets the provider finish the upload. */
    method FinishProvider(ghost s: State, u: UploadId, report: BlobReport)
      returns (failure: Option<Error>, ghost calls: seq<Call>)
      requires store.Valid() && Interleaved(s, [], store.Value()) && u in store.uploads
      modifies store
      ensures store.Valid() && Interleaved(s, calls, store.Value())
      ensures Persists(old(store.Value()), store.Value())
      ensures |calls| <= 1 && (|calls| == 1 ==> Advances(calls[0].before, calls[0].after, u, Completing))
      ensures failure.Some? ==> ProviderRefused(store.Value(), u, report, |calls| == 1, failure.value)
      ensures failure.None? ==> |calls| == 1 && report.Verified?
    {
      hide Inv, Numbered, Evolves, Interleaved, Advances, Persists, ProviderRefused;
      calls := [];
      ghost var marking := store.Value();
      var marked := Mark(u, Completing);
      if !marked {
        MarkFails(store.Value(), u, report);
        return Some(UploadNotFound), calls;
      }
      InterleavedCall(s, calls, marking, store.Value());
      calls := calls + [Call(marking, store.Value())];
      ghost var m := store.Value();
      Pause(s, calls);
      PersistsJoin(marking, m, store.Value());
      failure := ProviderFailure(report);
      ProviderFails(store.Value(), u, report);
    }

    /** The final commit, and the only reasons it can fail for. */
    method Publish(u: UploadId, oid: Id, blob: Blob, ifMatch: Option<nat>, gcNotBefore: int, now: int)
      returns (r: Result<seq<Change>>)
      requires store.Valid() && u in store.uploads && store.uploads[u].oid == oid && store.uploads[u].blob == blob
      modifies store
      ensures store.Valid()
      ensures r.Err? ==> store.Value() == old(store.Value())
      ensures r.Err? ==> CommitRefused(store.Value(), u, oid, ifMatch, r.error)
      ensures r.Ok? ==> Publishes(Call(old(store.Value()), store.Value()), u, ifMatch, gcNotBefore)
      ensures r.Ok? ==> Completions.IsCompleted(store.Value(), u)
      ensures r.Ok? && old(store.uploads)[u].state.Completed? ==> store.Value() == old(store.Value())
    {
      hide Inv, Performed, CommitWrites;
      r := store.CommitContent(Cmd.Commit(u, oid, ifMatch, blob, gcNotBefore), now);
      if r.Ok? {
        PublishedCompletes(Call(old(store.Value()), store.Value()), u, ifMatch, gcNotBefore);
      }
    }

    /** Lets the provider finish an uncompleted upload, then commits. */
    method Settle(ghost s: State, u: UploadId, upload: Upload, ifMatch: Option<nat>, report: BlobReport, now: int,
                  gcNotBefore: int)
      returns (r: Result<seq<Change>>, ghost calls: seq<Call>)
      requires store.Valid() && Interleaved(s, [], store.Value()) && Persists(s, store.Value())
      requires u in s.uploads && s.uploads[u] == upload && upload.state in {Ready, Completing, Completed}
      modifies store
      ensures store.Valid() && Interleaved(s, calls, store.Value())
      ensures CompleteCalls(calls, u, ifMatch, gcNotBefore, r.Ok?)
      ensures r.Ok? ==> calls[|calls| - 1].after == store.Value() && Completions.IsCompleted(store.Value(), u)
      ensures r.Ok? && !Completions.IsCompleted(calls[|calls| - 1].before, u) ==> report.Verified?
      ensures r.Err? ==> CompleteRefused(s, store.Value(), u, ifMatch, report, |calls| == 1, r.error)
      ensures upload.state.Completed? && calls != [] ==> |calls| == 1 && calls[0].after == calls[0].before
    {
      hide Inv, Numbered, Evolves, Interleaved, Advances, Publishes, CompleteCalls, ProviderRefused, CommitRefused;
      calls := [];
      NothingCalled(u, ifMatch, gcNotBefore);
      ghost var ready := store.Value();
      if !upload.state.Completed? {
        var failure;
        failure, calls := FinishProvider(s, u, report);
        OneMark(calls, u, ifMatch, gcNotBefore);
        PersistsJoin(s, ready, store.Value());
        if failure.Some? {
          return Err(failure.value), calls;
        }
      }
      assert u in store.uploads && store.uploads[u].oid == upload.oid && store.uploads[u].blob == upload.blob;
      assert upload.state.Completed? ==> store.uploads[u].state.Completed?;
      hide Persists;
      ghost var committing := store.Value();
      r := Publish(u, upload.oid, upload.blob, ifMatch, gcNotBefore, now);
      if r.Ok? {
        InterleavedCall(s, calls, committing, store.Value());
        ThenPublished(calls, Call(committing, store.Value()), u, ifMatch, gcNotBefore);
        calls := calls + [Call(committing, store.Value())];
      }
    }

    /** Completes session `u` while other clients run between the calls. Success
        publishes its content exactly once, however often and by whomever completion
        is retried, and only on the revision asked for; failure changes no object,
        record or queue entry, and has one of the listed reasons. */
    method Complete(u: UploadId, ifMatch: Option<nat>, report: BlobReport, now: int, gcNotBefore: int)
      returns (r: Result<seq<Change>>, ghost calls: seq<Call>)
      requires store.Valid()
      modifies store
      ensures store.Valid() && Interleaved(old(store.Value()), calls, store.Value())
      ensures CompleteCalls(calls, u, ifMatch, gcNotBefore, r.Ok?)
      ensures r.Ok? ==> calls[|calls| - 1].after == store.Value() && Completions.IsCompleted(store.Value(), u)
      ensures r.Ok? && !Completions.IsCompleted(calls[|calls| - 1].before, u) ==> report.Verified?
      ensures r.Ok? && ifMatch.Some? ==>
                var found := calls[|calls| - 1].before;
                && u in found.uploads && found.uploads[u].oid in found.objects
                && found.objects[found.uploads[u].oid].revision == ifMatch.value
      ensures r.Err? ==>
                CompleteRefused(old(store.Value()), store.Value(), u, ifMatch, report, |calls| == 1, r.error)
      ensures Completions.IsCompleted(old(store.Value()), u) && calls != [] ==>
                |calls| == 1 && calls[0].after == calls[0].before
    {
      hide Inv, Numbered, Evolves, Interleaved, Persists, CompleteCalls;
      ghost var s := store.Value();
      calls := [];
      NoCalls(s);
      assert CompleteCalls([], u, ifMatch, gcNotBefore, false) by { NothingCalled(u, ifMatch, gcNotBefore); }
      if u !in store.uploads || !Completable(store.uploads[u].state) {
        return Err(UploadNotFound), calls;
      }
      var upload := store.uploads[u];
      Pause(s, calls);
      ghost var checked := store.Value();
      if !Live(store.objects, upload.oid) {
        return Err(ObjectNotFound), calls;
      }
      var row := store.objects[upload.oid];
      if row.kind != File {
        return Err(NotAFile), calls;
      }
      if !IfMatchOk(row.revision, ifMatch) {
        return Err(RevisionConflict(row.revision)), calls;
      }
      Pause(s, calls);
      PersistsJoin(s, checked, store.Value());
      r, calls := Settle(s, u, upload, ifMatch, report, now, gcNotBefore);
      if r.Ok? {
        LastPublishes(calls, u, ifMatch, gcNotBefore);
      }
    }

    /** Aborting is idempotent and never touches a completed session, even one that
        completes after it was looked at. */
    method Abort(u: UploadId, now: int) returns (r: Result<()>, ghost calls: seq<Call>)
      requires store.Valid()
      modifies store
      ensures store.Valid() && Interleaved(old(store.Value()), calls, store.Value())
      ensures u !in old(store.uploads) <==> r == Err(UploadNotFound)
      ensures r.Err? || Completions.IsCompleted(old(store.Value()), u) ==> calls == []
      ensures r.Ok? && !Completions.IsCompleted(old(store.Value()), u) ==>
                && |calls| == 1 && u in calls[0].before.uploads && calls[0].after == store.Value()
                && if calls[0].before.uploads[u].state == Completed then calls[0].after == calls[0].before
                   else Aborts(calls[0].before, calls[0].after, u, now)
      ensures r.Ok? ==> Closed(store.Value(), u)
    {
      hide Inv, Evolves, Interleaved;
      ghost var s := store.Value();
      calls := [];
      NoCalls(s);
      if u !in store.uploads {
        return Err(UploadNotFound), calls;
      }
      if !store.uploads[u].state.Completed? {
        Wait();
        ghost var before := store.Value();
        EvolvesPersists(s, before);
        InterleavedWait(s, calls, s, before);
        store.AbortUploadRecord(u, now);
        InterleavedCall(s, calls, before, store.Value());
        calls := calls + [Call(before, store.Value())];
      }
      return Ok(()), calls;
    }
  }
}
