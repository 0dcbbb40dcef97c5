/** Other clients at work between the calls of a workflow. */
module Environment {
  import opened Types
  import opened Tree
  import opened Store
  import opened StoreTheorems
  import Completions

  ghost predicate IsPath(path: seq<State>) {
    path != [] && forall k :: 0 <= k < |path| - 1 ==> AtomicStep(path[k], path[k + 1])
  }

  /** Any number of atomic steps of other clients lead from `s` to `s'`. */
  ghost predicate Evolves(s: State, s': State) {
    exists path: seq<State> :: IsPath(path) && path[0] == s && path[|path| - 1] == s'
  }

  lemma StandsStill(s: State)
    ensures Evolves(s, s)
  {
    assert IsPath([s]) && [s][0] == s;
  }

  /** No row of an object or a session ever disappears, sessions keep their object
      and blob, completed, aborted and expired ones stay so, and the log only grows. */
  ghost predicate Persists(s: State, s': State) {
    && s.objects.Keys <= s'.objects.Keys
    && (forall u :: u in s.uploads ==>
          && u in s'.uploads
          && s'.uploads[u].oid == s.uploads[u].oid && s'.uploads[u].blob == s.uploads[u].blob
          && (s.uploads[u].state.Completed? ==> s'.uploads[u].state.Completed?)
          && (Completions.Ended(s, u) ==> Completions.Ended(s', u)))
    && s.log <= s'.log
  }

  lemma PersistsJoin(s: State, m: State, s': State)
    requires Persists(s, m) && Persists(m, s')
    ensures Persists(s, s')
  {
  }

  lemma AcceptedPersists(s: State, now: int, cmd: Cmd, es: seq<Entry>, d: Delta)
    requires Accepts(s, now, cmd, es, d)
    ensures forall u :: u in d.uploads ==> u in s.uploads && d.uploads[u] == s.uploads[u].(state := Completed)
  {
  }

  lemma MutationPersists(s: State, s': State, now: int, cmd: Cmd, es: seq<Entry>, d: Delta, base: nat)
    requires Mutates(s, s', now, cmd, es, d, base)
    ensures Persists(s, s')
  {
    assert AtomicStep(s, s');
    AcceptedPersists(s, now, cmd, es, d);
    forall u | Completions.Ended(s, u) ensures Completions.Ended(s', u) {
      Completions.EndedStays(s, s', u);
    }
    hide Accepts, Stamp, AtomicStep, Completions.Ended;
  }

  lemma SidePersists(s: State, op: SideOp)
    requires SideEnabled(s, op)
    ensures Persists(s, SideApply(s, op))
  {
    hide LiveBlob;
  }

  lemma StepPersists(s: State, s': State)
    requires AtomicStep(s, s')
    ensures Persists(s, s')
  {
    hide Mutates, SideEnabled, SideApply;
    if s' != s {
      hide Persists;
      if now, cmd, es, d, base: nat :| Mutates(s, s', now, cmd, es, d, base) {
        MutationPersists(s, s', now, cmd, es, d, base);
      } else {
        var op :| SideEnabled(s, op) && s' == SideApply(s, op);
        SidePersists(s, op);
      }
    }
  }

  lemma {:induction false} PathPersists(path: seq<State>, k: nat)
    requires IsPath(path) && k < |path|
    ensures Persists(path[0], path[k])
    decreases k
  {
    hide AtomicStep;
    if k > 0 {
      PathPersists(path, k - 1);
      assert AtomicStep(path[k - 1], path[k - 1 + 1]);
      StepPersists(path[k - 1], path[k]);
    }
  }

  lemma EvolvesPersists(s: State, s': State)
    requires Evolves(s, s')
    ensures Persists(s, s')
  {
    hide Persists;
    var path :| IsPath(path) && path[0] == s && path[|path| - 1] == s';
    PathPersists(path, |path| - 1);
  }

  /** One store call of the workflow: the store as it found it and as it left it. */
  datatype Call = Call(before: State, after: State)

  /** From `s`, other clients' steps and then the calls in turn, with others' steps
      between, lead to `s'`. */
  ghost predicate Interleaved(s: State, calls: seq<Call>, s': State)
    decreases |calls|
  {
    if calls == [] then Evolves(s, s')
    else
      var last := calls[|calls| - 1];
      Interleaved(s, calls[..|calls| - 1], last.before) && Evolves(last.after, s')
  }

  lemma NoCalls(s: State)
    ensures Interleaved(s, [], s)
  {
    StandsStill(s);
  }

  lemma InterleavedCall(s: State, calls: seq<Call>, before: State, after: State)
    requires Interleaved(s, calls, before)
    ensures Interleaved(s, calls + [Call(before, after)], after)
  {
    StandsStill(after);
    assert (calls + [Call(before, after)])[..|calls|] == calls;
  }

  lemma InterleavedWait(s: State, calls: seq<Call>, m: State, s': State)
    requires Interleaved(s, calls, m) && Evolves(m, s')
    ensures Interleaved(s, calls, s')
  {
    if calls == [] {
      EvolvesJoin(s, m, s');
    } else {
      EvolvesJoin(calls[|calls| - 1].after, m, s');
    }
  }

  lemma EvolvesJoin(s: State, m: State, s': State)
    requires Evolves(s, m) && Evolves(m, s')
    ensures Evolves(s, s')
  {
    hide AtomicStep;
    var p :| IsPath(p) && p[0] == s && p[|p| - 1] == m;
    var q :| IsPath(q) && q[0] == m && q[|q| - 1] == s';
    var path := p + q[1..];
    forall k | 0 <= k < |path| - 1 ensures AtomicStep(path[k], path[k + 1]) {
      if k < |p| - 1 {
        assert AtomicStep(p[k], p[k + 1]);
      } else {
        var n := k - (|p| - 1);
        assert path[k] == q[n] && path[k + 1] == q[n + 1];
      }
    }
    assert IsPath(path);
  }
}
