/** Resolving and rendering object paths over the tree. */
module PathTheorems {
  import opened Types
  import opened Tree
  import opened Store
  import opened TreeInvariants
  import opened StoreTheorems
  import opened Paths

  /** The path query's names, root first: a parent walk guarded by the visited
      ids that leaves out empty names. */
  function ChainNames(o: Objects, i: Id, visited: set<Id>): seq<Text>
    decreases o.Keys - visited
  {
    if i !in o || i in visited then []
    else
      var above := if o[i].parent.None? then [] else ChainNames(o, o[i].parent.value, visited + {i});
      if o[i].name == [] then above else above + [o[i].name]
  }

  function Join(names: seq<Text>): Text {
    if names == [] then []
    else if |names| == 1 then names[0]
    else Join(names[..|names| - 1]) + [SLASH] + names[|names| - 1]
  }

  /** `'/' || array_to_string(names, '/')`. */
  function PathOf(o: Objects, i: Id): Text {
    [SLASH] + Join(ChainNames(o, i, {}))
  }

  lemma {:induction false} JoinIsRender(names: seq<Text>)
    ensures [SLASH] + Join(names) == Render(names)
    decreases |names|
  {
    if |names| > 1 {
      JoinIsRender(names[..|names| - 1]);
    } else if |names| == 1 {
      assert names[..0] == [];
      assert RenderParts(names) == RenderParts([]) + [SLASH] + names[0];
    }
  }

  ghost predicate IsChild(o: Objects, c: Id, parent: Id, name: Text) {
    Live(o, c) && o[c].parent == Some(parent) && o[c].name == name
  }

  /** One step of the resolve query: the live child with this name. */
  ghost function ChildNamed(o: Objects, parent: Id, name: Text): Option<Id> {
    if exists c :: IsChild(o, c, parent, name)
    then var c :| IsChild(o, c, parent, name); Some(c)
    else None
  }

  ghost function Walk(o: Objects, segments: seq<Text>): Option<Id> {
    if segments == [] then Some(ROOT)
    else
      var above := Walk(o, segments[..|segments| - 1]);
      if above.None? then None else ChildNamed(o, above.value, segments[|segments| - 1])
  }

  ghost function Resolve(o: Objects, path: Text): Option<Id> {
    var segments := Split(path);
    if segments.None? then None else Walk(o, segments.value)
  }

  // ---------------------------------------------------------------------
  // Names along a rooted chain
  // ---------------------------------------------------------------------

  ghost function NamesAt(o: Objects, i: Id, n: nat): seq<Text>
    requires AtDepth(o, i, n)
    decreases n
  {
    if n == 0 then [] else NamesAt(o, o[i].parent.value, n - 1) + [o[i].name]
  }

  ghost predicate Named(o: Objects) {
    && ROOT in o && o[ROOT].parent == None && o[ROOT].name == []
    && forall i :: i in o && i != ROOT ==> o[i].name != []
  }

  /** On a rooted tree the visited guard never fires. */
  lemma {:induction false} GuardNeverFires(o: Objects, i: Id, n: nat, visited: set<Id>)
    requires Named(o) && AtDepth(o, i, n)
    requires forall v, m: nat :: v in visited && AtDepth(o, v, m) ==> m > n
    ensures ChainNames(o, i, visited) == NamesAt(o, i, n)
    decreases n
  {
    assert i !in visited;
    if n > 0 {
      var p := o[i].parent.value;
      forall v, m: nat | v in visited + {i} && AtDepth(o, v, m) ensures m > n - 1 {
        if v == i { DepthUnique(o, i, n, m); }
      }
      GuardNeverFires(o, p, n - 1, visited + {i});
    }
  }

  lemma PathIsRender(o: Objects, i: Id, n: nat)
    requires TreeInv(o) && NamesInv(o) && AtDepth(o, i, n)
    ensures PathOf(o, i) == Render(NamesAt(o, i, n))
  {
    GuardNeverFires(o, i, n, {});
    JoinIsRender(ChainNames(o, i, {}));
  }

  lemma {:induction false} NamesAreValid(o: Objects, i: Id, n: nat)
    requires NamesInv(o) && AtDepth(o, i, n)
    ensures AllValid(NamesAt(o, i, n)) && |NamesAt(o, i, n)| == n
    decreases n
  {
    if n > 0 { NamesAreValid(o, o[i].parent.value, n - 1); }
  }

  /** Live names are unique per parent, so the resolve step finds the child. */
  lemma ChildFound(o: Objects, i: Id, p: Id)
    requires NamesInv(o) && Live(o, i) && o[i].parent == Some(p)
    ensures ChildNamed(o, p, o[i].name) == Some(i)
  {
    assert IsChild(o, i, p, o[i].name);
    var c := ChildNamed(o, p, o[i].name).value;
    assert IsChild(o, c, p, o[i].name);
  }

  /** Every live object is found among the children of a live parent. */
  ghost predicate Findable(o: Objects) {
    forall i :: Live(o, i) && i != ROOT ==>
      && o[i].parent.Some?
      && Live(o, o[i].parent.value)
      && ChildNamed(o, o[i].parent.value, o[i].name) == Some(i)
  }

  lemma AllFindable(o: Objects)
    requires TreeInv(o) && NamesInv(o)
    ensures Findable(o)
  {
    forall i | Live(o, i) && i != ROOT
      ensures o[i].parent.Some? && Live(o, o[i].parent.value)
      ensures ChildNamed(o, o[i].parent.value, o[i].name) == Some(i)
    {
      assert ParentOk(o, i);
      ChildFound(o, i, o[i].parent.value);
    }
  }

  lemma {:induction false} WalkFindsNames(o: Objects, i: Id, n: nat)
    requires Findable(o) && AtDepth(o, i, n) && Live(o, i)
    ensures Walk(o, NamesAt(o, i, n)) == Some(i)
    decreases n
  {
    if n > 0 {
      var p := o[i].parent.value;
      WalkFindsNames(o, p, n - 1);
      WalkStep(o, NamesAt(o, p, n - 1), o[i].name);
    }
  }

  lemma WalkStep(o: Objects, names: seq<Text>, name: Text)
    requires Walk(o, names).Some?
    ensures Walk(o, names + [name]) == ChildNamed(o, Walk(o, names).value, name)
  {
    assert (names + [name])[..|names|] == names;
  }

  lemma {:induction false} WalkEndsAtNames(o: Objects, segments: seq<Text>)
    requires Live(o, ROOT) && o[ROOT].parent == None && Walk(o, segments).Some?
    ensures var i := Walk(o, segments).value;
            Live(o, i) && AtDepth(o, i, |segments|) && NamesAt(o, i, |segments|) == segments
    decreases |segments|
  {
    if segments != [] {
      var n := |segments| - 1;
      WalkEndsAtNames(o, segments[..n]);
      var p := Walk(o, segments[..n]).value;
      var i := Walk(o, segments).value;
      assert IsChild(o, i, p, segments[n]);
      assert segments == segments[..n] + [segments[n]];
    } else {
      assert AtDepth(o, ROOT, 0);
    }
  }

  // ---------------------------------------------------------------------
  // Resolve and render are inverse
  // ---------------------------------------------------------------------

  /** Resolving a live object's rendered path returns that object. */
  lemma ResolveRendered(o: Objects, i: Id)
    requires TreeInv(o) && NamesInv(o) && Live(o, i)
    ensures Resolve(o, PathOf(o, i)) == Some(i)
  {
    assert ReachesRoot(o, i);
    var n: nat :| AtDepth(o, i, n);
    PathIsRender(o, i, n);
    NamesAreValid(o, i, n);
    SplitRender(NamesAt(o, i, n));
    AllFindable(o);
    WalkFindsNames(o, i, n);
  }

  /** Any path that resolves to an object normalises to that object's rendered path. */
  lemma RenderedIsNormal(o: Objects, path: Text)
    requires TreeInv(o) && NamesInv(o) && Resolve(o, path).Some?
    ensures var i := Resolve(o, path).value;
            Live(o, i) && PathOf(o, i) == Render(Split(path).value)
  {
    var segments := Split(path).value;
    WalkEndsAtNames(o, segments);
    PathIsRender(o, Walk(o, segments).value, |segments|);
  }

  /** Distinct live objects have distinct paths. */
  lemma PathsAreUnique(o: Objects, i: Id, j: Id)
    requires TreeInv(o) && NamesInv(o) && Live(o, i) && Live(o, j) && PathOf(o, i) == PathOf(o, j)
    ensures i == j
  {
    ResolveRendered(o, i);
    ResolveRendered(o, j);
  }

  // ---------------------------------------------------------------------
  // Moving a folder
  // ---------------------------------------------------------------------

  /** The names from just below the `k`-th ancestor down to `i`. */
  ghost function TailNames(o: Objects, i: Id, k: nat): seq<Text>
    requires Up(o, i, k).Some?
    decreases k
  {
    if k == 0 then [] else TailNames(o, o[i].parent.value, k - 1) + [o[i].name]
  }

  lemma {:induction false} NamesSplit(o: Objects, i: Id, n: nat, k: nat)
    requires AtDepth(o, i, n) && Up(o, i, k).Some? && ROOT in o && o[ROOT].parent == None
    ensures k <= n && AtDepth(o, Up(o, i, k).value, n - k)
    ensures NamesAt(o, i, n) == NamesAt(o, Up(o, i, k).value, n - k) + TailNames(o, i, k)
    decreases k
  {
    if k > 0 {
      NamesSplit(o, o[i].parent.value, n - 1, k - 1);
    }
  }

  /** A descendant's own rows, and so the tail of its path, are untouched. */
  lemma {:induction false} TailUnchanged(o: Objects, x: Id, row: Row, i: Id, k: nat)
    requires x in o && Up(o, i, k) == Some(x)
    requires forall m: nat :: m < k ==> Up(o, i, m) != Some(x)
    ensures Up(o[x := row], i, k) == Some(x) && TailNames(o[x := row], i, k) == TailNames(o, i, k)
    decreases k
  {
    if k > 0 {
      assert Up(o, i, 0) == Some(i);
      var p := o[i].parent.value;
      forall m: nat | m < k - 1 ensures Up(o, p, m) != Some(x) {
        assert Up(o, i, m + 1) == Up(o, p, m);
      }
      TailUnchanged(o, x, row, p, k - 1);
    }
  }

  lemma FirstMeeting(o: Objects, i: Id, x: Id, n: nat, k: nat)
    requires AtDepth(o, i, n) && Up(o, i, k) == Some(x) && ROOT in o && o[ROOT].parent == None
    ensures forall m: nat :: m < k ==> Up(o, i, m) != Some(x)
  {
    UpLowersDepth(o, i, n, k);
    forall m: nat | m < k ensures Up(o, i, m) != Some(x) {
      if Up(o, i, m) == Some(x) {
        UpLowersDepth(o, i, n, m);
        DepthUnique(o, x, n - k, n - m);
      }
    }
  }

  /** Rewriting the row of a folder `x` replaces the prefix of its descendants'
      paths and nothing else: below `x` the text after `x`'s own path stays. */
  lemma MoveReplacesPrefix(o: Objects, x: Id, row: Row, i: Id, k: nat)
    requires TreeInv(o) && NamesInv(o) && TreeInv(o[x := row]) && NamesInv(o[x := row])
    requires x in o && x != ROOT && i in o && Up(o, i, k) == Some(x)
    ensures Up(o[x := row], i, k) == Some(x)
    ensures PathOf(o, i) == PathOf(o, x) + RenderParts(TailNames(o, i, k))
    ensures PathOf(o[x := row], i) == PathOf(o[x := row], x) + RenderParts(TailNames(o, i, k))
  {
    var o' := o[x := row];
    assert ReachesRoot(o, i) && ReachesRoot(o', i);
    var n: nat :| AtDepth(o, i, n);
    var n': nat :| AtDepth(o', i, n');
    FirstMeeting(o, i, x, n, k);
    TailUnchanged(o, x, row, i, k);
    PathBelow(o, i, x, n, k);
    PathBelow(o', i, x, n', k);
  }

  lemma PathBelow(o: Objects, i: Id, x: Id, n: nat, k: nat)
    requires TreeInv(o) && NamesInv(o) && AtDepth(o, i, n) && x != ROOT && Up(o, i, k) == Some(x)
    ensures PathOf(o, i) == PathOf(o, x) + RenderParts(TailNames(o, i, k))
  {
    NamesSplit(o, i, n, k);
    PathIsRender(o, i, n);
    PathIsRender(o, x, n - k);
    RenderConcat(NamesAt(o, x, n - k), TailNames(o, i, k));
    NamesAreValid(o, x, n - k);
  }

  lemma {:induction false} NamesAvoiding(o: Objects, x: Id, row: Row, i: Id, n: nat)
    requires AtDepth(o, i, n) && !Under(o, i, x)
    ensures AtDepth(o[x := row], i, n) && NamesAt(o[x := row], i, n) == NamesAt(o, i, n)
    decreases n
  {
    assert Up(o, i, 0) == Some(i);
    if n > 0 {
      var p := o[i].parent.value;
      forall k: nat ensures Up(o, p, k) != Some(x) {
        assert Up(o, i, k + 1) == Up(o, p, k);
      }
      NamesAvoiding(o, x, row, p, n - 1);
    }
  }

  /** Objects that are not beneath `x` keep their paths. */
  lemma MoveLeavesOthers(o: Objects, x: Id, row: Row, i: Id)
    requires TreeInv(o) && NamesInv(o) && TreeInv(o[x := row]) && NamesInv(o[x := row])
    requires i in o && !Under(o, i, x)
    ensures PathOf(o[x := row], i) == PathOf(o, i)
  {
    assert ReachesRoot(o, i);
    var n: nat :| AtDepth(o, i, n);
    NamesAvoiding(o, x, row, i, n);
    PathIsRender(o, i, n);
    PathIsRender(o[x := row], i, n);
  }

  /** `x`'s subtree moves as a whole: `o'` differs from `o` in the row of `x`
      only, other objects keep their paths, and those beneath `x` keep exactly
      the text after its path. */
  ghost predicate MovesAsWhole(o: Objects, o': Objects, x: Id, i: Id) {
    && i in o'
    && (i != x ==> i in o && o'[i] == o[i])
    && (!Under(o, i, x) ==> PathOf(o', i) == PathOf(o, i))
    && forall k: nat :: Up(o, i, k) == Some(x) ==>
         && PathOf(o, i) == PathOf(o, x) + RenderParts(TailNames(o, i, k))
         && PathOf(o', i) == PathOf(o', x) + RenderParts(TailNames(o, i, k))
  }

  lemma RewriteMovesWhole(o: Objects, x: Id, row: Row, i: Id)
    requires TreeInv(o) && NamesInv(o) && TreeInv(o[x := row]) && NamesInv(o[x := row])
    requires x in o && x != ROOT && i in o
    ensures MovesAsWhole(o, o[x := row], x, i)
  {
    if !Under(o, i, x) {
      MoveLeavesOthers(o, x, row, i);
    }
    forall k: nat | Up(o, i, k) == Some(x)
      ensures PathOf(o, i) == PathOf(o, x) + RenderParts(TailNames(o, i, k))
      ensures PathOf(o[x := row], i) == PathOf(o[x := row], x) + RenderParts(TailNames(o, i, k))
    {
      MoveReplacesPrefix(o, x, row, i, k);
    }
  }

  lemma PatchedObjects(s: State, s': State, now: int, cmd: Cmd, es: seq<Entry>, d: Delta, base: nat)
    requires Mutates(s, s', now, cmd, es, d, base) && cmd.Patch?
    ensures cmd.id in s.objects && cmd.id in s'.objects
    ensures s'.objects == s.objects[cmd.id := s'.objects[cmd.id]]
  {
  }

  /** Every committed PATCH moves the object's subtree as a whole. */
  lemma PatchMovesWholeSubtree(s: State, s': State, now: int, cmd: Cmd, es: seq<Entry>, d: Delta, base: nat, i: Id)
    requires Inv(s) && Mutates(s, s', now, cmd, es, d, base)
    requires cmd.Patch? && cmd.id != ROOT && i in s.objects
    ensures MovesAsWhole(s.objects, s'.objects, cmd.id, i)
  {
    PatchedObjects(s, s', now, cmd, es, d, base);
    MutationKeepsInv(s, s', now, cmd, es, d, base);
    RewriteMovesWhole(s.objects, cmd.id, s'.objects[cmd.id], i);
  }
}
