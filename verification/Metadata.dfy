/** Metadata patches: the two loops, what they mean, and when they change nothing. */
module Metadata {
  import opened Types
  import opened Store

  /** `r` is `current` with the chosen keys of `assign` written over it. */
  ghost predicate Assigned(current: map<Text, Value>, assign: map<Text, Value>, done: set<Text>, r: map<Text, Value>) {
    && r.Keys == current.Keys + (assign.Keys * done)
    && (forall k :: k in assign && k in done ==> k in r && r[k] == assign[k])
    && (forall k :: k in current && !(k in assign && k in done) ==> k in r && r[k] == current[k])
  }

  lemma AssignOne(current: map<Text, Value>, assign: map<Text, Value>, done: set<Text>, r: map<Text, Value>, key: Text)
    requires key in assign && Assigned(current, assign, done, r)
    ensures Assigned(current, assign, done + {key}, r[key := assign[key]])
  {
  }

  lemma AssignAll(current: map<Text, Value>, assign: map<Text, Value>, r: map<Text, Value>)
    requires Assigned(current, assign, assign.Keys, r)
    ensures r == current + assign
  {
    assert r.Keys == (current + assign).Keys;
  }

  method SetKeys(current: map<Text, Value>, assign: map<Text, Value>) returns (result: map<Text, Value>)
    ensures result == current + assign
  {
    result := current;
    var done := {};
    while done != assign.Keys
      invariant done <= assign.Keys
      invariant Assigned(current, assign, done, result)
      decreases assign.Keys - done
    {
      assert assign.Keys - done != {} by { assert done + (assign.Keys - done) == assign.Keys; }
      var key :| key in assign.Keys - done;
      AssignOne(current, assign, done, result, key);
      result := result[key := assign[key]];
      done := done + {key};
    }
    AssignAll(current, assign, result);
  }

  method RemoveKeys(current: map<Text, Value>, remove: seq<Text>) returns (result: map<Text, Value>)
    ensures result == current - set k | k in remove
  {
    result := current;
    ghost var gone: set<Text> := {};
    for n := 0 to |remove|
      invariant forall k :: k in gone <==> k in remove[..n]
      invariant result == current - gone
    {
      result := result - {remove[n]};
      gone := gone + {remove[n]};
    }
    assert remove[..|remove|] == remove;
    assert gone == set k | k in remove;
  }

  method ApplyMetadataPatch(current: map<Text, Value>, patch: MetadataPatch) returns (result: map<Text, Value>)
    ensures result == ApplyPatch(current, Some(patch))
  {
    result := SetKeys(current, patch.assign);
    result := RemoveKeys(result, patch.remove);
  }

  /** A key survives exactly when it is not removed and was set or already
      there; a set value wins over the old one, and removal wins over both. */
  lemma PatchMeaning(current: map<Text, Value>, patch: MetadataPatch, key: Text)
    ensures var after := ApplyPatch(current, Some(patch));
            && (key in after <==> key !in patch.remove && (key in patch.assign || key in current))
            && (key in after ==> after[key] == if key in patch.assign then patch.assign[key] else current[key])
  {
  }

  /** Exactly which patches leave the document as it is, and so raise no revision. */
  lemma PatchChangesNothing(current: map<Text, Value>, patch: MetadataPatch)
    ensures ApplyPatch(current, Some(patch)) == current <==>
            && (forall k :: k in patch.remove ==> k !in current)
            && (forall k :: k in patch.assign && k !in patch.remove ==> k in current && current[k] == patch.assign[k])
  {
    var after := ApplyPatch(current, Some(patch));
    if after == current {
      forall k | k in patch.remove ensures k !in current { PatchMeaning(current, patch, k); }
      forall k | k in patch.assign && k !in patch.remove ensures k in current && current[k] == patch.assign[k] {
        PatchMeaning(current, patch, k);
      }
    }
    if (forall k :: k in patch.remove ==> k !in current) &&
       (forall k :: k in patch.assign && k !in patch.remove ==> k in current && current[k] == patch.assign[k]) {
      forall k ensures k in after <==> k in current { PatchMeaning(current, patch, k); }
    }
  }
}
