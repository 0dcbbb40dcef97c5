/** Path text: splitting, rendering, and why they are inverse. */
module Paths {
  import opened Types

  /** `str::split('/')`: the pieces between separators, empty ones included. */
  function Pieces(path: Text): (ps: seq<Text>)
    ensures |ps| >= 1
  {
    if path == [] then [[]]
    else
      var rest := Pieces(path[1..]);
      if path[0] == SLASH then [[]] + rest else [[path[0]] + rest[0]] + rest[1..]
  }

  /** The non-empty pieces: repeated and trailing separators disappear. */
  function Segments(ps: seq<Text>): seq<Text> {
    if ps == [] then []
    else
      var rest := Segments(ps[..|ps| - 1]);
      if ps[|ps| - 1] == [] then rest else rest + [ps[|ps| - 1]]
  }

  predicate AllValid(segments: seq<Text>) {
    forall k :: 0 <= k < |segments| ==> ValidName(segments[k])
  }

  predicate Absolute(path: Text) {
    path != [] && path[0] == SLASH && NUL !in path
  }

  /** The segments of an acceptable path. */
  function Split(path: Text): Option<seq<Text>> {
    var segments := Segments(Pieces(path));
    if Absolute(path) && AllValid(segments) then Some(segments) else None
  }

  function RenderParts(segments: seq<Text>): Text {
    if segments == [] then []
    else RenderParts(segments[..|segments| - 1]) + [SLASH] + segments[|segments| - 1]
  }

  function Render(segments: seq<Text>): Text {
    if segments == [] then [SLASH] else RenderParts(segments)
  }

  method SplitPath(path: Text) returns (r: Result<seq<Text>>)
    ensures r == if Split(path).Some? then Ok(Split(path).value) else Err(InvalidRequest)
    ensures path == [] || path[0] != SLASH || NUL in path ==> r == Err(InvalidRequest)
    ensures r.Ok? ==> forall k :: 0 <= k < |r.value| ==>
              && 1 <= |r.value[k]| <= 255 && SLASH !in r.value[k] && NUL !in r.value[k]
              && r.value[k] != [DOT] && r.value[k] != [DOT, DOT]
  {
    if path == [] || path[0] != SLASH {
      return Err(InvalidRequest);
    }
    if NUL in path {
      return Err(InvalidRequest);
    }
    var segments := [];
    var ps := Pieces(path);
    var k := 0;
    while k < |ps|
      invariant 0 <= k <= |ps|
      invariant segments == Segments(ps[..k]) && AllValid(segments)
    {
      assert ps[..k + 1][..k] == ps[..k];
      if ps[k] != [] {
        if !ValidName(ps[k]) {
          SegmentsContain(ps, k);
          return Err(InvalidRequest);
        }
        segments := segments + [ps[k]];
      }
      k := k + 1;
    }
    assert ps[..k] == ps;
    return Ok(segments);
  }

  method RenderPath(segments: seq<Text>) returns (out: Text)
    ensures out == Render(segments)
  {
    if segments == [] {
      return [SLASH];
    }
    out := [];
    var k := 0;
    while k < |segments|
      invariant 0 <= k <= |segments| && out == RenderParts(segments[..k])
    {
      assert segments[..k + 1][..k] == segments[..k];
      out := out + [SLASH] + segments[k];
      k := k + 1;
    }
    assert segments[..k] == segments;
  }

  /** The text between separators put back together. */
  function Joined(ps: seq<Text>): Text {
    if ps == [] then []
    else if |ps| == 1 then ps[0]
    else ps[0] + [SLASH] + Joined(ps[1..])
  }

  /** The pieces are the text cut at every separator. */
  lemma {:induction false} PiecesAreCuts(path: Text)
    ensures Joined(Pieces(path)) == path
    ensures forall k :: 0 <= k < |Pieces(path)| ==> SLASH !in Pieces(path)[k]
    decreases |path|
  {
    if path != [] {
      var rest := Pieces(path[1..]);
      PiecesAreCuts(path[1..]);
      assert path == [path[0]] + path[1..];
      if path[0] == SLASH {
        assert ([[]] + rest)[1..] == rest;
      } else {
        var ps := [[path[0]] + rest[0]] + rest[1..];
        assert |ps| > 1 ==> ps[1..] == rest[1..];
        assert Joined(ps) == [path[0]] + Joined(rest);
      }
    }
  }

  /** Segments are the non-empty pieces. */
  lemma {:induction false} SegmentsConcat(a: seq<Text>, b: seq<Text>)
    ensures Segments(a + b) == Segments(a) + Segments(b)
    ensures Segments([[]] + b) == Segments(b)
    ensures forall name :: name in Segments(b) <==> name in b && name != []
    decreases |b|
  {
    if b == [] {
      assert a + b == a;
      var one: seq<Text> := [[]];
      assert one + b == one && one[..0] == [];
    } else {
      var n := |b| - 1;
      SegmentsConcat(a, b[..n]);
      assert (a + b)[..|a + b| - 1] == a + b[..n];
      assert ([[]] + b)[..|[[]] + b| - 1] == [[]] + b[..n];
      assert b == b[..n] + [b[n]];
    }
  }

  /** A separator cuts the text on either side of it independently. */
  lemma {:induction false} PiecesAtSeparator(a: Text, b: Text)
    ensures Pieces(a + [SLASH] + b) == Pieces(a) + Pieces(b)
    decreases |a|
  {
    var whole := a + [SLASH] + b;
    if a == [] {
      assert whole == [SLASH] + b && whole[1..] == b;
    } else {
      assert whole[1..] == a[1..] + [SLASH] + b && whole[0] == a[0];
      PiecesAtSeparator(a[1..], b);
      var rest, more := Pieces(a[1..]), Pieces(b);
      FirstPiece(a);
      FirstPiece(whole);
      hide Pieces;
      PiecesJoin(a[0], rest, more);
    }
  }

  lemma PiecesJoin(c: Byte, rest: seq<Text>, more: seq<Text>)
    requires |rest| >= 1
    ensures [[]] + (rest + more) == ([[]] + rest) + more
    ensures [[c] + (rest + more)[0]] + (rest + more)[1..] == ([[c] + rest[0]] + rest[1..]) + more
  {
    assert (rest + more)[1..] == rest[1..] + more && (rest + more)[0] == rest[0];
  }

  lemma FirstPiece(path: Text)
    requires path != []
    ensures var rest := Pieces(path[1..]);
            Pieces(path) == if path[0] == SLASH then [[]] + rest else [[path[0]] + rest[0]] + rest[1..]
  {
  }

  /** Repeated separators, and one at the end, change nothing. */
  lemma ExtraSeparators(a: Text, b: Text)
    ensures Split(a + [SLASH] + [SLASH] + b) == Split(a + [SLASH] + b)
    ensures a != [] ==> Split(a + [SLASH]) == Split(a)
  {
    PiecesAtSeparator(a, [SLASH] + b);
    PiecesAtSeparator(a, b);
    PiecesAtSeparator([], b);
    PiecesAtSeparator(a, []);
    assert a + [SLASH] + [SLASH] + b == a + [SLASH] + ([SLASH] + b);
    assert [] + [SLASH] + b == [SLASH] + b;
    assert a + [SLASH] + [] == a + [SLASH];
    SegmentsConcat(Pieces(a), [[]] + Pieces(b));
    SegmentsConcat(Pieces(a), Pieces(b));
    SegmentsConcat(Pieces(a), [[]]);
    SegmentsConcat([], []);
    assert Segments([[]]) == [];
  }

  lemma {:induction false} SegmentsContain(ps: seq<Text>, k: int)
    requires 0 <= k < |ps| && ps[k] != []
    ensures ps[k] in Segments(ps)
    decreases |ps|
  {
    if k < |ps| - 1 {
      SegmentsContain(ps[..|ps| - 1], k);
    }
  }

  // ---------------------------------------------------------------------
  // Splitting what was rendered
  // ---------------------------------------------------------------------

  lemma {:induction false} PiecesOfName(name: Text)
    requires SLASH !in name
    ensures Pieces(name) == [name]
    decreases |name|
  {
    if name != [] {
      PiecesOfName(name[1..]);
      assert name == [name[0]] + name[1..];
    }
  }

  /** A separator followed by a plain name adds exactly that piece. */
  lemma {:induction false} PiecesAppend(path: Text, name: Text)
    requires SLASH !in name
    ensures Pieces(path + [SLASH] + name) == Pieces(path) + [name]
    decreases |path|
  {
    var whole := path + [SLASH] + name;
    if path == [] {
      assert whole == [SLASH] + name && whole[1..] == name;
      PiecesOfName(name);
      assert [[]] + [name] == Pieces(path) + [name];
    } else {
      assert whole[1..] == path[1..] + [SLASH] + name && whole[0] == path[0];
      PiecesAppend(path[1..], name);
      var rest := Pieces(path[1..]);
      assert (rest + [name])[1..] == rest[1..] + [name];
    }
  }

  lemma {:induction false} PiecesOfRender(segments: seq<Text>)
    requires AllValid(segments)
    ensures Pieces(RenderParts(segments)) == [[]] + segments
    ensures NUL !in RenderParts(segments)
    ensures segments != [] ==> RenderParts(segments)[0] == SLASH
    decreases |segments|
  {
    if segments != [] {
      var n := |segments| - 1;
      PiecesOfRender(segments[..n]);
      PiecesAppend(RenderParts(segments[..n]), segments[n]);
      assert segments == segments[..n] + [segments[n]];
    }
  }

  lemma {:induction false} SegmentsOfNames(names: seq<Text>)
    requires AllValid(names)
    ensures Segments([[]] + names) == names
    decreases |names|
  {
    var ps := [[]] + names;
    if names == [] {
      assert ps[..0] == [];
    } else {
      var n := |names| - 1;
      assert ps[..|ps| - 1] == [[]] + names[..n];
      SegmentsOfNames(names[..n]);
      assert names == names[..n] + [names[n]];
    }
  }

  /** Splitting a rendered path gives back its segments. */
  lemma SplitRender(segments: seq<Text>)
    requires AllValid(segments)
    ensures Split(Render(segments)) == Some(segments)
  {
    PiecesOfRender(segments);
    SegmentsOfNames(segments);
    if segments == [] {
      var two: seq<Text> := [[], []];
      assert two[..1] == [[]] && Pieces([SLASH]) == two;
      SegmentsOfNames([]);
      assert Segments(two) == Segments(two[..1]);
    }
  }

  /** Rendering what was split is a normal form: it splits the same way. */
  lemma RenderNormalises(path: Text)
    requires Split(path).Some?
    ensures Split(Render(Split(path).value)) == Split(path)
  {
    SplitRender(Split(path).value);
  }

  lemma {:induction false} RenderConcat(a: seq<Text>, b: seq<Text>)
    ensures RenderParts(a + b) == RenderParts(a) + RenderParts(b)
    decreases |b|
  {
    if b == [] {
      assert a + b == a;
    } else {
      var n := |b| - 1;
      assert (a + b)[..|a + b| - 1] == a + b[..n];
      RenderConcat(a, b[..n]);
    }
  }
}
