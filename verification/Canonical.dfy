/** The canonical request encoding behind idempotency request hashes. */
module Canonical {
  import opened Types
  import opened Ids

  datatype Param = Param(key: Text, value: Text)

  datatype Request = Request(
    principal: Text,
    verb: Text,
    route: Text,
    target: Text,
    query: seq<Param>,
    body: Text,
    ifMatch: Option<nat>)

  const U64_LIMIT: nat := 0x1_0000_0000_0000_0000

  // ---------------------------------------------------------------------
  // Sorting the query
  // ---------------------------------------------------------------------

  predicate ParamLess(a: Param, b: Param) {
    LexLess(a.key, b.key) || (a.key == b.key && LexLess(a.value, b.value))
  }

  ghost predicate SortedParams(ps: seq<Param>) {
    forall i, j :: 0 <= i < j < |ps| ==> !ParamLess(ps[j], ps[i])
  }

  function Insert(ps: seq<Param>, p: Param): seq<Param> {
    if ps == [] || !ParamLess(ps[0], p) then [p] + ps else [ps[0]] + Insert(ps[1..], p)
  }

  function SortParams(ps: seq<Param>): seq<Param> {
    if ps == [] then [] else Insert(SortParams(ps[1..]), ps[0])
  }

  lemma ParamOrder(a: Param, b: Param, c: Param)
    ensures a == b || ParamLess(a, b) || ParamLess(b, a)
    ensures !(ParamLess(a, b) && ParamLess(b, a)) && !ParamLess(a, a)
    ensures !ParamLess(b, a) && !ParamLess(c, b) ==> !ParamLess(c, a)
  {
    LexTotal(a.key, b.key);
    LexTotal(b.key, c.key);
    LexTotal(a.key, c.key);
    LexTotal(a.value, b.value);
    LexTotal(b.value, c.value);
    LexTotal(a.value, c.value);
    if LexLess(a.key, b.key) && LexLess(b.key, c.key) { LexTransitive(a.key, b.key, c.key); }
    if LexLess(a.value, b.value) && LexLess(b.value, c.value) { LexTransitive(a.value, b.value, c.value); }
  }

  lemma {:induction false} InsertCounts(ps: seq<Param>, p: Param)
    ensures multiset(Insert(ps, p)) == multiset(ps) + multiset{p}
    decreases |ps|
  {
    hide ParamLess;
    if ps != [] {
      assert ps == [ps[0]] + ps[1..];
      InsertCounts(ps[1..], p);
    }
  }

  /** Prepending keeps a sequence sorted when nothing in it is smaller. */
  lemma PrependSorted(q: Param, rest: seq<Param>)
    requires SortedParams(rest) && forall x :: x in rest ==> !ParamLess(x, q)
    ensures SortedParams([q] + rest)
  {
    hide ParamLess;
    assert forall j :: 0 <= j < |rest| ==> rest[j] in rest;
  }

  lemma {:induction false} InsertCorrect(ps: seq<Param>, p: Param)
    requires SortedParams(ps)
    ensures SortedParams(Insert(ps, p))
    ensures multiset(Insert(ps, p)) == multiset(ps) + multiset{p}
    decreases |ps|
  {
    hide ParamLess;
    InsertCounts(ps, p);
    if ps != [] {
      if ParamLess(ps[0], p) {
        var rest := Insert(ps[1..], p);
        InsertCorrect(ps[1..], p);
        forall x | x in rest ensures !ParamLess(x, ps[0]) {
          ParamOrder(ps[0], p, p);
          assert x in multiset(rest);
        }
        PrependSorted(ps[0], rest);
      } else {
        forall x | x in ps ensures !ParamLess(x, p) {
          ParamOrder(p, ps[0], x);
          ParamOrder(ps[0], ps[0], ps[0]);
        }
        PrependSorted(p, ps);
      }
    }
  }

  lemma {:induction false} SortParamsCorrect(ps: seq<Param>)
    ensures SortedParams(SortParams(ps)) && multiset(SortParams(ps)) == multiset(ps)
    decreases |ps|
  {
    if ps != [] {
      SortParamsCorrect(ps[1..]);
      InsertCorrect(SortParams(ps[1..]), ps[0]);
      assert ps == [ps[0]] + ps[1..];
    }
  }

  lemma LeastFirst(a: seq<Param>, b: seq<Param>)
    requires a != [] && SortedParams(a) && b != [] && a[0] in b
    ensures SortedParams(b) ==> !ParamLess(a[0], b[0])
  {
    var k :| 0 <= k < |b| && b[k] == a[0];
    ParamOrder(a[0], a[0], a[0]);
  }

  lemma TailCounts(a: seq<Param>)
    requires a != []
    ensures a == [a[0]] + a[1..] && multiset(a[1..]) == multiset(a) - multiset{a[0]}
  {
    assert a == [a[0]] + a[1..];
  }

  /** A sorted sequence is determined by its elements and their counts. */
  lemma {:induction false} SortedUnique(a: seq<Param>, b: seq<Param>)
    requires SortedParams(a) && SortedParams(b) && multiset(a) == multiset(b)
    ensures a == b
    decreases |a|
  {
    assert |multiset(a)| == |a| && |multiset(b)| == |b|;
    if a != [] {
      assert a[0] in multiset(b) && b[0] in multiset(a);
      LeastFirst(a, b);
      LeastFirst(b, a);
      ParamOrder(a[0], b[0], b[0]);
      TailCounts(a);
      TailCounts(b);
      SortedUnique(a[1..], b[1..]);
    }
  }

  // ---------------------------------------------------------------------
  // Fields
  // ---------------------------------------------------------------------

  /** The `w` low bytes of `n`, most significant first. */
  function BigEndian(n: nat, w: nat): (t: Text)
    ensures |t| == w
    decreases w
  {
    if w == 0 then [] else BigEndian(n / 256, w - 1) + [n % 256]
  }

  function Field(bytes: Text): Text {
    BigEndian(|bytes|, 8) + bytes
  }

  function Concat(fields: seq<Text>): Text {
    if fields == [] then [] else Field(fields[0]) + Concat(fields[1..])
  }

  function Decimal(n: nat): (t: Text)
    ensures t != []
  {
    if n < 10 then [ZERO + n] else Decimal(n / 10) + [ZERO + n % 10]
  }

  function IfMatchField(ifMatch: Option<nat>): Text {
    if ifMatch.Some? then Decimal(ifMatch.value) else []
  }

  function ParamFields(ps: seq<Param>): (fs: seq<Text>)
    ensures |fs| == 2 * |ps|
  {
    if ps == [] then [] else ParamFields(ps[..|ps| - 1]) + [ps[|ps| - 1].key, ps[|ps| - 1].value]
  }

  function Head(r: Request): seq<Text> {
    [r.principal, r.verb, r.route, r.target, BigEndian(|r.query|, 8)]
  }

  function AllFields(r: Request): seq<Text> {
    Head(r) + ParamFields(SortParams(r.query)) + [r.body, IfMatchField(r.ifMatch)]
  }

  /** The bytes fed to the hash. */
  function PreImage(r: Request): Text {
    Concat(AllFields(r))
  }

  lemma {:induction false} ConcatSnoc(fields: seq<Text>, f: Text)
    ensures Concat(fields + [f]) == Concat(fields) + Field(f)
    decreases |fields|
  {
    if fields == [] {
      assert [f][1..] == [];
    } else {
      assert (fields + [f])[1..] == fields[1..] + [f];
      ConcatSnoc(fields[1..], f);
    }
  }

  /** A hash state: the bytes it was fed, and the fields they came from. */
  class Hasher {
    var input: Text
    ghost var fields: seq<Text>

    ghost predicate Valid()
      reads this
    {
      input == Concat(fields)
    }

    constructor ()
      ensures Valid() && fields == []
    {
      input, fields := [], [];
    }

    method Update(bytes: Text)
      requires Valid()
      modifies this
      ensures Valid() && fields == old(fields) + [bytes]
    {
      ConcatSnoc(fields, bytes);
      input := input + Field(bytes);
      fields := fields + [bytes];
    }
  }

  method UpdateHead(hasher: Hasher, r: Request, count: nat)
    requires hasher.Valid() && hasher.fields == [] && count == |r.query|
    modifies hasher
    ensures hasher.Valid() && hasher.fields == Head(r)
  {
    hasher.Update(r.principal);
    hasher.Update(r.verb);
    hasher.Update(r.route);
    hasher.Update(r.target);
    hasher.Update(BigEndian(count, 8));
  }

  method UpdateParams(hasher: Hasher, ps: seq<Param>)
    requires hasher.Valid()
    modifies hasher
    ensures hasher.Valid() && hasher.fields == old(hasher.fields) + ParamFields(ps)
  {
    hide Concat;
    for k := 0 to |ps|
      invariant hasher.Valid() && hasher.fields == old(hasher.fields) + ParamFields(ps[..k])
    {
      assert ps[..k + 1][..k] == ps[..k];
      hasher.Update(ps[k].key);
      hasher.Update(ps[k].value);
    }
    assert ps[..|ps|] == ps;
  }

  /** Sorts the query and feeds the fields one by one. */
  method CanonicalRequest(r: Request) returns (hashed: Text)
    ensures hashed == PreImage(r)
  {
    var sorted := SortParams(r.query);
    SortParamsCorrect(r.query);
    assert |multiset(sorted)| == |sorted| && |multiset(r.query)| == |r.query|;
    var hasher := new Hasher();
    UpdateHead(hasher, r, |sorted|);
    UpdateParams(hasher, sorted);
    hasher.Update(r.body);
    match r.ifMatch {
      case Some(revision) => hasher.Update(Decimal(revision));
      case None => hasher.Update([]);
    }
    assert hasher.fields == AllFields(r);
    hashed := hasher.input;
  }

  // ---------------------------------------------------------------------
  // Injectivity
  // ---------------------------------------------------------------------

  function Pow256(w: nat): nat {
    if w == 0 then 1 else 256 * Pow256(w - 1)
  }

  lemma {:induction false} BigEndianInjective(a: nat, b: nat, w: nat)
    requires a < Pow256(w) && b < Pow256(w) && BigEndian(a, w) == BigEndian(b, w)
    ensures a == b
    decreases w
  {
    if w > 0 {
      var x, y := BigEndian(a / 256, w - 1), BigEndian(b / 256, w - 1);
      assert x == (x + [a % 256])[..w - 1] && y == (y + [b % 256])[..w - 1];
      assert (x + [a % 256])[w - 1] == (y + [b % 256])[w - 1];
      BigEndianInjective(a / 256, b / 256, w - 1);
    }
  }

  lemma U64Fits()
    ensures Pow256(8) == U64_LIMIT
  {
    assert Pow256(4) == 0x1_0000_0000;
    assert Pow256(8) == 0x1_0000_0000 * Pow256(4);
  }

  /** The number big-endian bytes stand for. */
  function FromBigEndian(t: Text): int {
    if t == [] then 0 else 256 * FromBigEndian(t[..|t| - 1]) + t[|t| - 1]
  }

  lemma {:induction false} BigEndianValue(n: nat, w: nat)
    requires n < Pow256(w)
    ensures FromBigEndian(BigEndian(n, w)) == n
    decreases w
  {
    if w > 0 {
      BigEndianValue(n / 256, w - 1);
      assert BigEndian(n, w)[..w - 1] == BigEndian(n / 256, w - 1);
    }
  }

  /** A field is its length as eight big-endian bytes, and then its bytes. */
  lemma FieldShape(bytes: Text)
    requires |bytes| < U64_LIMIT
    ensures |Field(bytes)| == 8 + |bytes|
    ensures FromBigEndian(Field(bytes)[..8]) == |bytes| && Field(bytes)[8..] == bytes
  {
    U64Fits();
    BigEndianValue(|bytes|, 8);
    assert Field(bytes)[..8] == BigEndian(|bytes|, 8);
  }

  /** A revision is written in decimal digits without leading zeros. */
  lemma {:induction false} DecimalValue(n: nat)
    ensures FromDecimal(Decimal(n)) == n
    ensures forall k :: 0 <= k < |Decimal(n)| ==> ZERO <= Decimal(n)[k] <= ZERO + 9
    ensures n > 0 ==> Decimal(n)[0] != ZERO
    decreases n
  {
    if n >= 10 {
      DecimalValue(n / 10);
      assert Decimal(n)[..|Decimal(n)| - 1] == Decimal(n / 10);
    } else {
      assert Decimal(n)[..0] == [];
    }
  }

  predicate Lengths64(fields: seq<Text>) {
    forall k :: 0 <= k < |fields| ==> |fields[k]| < U64_LIMIT
  }

  /** Length prefixes leave one way to cut the bytes back into fields. */
  lemma {:induction false} ConcatInjective(a: seq<Text>, b: seq<Text>)
    requires Lengths64(a) && Lengths64(b) && Concat(a) == Concat(b)
    ensures a == b
    decreases |a|
  {
    if a != [] && b != [] {
      var ra, rb := Concat(a[1..]), Concat(b[1..]);
      FirstField(a[0], ra, b[0], rb);
      ConcatInjective(a[1..], b[1..]);
      assert a == [a[0]] + a[1..] && b == [b[0]] + b[1..];
    }
  }

  lemma FirstField(f: Text, rest: Text, g: Text, more: Text)
    requires |f| < U64_LIMIT && |g| < U64_LIMIT
    requires Field(f) + rest == Field(g) + more
    ensures f == g && rest == more
  {
    U64Fits();
    assert BigEndian(|f|, 8) == (Field(f) + rest)[..8];
    assert BigEndian(|g|, 8) == (Field(g) + more)[..8];
    BigEndianInjective(|f|, |g|, 8);
    assert f == (Field(f) + rest)[8..8 + |f|];
    assert g == (Field(g) + more)[8..8 + |g|];
    assert rest == (Field(f) + rest)[8 + |f|..];
    assert more == (Field(g) + more)[8 + |g|..];
  }

  lemma {:induction false} DecimalInjective(a: nat, b: nat)
    requires Decimal(a) == Decimal(b)
    ensures a == b
    decreases a
  {
    var x, y := Decimal(a), Decimal(b);
    assert x[|x| - 1] == ZERO + a % 10 && y[|y| - 1] == ZERO + b % 10;
    if a >= 10 && b >= 10 {
      assert Decimal(a / 10) == x[..|x| - 1] && Decimal(b / 10) == y[..|y| - 1];
      DecimalInjective(a / 10, b / 10);
    }
  }

  lemma {:induction false} ParamFieldsInjective(a: seq<Param>, b: seq<Param>)
    requires ParamFields(a) == ParamFields(b)
    ensures a == b
    decreases |a|
  {
    assert |a| == |b|;
    if a != [] {
      var n := |a| - 1;
      var x, y := ParamFields(a), ParamFields(b);
      assert x[..2 * n] == ParamFields(a[..n]) && y[..2 * n] == ParamFields(b[..n]);
      assert x[2 * n] == a[n].key && x[2 * n + 1] == a[n].value;
      assert y[2 * n] == b[n].key && y[2 * n + 1] == b[n].value;
      ParamFieldsInjective(a[..n], b[..n]);
      assert a == a[..n] + [a[n]] && b == b[..n] + [b[n]];
    }
  }

  /** Every length is a `u64`. */
  predicate Encodable(r: Request) {
    |r.query| < U64_LIMIT && Lengths64(AllFields(r))
  }

  ghost predicate SameRequest(a: Request, b: Request) {
    && a.principal == b.principal
    && a.verb == b.verb
    && a.route == b.route
    && a.target == b.target
    && multiset(a.query) == multiset(b.query)
    && a.body == b.body
    && a.ifMatch == b.ifMatch
  }

  lemma SameFields(a: Request, b: Request)
    requires AllFields(a) == AllFields(b)
    ensures Head(a) == Head(b) && SortParams(a.query) == SortParams(b.query)
    ensures a.body == b.body && IfMatchField(a.ifMatch) == IfMatchField(b.ifMatch)
  {
    var x, y := AllFields(a), AllFields(b);
    var n := |x|;
    assert Head(a) == x[..5] && Head(b) == y[..5];
    assert ParamFields(SortParams(a.query)) == x[5..n - 2];
    assert ParamFields(SortParams(b.query)) == y[5..n - 2];
    ParamFieldsInjective(SortParams(a.query), SortParams(b.query));
    assert x[n - 2] == a.body && y[n - 2] == b.body;
    assert x[n - 1] == IfMatchField(a.ifMatch) && y[n - 1] == IfMatchField(b.ifMatch);
  }

  /** Two requests give the same bytes exactly when they agree on everything
      but the order of query pairs. */
  lemma PreImageExact(a: Request, b: Request)
    requires Encodable(a) && Encodable(b)
    ensures PreImage(a) == PreImage(b) <==> SameRequest(a, b)
  {
    SortParamsCorrect(a.query);
    SortParamsCorrect(b.query);
    if PreImage(a) == PreImage(b) {
      ConcatInjective(AllFields(a), AllFields(b));
      SameFields(a, b);
      assert Head(a)[0] == Head(b)[0] && Head(a)[1] == Head(b)[1];
      assert Head(a)[2] == Head(b)[2] && Head(a)[3] == Head(b)[3];
      if a.ifMatch.Some? && b.ifMatch.Some? {
        DecimalInjective(a.ifMatch.value, b.ifMatch.value);
      }
    }
    if SameRequest(a, b) {
      SortedUnique(SortParams(a.query), SortParams(b.query));
      assert |multiset(a.query)| == |a.query| && |multiset(b.query)| == |b.query|;
    }
  }
}
