/** Byte-wise text order, and change ids whose text order is sequence order. */
module Ids {
  import opened Types

  /** The lexicographic order of byte strings. */
  predicate LexLess(a: Text, b: Text)
    decreases |a|
  {
    if b == [] then false
    else if a == [] then true
    else a[0] < b[0] || (a[0] == b[0] && LexLess(a[1..], b[1..]))
  }

  lemma {:induction false} LexTotal(a: Text, b: Text)
    ensures a == b || LexLess(a, b) || LexLess(b, a)
    ensures !(LexLess(a, b) && LexLess(b, a))
    ensures !LexLess(a, a)
    decreases |a|
  {
    if a != [] && b != [] && a[0] == b[0] {
      LexTotal(a[1..], b[1..]);
      assert a == [a[0]] + a[1..] && b == [b[0]] + b[1..];
    }
    if a != [] { LexTotal(a[1..], a[1..]); }
  }

  lemma {:induction false} LexTransitive(a: Text, b: Text, c: Text)
    requires LexLess(a, b) && LexLess(b, c)
    ensures LexLess(a, c)
    decreases |a|
  {
    if a != [] && a[0] == b[0] && b[0] == c[0] {
      LexTransitive(a[1..], b[1..], c[1..]);
    }
  }

  lemma {:induction false} LexExtends(a: Text, b: Text, x: Text, y: Text)
    requires |a| == |b| && LexLess(a, b)
    ensures LexLess(a + x, b + y)
    decreases |a|
  {
    if a != [] && a[0] == b[0] {
      LexExtends(a[1..], b[1..], x, y);
      assert (a + x)[1..] == a[1..] + x && (b + y)[1..] == b[1..] + y;
    }
  }

  lemma {:induction false} LexCommonPrefix(p: Text, a: Text, b: Text)
    ensures LexLess(p + a, p + b) <==> LexLess(a, b)
    decreases |p|
  {
    if p == [] {
      assert p + a == a && p + b == b;
    } else {
      assert (p + a)[1..] == p[1..] + a && (p + b)[1..] == p[1..] + b;
      LexCommonPrefix(p[1..], a, b);
    }
  }

  const ZERO: Byte := 48
  const SEQ_WIDTH: nat := 20
  const I64_LIMIT: nat := 0x8000_0000_0000_0000

  function Pow10(w: nat): nat {
    if w == 0 then 1 else 10 * Pow10(w - 1)
  }

  /** The `w` low decimal digits of `n`, zero padded. */
  function Pad(n: nat, w: nat): (t: Text)
    ensures |t| == w
    decreases w
  {
    if w == 0 then [] else Pad(n / 10, w - 1) + [ZERO + n % 10]
  }

  /** `chg_{seq:020}`; every i64 sequence number fits the padding. */
  function ChangeId(seqNo: nat): Text
    requires seqNo < I64_LIMIT
  {
    [99, 104, 103, 95] + Pad(seqNo, SEQ_WIDTH)
  }

  lemma {:induction false} PadIsMonotone(a: nat, b: nat, w: nat)
    requires a < b < Pow10(w)
    ensures LexLess(Pad(a, w), Pad(b, w))
    decreases w
  {
    var x, y := [ZERO + a % 10], [ZERO + b % 10];
    if a / 10 < b / 10 {
      PadIsMonotone(a / 10, b / 10, w - 1);
      LexExtends(Pad(a / 10, w - 1), Pad(b / 10, w - 1), x, y);
    } else {
      assert a / 10 == b / 10 && a % 10 < b % 10;
      LexCommonPrefix(Pad(a / 10, w - 1), x, y);
    }
  }

  /** The number decimal digits stand for. */
  function FromDecimal(t: Text): int {
    if t == [] then 0 else 10 * FromDecimal(t[..|t| - 1]) + t[|t| - 1] - ZERO
  }

  lemma {:induction false} PadValue(n: nat, w: nat)
    requires n < Pow10(w)
    ensures FromDecimal(Pad(n, w)) == n
    ensures forall k :: 0 <= k < w ==> ZERO <= Pad(n, w)[k] <= ZERO + 9
    decreases w
  {
    if w > 0 {
      PadValue(n / 10, w - 1);
      assert Pad(n, w)[..w - 1] == Pad(n / 10, w - 1);
    }
  }

  /** A change id is `chg_` and twenty digits that spell the sequence number. */
  lemma ChangeIdShape(seqNo: nat)
    requires seqNo < I64_LIMIT
    ensures |ChangeId(seqNo)| == 24 && ChangeId(seqNo)[..4] == [99, 104, 103, 95]
    ensures FromDecimal(ChangeId(seqNo)[4..]) == seqNo
  {
    I64FitsPadding();
    PadValue(seqNo, SEQ_WIDTH);
    assert ChangeId(seqNo)[4..] == Pad(seqNo, SEQ_WIDTH);
  }

  lemma I64FitsPadding()
    ensures I64_LIMIT <= Pow10(SEQ_WIDTH)
  {
    assert Pow10(5) == 100000;
    assert Pow10(10) == 100000 * Pow10(5);
    assert Pow10(15) == 100000 * Pow10(10);
    assert Pow10(20) == 100000 * Pow10(15);
  }

  /** Change ids order, as text, exactly as their sequence numbers do. */
  lemma ChangeIdOrder(a: nat, b: nat)
    requires a < I64_LIMIT && b < I64_LIMIT
    ensures LexLess(ChangeId(a), ChangeId(b)) <==> a < b
    ensures ChangeId(a) == ChangeId(b) <==> a == b
  {
    I64FitsPadding();
    var prefix: Text := [99, 104, 103, 95];
    LexCommonPrefix(prefix, Pad(a, SEQ_WIDTH), Pad(b, SEQ_WIDTH));
    LexCommonPrefix(prefix, Pad(b, SEQ_WIDTH), Pad(a, SEQ_WIDTH));
    LexTotal(ChangeId(a), ChangeId(b));
    if a < b { PadIsMonotone(a, b, SEQ_WIDTH); }
    if b < a { PadIsMonotone(b, a, SEQ_WIDTH); }
  }
}
