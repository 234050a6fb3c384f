/**
  Structural equality and hashing of nodes: `Expression.__eq__`, `__ne__` and
  `__hash__`. Both are keyed on the node's kind together with its ordered
  children; the `start`/`end` markers play no part.
*/
module Equality {
  import opened Kinds
  import opened Ast

  /** Python's `int(b)`: `True` is 1, `False` is 0. */
  function BoolToInt(b: bool): int
  {
    if b then 1 else 0
  }

  /** Every byte is below 128, so the ASCII codec decodes the string. */
  predicate IsAscii(bs: seq<byte>)
  {
    forall i :: 0 <= i < |bs| ==> bs[i] < 128
  }

  /** The text a byte string stands for when each byte is read as one code point. */
  function DecodeBytes(bs: seq<byte>): (s: string)
    ensures |s| == |bs|
  {
    seq(|bs|, i requires 0 <= i < |bs| => (bs[i] as int) as char)
  }

  /** Distinct byte strings decode to distinct text. */
  lemma DecodeBytesInjective(xs: seq<byte>, ys: seq<byte>)
    requires DecodeBytes(xs) == DecodeBytes(ys)
    ensures xs == ys
  {
    forall i | 0 <= i < |xs|
      ensures xs[i] == ys[i]
    {
      assert DecodeBytes(xs)[i] == DecodeBytes(ys)[i];
    }
  }

  /**
    Python 2 `==` on payload values. `bool` is a subclass of `int`, so
    `True == 1` and `False == 0`. A `str` and a `unicode` are compared by
    decoding the `str` with the default ASCII codec: they are equal when that
    succeeds and gives the same text, and unequal when a byte is not ASCII.
    Every other pair is equal only when identical.
  */
  predicate ValueEq(u: Value, v: Value)
  {
    match (u, v)
    case (BoolValue(b), IntValue(i)) => BoolToInt(b) == i
    case (IntValue(i), BoolValue(b)) => i == BoolToInt(b)
    case (BytesValue(bs), TextValue(s)) => IsAscii(bs) && DecodeBytes(bs) == s
    case (TextValue(s), BytesValue(bs)) => IsAscii(bs) && s == DecodeBytes(bs)
    case _ => u == v
  }

  /**
    `Expression.__eq__`: `isinstance(other, type(self))`, which for leaf kinds
    is kind equality, and `self.children == other.children`, the element-wise
    tuple comparison.
  */
  predicate Equal(a: Expr, b: Expr)
    decreases a
  {
    && a.kind == b.kind
    && |a.children| == |b.children|
    && forall i :: 0 <= i < |a.children| ==> ChildEq(a.children[i], b.children[i])
  }

  /**
    `==` on two children. A node never equals a payload value: the node's
    `__eq__` rejects a non-instance and the value's own `==` does not know nodes.
  */
  predicate ChildEq(c: Child, d: Child)
    decreases c
  {
    match c
    case Node(x) => d.Node? && Equal(x, d.expr)
    case Payload(u) => d.Payload? && ValueEq(u, d.value)
  }

  // ---------------------------------------------------------------------------
  // A reference form: equality is identity of canonical forms
  // ---------------------------------------------------------------------------

  /**
    The representative of a payload's `==` class: booleans become their
    integers and ASCII byte strings their decoded text.
  */
  function CanonValue(v: Value): Value
  {
    match v
    case BoolValue(b) => IntValue(BoolToInt(b))
    case BytesValue(bs) => if IsAscii(bs) then TextValue(DecodeBytes(bs)) else v
    case _ => v
  }

  /** A node with its positions erased and every payload replaced by its representative. */
  function Canon(e: Expr): Expr
    decreases e
  {
    Expr(e.kind, seq(|e.children|, i requires 0 <= i < |e.children| => CanonChild(e.children[i])), NoneValue, NoneValue)
  }

  function CanonChild(c: Child): Child
    decreases c
  {
    match c
    case Node(x) => Node(Canon(x))
    case Payload(v) => Payload(CanonValue(v))
  }

  lemma ValueEqIffCanon(u: Value, v: Value)
    ensures ValueEq(u, v) <==> CanonValue(u) == CanonValue(v)
  {
    if u.BytesValue? && v.BytesValue? && IsAscii(u.bytes) && IsAscii(v.bytes) && CanonValue(u) == CanonValue(v) {
      DecodeBytesInjective(u.bytes, v.bytes);
    }
  }

  /** Two nodes are equal exactly when their canonical forms are identical. */
  lemma {:induction false} EqualIffCanon(a: Expr, b: Expr)
    ensures Equal(a, b) <==> Canon(a) == Canon(b)
    decreases a
  {
    var ca, cb := Canon(a), Canon(b);
    forall i | 0 <= i < |a.children| && i < |b.children|
      ensures ChildEq(a.children[i], b.children[i]) <==> CanonChild(a.children[i]) == CanonChild(b.children[i])
    {
      ChildEqIffCanon(a.children[i], b.children[i]);
    }
    if ca == cb {
      forall i | 0 <= i < |a.children|
        ensures ChildEq(a.children[i], b.children[i])
      {
        assert ca.children[i] == cb.children[i];
      }
    }
    if Equal(a, b) {
      assert ca.children == cb.children;
    }
  }

  lemma {:induction false} ChildEqIffCanon(c: Child, d: Child)
    ensures ChildEq(c, d) <==> CanonChild(c) == CanonChild(d)
    decreases c
  {
    match c
    case Node(x) =>
      if d.Node? {
        EqualIffCanon(x, d.expr);
      }
    case Payload(u) =>
      if d.Payload? {
        ValueEqIffCanon(u, d.value);
      }
  }

  // ---------------------------------------------------------------------------
  // Equality is an equivalence and a congruence
  // ---------------------------------------------------------------------------

  lemma EqualReflexive(a: Expr)
    ensures Equal(a, a)
  {
    EqualIffCanon(a, a);
  }

  lemma EqualSymmetric(a: Expr, b: Expr)
    ensures Equal(a, b) <==> Equal(b, a)
  {
    EqualIffCanon(a, b);
    EqualIffCanon(b, a);
  }

  lemma EqualTransitive(a: Expr, b: Expr, c: Expr)
    requires Equal(a, b) && Equal(b, c)
    ensures Equal(a, c)
  {
    EqualIffCanon(a, b);
    EqualIffCanon(b, c);
    EqualIffCanon(a, c);
  }

  /** Nodes of different kinds are never equal, whatever their children: `Literal(x) != Var(x)`. */
  lemma KindsSeparate(a: Expr, b: Expr)
    requires a.kind != b.kind
    ensures !Equal(a, b)
  {
  }

  /** The source positions play no part in equality. */
  lemma PositionsIgnored(e: Expr, start: Value, end: Value)
    ensures Equal(e, e.(start := start, end := end))
  {
    var e' := e.(start := start, end := end);
    assert Canon(e) == Canon(e');
    EqualIffCanon(e, e');
  }

  /** Replacing one child by an equal child gives an equal node. */
  lemma ReplaceChild(e: Expr, i: nat, d: Child)
    requires i < |e.children|
    requires ChildEq(e.children[i], d)
    ensures Equal(e, e.(children := e.children[i := d]))
  {
    var e' := e.(children := e.children[i := d]);
    ChildEqIffCanon(e.children[i], d);
    assert Canon(e).children == Canon(e').children;
    EqualIffCanon(e, e');
  }

  /** `Expression.__ne__`: the negation of `__eq__`. */
  predicate NotEqual(a: Expr, b: Expr)
  {
    !Equal(a, b)
  }

  /** Two nodes differ exactly when their kinds or their canonical children differ. */
  lemma NotEqualIffDiffer(a: Expr, b: Expr)
    ensures NotEqual(a, b) <==> a.kind != b.kind || Canon(a).children != Canon(b).children
  {
    EqualIffCanon(a, b);
  }

  // ---------------------------------------------------------------------------
  // Hashing
  // ---------------------------------------------------------------------------

  /** Hash values are machine words. */
  const WordModulus: int := 0x1_0000_0000_0000_0000

  /**
    The hash of a tuple from the hashes of its items. It stands in for
    CPython's tuple hash, which is not part of this model; what the node hash
    relies on is only that it is a function of the item hashes, in order.
  */
  function TupleHash(items: seq<int>): (h: int)
    ensures 0 <= h < WordModulus
  {
    if |items| == 0 then 0x345678
    else (TupleHash(items[..|items| - 1]) * 1000003 + items[|items| - 1]) % WordModulus
  }

  /**
    `Expression.__hash__`: `hash((type(self), self.children))`. The hash of the
    kind's class object and the hash of a payload value come from the host.
  */
  function Hash(kindHash: Kind -> int, valueHash: Value -> int, e: Expr): int
    decreases e
  {
    TupleHash([kindHash(e.kind), TupleHash(ChildHashes(kindHash, valueHash, e.children))])
  }

  /** The item hashes of the children tuple. */
  function ChildHashes(kindHash: Kind -> int, valueHash: Value -> int, cs: seq<Child>): seq<int>
    decreases cs
  {
    seq(|cs|, i requires 0 <= i < |cs| => ChildHash(kindHash, valueHash, cs[i]))
  }

  function ChildHash(kindHash: Kind -> int, valueHash: Value -> int, c: Child): int
    decreases c
  {
    match c
    case Node(x) => Hash(kindHash, valueHash, x)
    case Payload(v) => valueHash(v)
  }

  /** The payload hash agrees with payload `==`, as Python requires of hashable values. */
  ghost predicate HashRespectsEq(valueHash: Value -> int)
  {
    forall u, v :: ValueEq(u, v) ==> valueHash(u) == valueHash(v)
  }

  /** Equal nodes hash equally. */
  lemma {:induction false} EqualNodesHashEqually(kindHash: Kind -> int, valueHash: Value -> int, a: Expr, b: Expr)
    requires HashRespectsEq(valueHash)
    requires Equal(a, b)
    ensures Hash(kindHash, valueHash, a) == Hash(kindHash, valueHash, b)
    decreases a
  {
    var ha := ChildHashes(kindHash, valueHash, a.children);
    var hb := ChildHashes(kindHash, valueHash, b.children);
    forall i | 0 <= i < |a.children|
      ensures ha[i] == hb[i]
    {
      EqualChildrenHashEqually(kindHash, valueHash, a.children[i], b.children[i]);
    }
    assert ha == hb;
  }

  lemma {:induction false} EqualChildrenHashEqually(kindHash: Kind -> int, valueHash: Value -> int, c: Child, d: Child)
    requires HashRespectsEq(valueHash)
    requires ChildEq(c, d)
    ensures ChildHash(kindHash, valueHash, c) == ChildHash(kindHash, valueHash, d)
    decreases c
  {
    match c
    case Node(x) => EqualNodesHashEqually(kindHash, valueHash, x, d.expr);
    case Payload(u) =>
  }

  /** The hash ignores the positions: it is a function of kind and children only. */
  lemma HashIgnoresPositions(kindHash: Kind -> int, valueHash: Value -> int, e: Expr, start: Value, end: Value)
    ensures Hash(kindHash, valueHash, e) == Hash(kindHash, valueHash, e.(start := start, end := end))
  {
  }
}
