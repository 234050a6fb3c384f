/**
  The `IfElse` clause decoder. An `IfElse` node keeps its clauses as one flat
  child list: children at even positions are conditions, each followed by the
  block it guards, and a trailing unpaired child (present exactly when the
  count is odd) is the else block. `Clauses` is the same information in
  explicit form; `Decode` and `Flatten` convert between the two.
*/
module Conditionals {
  import opened Wrappers
  import opened Kinds
  import opened Ast

  /** Consecutive children paired up from the front; an unpaired last child is dropped. */
  function PairUp(cs: seq<Child>): (r: seq<(Child, Child)>)
    ensures |r| == |cs| / 2
    ensures forall i :: 0 <= i < |r| ==> r[i] == (cs[2 * i], cs[2 * i + 1])
    decreases |cs|
  {
    if |cs| < 2 then [] else [(cs[0], cs[1])] + PairUp(cs[2..])
  }

  /**
    `IfElse.conditions()`: the (condition, block) pairs. The generator walks
    `idx` over 1, 3, 5, ... below the child count and yields
    `(children[idx - 1], children[idx])`.
  */
  function Conditions(e: Expr): (r: seq<(Child, Child)>)
    requires e.kind == IfElse
    ensures |r| == |e.children| / 2
    ensures forall i :: 0 <= i < |r| ==> r[i] == (e.children[2 * i], e.children[2 * i + 1])
  {
    PairUp(e.children)
  }

  /** The generator of `IfElse.conditions()` as the loop it is, collecting what it yields. */
  method IterateConditions(e: Expr) returns (pairs: seq<(Child, Child)>)
    requires e.kind == IfElse
    ensures |pairs| == |e.children| / 2
    ensures forall i :: 0 <= i < |pairs| ==> pairs[i] == (e.children[2 * i], e.children[2 * i + 1])
    ensures pairs == Conditions(e)
  {
    pairs := [];
    var idx := 1;
    while idx < |e.children|
      invariant 1 <= idx <= |e.children| + 1
      invariant idx % 2 == 1
      invariant |pairs| == idx / 2
      invariant forall i :: 0 <= i < |pairs| ==> pairs[i] == (e.children[2 * i], e.children[2 * i + 1])
    {
      pairs := pairs + [(e.children[idx - 1], e.children[idx])];
      idx := idx + 2;
    }
  }

  /** `IfElse.default()`: the last child when the count is odd, otherwise `None`. */
  function Default(e: Expr): (r: Option<Child>)
    requires e.kind == IfElse
    ensures r.Some? <==> |e.children| % 2 == 1
    ensures r.Some? ==> |e.children| > 0 && r.value == e.children[|e.children| - 1]
  {
    if |e.children| % 2 == 1 then Some(e.children[|e.children| - 1]) else None
  }

  // ---------------------------------------------------------------------------
  // Explicit clauses and the round trip
  // ---------------------------------------------------------------------------

  /** The (condition, block) pairs in order and the optional else block. */
  datatype Clauses = Clauses(branches: seq<(Child, Child)>, orElse: Option<Child>)

  /** Pairs laid out flat: condition, block, condition, block, ... */
  function FlattenPairs(ps: seq<(Child, Child)>): (r: seq<Child>)
    ensures |r| == 2 * |ps|
  {
    if |ps| == 0 then [] else [ps[0].0, ps[0].1] + FlattenPairs(ps[1..])
  }

  /** The flat child list an `IfElse` node holds for these clauses. */
  function Flatten(cl: Clauses): seq<Child>
  {
    FlattenPairs(cl.branches) + (match cl.orElse case Some(d) => [d] case None => [])
  }

  /** Reading the clauses back out of an `IfElse` node. */
  function Decode(e: Expr): Clauses
    requires e.kind == IfElse
  {
    Clauses(Conditions(e), Default(e))
  }

  lemma {:induction false} FlattenPairUp(cs: seq<Child>)
    ensures FlattenPairs(PairUp(cs)) == cs[..2 * (|cs| / 2)]
    decreases |cs|
  {
    if |cs| >= 2 {
      FlattenPairUp(cs[2..]);
      assert cs[2..][..2 * (|cs[2..]| / 2)] == cs[2..2 * (|cs| / 2)];
    }
  }

  lemma {:induction false} PairUpFlatten(ps: seq<(Child, Child)>, tail: seq<Child>)
    requires |tail| < 2
    ensures PairUp(FlattenPairs(ps) + tail) == ps
    decreases |ps|
  {
    if |ps| > 0 {
      var rest := FlattenPairs(ps[1..]) + tail;
      assert FlattenPairs(ps) + tail == [ps[0].0, ps[0].1] + rest;
      assert (FlattenPairs(ps) + tail)[2..] == rest;
      PairUpFlatten(ps[1..], tail);
    }
  }

  /**
    The pairs and the default cover every child exactly once and in order:
    laying them out flat gives back the node's child list.
  */
  lemma DecodeCoversChildren(e: Expr)
    requires e.kind == IfElse
    ensures Flatten(Decode(e)) == e.children
  {
    FlattenPairUp(e.children);
  }

  /** Decoding the node built from some clauses gives those clauses back. */
  lemma DecodeFlatten(cl: Clauses, start: Value, end: Value)
    ensures Decode(Expr(IfElse, Flatten(cl), start, end)) == cl
  {
    var tail := match cl.orElse case Some(d) => [d] case None => [];
    PairUpFlatten(cl.branches, tail);
  }

  /** Every child list is accepted by `IfElse`, and the constructed node decodes to clauses that rebuild it. */
  lemma IfElseRoundTrip(children: seq<Child>)
    ensures Construct(IfElse, children, map[]).Success?
    ensures Flatten(Decode(Construct(IfElse, children, map[]).value)) == children
  {
    DecodeCoversChildren(Construct(IfElse, children, map[]).value);
  }
}
