/**
  The expression node itself: its payload values, its children, the
  construction-time shape checks of `Expression.__init__`, and the positional
  accessors the node classes define.
*/
module Ast {
  import opened Wrappers
  import opened Kinds

  /** A byte of a Python 2 byte string. */
  newtype byte = x: int | 0 <= x < 256

  /**
    An opaque payload a node can hold in place of a sub-expression (the wrapped
    value of a `Literal`, the name inside a `Var`, a source position). The
    closed set stands for the Python 2 values a front end puts there:
    `BytesValue` is a `str`, `TextValue` a `unicode`; `External` is any other
    host object, identified by a number.
  */
  datatype Value =
    | NoneValue
    | BoolValue(b: bool)
    | IntValue(i: int)
    | BytesValue(bytes: seq<byte>)
    | TextValue(s: string)
    | External(id: nat)

  /** A child of a node: a nested node or a payload value. */
  datatype Child = Node(expr: Expr) | Payload(value: Value)

  /** A node: its kind, its ordered children and the `start`/`end` source markers. */
  datatype Expr = Expr(kind: Kind, children: seq<Child>, start: Value, end: Value)

  /** The `ValueError`s `Expression.__init__` raises. */
  datatype ConstructError =
    | UnexpectedArguments(names: set<string>)
    | WrongArity(arity: nat, kind: Kind, given: nat)

  /** The keyword arguments the constructor accepts. */
  const StartKeyword: string := "start"
  const EndKeyword: string := "end"
  const PositionKeywords: set<string> := {StartKeyword, EndKeyword}

  /** `kwargs.pop(name, None)`: the argument, or `None` when it was not passed. */
  function KeywordOr(kwargs: map<string, Value>, name: string): Value
  {
    if name in kwargs then kwargs[name] else NoneValue
  }

  /**
    The child count a kind's family demands: one child for the value family,
    two for the binary family, any number for the variadic family.
  */
  predicate FitsFamily(k: Kind, n: nat)
  {
    && (IsValueFamily(k) ==> n == 1)
    && (IsBinaryFamily(k) ==> n == 2)
  }

  /** The shape every node built by `Construct` has. */
  predicate ShapeHolds(e: Expr)
  {
    FitsFamily(e.kind, |e.children|)
  }

  /**
    `Expression.__init__(*children, **kwargs)`. `start` and `end` are popped off
    the keyword arguments first; any keyword left over is an error. Then, when
    the kind's `arity` is truthy (neither 0 nor `None`), the child count must
    equal it. The unexpected-keyword check comes first, so it wins when both fail.
  */
  function Construct(kind: Kind, children: seq<Child>, kwargs: map<string, Value>): (r: Result<Expr, ConstructError>)
    ensures r.Success? <==> kwargs.Keys <= PositionKeywords && FitsFamily(kind, |children|)
    ensures r.Success? ==>
      && r.value.kind == kind
      && r.value.children == children
      && r.value.start == (if StartKeyword in kwargs then kwargs[StartKeyword] else NoneValue)
      && r.value.end == (if EndKeyword in kwargs then kwargs[EndKeyword] else NoneValue)
    ensures !(kwargs.Keys <= PositionKeywords) ==>
      r == Failure(UnexpectedArguments(kwargs.Keys - PositionKeywords))
    ensures kwargs.Keys <= PositionKeywords && IsValueFamily(kind) && |children| != 1 ==>
      r == Failure(WrongArity(1, kind, |children|))
    ensures kwargs.Keys <= PositionKeywords && IsBinaryFamily(kind) && |children| != 2 ==>
      r == Failure(WrongArity(2, kind, |children|))
  {
    var start := KeywordOr(kwargs, StartKeyword);
    var end := KeywordOr(kwargs, EndKeyword);
    var rest := kwargs.Keys - PositionKeywords;
    if rest != {} then
      Failure(UnexpectedArguments(rest))
    else
      ArityByFamily(kind);
      match KindArity(kind)
      case Fixed(a) =>
        if a != 0 && |children| != a then
          Failure(WrongArity(a, kind, |children|))
        else
          Success(Expr(kind, children, start, end))
      case NoArity =>
        Success(Expr(kind, children, start, end))
  }

  /** Every node `Construct` returns has the shape its family demands. */
  lemma ConstructedShape(kind: Kind, children: seq<Child>, kwargs: map<string, Value>)
    requires Construct(kind, children, kwargs).Success?
    ensures ShapeHolds(Construct(kind, children, kwargs).value)
  {
  }

  /** Fixed-arity kinds accept exactly their arity and reject every other count. */
  lemma FixedArityExact(kind: Kind, children: seq<Child>)
    requires !IsVariadicFamily(kind)
    ensures Construct(kind, children, map[]).Success? <==>
      |children| == (if IsValueFamily(kind) then 1 else 2)
  {
    FamiliesPartition(kind);
  }

  /** Variadic kinds accept any number of children, including none. */
  lemma VariadicAcceptsAny(kind: Kind, children: seq<Child>)
    requires IsVariadicFamily(kind)
    ensures Construct(kind, children, map[]).Success?
    ensures Construct(kind, children, map[]).value.children == children
  {
    FamiliesPartition(kind);
  }

  // ---------------------------------------------------------------------------
  // Positional accessors
  // ---------------------------------------------------------------------------

  /** `ValueExpression.value`. */
  function Operand(e: Expr): Child
    requires IsValueFamily(e.kind) && ShapeHolds(e)
  {
    e.children[0]
  }

  /** `BinaryExpression.lhs`. */
  function Lhs(e: Expr): Child
    requires IsBinaryFamily(e.kind) && ShapeHolds(e)
  {
    e.children[0]
  }

  /** `BinaryExpression.rhs`. */
  function Rhs(e: Expr): Child
    requires IsBinaryFamily(e.kind) && ShapeHolds(e)
  {
    e.children[1]
  }

  /** `Pair.key` is the left operand. */
  function PairKey(e: Expr): Child
    requires e.kind == Pair && ShapeHolds(e)
  {
    Lhs(e)
  }

  /** `Pair.value` is the right operand. */
  function PairValue(e: Expr): Child
    requires e.kind == Pair && ShapeHolds(e)
  {
    Rhs(e)
  }

  /** `Select.value` is the left operand (the record selected from). */
  function SelectValue(e: Expr): Child
    requires e.kind == Select && ShapeHolds(e)
  {
    Lhs(e)
  }

  /** `Select.key` is the right operand (the key selected). */
  function SelectKey(e: Expr): Child
    requires e.kind == Select && ShapeHolds(e)
  {
    Rhs(e)
  }

  /** `Within.context`: the left operand, which supplies the new scope. */
  function Context(e: Expr): Child
    requires IsWithinFamily(e.kind) && ShapeHolds(e)
  {
    Lhs(e)
  }

  /** `Within.expression`: the right operand, evaluated in the new scope. */
  function Expression(e: Expr): Child
    requires IsWithinFamily(e.kind) && ShapeHolds(e)
  {
    Rhs(e)
  }

  /** `Membership.element`. */
  function Element(e: Expr): Child
    requires e.kind == Membership && ShapeHolds(e)
  {
    Lhs(e)
  }

  /** `Membership.set`. */
  function Container(e: Expr): Child
    requires e.kind == Membership && ShapeHolds(e)
  {
    Rhs(e)
  }

  /** `RegexFilter.string`. */
  function Subject(e: Expr): Child
    requires e.kind == RegexFilter && ShapeHolds(e)
  {
    Lhs(e)
  }

  /** `RegexFilter.regex`. */
  function Pattern(e: Expr): Child
    requires e.kind == RegexFilter && ShapeHolds(e)
  {
    Rhs(e)
  }

  /**
    `Apply.func`: the first child. `Apply` is variadic, so a node with no
    children can be built; indexing it raises `IndexError`, modelled as `None`.
  */
  function Func(e: Expr): Option<Child>
    requires e.kind == Apply
  {
    if |e.children| == 0 then None else Some(e.children[0])
  }

  /** `Apply.args`: the children after the first (a slice, so empty on no children). */
  function Args(e: Expr): seq<Child>
    requires e.kind == Apply
  {
    if |e.children| == 0 then [] else e.children[1..]
  }

  // ---------------------------------------------------------------------------
  // What the accessors return
  // ---------------------------------------------------------------------------

  /** A value-family node is exactly its operand, which is the argument it was built from. */
  lemma OperandRoundTrip(kind: Kind, x: Child)
    requires IsValueFamily(kind)
    ensures Construct(kind, [x], map[]).Success?
    ensures Operand(Construct(kind, [x], map[]).value) == x
  {
  }

  /** A binary node's children are exactly `[lhs, rhs]`. */
  lemma BinaryDecomposition(e: Expr)
    requires IsBinaryFamily(e.kind) && ShapeHolds(e)
    ensures e.children == [Lhs(e), Rhs(e)]
  {
  }

  /** `lhs` and `rhs` give back the two arguments of a binary constructor, in order. */
  lemma BinaryRoundTrip(kind: Kind, a: Child, b: Child)
    requires IsBinaryFamily(kind)
    ensures Construct(kind, [a, b], map[]).Success?
    ensures Lhs(Construct(kind, [a, b], map[]).value) == a
    ensures Rhs(Construct(kind, [a, b], map[]).value) == b
  {
  }

  /**
    `Pair` keeps its key on the left, `Select` keeps its key on the right: a pair
    built from `(k, v)` and a selection built from `(v, k)` agree on key and value.
  */
  lemma PairSelectMirror(k: Child, v: Child)
    ensures Construct(Pair, [k, v], map[]).Success?
    ensures Construct(Select, [v, k], map[]).Success?
    ensures PairKey(Construct(Pair, [k, v], map[]).value) == k
    ensures PairValue(Construct(Pair, [k, v], map[]).value) == v
    ensures SelectKey(Construct(Select, [v, k], map[]).value) == k
    ensures SelectValue(Construct(Select, [v, k], map[]).value) == v
  {
  }

  /** The named operands of the remaining binary kinds are `lhs` and `rhs`. */
  lemma NamedOperands(e: Expr)
    requires IsBinaryFamily(e.kind) && ShapeHolds(e)
    ensures IsWithinFamily(e.kind) ==> e.children == [Context(e), Expression(e)]
    ensures e.kind == Membership ==> e.children == [Element(e), Container(e)]
    ensures e.kind == RegexFilter ==> e.children == [Subject(e), Pattern(e)]
  {
  }

  /**
    `func` exists exactly when there is a child, and `func` followed by `args`
    is the whole child list; with no children `args` is empty.
  */
  lemma ApplyDecomposition(e: Expr)
    requires e.kind == Apply
    ensures Func(e).Some? <==> |e.children| > 0
    ensures Func(e).Some? ==> e.children == [Func(e).value] + Args(e)
    ensures Func(e).None? ==> Args(e) == []
  {
  }

  /** Building an `Apply` from a callee and arguments gives both back. */
  lemma ApplyRoundTrip(f: Child, args: seq<Child>)
    ensures Construct(Apply, [f] + args, map[]).Success?
    ensures Func(Construct(Apply, [f] + args, map[]).value) == Some(f)
    ensures Args(Construct(Apply, [f] + args, map[]).value) == args
  {
  }
}
