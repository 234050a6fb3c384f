/**
  The node kinds of the EFILTER query expression tree and the static metadata
  attached to each: the `arity` a node must have and the `return_signature` it
  declares.

  In EFILTER's `ast.py` both attributes are class attributes, resolved by Python's
  attribute lookup along the class hierarchy (a kind inherits the value of the
  nearest ancestor class that declares one). `Class`, `Base`,
  `DeclaredArity`/`DeclaredReturn` and `Inherited` model that hierarchy and
  that lookup; only the concrete leaf classes become node kinds.
*/
module Kinds {
  import opened Wrappers

  /** One tag per concrete (instantiable) node class. */
  datatype Kind =
    | Literal | Var
    | Complement | Reverse
    | Pair | Select | IsInstance
    | Map | Filter | Sort | Any | Each
    | Membership | RegexFilter
    | Apply | Bind | Repeat | Tuple
    | IfElse
    | Union | Intersection
    | StrictOrderedSet | PartialOrderedSet | ContainmentOrder | Equivalence
    | Sum | Difference | Product | Quotient

  /** The value of the `arity` class attribute: a child count, or Python's `None`. */
  datatype Arity = Fixed(count: nat) | NoArity

  /**
    The value of the `return_signature` class attribute. The protocol classes
    (`IBoolean`, ...) and the builtins `tuple` and `bool` are kept as opaque tags;
    `Unspecified` is Python's `None` ("depends on the operands").
  */
  datatype Signature =
    | AnyType | Unspecified
    | IBoolean | IRepeated | IAssociative | INumber
    | BuiltinTuple | BuiltinBool

  // ---------------------------------------------------------------------------
  // Families, as the node kinds are grouped by the abstract classes they extend
  // ---------------------------------------------------------------------------

  /** Kinds derived from `ValueExpression`: exactly one child. */
  predicate IsValueFamily(k: Kind)
  {
    k == Literal || k == Var || k == Complement || k == Reverse
  }

  /** Kinds derived from `Within`: the left side scopes the right side. */
  predicate IsWithinFamily(k: Kind)
  {
    k == Map || k == Filter || k == Sort || k == Any || k == Each
  }

  /** Kinds derived from `BinaryExpression`: exactly two children. */
  predicate IsBinaryFamily(k: Kind)
  {
    k == Pair || k == Select || k == IsInstance || k == Membership || k == RegexFilter
    || IsWithinFamily(k)
  }

  /** Kinds derived from `VariadicExpression`: any number of children. */
  predicate IsVariadicFamily(k: Kind)
  {
    k == Apply || k == Bind || k == Repeat || k == Tuple || k == IfElse
    || k == Union || k == Intersection
    || k == StrictOrderedSet || k == PartialOrderedSet || k == ContainmentOrder || k == Equivalence
    || k == Sum || k == Difference || k == Product || k == Quotient
  }

  // ---------------------------------------------------------------------------
  // The class hierarchy
  // ---------------------------------------------------------------------------

  /** The abstract intermediate classes, which are never instantiated. */
  datatype AbstractClass =
    | ExpressionClass
    | ValueExpressionClass | UnaryOperationClass
    | BinaryExpressionClass | WithinClass
    | VariadicExpressionClass | LogicalOperationClass
    | RelationClass | OrderedSetClass | NumericExpressionClass

  /** The classes of the tree: the abstract ones and one per leaf kind. */
  datatype Class = Abstract(abstractClass: AbstractClass) | LeafClass(kind: Kind)

  /** The abstract class a leaf kind's class directly extends. */
  function LeafBase(k: Kind): AbstractClass
  {
    match k
    case Literal | Var => ValueExpressionClass
    case Complement | Reverse => UnaryOperationClass
    case Pair | Select | IsInstance | Membership | RegexFilter => BinaryExpressionClass
    case Map | Filter | Sort | Any | Each => WithinClass
    case Apply | Bind | Repeat | Tuple | IfElse => VariadicExpressionClass
    case Union | Intersection => LogicalOperationClass
    case StrictOrderedSet | PartialOrderedSet => OrderedSetClass
    case ContainmentOrder | Equivalence => RelationClass
    case Sum | Difference | Product | Quotient => NumericExpressionClass
  }

  /** The direct base of an abstract class; `Expression` is the root and has none. */
  function AbstractBase(a: AbstractClass): Option<AbstractClass>
  {
    match a
    case ExpressionClass => None
    case ValueExpressionClass | BinaryExpressionClass | VariadicExpressionClass => Some(ExpressionClass)
    case UnaryOperationClass => Some(ValueExpressionClass)
    case WithinClass => Some(BinaryExpressionClass)
    case LogicalOperationClass | RelationClass | NumericExpressionClass => Some(VariadicExpressionClass)
    case OrderedSetClass => Some(RelationClass)
  }

  /** The direct base class of any class. */
  function Base(c: Class): Option<Class>
  {
    match c
    case Abstract(a) => (match AbstractBase(a) case None => None case Some(b) => Some(Abstract(b)))
    case LeafClass(k) => Some(Abstract(LeafBase(k)))
  }

  /** Number of ancestors of an abstract class. */
  function AbstractDepth(a: AbstractClass): nat
  {
    match a
    case ExpressionClass => 0
    case ValueExpressionClass | BinaryExpressionClass | VariadicExpressionClass => 1
    case UnaryOperationClass | WithinClass | LogicalOperationClass | RelationClass | NumericExpressionClass => 2
    case OrderedSetClass => 3
  }

  /** Number of ancestors of a class; it bounds the attribute lookup. */
  function Depth(c: Class): nat
  {
    match c
    case Abstract(a) => AbstractDepth(a)
    case LeafClass(k) => AbstractDepth(LeafBase(k)) + 1
  }

  lemma BaseIsShallower(c: Class)
    ensures Base(c).Some? ==> Depth(Base(c).value) < Depth(c)
    ensures Base(c).None? <==> c == Abstract(ExpressionClass)
  {
  }

  /**
    Python attribute lookup on a class: the value the class itself declares, or
    else the value its base class resolves to. The root declares `root`.
  */
  function Inherited<T>(c: Class, declared: Class -> Option<T>, root: T): T
    decreases Depth(c)
  {
    match Base(c)
    case None => root
    case Some(b) =>
      match declared(c)
      case Some(v) => v
      case None =>
        BaseIsShallower(c);
        Inherited(b, declared, root)
  }

  /** The `arity` each class below `Expression` declares in its own body. */
  function DeclaredArity(c: Class): Option<Arity>
  {
    match c
    case Abstract(ValueExpressionClass) => Some(Fixed(1))
    case Abstract(BinaryExpressionClass) => Some(Fixed(2))
    case Abstract(VariadicExpressionClass) => Some(NoArity)
    case _ => None
  }

  /** `Expression.arity`. */
  const RootArity: Arity := Fixed(0)

  /** The `return_signature` each class below `Expression` declares in its own body. */
  function DeclaredReturn(c: Class): Option<Signature>
  {
    match c
    case LeafClass(k) =>
      (match k
       case Complement => Some(IBoolean)
       case Reverse => Some(IRepeated)
       case Pair => Some(BuiltinTuple)
       case Select => Some(Unspecified)
       case Any | Each => Some(BuiltinBool)
       case Membership | RegexFilter => Some(IBoolean)
       case Apply => Some(AnyType)
       case Bind => Some(IAssociative)
       case Repeat => Some(IRepeated)
       case Tuple => Some(BuiltinTuple)
       case _ => None)
    case Abstract(a) =>
      (match a
       case WithinClass => Some(Unspecified)
       case LogicalOperationClass | RelationClass => Some(IBoolean)
       case NumericExpressionClass => Some(INumber)
       case _ => None)
  }

  /** `Expression.return_signature`. */
  const RootReturn: Signature := AnyType

  /** The arity a node of kind `k` sees through `self.arity`. */
  function KindArity(k: Kind): Arity
  {
    Inherited(LeafClass(k), DeclaredArity, RootArity)
  }

  /** The return signature a node of kind `k` sees through `self.return_signature`. */
  function ReturnSignature(k: Kind): Signature
  {
    Inherited(LeafClass(k), DeclaredReturn, RootReturn)
  }

  // ---------------------------------------------------------------------------
  // What the lookup yields, kind by kind
  // ---------------------------------------------------------------------------

  /** The families partition the kinds. */
  lemma FamiliesPartition(k: Kind)
    ensures IsValueFamily(k) || IsBinaryFamily(k) || IsVariadicFamily(k)
    ensures !(IsValueFamily(k) && IsBinaryFamily(k))
    ensures !(IsValueFamily(k) && IsVariadicFamily(k))
    ensures !(IsBinaryFamily(k) && IsVariadicFamily(k))
  {
  }

  /** One step of the lookup from a leaf class: its own declaration, else its base's value. */
  lemma InheritedFromLeaf<T>(k: Kind, declared: Class -> Option<T>, root: T)
    ensures Inherited(LeafClass(k), declared, root)
         == declared(LeafClass(k)).GetOr(Inherited(Abstract(LeafBase(k)), declared, root))
  {
  }

  /** Each family is the set of leaves below its abstract classes. */
  lemma FamilyOfBase(k: Kind)
    ensures IsValueFamily(k) <==> LeafBase(k) in {ValueExpressionClass, UnaryOperationClass}
    ensures IsBinaryFamily(k) <==> LeafBase(k) in {BinaryExpressionClass, WithinClass}
    ensures IsVariadicFamily(k) <==>
      LeafBase(k) in {VariadicExpressionClass, LogicalOperationClass, RelationClass,
                      OrderedSetClass, NumericExpressionClass}
  {
    match k
    case Literal | Var | Complement | Reverse =>
    case Pair | Select | IsInstance | Membership | RegexFilter =>
    case Map | Filter | Sort | Any | Each =>
    case Apply | Bind | Repeat | Tuple | IfElse =>
    case Union | Intersection =>
    case StrictOrderedSet | PartialOrderedSet | ContainmentOrder | Equivalence =>
    case Sum | Difference | Product | Quotient =>
  }

  /** The arity each abstract class resolves to. */
  lemma AbstractArity(a: AbstractClass)
    ensures Inherited(Abstract(a), DeclaredArity, RootArity) ==
      match a
      case ExpressionClass => Fixed(0)
      case ValueExpressionClass | UnaryOperationClass => Fixed(1)
      case BinaryExpressionClass | WithinClass => Fixed(2)
      case _ => NoArity
  {
    match a
    case OrderedSetClass =>
      assert Inherited(Abstract(a), DeclaredArity, RootArity)
          == Inherited(Abstract(RelationClass), DeclaredArity, RootArity);
    case _ =>
  }

  /**
    The inherited arity is 1 exactly for the value family, 2 exactly for the
    binary family and `None` exactly for the variadic family; no leaf kind
    inherits the root's 0.
  */
  lemma ArityByFamily(k: Kind)
    ensures KindArity(k) == Fixed(1) <==> IsValueFamily(k)
    ensures KindArity(k) == Fixed(2) <==> IsBinaryFamily(k)
    ensures KindArity(k) == NoArity <==> IsVariadicFamily(k)
    ensures KindArity(k) != Fixed(0)
  {
    InheritedFromLeaf(k, DeclaredArity, RootArity);
    AbstractArity(LeafBase(k));
    FamilyOfBase(k);
  }

  /** The return signature each abstract class resolves to. */
  lemma AbstractReturn(a: AbstractClass)
    ensures Inherited(Abstract(a), DeclaredReturn, RootReturn) ==
      match a
      case WithinClass => Unspecified
      case LogicalOperationClass | RelationClass | OrderedSetClass => IBoolean
      case NumericExpressionClass => INumber
      case _ => AnyType
  {
    match a
    case OrderedSetClass =>
      assert Inherited(Abstract(a), DeclaredReturn, RootReturn)
          == Inherited(Abstract(RelationClass), DeclaredReturn, RootReturn);
    case _ =>
  }

  /** The complete return-signature table, one signature at a time. */
  lemma ReturnSignatureTable(k: Kind)
    ensures ReturnSignature(k) == IBoolean <==>
      k in {Complement, Membership, RegexFilter, Union, Intersection,
            StrictOrderedSet, PartialOrderedSet, ContainmentOrder, Equivalence}
    ensures ReturnSignature(k) == INumber <==> k in {Sum, Difference, Product, Quotient}
    ensures ReturnSignature(k) == IRepeated <==> k in {Reverse, Repeat}
    ensures ReturnSignature(k) == IAssociative <==> k == Bind
    ensures ReturnSignature(k) == BuiltinTuple <==> k in {Pair, Tuple}
    ensures ReturnSignature(k) == BuiltinBool <==> k in {Any, Each}
    ensures ReturnSignature(k) == Unspecified <==> k in {Select, Map, Filter, Sort}
    ensures ReturnSignature(k) == AnyType <==> k in {Literal, Var, IsInstance, Apply, IfElse}
  {
    InheritedFromLeaf(k, DeclaredReturn, RootReturn);
    AbstractReturn(LeafBase(k));
  }
}
