# EFILTER expression tree, in Dafny

A model of the canonical query expression tree of EFILTER (`efilter/ast.py`),
the abstract syntax every EFILTER surface syntax compiles into. The tree has
no evaluation behaviour of its own; what it does is:

- check the shape of a node when it is built: `start`/`end` are the only
  keyword arguments, value kinds take one child, binary kinds take two,
  variadic kinds take any number;
- compare and hash nodes structurally, on the kind and the ordered children,
  ignoring source positions;
- expose children through positional accessors (`lhs`/`rhs`, `key`/`value`,
  `func`/`args`, ...);
- decode the flat child list of an `IfElse` node into (condition, block)
  pairs and an optional else block;
- carry static per-kind metadata (`arity`, `return_signature`) that each kind
  inherits through the class hierarchy.

Files, one module each:

- `wrappers.dfy` (`Wrappers`): `Option` and `Result`.
- `kinds.dfy` (`Kinds`): the 29 concrete node kinds, the class hierarchy
  above them, Python's attribute lookup along that hierarchy, and the
  resulting arity and return-signature tables.
- `ast.dfy` (`Ast`): payload values, nodes, `Construct` (the constructor with
  its `ValueError`s) and the accessors.
- `equality.dfy` (`Equality`): `__eq__`, `__ne__`, `__hash__`, and a canonical
  form that equality is proved to coincide with.
- `conditionals.dfy` (`Conditionals`): `IfElse.conditions()` and
  `IfElse.default()`, an explicit `Clauses` form, and the round trip between
  the two.

Payload equality follows Python 2, the language of the source: `bool` is a
subclass of `int`, so `Literal(True) == Literal(1)`; and a byte string `str`
equals a `unicode` string exactly when its bytes are all ASCII and decode to
that text, so `Literal('a') == Literal(u'a')` while a non-ASCII byte string
equals no `unicode` string. The hash of a kind's class object and of a
payload value are parameters supplied by the host. The only condition is that
payload hashes agree with payload `==`, as Python requires.

Two facts about `IfElse` that the model keeps:

- `IfElse.default()` returns the last child when the child count is odd
  (efilter/ast.py:330-333).
- `IfElse` inherits `arity = None` (efilter/ast.py:123, 313), so an `IfElse`
  with no children can be built.

## Model

| member | source | states |
|---|---|---|
| Kinds.FamiliesPartition | efilter/ast.py:96-124 | every kind is in exactly one of the value, binary and variadic families |
| Kinds.FamilyOfBase | efilter/ast.py:129-420 | each family is exactly the set of leaf classes below its abstract classes |
| Kinds.AbstractArity | efilter/ast.py:50-123 | `arity` resolves to 0 on `Expression`, 1 below `ValueExpression`, 2 below `BinaryExpression`, `None` below `VariadicExpression` |
| Kinds.ArityByFamily | efilter/ast.py:96-124 | a leaf kind's inherited arity is 1 exactly for the value family, 2 exactly for the binary family, `None` exactly for the variadic family, and never the root's 0 |
| Kinds.AbstractReturn | efilter/ast.py:200-396 | `return_signature` resolves to `None` below `Within`, `IBoolean` below the logical and relation classes, `INumber` below `NumericExpression`, `AnyType` elsewhere |
| Kinds.ReturnSignatureTable | efilter/ast.py:55-395 | the full return-signature table: for each signature, exactly which kinds end up with it after inheritance |
| Ast.Construct | efilter/ast.py:66-79 | building succeeds iff the only keywords are `start`/`end` and the child count fits the family; a success stores exactly the given kind and children in order, with `start`/`end` defaulting to `None`; leftover keywords fail first, naming them; otherwise a wrong count fails with the 1 or 2 the kind demands |
| Ast.ConstructedShape | efilter/ast.py:75-79 | every node `Construct` returns has its family's child count |
| Ast.FixedArityExact | efilter/ast.py:75-77 | a fixed-arity kind accepts exactly 1 (value kinds) or 2 (binary kinds) children and rejects every other count |
| Ast.VariadicAcceptsAny | efilter/ast.py:119-123 | variadic kinds accept any child count, zero included, and keep the children as given |
| Ast.OperandRoundTrip | efilter/ast.py:101-103 | `value` of a value-family node is the one child it was built from |
| Ast.BinaryDecomposition | efilter/ast.py:110-116 | a binary node's children are exactly `[lhs, rhs]` |
| Ast.BinaryRoundTrip | efilter/ast.py:110-116 | `lhs` and `rhs` return the first and second constructor argument |
| Ast.PairSelectMirror | efilter/ast.py:168-193 | `Pair` keeps its key on the left and `Select` on the right: `Pair(k, v)` and `Select(v, k)` agree on key and value |
| Ast.NamedOperands | efilter/ast.py:212-274 | `context`/`expression`, `element`/`set` and `string`/`regex` are `lhs`/`rhs` in that order |
| Ast.ApplyDecomposition | efilter/ast.py:284-290 | `func` exists iff there is a child; `func` followed by `args` is the whole child list; with no children `args` is empty |
| Ast.ApplyRoundTrip | efilter/ast.py:284-290 | `Apply(f, *args)` gives back `f` as `func` and `args` as `args` |
| Equality.ValueEqIffCanon | efilter/ast.py:61 | payload `==` holds iff the values coincide once booleans are read as the integers 0 and 1 and all-ASCII byte strings as the text they decode to |
| Equality.EqualIffCanon | efilter/ast.py:60-61 | two nodes are equal iff their canonical forms (positions erased, payloads normalised) are identical |
| Equality.ChildEqIffCanon | efilter/ast.py:60-61 | two children are equal iff their canonical forms are identical; a node never equals a payload |
| Equality.EqualReflexive | efilter/ast.py:60-61 | every node equals itself |
| Equality.EqualSymmetric | efilter/ast.py:60-61 | equality is symmetric |
| Equality.EqualTransitive | efilter/ast.py:60-61 | equality is transitive |
| Equality.KindsSeparate | efilter/ast.py:60-61 | nodes of different kinds are never equal, so `Literal(x) != Var(x)` |
| Equality.PositionsIgnored | efilter/ast.py:51-61 | changing `start`/`end` leaves a node equal to the original |
| Equality.ReplaceChild | efilter/ast.py:60-61 | replacing a child by an equal child gives an equal node |
| Equality.NotEqualIffDiffer | efilter/ast.py:63-64 | `!=` holds iff the kinds differ or the canonical children differ |
| Equality.EqualNodesHashEqually | efilter/ast.py:57-61 | equal nodes hash equally, given payload hashes that agree with payload `==` |
| Equality.EqualChildrenHashEqually | efilter/ast.py:57-61 | equal children hash equally under the same condition |
| Equality.HashIgnoresPositions | efilter/ast.py:57-58 | the hash does not depend on `start`/`end` |
| Conditionals.PairUp | efilter/ast.py:325-328 | pairing a child list gives floor(n/2) pairs, the i-th being children 2i and 2i+1 |
| Conditionals.Conditions | efilter/ast.py:325-328 | `conditions()` yields floor(n/2) pairs, the i-th being `(children[2i], children[2i+1])` |
| Conditionals.IterateConditions | efilter/ast.py:325-328 | the generator's loop over `idx = 1, 3, 5, ...` yields exactly those pairs, in order |
| Conditionals.Default | efilter/ast.py:330-333 | `default()` is present iff the child count is odd, and then it is the last child |
| Conditionals.FlattenPairUp | efilter/ast.py:325-328 | laying the pairs out flat gives back the child list without its unpaired last child |
| Conditionals.PairUpFlatten | efilter/ast.py:325-328 | pairing a flat layout of pairs, with at most one child after it, gives the pairs back |
| Conditionals.DecodeCoversChildren | efilter/ast.py:313-333 | the pairs and the default cover every child exactly once, in order |
| Conditionals.DecodeFlatten | efilter/ast.py:313-333 | an `IfElse` node built from explicit clauses decodes back to those clauses |
| Conditionals.IfElseRoundTrip | efilter/ast.py:313-333 | any child list builds an `IfElse`, and decoding and re-flattening it gives that list back |

## Left out

- `Expression.__repr__` (efilter/ast.py:81-93): pretty-printing only.
- `type_signature`: it names Python builtins and protocol classes (`basestring`, `IAssociative`, ...) whose definitions are not part of this model. `return_signature` is kept only as an opaque tag per kind.
- Type inference, the capability/protocol registry and `applicative.apply`: their implementations (`efilter/transforms/infer_type.py`, `efilter/protocol.py`, `efilter/protocols/`) are not part of this model.
- Instances of the abstract intermediate classes (`UnaryOperation`, `Within`, `Relation`, ...): only the concrete leaf kinds are nodes. Their `arity` and `return_signature` still appear in the inherited lookup. With leaf kinds only, the `isinstance` test in `__eq__` is kind equality.
- The error message text of the two `ValueError`s: the model keeps the data the messages carry (leftover keyword names; arity, kind and child count).
- Floating-point payloads (`1.0 == 1` in Python) and container payloads (tuples, lists, dicts, compared by value in Python) are outside the model. `External` is an opaque host object compared by identity, and stands for neither. Unhashable payloads, which make `__hash__` raise `TypeError`, are not modelled either.
- The `UnicodeWarning` Python 2 emits when a non-ASCII `str` is compared with a `unicode`, and any default codec other than ASCII: the comparison is modelled only as its result, `False`.
- Mutation of a node after construction: Python does not prevent reassigning `children`, but no code in the tree does so, so nodes are immutable values here.
- Equality.Hash: the concrete hash values are not CPython's. `TupleHash` stands in for CPython's tuple hash, which is not part of this model. The hash of a class object and of a payload are parameters. What is proved holds for any such choice: the hash depends only on kind and children, and equal nodes hash equally.
