/** An abstract method-body syntax tree: the node kinds the detectors react
    to, each carrying what the semantic model binds it to, and `OtherNode`
    for everything else. */
module Syntax {
  import opened Wrappers
  import opened Symbols

  datatype UnaryOperator = PreIncrement | PreDecrement | PostIncrement | PostDecrement | OtherUnaryOperator

  datatype Node =
    | IdentifierName(identifier: string, identifierSymbol: Option<Symbol>)
    | MemberAccess(expression: Node, memberName: string, memberSymbol: Option<Symbol>)
    | ElementAccess(expression: Node, indexArguments: seq<Node>, elementSymbol: Option<Symbol>)
    | Invocation(expression: Node, arguments: seq<Node>, invokedSymbol: Option<Symbol>)
      /** simple and compound assignments alike */
    | Assignment(left: Node, right: Node)
    | Unary(operator: UnaryOperator, operand: Node)
    | ObjectCreation(createdType: Option<TypeSymbol>, creationArguments: seq<Node>)
    | UnsafeStatement(unsafeBody: seq<Node>)
    | FixedStatement(fixedBody: seq<Node>)
    | PointerType(pointee: Node)
    | ThisExpression
    | OtherNode(children: seq<Node>)

  /** One element of `DescendantNodes()`: a node and whether its parent is an
      invocation whose callee it is. */
  datatype Visit = Visit(node: Node, isInvokedExpression: bool)

  /** A method declaration: its declared symbol (absent when the semantic
      model has none), whether it carries the `unsafe` modifier, and the
      top-level syntax below it (return type, parameters, body) in order. */
  datatype MethodDeclaration = MethodDeclaration(symbol: Option<MethodSymbol>, hasUnsafeModifier: bool, syntax: seq<Node>)

  /** A subtree in pre-order, its root first. */
  function Walk(n: Node, isInvokedExpression: bool): (r: seq<Visit>)
    ensures |r| > 0 && r[0] == Visit(n, isInvokedExpression)
  {
    [Visit(n, isInvokedExpression)] +
    match n
    case IdentifierName(_, _) => []
    case MemberAccess(e, _, _) => Walk(e, false)
    case ElementAccess(e, args, _) => Walk(e, false) + WalkAll(args)
    case Invocation(e, args, _) => Walk(e, true) + WalkAll(args)
    case Assignment(l, r) => Walk(l, false) + Walk(r, false)
    case Unary(_, operand) => Walk(operand, false)
    case ObjectCreation(_, args) => WalkAll(args)
    case UnsafeStatement(body) => WalkAll(body)
    case FixedStatement(body) => WalkAll(body)
    case PointerType(pointee) => Walk(pointee, false)
    case ThisExpression => []
    case OtherNode(children) => WalkAll(children)
  }

  /** Sibling subtrees in order. */
  function WalkAll(ns: seq<Node>): (r: seq<Visit>)
    ensures |r| >= |ns|
  {
    if ns == [] then [] else Walk(ns[0], false) + WalkAll(ns[1..])
  }

  /** `DescendantNodes()` of a method declaration, in document order: every
      top-level node is visited, and none of them as a callee. */
  function DescendantNodes(decl: MethodDeclaration): (r: seq<Visit>)
    ensures forall i :: 0 <= i < |decl.syntax| ==> Visit(decl.syntax[i], false) in r
  {
    AllTopLevelNodesVisited(decl.syntax);
    WalkAll(decl.syntax)
  }

  /** Is `d` the node `n` itself or a node anywhere below it? */
  predicate Within(d: Node, n: Node) {
    d == n ||
    match n
    case IdentifierName(_, _) => false
    case MemberAccess(e, _, _) => Within(d, e)
    case ElementAccess(e, args, _) => Within(d, e) || exists a :: a in args && Within(d, a)
    case Invocation(e, args, _) => Within(d, e) || exists a :: a in args && Within(d, a)
    case Assignment(l, r) => Within(d, l) || Within(d, r)
    case Unary(_, operand) => Within(d, operand)
    case ObjectCreation(_, args) => exists a :: a in args && Within(d, a)
    case UnsafeStatement(body) => exists a :: a in body && Within(d, a)
    case FixedStatement(body) => exists a :: a in body && Within(d, a)
    case PointerType(pointee) => Within(d, pointee)
    case ThisExpression => false
    case OtherNode(children) => exists a :: a in children && Within(d, a)
  }

  /** Is `d` a node at or below `n` that the walk of `n`, entered with flag
      `b`, reaches with flag `c`? The callee of an invocation is reached with
      `true`, every other child with `false`. */
  predicate WithinAs(d: Node, c: bool, n: Node, b: bool) {
    (d == n && c == b) ||
    match n
    case IdentifierName(_, _) => false
    case MemberAccess(e, _, _) => WithinAs(d, c, e, false)
    case ElementAccess(e, args, _) => WithinAs(d, c, e, false) || exists a :: a in args && WithinAs(d, c, a, false)
    case Invocation(e, args, _) => WithinAs(d, c, e, true) || exists a :: a in args && WithinAs(d, c, a, false)
    case Assignment(l, r) => WithinAs(d, c, l, false) || WithinAs(d, c, r, false)
    case Unary(_, operand) => WithinAs(d, c, operand, false)
    case ObjectCreation(_, args) => exists a :: a in args && WithinAs(d, c, a, false)
    case UnsafeStatement(body) => exists a :: a in body && WithinAs(d, c, a, false)
    case FixedStatement(body) => exists a :: a in body && WithinAs(d, c, a, false)
    case PointerType(pointee) => WithinAs(d, c, pointee, false)
    case ThisExpression => false
    case OtherNode(children) => exists a :: a in children && WithinAs(d, c, a, false)
  }

  /** Is `d` a node of the declaration's syntax, at any depth? */
  predicate InDeclaration(d: Node, decl: MethodDeclaration) {
    exists t :: t in decl.syntax && Within(d, t)
  }

  /** What the semantic model binds a node to (`GetSymbolInfo(...).Symbol`). */
  function SymbolOf(n: Node): Option<Symbol> {
    match n
    case IdentifierName(_, s) => s
    case MemberAccess(_, _, s) => s
    case ElementAccess(_, _, s) => s
    case Invocation(_, _, s) => s
    case _ => None
  }

  /** The method an invocation resolves to, if any. */
  function CalledMethod(n: Node): (r: Option<MethodSymbol>)
    ensures r.Some? ==> n.Invocation? && n.invokedSymbol == Some(MethodSym(r.value))
  {
    if n.Invocation? && n.invokedSymbol.Some? && n.invokedSymbol.value.MethodSym? then
      Some(n.invokedSymbol.value.methodSymbol)
    else None
  }

  /** `GetRootIdentifierName`: follow member accesses leftwards to an
      identifier; any other root (`this`, an indexer, a call) has no name. */
  function RootIdentifierName(e: Node): (r: Option<string>)
    ensures e.IdentifierName? ==> r == Some(e.identifier)
    ensures !e.IdentifierName? && !e.MemberAccess? ==> r.None?
  {
    match e
    case IdentifierName(name, _) => Some(name)
    case MemberAccess(target, _, _) => RootIdentifierName(target)
    case _ => None
  }

  // ---------------------------------------------------------------------
  // Properties

  /** Every top-level node is visited, and none of them as a callee. */
  lemma {:induction false} TopLevelNodesVisited(ns: seq<Node>, i: nat)
    requires i < |ns|
    ensures Visit(ns[i], false) in WalkAll(ns)
  {
    if i > 0 {
      TopLevelNodesVisited(ns[1..], i - 1);
    }
  }

  /** The statement of TopLevelNodesVisited for all top-level nodes at once. */
  lemma AllTopLevelNodesVisited(ns: seq<Node>)
    ensures forall i :: 0 <= i < |ns| ==> Visit(ns[i], false) in WalkAll(ns)
  {
    forall i | 0 <= i < |ns|
      ensures Visit(ns[i], false) in WalkAll(ns)
    {
      TopLevelNodesVisited(ns, i);
    }
  }

  /** Whatever the walk of one sibling visits, the walk of all siblings does. */
  lemma {:induction false} WalkAllContains(ns: seq<Node>, a: Node, v: Visit)
    requires a in ns && v in Walk(a, false)
    ensures v in WalkAll(ns)
  {
    if ns[0] != a {
      WalkAllContains(ns[1..], a, v);
    }
  }

  /** The walk is complete: every node below `n`, at any depth, is visited
      by the walk of `n`. */
  lemma {:induction false} WalkVisitsWithin(d: Node, n: Node, b: bool)
    requires Within(d, n)
    ensures exists c :: Visit(d, c) in Walk(n, b)
    decreases n
  {
    if d == n {
      assert Walk(n, b)[0] == Visit(d, b);
    } else {
      match n
      case MemberAccess(e, _, _) =>
        WalkVisitsWithin(d, e, false);
        var c :| Visit(d, c) in Walk(e, false);
        assert Visit(d, c) in Walk(n, b);
      case ElementAccess(e, args, _) =>
        if Within(d, e) {
          WalkVisitsWithin(d, e, false);
          var c :| Visit(d, c) in Walk(e, false);
          assert Visit(d, c) in Walk(n, b);
        } else {
          var a :| a in args && Within(d, a);
          WalkVisitsWithin(d, a, false);
          var c :| Visit(d, c) in Walk(a, false);
          WalkAllContains(args, a, Visit(d, c));
          assert Visit(d, c) in Walk(n, b);
        }
      case Invocation(e, args, _) =>
        if Within(d, e) {
          WalkVisitsWithin(d, e, true);
          var c :| Visit(d, c) in Walk(e, true);
          assert Visit(d, c) in Walk(n, b);
        } else {
          var a :| a in args && Within(d, a);
          WalkVisitsWithin(d, a, false);
          var c :| Visit(d, c) in Walk(a, false);
          WalkAllContains(args, a, Visit(d, c));
          assert Visit(d, c) in Walk(n, b);
        }
      case Assignment(l, r) =>
        var side := if Within(d, l) then l else r;
        WalkVisitsWithin(d, side, false);
        var c :| Visit(d, c) in Walk(side, false);
        assert Visit(d, c) in Walk(n, b);
      case Unary(_, operand) =>
        WalkVisitsWithin(d, operand, false);
        var c :| Visit(d, c) in Walk(operand, false);
        assert Visit(d, c) in Walk(n, b);
      case ObjectCreation(_, args) =>
        var a :| a in args && Within(d, a);
        WalkVisitsWithin(d, a, false);
        var c :| Visit(d, c) in Walk(a, false);
        WalkAllContains(args, a, Visit(d, c));
        assert Visit(d, c) in Walk(n, b);
      case UnsafeStatement(body) =>
        var a :| a in body && Within(d, a);
        WalkVisitsWithin(d, a, false);
        var c :| Visit(d, c) in Walk(a, false);
        WalkAllContains(body, a, Visit(d, c));
        assert Visit(d, c) in Walk(n, b);
      case FixedStatement(body) =>
        var a :| a in body && Within(d, a);
        WalkVisitsWithin(d, a, false);
        var c :| Visit(d, c) in Walk(a, false);
        WalkAllContains(body, a, Visit(d, c));
        assert Visit(d, c) in Walk(n, b);
      case PointerType(pointee) =>
        WalkVisitsWithin(d, pointee, false);
        var c :| Visit(d, c) in Walk(pointee, false);
        assert Visit(d, c) in Walk(n, b);
      case OtherNode(children) =>
        var a :| a in children && Within(d, a);
        WalkVisitsWithin(d, a, false);
        var c :| Visit(d, c) in Walk(a, false);
        WalkAllContains(children, a, Visit(d, c));
        assert Visit(d, c) in Walk(n, b);
    }
  }

  /** The walk is complete with flags: a node reached with flag `c` is
      visited with exactly that flag. */
  lemma {:induction false} WalkVisitsWithinAs(d: Node, c: bool, n: Node, b: bool)
    requires WithinAs(d, c, n, b)
    ensures Visit(d, c) in Walk(n, b)
    decreases n
  {
    if d == n && c == b {
      assert Walk(n, b)[0] == Visit(d, c);
    } else {
      match n
      case MemberAccess(e, _, _) =>
        WalkVisitsWithinAs(d, c, e, false);
      case ElementAccess(e, args, _) =>
        if WithinAs(d, c, e, false) {
          WalkVisitsWithinAs(d, c, e, false);
        } else {
          var a :| a in args && WithinAs(d, c, a, false);
          WalkVisitsWithinAs(d, c, a, false);
          WalkAllContains(args, a, Visit(d, c));
        }
      case Invocation(e, args, _) =>
        if WithinAs(d, c, e, true) {
          WalkVisitsWithinAs(d, c, e, true);
        } else {
          var a :| a in args && WithinAs(d, c, a, false);
          WalkVisitsWithinAs(d, c, a, false);
          WalkAllContains(args, a, Visit(d, c));
        }
      case Assignment(l, r) =>
        var side := if WithinAs(d, c, l, false) then l else r;
        WalkVisitsWithinAs(d, c, side, false);
      case Unary(_, operand) =>
        WalkVisitsWithinAs(d, c, operand, false);
      case ObjectCreation(_, args) =>
        var a :| a in args && WithinAs(d, c, a, false);
        WalkVisitsWithinAs(d, c, a, false);
        WalkAllContains(args, a, Visit(d, c));
      case UnsafeStatement(body) =>
        var a :| a in body && WithinAs(d, c, a, false);
        WalkVisitsWithinAs(d, c, a, false);
        WalkAllContains(body, a, Visit(d, c));
      case FixedStatement(body) =>
        var a :| a in body && WithinAs(d, c, a, false);
        WalkVisitsWithinAs(d, c, a, false);
        WalkAllContains(body, a, Visit(d, c));
      case PointerType(pointee) =>
        WalkVisitsWithinAs(d, c, pointee, false);
      case OtherNode(children) =>
        var a :| a in children && WithinAs(d, c, a, false);
        WalkVisitsWithinAs(d, c, a, false);
        WalkAllContains(children, a, Visit(d, c));
    }
  }

  /** `DescendantNodes()` is complete: every node of the declaration, at any
      depth, is visited. */
  lemma DescendantNodesComplete(decl: MethodDeclaration, d: Node)
    requires InDeclaration(d, decl)
    ensures exists c :: Visit(d, c) in DescendantNodes(decl)
  {
    var t :| t in decl.syntax && Within(d, t);
    WalkVisitsWithin(d, t, false);
    var c :| Visit(d, c) in Walk(t, false);
    WalkAllContains(decl.syntax, t, Visit(d, c));
  }

  /** The callee of an invocation is visited right after the invocation and
      marked as such; so is nothing else directly below it. */
  lemma InvokedExpressionVisited(callee: Node, args: seq<Node>, s: Option<Symbol>)
    ensures Walk(Invocation(callee, args, s), false)[1] == Visit(callee, true)
  {
  }

  /** `a.b.c` is rooted at `a`. */
  lemma RootOfMemberChain(a: string, b: string, c: string, sa: Option<Symbol>, sb: Option<Symbol>, sc: Option<Symbol>)
    ensures RootIdentifierName(MemberAccess(MemberAccess(IdentifierName(a, sa), b, sb), c, sc)) == Some(a)
  {
  }

  /** A chain rooted at `this` or at an indexer has no root identifier, so
      `this.items.Add(x)` and `arr[0].Value = x` name no parameter. */
  lemma RootOfThisOrIndexerChain(inner: Node, name: string, s: Option<Symbol>)
    requires inner.ThisExpression? || inner.ElementAccess?
    ensures RootIdentifierName(MemberAccess(inner, name, s)).None?
  {
  }
}
