/** The ten violation detectors and the entry point that runs them on every
    method marked pure. Each detector scans the method's descendant nodes and
    reports what one per-node check finds. */
module Detectors {
  import opened Wrappers
  import opened Text
  import opened Config
  import opened Symbols
  import opened Signatures
  import opened Classification
  import opened Catalogues
  import opened Syntax
  import opened Findings
  import PurityWhitelist

  /** What every per-node check knows besides the node: the analysed method's
      name, the merged configuration and the static whitelist. */
  datatype Context = Context(methodName: string, config: PurityConfig, whitelist: set<string>)

  // ---------------------------------------------------------------------
  // PUR001 field mutation

  /** `CheckFieldMutationTarget`: report the target if it binds to a field. */
  function FieldTarget(methodName: string, target: Node): (r: seq<Finding>)
    ensures |r| <= 1 && NamesMethod(r, methodName)
    ensures r != [] <==> SymbolOf(target).Some? && SymbolOf(target).value.FieldSym?
    ensures r != [] ==> r == [Finding(PUR001, [methodName, SymbolOf(target).value.fieldName])]
  {
    match SymbolOf(target)
    case Some(FieldSym(field, _)) => [Finding(PUR001, [methodName, field])]
    case _ => []
  }

  /** The target an assignment or an increment or decrement writes to. */
  function WrittenTarget(n: Node): Option<Node> {
    if n.Assignment? then Some(n.left)
    else if n.Unary? && n.operator != OtherUnaryOperator then Some(n.operand)
    else None
  }

  /** The per-node check of `CheckForFieldMutation`. */
  function FieldMutationAt(methodName: string, v: Visit): (r: seq<Finding>)
    ensures |r| <= 1 && NamesMethod(r, methodName)
    ensures r != [] <==> WrittenTarget(v.node).Some? && SymbolOf(WrittenTarget(v.node).value).Some? &&
                         SymbolOf(WrittenTarget(v.node).value).value.FieldSym?
    ensures r != [] ==> r == [Finding(PUR001, [methodName, SymbolOf(WrittenTarget(v.node).value).value.fieldName])]
  {
    match v.node
    case Assignment(left, _) => FieldTarget(methodName, left)
    case Unary(op, operand) =>
      if op in {PreIncrement, PreDecrement, PostIncrement, PostDecrement} then FieldTarget(methodName, operand) else []
    case _ => []
  }

  function FieldMutationFindings(methodName: string, visits: seq<Visit>): (r: seq<Finding>)
    ensures OfRules(r, {PUR001})
  {
    FlatMapOfRules(v => FieldMutationAt(methodName, v), visits, {PUR001});
    FlatMap(v => FieldMutationAt(methodName, v), visits)
  }

  /** `CheckForFieldMutation`. */
  method CheckForFieldMutation(methodName: string, visits: seq<Visit>) returns (findings: seq<Finding>)
    ensures findings == FieldMutationFindings(methodName, visits)
  {
    findings := Scan(visits, v => FieldMutationAt(methodName, v));
  }

  // ---------------------------------------------------------------------
  // PUR002 non-pure calls, with PUR011 for calls marked for review

  /** The verdict for a called method. */
  function Verdict(ctx: Context, m: MethodSymbol): PurityCheckResult {
    IsCalledMethodPure(m, BuildMethodSignature(m), ctx.config, ctx.whitelist)
  }

  /** The per-invocation check of `CheckForNonPureCalls`: PUR011 exactly when
      the verdict is pure with review, PUR002 exactly when it is not pure and
      the call is neither I/O nor non-deterministic (those have their own
      rules), and never both. */
  function InvocationPurityAt(ctx: Context, v: Visit): (r: seq<Finding>)
    ensures |r| <= 1 && NamesMethod(r, ctx.methodName)
    ensures CalledMethod(v.node).None? ==> r == []
    ensures CalledMethod(v.node).Some? ==>
              var m := CalledMethod(v.node).value;
              (r == [Finding(PUR011, [ctx.methodName, m.shortDisplay])] <==> Verdict(ctx, m) == PureWithReview) &&
              (r == [Finding(PUR002, [ctx.methodName, m.shortDisplay])] <==>
                 Verdict(ctx, m) == NotPure && !IsIoOperation(m) && !IsNonDeterministicMethod(m))
    ensures r != [] ==> r == [Finding(PUR011, [ctx.methodName, CalledMethod(v.node).value.shortDisplay])] ||
                        r == [Finding(PUR002, [ctx.methodName, CalledMethod(v.node).value.shortDisplay])]
  {
    match CalledMethod(v.node)
    case None => []
    case Some(m) =>
      var verdict := Verdict(ctx, m);
      var review := if verdict.IsPure() && verdict.IsReviewRequired() then [Finding(PUR011, [ctx.methodName, m.shortDisplay])] else [];
      if verdict.IsPure() then review
      else if IsIoOperation(m) || IsNonDeterministicMethod(m) then []
      else [Finding(PUR002, [ctx.methodName, m.shortDisplay])]
  }

  /** The property read at a visit: a member access that is not the callee of
      an invocation and binds to a property. */
  function PropertyRead(v: Visit): Option<PropertySymbol> {
    if !v.isInvokedExpression && v.node.MemberAccess? && v.node.memberSymbol.Some? && v.node.memberSymbol.value.PropertySym? then
      Some(v.node.memberSymbol.value.propertySymbol)
    else None
  }

  /** The per-member-access check of `CheckForNonPureCalls`: the getter is
      classified; a property whose own signature is whitelisted, or which is
      non-deterministic, is not reported. */
  function PropertyReadAt(ctx: Context, v: Visit): (r: seq<Finding>)
    ensures |r| <= 1 && NamesMethod(r, ctx.methodName)
    ensures PropertyRead(v).None? || PropertyRead(v).value.getter.None? ==> r == []
    ensures PropertyRead(v).Some? && PropertyRead(v).value.getter.Some? ==>
              var p := PropertyRead(v).value;
              (r == [Finding(PUR011, [ctx.methodName, p.shortDisplay])] <==> Verdict(ctx, p.getter.value) == PureWithReview) &&
              (r == [Finding(PUR002, [ctx.methodName, p.shortDisplay])] <==>
                 Verdict(ctx, p.getter.value) == NotPure && BuildPropertySignature(p) !in ctx.whitelist &&
                 !IsNonDeterministicProperty(p))
    ensures r != [] ==> r == [Finding(PUR011, [ctx.methodName, PropertyRead(v).value.shortDisplay])] ||
                        r == [Finding(PUR002, [ctx.methodName, PropertyRead(v).value.shortDisplay])]
  {
    if v.isInvokedExpression || !v.node.MemberAccess? then []
    else
      match v.node.memberSymbol
      case Some(PropertySym(p)) =>
        (match p.getter
         case None => []
         case Some(getter) =>
           var verdict := Verdict(ctx, getter);
           var review := if verdict.IsPure() && verdict.IsReviewRequired() then [Finding(PUR011, [ctx.methodName, p.shortDisplay])] else [];
           if verdict.IsPure() then review
           else if PurityWhitelist.IsWhitelisted(ctx.whitelist, BuildPropertySignature(p)) then []
           else if IsNonDeterministicProperty(p) then []
           else [Finding(PUR002, [ctx.methodName, p.shortDisplay])])
      case _ => []
  }

  function NonPureCallFindings(ctx: Context, visits: seq<Visit>): (r: seq<Finding>)
    ensures OfRules(r, {PUR002, PUR011})
  {
    FlatMapOfRules(v => InvocationPurityAt(ctx, v), visits, {PUR002, PUR011});
    FlatMapOfRules(v => PropertyReadAt(ctx, v), visits, {PUR002, PUR011});
    FlatMap(v => InvocationPurityAt(ctx, v), visits) + FlatMap(v => PropertyReadAt(ctx, v), visits)
  }

  /** `CheckForNonPureCalls`: all invocations first, then all property reads. */
  method CheckForNonPureCalls(ctx: Context, visits: seq<Visit>) returns (findings: seq<Finding>)
    ensures findings == NonPureCallFindings(ctx, visits)
  {
    var calls := Scan(visits, v => InvocationPurityAt(ctx, v));
    var propertyReads := Scan(visits, v => PropertyReadAt(ctx, v));
    findings := calls + propertyReads;
  }

  // ---------------------------------------------------------------------
  // PUR003 I/O

  /** "new T()", the argument reported for an object creation. */
  function CreationText(t: TypeSymbol): string {
    "new " + t.name + "()"
  }

  function IoCallAt(methodName: string, v: Visit): (r: seq<Finding>)
    ensures |r| <= 1 && NamesMethod(r, methodName)
    ensures r != [] <==> CalledMethod(v.node).Some? && IsIoOperation(CalledMethod(v.node).value)
    ensures r != [] ==> r == [Finding(PUR003, [methodName, CalledMethod(v.node).value.shortDisplay])]
  {
    match CalledMethod(v.node)
    case Some(m) => if IsIoOperation(m) then [Finding(PUR003, [methodName, m.shortDisplay])] else []
    case None => []
  }

  function IoCreationAt(methodName: string, v: Visit): (r: seq<Finding>)
    ensures |r| <= 1 && NamesMethod(r, methodName)
    ensures r != [] <==> v.node.ObjectCreation? && v.node.createdType.Some? && IsIoTypeName(v.node.createdType.value.display)
    ensures r != [] ==> r == [Finding(PUR003, [methodName, CreationText(v.node.createdType.value)])]
  {
    match v.node
    case ObjectCreation(Some(t), _) => if IsIoTypeName(t.display) then [Finding(PUR003, [methodName, CreationText(t)])] else []
    case _ => []
  }

  function IoFindings(methodName: string, visits: seq<Visit>): (r: seq<Finding>)
    ensures OfRules(r, {PUR003})
  {
    FlatMapOfRules(v => IoCallAt(methodName, v), visits, {PUR003});
    FlatMapOfRules(v => IoCreationAt(methodName, v), visits, {PUR003});
    FlatMap(v => IoCallAt(methodName, v), visits) + FlatMap(v => IoCreationAt(methodName, v), visits)
  }

  /** `CheckForIoOperations`: all invocations first, then all object creations. */
  method CheckForIoOperations(methodName: string, visits: seq<Visit>) returns (findings: seq<Finding>)
    ensures findings == IoFindings(methodName, visits)
  {
    var calls := Scan(visits, v => IoCallAt(methodName, v));
    var creations := Scan(visits, v => IoCreationAt(methodName, v));
    findings := calls + creations;
  }

  // ---------------------------------------------------------------------
  // PUR004 non-determinism

  /** Owner display name (empty when there is none), a dot, the name. */
  function MemberFullName(s: Symbol): string {
    (if s.ContainingType().Some? then s.ContainingType().value.display else "") + "." + s.Name()
  }

  /** The per-node check of `CheckForNonDeterministicApis`: a catalogued
      member access, a creation of a non-deterministic type, or a call on one. */
  function NonDeterminismAt(methodName: string, v: Visit): (r: seq<Finding>)
    ensures |r| <= 1 && NamesMethod(r, methodName)
    ensures v.node.MemberAccess? ==>
              (r != [] <==> v.node.memberSymbol.Some? && MemberFullName(v.node.memberSymbol.value) in NonDeterministicMembers)
    ensures v.node.MemberAccess? && r != [] ==>
              r == [Finding(PUR004, [methodName, MemberFullName(v.node.memberSymbol.value)])]
    ensures v.node.ObjectCreation? ==>
              (r != [] <==> v.node.createdType.Some? && v.node.createdType.value.display in NonDeterministicTypes)
    ensures v.node.ObjectCreation? && r != [] ==>
              r == [Finding(PUR004, [methodName, CreationText(v.node.createdType.value)])]
    ensures v.node.Invocation? ==>
              (r != [] <==> CalledMethod(v.node).Some? && CalledMethod(v.node).value.containingType.Some? &&
                            CalledMethod(v.node).value.containingType.value.display in NonDeterministicTypes)
    ensures v.node.Invocation? && r != [] ==>
              r == [Finding(PUR004, [methodName, CalledMethod(v.node).value.shortDisplay])]
    ensures !v.node.MemberAccess? && !v.node.ObjectCreation? && !v.node.Invocation? ==> r == []
  {
    match v.node
    case MemberAccess(_, _, symbol) =>
      if symbol.None? then []
      else
        var fullName := MemberFullName(symbol.value);
        if fullName in NonDeterministicMembers then [Finding(PUR004, [methodName, fullName])] else []
    case ObjectCreation(createdType, _) =>
      if createdType.Some? && createdType.value.display in NonDeterministicTypes then
        [Finding(PUR004, [methodName, CreationText(createdType.value)])]
      else []
    case Invocation(_, _, _) =>
      (match CalledMethod(v.node)
       case None => []
       case Some(m) =>
         if m.containingType.None? || m.containingType.value.display !in NonDeterministicTypes then []
         else [Finding(PUR004, [methodName, m.shortDisplay])])
    case _ => []
  }

  function NonDeterminismFindings(methodName: string, visits: seq<Visit>): (r: seq<Finding>)
    ensures OfRules(r, {PUR004})
  {
    FlatMapOfRules(v => NonDeterminismAt(methodName, v), visits, {PUR004});
    FlatMap(v => NonDeterminismAt(methodName, v), visits)
  }

  /** `CheckForNonDeterministicApis`. */
  method CheckForNonDeterministicApis(methodName: string, visits: seq<Visit>) returns (findings: seq<Finding>)
    ensures findings == NonDeterminismFindings(methodName, visits)
  {
    findings := Scan(visits, v => NonDeterminismAt(methodName, v));
  }

  // ---------------------------------------------------------------------
  // PUR005 mutable return types

  /** `CheckForMutableReturnType`: an array, or a named type whose generic
      definition is a catalogued mutable collection, is reported with the
      immutable alternative to use. */
  function MutableReturnFindings(methodName: string, returnType: TypeSymbol): (r: seq<Finding>)
    ensures |r| <= 1 && NamesMethod(r, methodName)
    ensures returnType.shape.ArrayType? ==>
              r == [Finding(PUR005, [methodName, returnType.minimalDisplay, "ImmutableArray<" + returnType.shape.elementMinimalDisplay + ">"])]
    ensures returnType.shape.NamedType? ==>
              (r != [] <==> MutableLookupKey(returnType.shape.originalDefinitionDisplay) in MutableToImmutable)
    ensures returnType.shape.OtherType? ==> r == []
  {
    match returnType.shape
    case ArrayType(element) =>
      [Finding(PUR005, [methodName, returnType.minimalDisplay, "ImmutableArray<" + element + ">"])]
    case NamedType(_, originalDefinition) =>
      var key := MutableLookupKey(originalDefinition);
      if key in MutableToImmutable then
        [Finding(PUR005, [methodName, returnType.minimalDisplay, MutableToImmutable[key]])]
      else []
    case OtherType => []
  }

  // ---------------------------------------------------------------------
  // PUR006 parameter mutation

  /** The names of the parameters whose type is not a value type. */
  function MutableParameterNames(m: MethodSymbol): set<string> {
    set p | p in m.parameters && !p.paramType.isValueType :: p.name
  }

  /** The receiver a node mutates: the target of a catalogued mutating call,
      of a member assignment or of an indexer assignment. */
  function MutatedReceiver(n: Node): Option<Node> {
    if n.Invocation? && n.expression.MemberAccess? && n.expression.memberName in MutatingMethodNames then
      Some(n.expression.expression)
    else if n.Assignment? && (n.left.MemberAccess? || n.left.ElementAccess?) then
      Some(n.left.expression)
    else None
  }

  /** Report the root name of a receiver if it is a checked parameter. */
  function ParameterTarget(methodName: string, parameterNames: set<string>, receiver: Node): seq<Finding> {
    var root := RootIdentifierName(receiver);
    if root.Some? && root.value in parameterNames then [Finding(PUR006, [methodName, root.value])] else []
  }

  /** The per-node check of `CheckForParameterMutation`: reported exactly when
      the node mutates a receiver rooted at a checked parameter's name. */
  function ParameterMutationAt(methodName: string, parameterNames: set<string>, v: Visit): (r: seq<Finding>)
    ensures |r| <= 1 && NamesMethod(r, methodName)
    ensures r != [] <==> MutatedReceiver(v.node).Some? &&
                         RootIdentifierName(MutatedReceiver(v.node).value).Some? &&
                         RootIdentifierName(MutatedReceiver(v.node).value).value in parameterNames
    ensures r != [] ==> r == [Finding(PUR006, [methodName, RootIdentifierName(MutatedReceiver(v.node).value).value])]
  {
    match v.node
    case Invocation(MemberAccess(receiver, calledName, _), _, _) =>
      if calledName in MutatingMethodNames then ParameterTarget(methodName, parameterNames, receiver) else []
    case Assignment(MemberAccess(receiver, _, _), _) => ParameterTarget(methodName, parameterNames, receiver)
    case Assignment(ElementAccess(receiver, _, _), _) => ParameterTarget(methodName, parameterNames, receiver)
    case _ => []
  }

  function ParameterMutationFindings(m: MethodSymbol, visits: seq<Visit>): (r: seq<Finding>)
    ensures OfRules(r, {PUR006})
  {
    FlatMapOfRules(v => ParameterMutationAt(m.name, MutableParameterNames(m), v), visits, {PUR006});
    FlatMap(v => ParameterMutationAt(m.name, MutableParameterNames(m), v), visits)
  }

  /** `CheckForParameterMutation`: returns at once when no parameter has a
      reference type. */
  method CheckForParameterMutation(m: MethodSymbol, visits: seq<Visit>) returns (findings: seq<Finding>)
    ensures findings == ParameterMutationFindings(m, visits)
  {
    var parameterNames := MutableParameterNames(m);
    if |parameterNames| == 0 {
      FlatMapSilent(v => ParameterMutationAt(m.name, parameterNames, v), visits);
      return [];
    }
    findings := Scan(visits, v => ParameterMutationAt(m.name, parameterNames, v));
  }

  // ---------------------------------------------------------------------
  // PUR007 ref and out parameters

  function RefOutFinding(methodName: string, p: Parameter): seq<Finding> {
    if p.refKind == Ref then [Finding(PUR007, [methodName, "ref", p.name])]
    else if p.refKind == Out then [Finding(PUR007, [methodName, "out", p.name])]
    else []
  }

  function RefOutFindings(methodName: string, ps: seq<Parameter>): (r: seq<Finding>)
    ensures OfRules(r, {PUR007})
  {
    if ps == [] then []
    else RefOutFindings(methodName, ps[..|ps| - 1]) + RefOutFinding(methodName, ps[|ps| - 1])
  }

  /** `CheckForRefOutParameters`: one finding per `ref` or `out` parameter,
      in declaration order. */
  method CheckForRefOutParameters(m: MethodSymbol) returns (findings: seq<Finding>)
    ensures findings == RefOutFindings(m.name, m.parameters)
  {
    findings := [];
    for i := 0 to |m.parameters|
      invariant findings == RefOutFindings(m.name, m.parameters[..i])
    {
      assert m.parameters[..i + 1][..i] == m.parameters[..i];
      var parameter := m.parameters[i];
      if parameter.refKind == Ref || parameter.refKind == Out {
        var refKindName := if parameter.refKind == Ref then "ref" else "out";
        findings := findings + [Finding(PUR007, [m.name, refKindName, parameter.name])];
      }
    }
    assert m.parameters[..|m.parameters|] == m.parameters;
  }

  // ---------------------------------------------------------------------
  // PUR008 unsafe code

  function UnsafeAt(methodName: string, v: Visit): (r: seq<Finding>)
    ensures NamesMethod(r, methodName)
    ensures r != [] <==> v.node.UnsafeStatement? || v.node.FixedStatement? || v.node.PointerType?
    ensures r != [] ==> r == [Finding(PUR008, [methodName])]
  {
    match v.node
    case UnsafeStatement(_) => [Finding(PUR008, [methodName])]
    case FixedStatement(_) => [Finding(PUR008, [methodName])]
    case PointerType(_) => [Finding(PUR008, [methodName])]
    case _ => []
  }

  function UnsafeFindings(methodName: string, hasUnsafeModifier: bool, visits: seq<Visit>): (r: seq<Finding>)
    ensures OfRules(r, {PUR008})
  {
    if hasUnsafeModifier then [Finding(PUR008, [methodName])]
    else
      FlatMapOfRules(v => UnsafeAt(methodName, v), visits, {PUR008});
      FlatMap(v => UnsafeAt(methodName, v), visits)
  }

  /** `CheckForUnsafeCode`: an `unsafe` method is reported once and its body
      is not scanned. */
  method CheckForUnsafeCode(methodName: string, hasUnsafeModifier: bool, visits: seq<Visit>) returns (findings: seq<Finding>)
    ensures findings == UnsafeFindings(methodName, hasUnsafeModifier, visits)
  {
    if hasUnsafeModifier {
      return [Finding(PUR008, [methodName])];
    }
    findings := Scan(visits, v => UnsafeAt(methodName, v));
  }

  // ---------------------------------------------------------------------
  // PUR009 reflection

  function ReflectionAt(methodName: string, v: Visit): (r: seq<Finding>)
    ensures |r| <= 1 && NamesMethod(r, methodName)
    ensures r != [] <==> CalledMethod(v.node).Some? && ReflectionName(CalledMethod(v.node).value).Some? &&
                         ReflectionName(CalledMethod(v.node).value).value in ReflectionPatterns
    ensures r != [] ==> r == [Finding(PUR009, [methodName, CalledMethod(v.node).value.shortDisplay])]
  {
    match CalledMethod(v.node)
    case None => []
    case Some(m) =>
      match ReflectionName(m)
      case None => []
      case Some(fullName) => if fullName in ReflectionPatterns then [Finding(PUR009, [methodName, m.shortDisplay])] else []
  }

  function ReflectionFindings(methodName: string, visits: seq<Visit>): (r: seq<Finding>)
    ensures OfRules(r, {PUR009})
  {
    FlatMapOfRules(v => ReflectionAt(methodName, v), visits, {PUR009});
    FlatMap(v => ReflectionAt(methodName, v), visits)
  }

  /** `CheckForReflection`. */
  method CheckForReflection(methodName: string, visits: seq<Visit>) returns (findings: seq<Finding>)
    ensures findings == ReflectionFindings(methodName, visits)
  {
    findings := Scan(visits, v => ReflectionAt(methodName, v));
  }

  // ---------------------------------------------------------------------
  // PUR010 exceptions as control flow

  function ExceptionFlowAt(methodName: string, v: Visit): (r: seq<Finding>)
    ensures |r| <= 1 && NamesMethod(r, methodName)
    ensures r != [] <==> CalledMethod(v.node).Some? && ClrMemberName(CalledMethod(v.node).value).Some? &&
                         ClrMemberName(CalledMethod(v.node).value).value in ExceptionControlFlowMethods
    ensures r != [] ==> r == [Finding(PUR010, [methodName, CalledMethod(v.node).value.shortDisplay])]
  {
    match CalledMethod(v.node)
    case None => []
    case Some(m) =>
      match ClrMemberName(m)
      case None => []
      case Some(fullName) => if fullName in ExceptionControlFlowMethods then [Finding(PUR010, [methodName, m.shortDisplay])] else []
  }

  function ExceptionFlowFindings(methodName: string, visits: seq<Visit>): (r: seq<Finding>)
    ensures OfRules(r, {PUR010})
  {
    FlatMapOfRules(v => ExceptionFlowAt(methodName, v), visits, {PUR010});
    FlatMap(v => ExceptionFlowAt(methodName, v), visits)
  }

  /** `CheckForExceptionControlFlow`. */
  method CheckForExceptionControlFlow(methodName: string, visits: seq<Visit>) returns (findings: seq<Finding>)
    ensures findings == ExceptionFlowFindings(methodName, visits)
  {
    findings := Scan(visits, v => ExceptionFlowAt(methodName, v));
  }

  // ---------------------------------------------------------------------
  // The entry point

  /** Everything reported for one method declaration, detector by detector
      in the order the analyzer runs them. */
  function Analysis(decl: MethodDeclaration, config: PurityConfig, whitelist: set<string>): (r: seq<Finding>)
    ensures r != [] ==> decl.symbol.Some? && IsPureMethod(decl.symbol.value)
  {
    match decl.symbol
    case None => []
    case Some(m) =>
      if !IsPureMethod(m) then []
      else
        var visits := DescendantNodes(decl);
        var ctx := Context(m.name, config, whitelist);
        FieldMutationFindings(m.name, visits)
        + NonPureCallFindings(ctx, visits)
        + IoFindings(m.name, visits)
        + NonDeterminismFindings(m.name, visits)
        + MutableReturnFindings(m.name, m.returnType)
        + ParameterMutationFindings(m, visits)
        + RefOutFindings(m.name, m.parameters)
        + UnsafeFindings(m.name, decl.hasUnsafeModifier, visits)
        + ReflectionFindings(m.name, visits)
        + ExceptionFlowFindings(m.name, visits)
  }

  /** `AnalyzeMethod`: methods without a symbol or not marked pure are skipped. */
  method AnalyzeMethod(decl: MethodDeclaration, config: PurityConfig, whitelist: set<string>) returns (findings: seq<Finding>)
    ensures findings == Analysis(decl, config, whitelist)
  {
    if decl.symbol.None? {
      return [];
    }
    var m := decl.symbol.value;
    if !IsPureMethod(m) {
      return [];
    }
    var visits := DescendantNodes(decl);
    var ctx := Context(m.name, config, whitelist);
    var pur001 := CheckForFieldMutation(m.name, visits);
    var pur002 := CheckForNonPureCalls(ctx, visits);
    var pur003 := CheckForIoOperations(m.name, visits);
    var pur004 := CheckForNonDeterministicApis(m.name, visits);
    var pur005 := MutableReturnFindings(m.name, m.returnType);
    var pur006 := CheckForParameterMutation(m, visits);
    var pur007 := CheckForRefOutParameters(m);
    var pur008 := CheckForUnsafeCode(m.name, decl.hasUnsafeModifier, visits);
    var pur009 := CheckForReflection(m.name, visits);
    var pur010 := CheckForExceptionControlFlow(m.name, visits);
    findings := pur001 + pur002 + pur003 + pur004 + pur005 + pur006 + pur007 + pur008 + pur009 + pur010;
  }
}
