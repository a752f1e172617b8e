/** Properties of the detectors taken together: what the entry point reports
    for whole methods, and how the rules relate to one another. */
module DetectorProperties {
  import opened Wrappers
  import opened Text
  import opened Config
  import opened Symbols
  import opened Signatures
  import opened Classification
  import opened Catalogues
  import opened Syntax
  import opened Findings
  import opened Detectors
  import opened PatternMatcher

  lemma NamesMethodAppend(a: seq<Finding>, b: seq<Finding>, methodName: string)
    requires NamesMethod(a, methodName) && NamesMethod(b, methodName)
    ensures NamesMethod(a + b, methodName)
  {
  }

  lemma {:induction false} RefOutFindingsNameMethod(methodName: string, ps: seq<Parameter>)
    ensures NamesMethod(RefOutFindings(methodName, ps), methodName)
  {
    if ps != [] {
      RefOutFindingsNameMethod(methodName, ps[..|ps| - 1]);
      NamesMethodAppend(RefOutFindings(methodName, ps[..|ps| - 1]), RefOutFinding(methodName, ps[|ps| - 1]), methodName);
    }
  }

  /** Every diagnostic the analyzer reports for a method carries that
      method's name as its first message argument. */
  lemma FindingsNameAnalysedMethod(decl: MethodDeclaration, config: PurityConfig, whitelist: set<string>)
    requires decl.symbol.Some?
    ensures NamesMethod(Analysis(decl, config, whitelist), decl.symbol.value.name)
  {
    var m := decl.symbol.value;
    if IsPureMethod(m) {
      var visits := DescendantNodes(decl);
      ScansNameMethod(m, Context(m.name, config, whitelist), decl.hasUnsafeModifier, visits);
      RefOutFindingsNameMethod(m.name, m.parameters);
    }
  }

  /** The scans over the method body each attribute their findings to the
      analysed method. */
  lemma ScansNameMethod(m: MethodSymbol, ctx: Context, hasUnsafeModifier: bool, visits: seq<Visit>)
    requires ctx.methodName == m.name
    ensures NamesMethod(FieldMutationFindings(m.name, visits), m.name)
    ensures NamesMethod(NonPureCallFindings(ctx, visits), m.name)
    ensures NamesMethod(IoFindings(m.name, visits), m.name)
    ensures NamesMethod(NonDeterminismFindings(m.name, visits), m.name)
    ensures NamesMethod(ParameterMutationFindings(m, visits), m.name)
    ensures NamesMethod(UnsafeFindings(m.name, hasUnsafeModifier, visits), m.name)
    ensures NamesMethod(ReflectionFindings(m.name, visits), m.name)
    ensures NamesMethod(ExceptionFlowFindings(m.name, visits), m.name)
  {
    var name := m.name;
    FlatMapNamesMethod(v => FieldMutationAt(name, v), visits, name);
    FlatMapNamesMethod(v => InvocationPurityAt(ctx, v), visits, name);
    FlatMapNamesMethod(v => PropertyReadAt(ctx, v), visits, name);
    FlatMapNamesMethod(v => IoCallAt(name, v), visits, name);
    FlatMapNamesMethod(v => IoCreationAt(name, v), visits, name);
    FlatMapNamesMethod(v => NonDeterminismAt(name, v), visits, name);
    FlatMapNamesMethod(v => ParameterMutationAt(name, MutableParameterNames(m), v), visits, name);
    FlatMapNamesMethod(v => UnsafeAt(name, v), visits, name);
    FlatMapNamesMethod(v => ReflectionAt(name, v), visits, name);
    FlatMapNamesMethod(v => ExceptionFlowAt(name, v), visits, name);
  }

  /** A per-node check that does not look at the callee flag reports, over
      the whole walk of a declaration, whatever it finds at any node below
      the declaration. */
  lemma NestedNodeScanned(decl: MethodDeclaration, d: Node, check: Visit -> seq<Finding>, f: Finding)
    requires InDeclaration(d, decl)
    requires check(Visit(d, true)) == check(Visit(d, false))
    requires f in check(Visit(d, false))
    ensures f in FlatMap(check, DescendantNodes(decl))
  {
    DescendantNodesComplete(decl, d);
    var c :| Visit(d, c) in DescendantNodes(decl);
    FlatMapReports(check, DescendantNodes(decl), Visit(d, c), f);
  }

  // A violation anywhere in a marked method's syntax, however deeply
  // nested, is reported by the analysis: what a per-node check finds at a
  // node below the declaration is among the method's diagnostics.

  /** A field write at any depth is reported (PUR001). */
  lemma FieldMutationAnywhereReported(decl: MethodDeclaration, config: PurityConfig, whitelist: set<string>, d: Node, f: Finding)
    requires decl.symbol.Some? && IsPureMethod(decl.symbol.value) && InDeclaration(d, decl)
    requires f in FieldMutationAt(decl.symbol.value.name, Visit(d, false))
    ensures f in Analysis(decl, config, whitelist)
  {
    var name := decl.symbol.value.name;
    NestedNodeScanned(decl, d, v => FieldMutationAt(name, v), f);
    assert f in FieldMutationFindings(name, DescendantNodes(decl));
  }

  /** An I/O call at any depth is reported (PUR003). */
  lemma IoCallAnywhereReported(decl: MethodDeclaration, config: PurityConfig, whitelist: set<string>, d: Node, f: Finding)
    requires decl.symbol.Some? && IsPureMethod(decl.symbol.value) && InDeclaration(d, decl)
    requires f in IoCallAt(decl.symbol.value.name, Visit(d, false))
    ensures f in Analysis(decl, config, whitelist)
  {
    var name := decl.symbol.value.name;
    NestedNodeScanned(decl, d, v => IoCallAt(name, v), f);
    assert f in IoFindings(name, DescendantNodes(decl));
  }

  /** An I/O object creation at any depth is reported (PUR003). */
  lemma IoCreationAnywhereReported(decl: MethodDeclaration, config: PurityConfig, whitelist: set<string>, d: Node, f: Finding)
    requires decl.symbol.Some? && IsPureMethod(decl.symbol.value) && InDeclaration(d, decl)
    requires f in IoCreationAt(decl.symbol.value.name, Visit(d, false))
    ensures f in Analysis(decl, config, whitelist)
  {
    var name := decl.symbol.value.name;
    NestedNodeScanned(decl, d, v => IoCreationAt(name, v), f);
    assert f in IoFindings(name, DescendantNodes(decl));
  }

  /** A non-deterministic API use at any depth is reported (PUR004). */
  lemma NonDeterminismAnywhereReported(decl: MethodDeclaration, config: PurityConfig, whitelist: set<string>, d: Node, f: Finding)
    requires decl.symbol.Some? && IsPureMethod(decl.symbol.value) && InDeclaration(d, decl)
    requires f in NonDeterminismAt(decl.symbol.value.name, Visit(d, false))
    ensures f in Analysis(decl, config, whitelist)
  {
    var name := decl.symbol.value.name;
    NestedNodeScanned(decl, d, v => NonDeterminismAt(name, v), f);
    assert f in NonDeterminismFindings(name, DescendantNodes(decl));
  }

  /** An unsafe construct at any depth of a method without the `unsafe` modifier is reported (PUR008). */
  lemma UnsafeAnywhereReported(decl: MethodDeclaration, config: PurityConfig, whitelist: set<string>, d: Node, f: Finding)
    requires decl.symbol.Some? && IsPureMethod(decl.symbol.value) && InDeclaration(d, decl) && !decl.hasUnsafeModifier
    requires f in UnsafeAt(decl.symbol.value.name, Visit(d, false))
    ensures f in Analysis(decl, config, whitelist)
  {
    var name := decl.symbol.value.name;
    NestedNodeScanned(decl, d, v => UnsafeAt(name, v), f);
    assert f in UnsafeFindings(name, decl.hasUnsafeModifier, DescendantNodes(decl));
  }

  /** A call at any depth to a method that is not pure, or pure only with
      review, is reported (PUR002 or PUR011). */
  lemma InvocationAnywhereReported(decl: MethodDeclaration, config: PurityConfig, whitelist: set<string>, d: Node, f: Finding)
    requires decl.symbol.Some? && IsPureMethod(decl.symbol.value) && InDeclaration(d, decl)
    requires f in InvocationPurityAt(Context(decl.symbol.value.name, config, whitelist), Visit(d, false))
    ensures f in Analysis(decl, config, whitelist)
  {
    var ctx := Context(decl.symbol.value.name, config, whitelist);
    NestedNodeScanned(decl, d, v => InvocationPurityAt(ctx, v), f);
    NonPureCallsInAnalysis(decl, config, whitelist, f);
  }

  /** The step above from the scan of invocations to the analysis. */
  lemma NonPureCallsInAnalysis(decl: MethodDeclaration, config: PurityConfig, whitelist: set<string>, f: Finding)
    requires decl.symbol.Some? && IsPureMethod(decl.symbol.value)
    requires var ctx := Context(decl.symbol.value.name, config, whitelist);
             f in FlatMap(v => InvocationPurityAt(ctx, v), DescendantNodes(decl))
    ensures f in Analysis(decl, config, whitelist)
  {
    assert f in NonPureCallFindings(Context(decl.symbol.value.name, config, whitelist), DescendantNodes(decl));
  }

  /** A property read at any depth that is not the callee of an invocation,
      and whose getter is not pure or pure only with review, is reported
      (PUR002 or PUR011). Unlike the checks above this one depends on the
      callee flag, so the node is located with that flag. */
  lemma PropertyReadAnywhereReported(decl: MethodDeclaration, config: PurityConfig, whitelist: set<string>,
                                     t: Node, d: Node, f: Finding)
    requires decl.symbol.Some? && IsPureMethod(decl.symbol.value)
    requires t in decl.syntax && WithinAs(d, false, t, false)
    requires f in PropertyReadAt(Context(decl.symbol.value.name, config, whitelist), Visit(d, false))
    ensures f in Analysis(decl, config, whitelist)
  {
    var ctx := Context(decl.symbol.value.name, config, whitelist);
    WalkVisitsWithinAs(d, false, t, false);
    WalkAllContains(decl.syntax, t, Visit(d, false));
    FlatMapReports(v => PropertyReadAt(ctx, v), DescendantNodes(decl), Visit(d, false), f);
    PropertyReadsInAnalysis(decl, config, whitelist, f);
  }

  /** The step above from the scan of property reads to the analysis. */
  lemma PropertyReadsInAnalysis(decl: MethodDeclaration, config: PurityConfig, whitelist: set<string>, f: Finding)
    requires decl.symbol.Some? && IsPureMethod(decl.symbol.value)
    requires f in FlatMap(v => PropertyReadAt(Context(decl.symbol.value.name, config, whitelist), v), DescendantNodes(decl))
    ensures f in Analysis(decl, config, whitelist)
  {
    assert f in NonPureCallFindings(Context(decl.symbol.value.name, config, whitelist), DescendantNodes(decl));
  }

  /** A mutation at any depth through a reference-type parameter is
      reported (PUR006). */
  lemma ParameterMutationAnywhereReported(decl: MethodDeclaration, config: PurityConfig, whitelist: set<string>, d: Node, f: Finding)
    requires decl.symbol.Some? && IsPureMethod(decl.symbol.value) && InDeclaration(d, decl)
    requires f in ParameterMutationAt(decl.symbol.value.name, MutableParameterNames(decl.symbol.value), Visit(d, false))
    ensures f in Analysis(decl, config, whitelist)
  {
    var m := decl.symbol.value;
    NestedNodeScanned(decl, d, v => ParameterMutationAt(m.name, MutableParameterNames(m), v), f);
    assert f in ParameterMutationFindings(m, DescendantNodes(decl));
  }

  /** A reflection call at any depth is reported (PUR009). */
  lemma ReflectionAnywhereReported(decl: MethodDeclaration, config: PurityConfig, whitelist: set<string>, d: Node, f: Finding)
    requires decl.symbol.Some? && IsPureMethod(decl.symbol.value) && InDeclaration(d, decl)
    requires f in ReflectionAt(decl.symbol.value.name, Visit(d, false))
    ensures f in Analysis(decl, config, whitelist)
  {
    var name := decl.symbol.value.name;
    NestedNodeScanned(decl, d, v => ReflectionAt(name, v), f);
    assert f in ReflectionFindings(name, DescendantNodes(decl));
  }

  /** A control-flow exception call at any depth is reported (PUR010). */
  lemma ExceptionFlowAnywhereReported(decl: MethodDeclaration, config: PurityConfig, whitelist: set<string>, d: Node, f: Finding)
    requires decl.symbol.Some? && IsPureMethod(decl.symbol.value) && InDeclaration(d, decl)
    requires f in ExceptionFlowAt(decl.symbol.value.name, Visit(d, false))
    ensures f in Analysis(decl, config, whitelist)
  {
    var name := decl.symbol.value.name;
    NestedNodeScanned(decl, d, v => ExceptionFlowAt(name, v), f);
    assert f in ExceptionFlowFindings(name, DescendantNodes(decl));
  }

  /** A method that is not marked pure, directly or through its type, gets
      no diagnostic at all, whatever its body does. */
  lemma UnmarkedMethodsNotAnalysed(decl: MethodDeclaration, config: PurityConfig, whitelist: set<string>)
    requires decl.symbol.None? || !IsPureMethod(decl.symbol.value)
    ensures Analysis(decl, config, whitelist) == []
  {
  }

  /** A marked method with the `unsafe` modifier is reported under PUR008. */
  lemma UnsafeMethodReported(decl: MethodDeclaration, config: PurityConfig, whitelist: set<string>)
    requires decl.symbol.Some? && IsPureMethod(decl.symbol.value) && decl.hasUnsafeModifier
    ensures Finding(PUR008, [decl.symbol.value.name]) in Analysis(decl, config, whitelist)
  {
    var m := decl.symbol.value;
    var visits := DescendantNodes(decl);
    assert Finding(PUR008, [m.name]) in UnsafeFindings(m.name, decl.hasUnsafeModifier, visits);
  }

  // ---------------------------------------------------------------------
  // PUR007

  /** The kind word PUR007 reports for a parameter. */
  function RefKindText(kind: RefKind): string {
    if kind == Ref then "ref" else "out"
  }

  lemma {:induction false} RefOutCountAppend(ps: seq<Parameter>, p: Parameter)
    ensures RefOutCount(ps + [p]) == RefOutCount(ps) + (if p.refKind in {Ref, Out} then 1 else 0)
  {
    if ps != [] {
      assert (ps + [p])[1..] == ps[1..] + [p];
      RefOutCountAppend(ps[1..], p);
    }
  }

  /** PUR007 fires exactly once per `ref` or `out` parameter. */
  lemma {:induction false} RefOutOncePerParameter(methodName: string, ps: seq<Parameter>)
    ensures |RefOutFindings(methodName, ps)| == RefOutCount(ps)
  {
    if ps != [] {
      var init := ps[..|ps| - 1];
      RefOutOncePerParameter(methodName, init);
      assert ps == init + [ps[|ps| - 1]];
      RefOutCountAppend(init, ps[|ps| - 1]);
    }
  }

  /** Each PUR007 finding names a `ref` or `out` parameter with its kind,
      and each such parameter is named by one. */
  lemma {:induction false} RefOutFindingsExact(methodName: string, ps: seq<Parameter>, f: Finding)
    ensures f in RefOutFindings(methodName, ps) <==>
            exists i :: 0 <= i < |ps| && ps[i].refKind in {Ref, Out} &&
                        f == Finding(PUR007, [methodName, RefKindText(ps[i].refKind), ps[i].name])
  {
    if ps != [] {
      var init := ps[..|ps| - 1];
      RefOutFindingsExact(methodName, init, f);
      assert forall i :: 0 <= i < |init| ==> init[i] == ps[i];
    }
  }

  /** `Mixed(int a, in int b, ref int c, out int d)` gets exactly
      "ref c" and "out d", in that order. */
  lemma MixedParametersExample(intType: TypeSymbol, a: Parameter, b: Parameter, c: Parameter, d: Parameter)
    requires a == Parameter("a", intType, ByValue) && b == Parameter("b", intType, In)
    requires c == Parameter("c", intType, Ref) && d == Parameter("d", intType, Out)
    ensures RefOutFindings("Mixed", [a, b, c, d]) ==
            [Finding(PUR007, ["Mixed", "ref", "c"]), Finding(PUR007, ["Mixed", "out", "d"])]
  {
    assert [a, b, c, d][..3] == [a, b, c];
    assert [a, b, c][..2] == [a, b];
    assert [a, b][..1] == [a];
    assert RefOutFindings("Mixed", [a]) == [];
    assert RefOutFindings("Mixed", [a, b]) == [];
    assert RefOutFindings("Mixed", [a, b, c]) == [Finding(PUR007, ["Mixed", "ref", "c"])];
  }

  // ---------------------------------------------------------------------
  // PUR006

  /** Only parameters of reference type are ever reported as mutated. */
  lemma ParameterMutationOnlyReferenceTypes(m: MethodSymbol, visits: seq<Visit>, f: Finding)
    requires f in ParameterMutationFindings(m, visits)
    ensures f.rule == PUR006 && |f.arguments| == 2
    ensures exists p :: p in m.parameters && !p.paramType.isValueType && p.name == f.arguments[1]
  {
    var names := MutableParameterNames(m);
    FlatMapMembership(v => ParameterMutationAt(m.name, names, v), visits, f);
    var i :| 0 <= i < |visits| && f in ParameterMutationAt(m.name, names, visits[i]);
    assert f.arguments[1] in names;
  }

  /** A method whose parameters are all value types is never reported under
      PUR006, whatever its body assigns. */
  lemma ValueTypeParametersNeverMutated(m: MethodSymbol, visits: seq<Visit>)
    requires forall p :: p in m.parameters ==> p.paramType.isValueType
    ensures ParameterMutationFindings(m, visits) == []
  {
    assert MutableParameterNames(m) == {};
    FlatMapSilent(v => ParameterMutationAt(m.name, MutableParameterNames(m), v), visits);
  }

  /** `items.Add(x)` on a list parameter is reported; `this.items.Add(x)`
      is not, even when a parameter is also called `items`. */
  lemma MutatingCallExamples(methodName: string, items: Node, thisItems: Node, x: Node, addSymbol: Option<Symbol>)
    requires items == IdentifierName("items", None)
    requires thisItems == MemberAccess(ThisExpression, "items", None)
    ensures ParameterMutationAt(methodName, {"items"}, Visit(Invocation(MemberAccess(items, "Add", addSymbol), [x], addSymbol), false))
            == [Finding(PUR006, [methodName, "items"])]
    ensures ParameterMutationAt(methodName, {"items"}, Visit(Invocation(MemberAccess(thisItems, "Add", addSymbol), [x], addSymbol), false))
            == []
  {
    assert "Add" == MutatingMethodNames[0];
  }

  // ---------------------------------------------------------------------
  // PUR002 is not suppressed for reflection or for throwing parsers

  /** Catalogued reflection members on `System.Type` continue `System.`
      with `Ty`. */
  lemma TypeReflectionShape()
    ensures forall i :: 0 <= i < 11 ==>
              |ReflectionPatterns[i]| > 8 && ReflectionPatterns[i][7] == 'T' && ReflectionPatterns[i][8] == 'y'
  {
  }

  /** Catalogued members in `System.Reflection` continue `System.` with `Re`. */
  lemma NamespaceReflectionShape()
    ensures forall i :: 11 <= i < 23 ==>
              |ReflectionPatterns[i]| > 8 && ReflectionPatterns[i][7] == 'R' && ReflectionPatterns[i][8] == 'e'
  {
  }

  /** A call that PUR009 reports is neither I/O nor non-deterministic, so
      PUR002 is never suppressed for it: both rules report a non-pure
      reflection call. */
  lemma ReflectionCallsNotSuppressed(m: MethodSymbol)
    requires ReflectionName(m).Some? && ReflectionName(m).value in ReflectionPatterns
    ensures !IsIoOperation(m) && !IsNonDeterministicMethod(m)
  {
    ReflectionNameShape(ReflectionName(m).value);
    ShapedNameNotSuppressed(m);
  }

  /** The step above, from the shape of the name alone. */
  lemma ShapedNameNotSuppressed(m: MethodSymbol)
    requires m.containingType.Some?
    requires var full := m.containingType.value.display + "." + m.name;
             |full| > 8 && ((full[7] == 'T' && full[8] == 'y') || (full[7] == 'R' && full[8] == 'e') || (full[7] == 'A' && full[8] == 'c'))
    ensures !IsIoOperation(m) && !IsNonDeterministicMethod(m)
  {
    var display := m.containingType.value.display;
    var full := display + "." + m.name;
    assert full[..|display|] == display;
    NotIoOwner(display, full);
    NotNonDeterministicMember(full);
    NotRandom(display, full);
  }

  /** An owner that is a prefix of a name continuing `System.` with neither
      `C`, `I` nor `N` is not an I/O type. */
  lemma NotIoOwner(display: string, full: string)
    requires |full| > 8 && full[7] !in "CIN"
    requires |display| <= |full| && full[..|display|] == display
    ensures !IsIoTypeName(display)
  {
    IoPrefixes();
    NoPrefixAcross(display, full, IoTypePatterns, "CIN");
  }

  lemma ReflectionNameShape(full: string)
    requires full in ReflectionPatterns
    ensures |full| > 8 && ((full[7] == 'T' && full[8] == 'y') || (full[7] == 'R' && full[8] == 'e') || (full[7] == 'A' && full[8] == 'c'))
  {
    var i :| 0 <= i < |ReflectionPatterns| && ReflectionPatterns[i] == full;
    if i < 11 {
      TypeReflectionShape();
    } else if i < 23 {
      NamespaceReflectionShape();
    }
  }

  /** A name whose eighth character is outside `chars` does not extend any
      pattern whose eighth character is in `chars`. */
  lemma NoPrefixAcross(display: string, full: string, patterns: seq<string>, chars: string)
    requires forall p :: p in patterns ==> |p| > 8 && p[7] in chars
    requires |full| > 8 && full[7] !in chars
    requires |display| <= |full| && full[..|display|] == display
    ensures !exists i :: 0 <= i < |patterns| && StartsWith(display, patterns[i])
  {
  }

  lemma NotRandom(display: string, full: string)
    requires |full| > 8 && ((full[7] == 'T' && full[8] == 'y') || (full[7] == 'R' && full[8] == 'e') || (full[7] == 'A' && full[8] == 'c'))
    requires |display| <= |full| && full[..|display|] == display
    ensures display !in NonDeterministicTypes
  {
  }

  /** Hence, at any invocation: when PUR009 reports the call and the verdict
      is not pure, PUR002 reports it too. */
  lemma ReflectionAlsoReportedAsNonPure(ctx: Context, v: Visit)
    requires ReflectionAt(ctx.methodName, v) != []
    requires Verdict(ctx, CalledMethod(v.node).value) == NotPure
    ensures InvocationPurityAt(ctx, v) == [Finding(PUR002, [ctx.methodName, CalledMethod(v.node).value.shortDisplay])]
  {
    ReflectionCallsNotSuppressed(CalledMethod(v.node).value);
  }

  /** `int.Parse(s)` in Standard mode, with no attribute and no whitelist
      entry: both PUR002 and PUR010 report it. */
  lemma IntParseReportedTwice(ctx: Context, v: Visit, int32: TypeSymbol, m: MethodSymbol)
    requires int32.display == "int" && int32.metadataName == "Int32" && int32.containingNamespace == Some("System")
    requires int32.attributes == [] && m.attributes == []
    requires m.name == "Parse" && m.containingType == Some(int32)
    requires v.node.Invocation? && v.node.invokedSymbol == Some(MethodSym(m))
    requires ctx.config == Config.Default && BuildMethodSignature(m) !in ctx.whitelist
    ensures InvocationPurityAt(ctx, v) == [Finding(PUR002, [ctx.methodName, m.shortDisplay])]
    ensures ExceptionFlowAt(ctx.methodName, v) == [Finding(PUR010, [ctx.methodName, m.shortDisplay])]
  {
    IntParseNotPure(ctx, int32, m);
    ClrNameOfInt32Parse(m, int32);
    assert "System.Int32.Parse" == ExceptionControlFlowMethods[0];
  }

  /** Under the default configuration an unmarked, unlisted `int.Parse` is
      not pure, and it is neither an I/O nor a non-deterministic call. */
  lemma IntParseNotPure(ctx: Context, int32: TypeSymbol, m: MethodSymbol)
    requires int32.display == "int"
    requires int32.attributes == [] && m.attributes == []
    requires m.name == "Parse" && m.containingType == Some(int32)
    requires ctx.config == Config.Default && BuildMethodSignature(m) !in ctx.whitelist
    ensures Verdict(ctx, m) == NotPure && !IsIoOperation(m) && !IsNonDeterministicMethod(m)
  {
    var full := int32.display + "." + m.name;
    assert full[..|int32.display|] == int32.display;
    assert full[7] == 's';
    NotIoOwner(int32.display, full);
    NotNonDeterministicMember(full);
    DefaultVerdictNotPure(ctx, m);
  }

  /** Under the default configuration a method with no purity attribute,
      on a type with none, and with no whitelist entry is not pure. */
  lemma DefaultVerdictNotPure(ctx: Context, m: MethodSymbol)
    requires m.attributes == [] && m.containingType.Some? && m.containingType.value.attributes == []
    requires ctx.config == Config.Default && BuildMethodSignature(m) !in ctx.whitelist
    ensures Verdict(ctx, m) == NotPure
  {
    assert !MatchesAny(BuildMethodSignature(m), {});
    assert !HasPurityAttribute([]);
  }

  lemma ClrNameOfInt32Parse(m: MethodSymbol, int32: TypeSymbol)
    requires int32.metadataName == "Int32" && int32.containingNamespace == Some("System")
    requires m.name == "Parse" && m.containingType == Some(int32)
    ensures ClrMemberName(m) == Some("System.Int32.Parse")
  {
    var ns := int32.containingNamespace.value;
    assert ns != [];
    assert ns + "." + (int32.metadataName + "." + m.name) == "System.Int32.Parse";
  }

  // ---------------------------------------------------------------------
  // PUR003 and PUR004

  /** The I/O catalogue is matched by raw prefix, with no dot boundary: any
      type whose display name extends a catalogued name counts as I/O (for
      example `System.IO.FileInfo` through `System.IO.File`). */
  lemma IoMatchHasNoDotBoundary(i: nat, suffix: string)
    requires i < |IoTypePatterns|
    ensures IsIoTypeName(IoTypePatterns[i] + suffix)
  {
    assert (IoTypePatterns[i] + suffix)[..|IoTypePatterns[i]|] == IoTypePatterns[i];
  }

  /** Reading `DateTime.Now` is reported under PUR004 with its full name,
      and not under PUR002. */
  lemma DateTimeNowExample(ctx: Context, dateTime: TypeSymbol, p: PropertySymbol, target: Node)
    requires dateTime.display == "System.DateTime"
    requires p.name == "Now" && p.containingType == Some(dateTime)
    ensures NonDeterminismAt(ctx.methodName, Visit(MemberAccess(target, "Now", Some(PropertySym(p))), false))
            == [Finding(PUR004, [ctx.methodName, "System.DateTime.Now"])]
    ensures forall f :: f in PropertyReadAt(ctx, Visit(MemberAccess(target, "Now", Some(PropertySym(p))), false)) ==>
              f.rule != PUR002
  {
    assert MemberFullName(PropertySym(p)) == "System.DateTime.Now" == NonDeterministicMembers[0];
    assert IsNonDeterministicProperty(p);
  }

  /** A property read whose own signature is in the static whitelist is
      never reported under PUR002, even when a user exclude or the ZeroTrust
      mode makes its getter not pure. */
  lemma WhitelistedPropertyNotReported(ctx: Context, v: Visit)
    requires PropertyRead(v).Some? && BuildPropertySignature(PropertyRead(v).value) in ctx.whitelist
    ensures forall f :: f in PropertyReadAt(ctx, v) ==> f.rule == PUR011
  {
  }

  // ---------------------------------------------------------------------
  // PUR005

  /** A generic return type is looked up by its definition's name without
      the type parameter list. */
  lemma GenericReturnLookup(methodName: string, returnType: TypeSymbol, key: string, parameters: string)
    requires '<' !in key
    requires returnType.shape.NamedType? && returnType.shape.originalDefinitionDisplay == key + "<" + parameters
    ensures MutableReturnFindings(methodName, returnType) ==
            if key in MutableToImmutable then [Finding(PUR005, [methodName, returnType.minimalDisplay, MutableToImmutable[key]])]
            else []
  {
    var definition := key + "<" + parameters;
    assert definition[..|key|] == key;
    LookupKeyBeforeAngle(definition, |key|);
  }

  /** The collection names below have no type parameter list of their own. */
  lemma NoAngleInKey(key: string)
    requires key == "System.Collections.Generic.List" || key == "System.Collections.Generic.IReadOnlyList"
    ensures '<' !in key
  {
  }

  /** The lookup key of a definition is the text before its first `<`. */
  lemma LookupKeyBeforeAngle(definition: string, k: nat)
    requires k < |definition| && definition[k] == '<' && '<' !in definition[..k]
    ensures MutableLookupKey(definition) == definition[..k]
  {
  }

  /** A `List<T>` return is reported with `ImmutableList<T>` as the alternative. */
  lemma ListReturnReported(methodName: string, listType: TypeSymbol, key: string)
    requires key == "System.Collections.Generic.List"
    requires listType.shape == NamedType(true, key + "<T>")
    ensures MutableReturnFindings(methodName, listType) ==
            [Finding(PUR005, [methodName, listType.minimalDisplay, "ImmutableList<T>"])]
  {
    NoAngleInKey(key);
    GenericReturnLookup(methodName, listType, key, "T>");
    ListAlternative(key);
  }

  lemma ListAlternative(key: string)
    requires key == "System.Collections.Generic.List"
    ensures key in MutableToImmutable && MutableToImmutable[key] == "ImmutableList<T>"
  {
  }

  /** An `IReadOnlyList<T>` return is not reported. */
  lemma ReadOnlyListReturnAccepted(methodName: string, readOnlyType: TypeSymbol, key: string)
    requires key == "System.Collections.Generic.IReadOnlyList"
    requires readOnlyType.shape == NamedType(true, key + "<T>")
    ensures MutableReturnFindings(methodName, readOnlyType) == []
  {
    NoAngleInKey(key);
    GenericReturnLookup(methodName, readOnlyType, key, "T>");
    ReadOnlyListNotCatalogued(key);
  }

  lemma ReadOnlyListNotCatalogued(key: string)
    requires key == "System.Collections.Generic.IReadOnlyList"
    ensures key !in MutableToImmutable
  {
  }
}
