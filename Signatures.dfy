/** CLR-format signatures: the keys under which the whitelist and the user
    patterns name methods and properties, such as
    `System.Math.Max(System.Int32,System.Int32)` or
    ``System.Linq.Enumerable.Where`1(System.Collections.Generic.IEnumerable`1,System.Func`2)``. */
module Signatures {
  import opened Wrappers
  import opened Text
  import opened Symbols
  import PatternMatcher

  /** `GetClrTypeName`: a special type or a generic named type is written as
      its namespace and metadata name; any other type by its display name;
      a missing type as the empty string. */
  function ClrTypeName(t: Option<TypeSymbol>): (r: string)
    ensures t.None? ==> r == ""
    ensures t.Some? && (t.value.isSpecialType || (t.value.shape.NamedType? && t.value.shape.isGeneric)) ==>
              EndsWith(r, "." + t.value.metadataName)
    ensures t.Some? && !t.value.isSpecialType && !(t.value.shape.NamedType? && t.value.shape.isGeneric) ==>
              r == t.value.display
  {
    match t
    case None => ""
    case Some(ty) =>
      if ty.isSpecialType || (ty.shape.NamedType? && ty.shape.isGeneric) then
        var r := ty.containingNamespace.GetOr("") + "." + ty.metadataName;
        assert r[|r| - |"." + ty.metadataName|..] == "." + ty.metadataName;
        r
      else ty.display
  }

  /** The suffix a parameter's passing mode adds to its type name. */
  function RefSuffix(kind: RefKind): string {
    match kind
    case Ref => "&"
    case Out => "@"
    case _ => ""
  }

  /** One entry of a method signature's parameter list. */
  function ParameterTypeName(p: Parameter): string {
    ClrTypeName(Some(p.paramType)) + RefSuffix(p.refKind)
  }

  function ParameterTypeNames(ps: seq<Parameter>): (r: seq<string>)
    ensures |r| == |ps|
    ensures forall i :: 0 <= i < |ps| ==> r[i] == ParameterTypeName(ps[i])
  {
    if ps == [] then [] else [ParameterTypeName(ps[0])] + ParameterTypeNames(ps[1..])
  }

  /** `string.Join(",", parts)`. */
  function JoinComma(parts: seq<string>): string {
    if parts == [] then ""
    else if |parts| == 1 then parts[0]
    else parts[0] + "," + JoinComma(parts[1..])
  }

  function DigitChar(d: nat): char
    requires d < 10
  {
    "0123456789"[d]
  }

  /** The decimal rendering of a natural number. */
  function NatToString(n: nat): (r: string)
    ensures r != []
    ensures forall i :: 0 <= i < |r| ==> '0' <= r[i] <= '9'
  {
    if n < 10 then [DigitChar(n)] else NatToString(n / 10) + [DigitChar(n % 10)]
  }

  /** The value of a string of decimal digits: the inverse of `NatToString`. */
  function DigitsValue(s: string): nat
    requires forall i :: 0 <= i < |s| ==> '0' <= s[i] <= '9'
  {
    if s == [] then 0 else 10 * DigitsValue(s[..|s| - 1]) + (s[|s| - 1] as int - '0' as int)
  }

  /** The method name with its generic arity, as in ``Where`1``. */
  function NameWithArity(m: MethodSymbol): string {
    if m.arity > 0 then m.name + "`" + NatToString(m.arity) else m.name
  }

  /** The parenthesised, comma-separated parameter types. */
  function ParameterList(parameters: seq<Parameter>): (r: string)
    ensures |r| >= 2 && r[0] == '(' && r[|r| - 1] == ')'
  {
    "(" + JoinComma(ParameterTypeNames(parameters)) + ")"
  }

  /** `BuildMethodSignature`: owner, name, arity and parameter list. */
  function BuildMethodSignature(m: MethodSymbol): (r: string)
    ensures StartsWith(r, ClrTypeName(m.containingType) + "." + m.name)
    ensures EndsWith(r, ")")
  {
    var owner := ClrTypeName(m.containingType) + "." + m.name;
    var r := ClrTypeName(m.containingType) + "." + NameWithArity(m) + ParameterList(m.parameters);
    assert r[..|owner|] == owner;
    r
  }

  /** `BuildPropertySignature`: owner and name, with no parameter list. */
  function BuildPropertySignature(p: PropertySymbol): (r: string)
    ensures StartsWith(r, ClrTypeName(p.containingType) + ".")
    ensures |r| == |ClrTypeName(p.containingType)| + 1 + |p.name|
  {
    var r := ClrTypeName(p.containingType) + "." + p.name;
    assert r[..|ClrTypeName(p.containingType) + "."|] == ClrTypeName(p.containingType) + ".";
    r
  }

  // ---------------------------------------------------------------------
  // Properties

  /** Decimal rendering round-trips, so distinct arities render differently. */
  lemma {:induction false} NatToStringRoundTrip(n: nat)
    ensures DigitsValue(NatToString(n)) == n
  {
    if n >= 10 {
      NatToStringRoundTrip(n / 10);
      var s := NatToString(n);
      assert s[..|s| - 1] == NatToString(n / 10);
    }
  }

  /** The total length of a list of strings. */
  function TotalLength(parts: seq<string>): nat {
    if parts == [] then 0 else |parts[0]| + TotalLength(parts[1..])
  }

  lemma {:induction false} JoinCommaLength(parts: seq<string>)
    ensures parts != [] ==> |JoinComma(parts)| == TotalLength(parts) + |parts| - 1
    ensures parts == [] ==> JoinComma(parts) == ""
  {
    if |parts| > 1 {
      JoinCommaLength(parts[1..]);
    }
  }

  /** The number of parameters passed by `ref` or `out`. */
  function RefOutCount(ps: seq<Parameter>): nat {
    if ps == [] then 0 else (if ps[0].refKind in {Ref, Out} then 1 else 0) + RefOutCount(ps[1..])
  }

  /** The lengths of the type names of a parameter list, without suffixes. */
  function TypeNamesLength(ps: seq<Parameter>): nat {
    if ps == [] then 0 else |ClrTypeName(Some(ps[0].paramType))| + TypeNamesLength(ps[1..])
  }

  lemma {:induction false} ParameterNamesLength(ps: seq<Parameter>)
    ensures TotalLength(ParameterTypeNames(ps)) == TypeNamesLength(ps) + RefOutCount(ps)
  {
    if ps != [] {
      ParameterNamesLength(ps[1..]);
      assert ParameterTypeNames(ps)[1..] == ParameterTypeNames(ps[1..]);
    }
  }

  /** Two overloads whose parameters have the same types but a different
      number of `ref`/`out` parameters never share a signature; in particular
      a by-value overload and its `ref` or `out` twin are kept apart. */
  lemma RefOverloadsDistinct(m1: MethodSymbol, m2: MethodSymbol)
    requires m1.containingType == m2.containingType && m1.name == m2.name && m1.arity == m2.arity
    requires |m1.parameters| == |m2.parameters|
    requires forall i :: 0 <= i < |m1.parameters| ==> m1.parameters[i].paramType == m2.parameters[i].paramType
    requires RefOutCount(m1.parameters) != RefOutCount(m2.parameters)
    ensures BuildMethodSignature(m1) != BuildMethodSignature(m2)
  {
    SameTypesSameLength(m1.parameters, m2.parameters);
    ParameterNamesLength(m1.parameters);
    ParameterNamesLength(m2.parameters);
    JoinCommaLength(ParameterTypeNames(m1.parameters));
    JoinCommaLength(ParameterTypeNames(m2.parameters));
  }

  lemma {:induction false} SameTypesSameLength(ps: seq<Parameter>, qs: seq<Parameter>)
    requires |ps| == |qs|
    requires forall i :: 0 <= i < |ps| ==> ps[i].paramType == qs[i].paramType
    ensures TypeNamesLength(ps) == TypeNamesLength(qs)
  {
    if ps != [] {
      SameTypesSameLength(ps[1..], qs[1..]);
    }
  }

  /** An `in` parameter is written exactly like a by-value one. */
  lemma InParameterUnmarked(p: Parameter)
    requires p.refKind == In
    ensures ParameterTypeName(p) == ParameterTypeName(p.(refKind := ByValue))
  {
  }

  /** Generic methods that differ only in arity never share a signature,
      and a generic method never shares one with its non-generic twin. */
  lemma ArityOverloadsDistinct(m1: MethodSymbol, m2: MethodSymbol)
    requires m1 == m2.(arity := m1.arity)
    requires m1.arity != m2.arity
    ensures BuildMethodSignature(m1) != BuildMethodSignature(m2)
  {
    var head := ClrTypeName(m1.containingType) + ".";
    var rest := ParameterList(m1.parameters);
    assert m2.containingType == m1.containingType && m2.parameters == m1.parameters;
    ArityTailsDiffer(m1, m2, rest);
    if BuildMethodSignature(m1) == BuildMethodSignature(m2) {
      PrefixCancel(head, NameWithArity(m1), NameWithArity(m2), rest);
    }
  }

  /** Equal strings with a common head and tail agree in between. */
  lemma PrefixCancel(head: string, x: string, y: string, tail: string)
    requires head + x + tail == head + y + tail
    ensures x + tail == y + tail
  {
    assert x + tail == (head + x + tail)[|head|..];
    assert y + tail == (head + y + tail)[|head|..];
  }

  lemma ArityTailsDiffer(m1: MethodSymbol, m2: MethodSymbol, rest: string)
    requires m1.name == m2.name && m1.arity != m2.arity
    requires |rest| > 0 && rest[0] == '('
    ensures NameWithArity(m1) + rest != NameWithArity(m2) + rest
  {
    var n := |m1.name|;
    if m1.arity == 0 || m2.arity == 0 {
      // one side has '(' right after the name, the other a backtick
      assert (NameWithArity(m1) + rest)[n] != (NameWithArity(m2) + rest)[n];
    } else {
      var d1 := NatToString(m1.arity);
      var d2 := NatToString(m2.arity);
      var t1 := d1 + rest;
      var t2 := d2 + rest;
      assert (NameWithArity(m1) + rest)[n + 1..] == t1;
      assert (NameWithArity(m2) + rest)[n + 1..] == t2;
      if t1 == t2 && |d1| == |d2| {
        assert d1 == t1[..|d1|] == t2[..|d2|] == d2;
        NatToStringRoundTrip(m1.arity);
        NatToStringRoundTrip(m2.arity);
      }
    }
  }

  /** Every method of a type matches the user pattern `Owner.*`, where
      `Owner` is the type's CLR name. */
  lemma MethodMatchesOwnerWildcard(m: MethodSymbol)
    ensures PatternMatcher.Matches(BuildMethodSignature(m), ClrTypeName(m.containingType) + ".*")
  {
    var owner := ClrTypeName(m.containingType);
    var sig := BuildMethodSignature(m);
    assert sig[..|owner + "."|] == (owner + "." + m.name)[..|owner + "."|];
    PatternMatcher.WildcardMatches(sig, owner);
  }

  /** Every property of a type matches the user pattern `Owner.*`, so a type
      wildcard covers parameterless property signatures such as `System.Math.PI`. */
  lemma PropertyMatchesOwnerWildcard(p: PropertySymbol)
    ensures PatternMatcher.Matches(BuildPropertySignature(p), ClrTypeName(p.containingType) + ".*")
  {
    PatternMatcher.WildcardMatches(BuildPropertySignature(p), ClrTypeName(p.containingType));
  }
}
