/** Matching of a method or property signature against a user pattern: an
    exact signature, or a wildcard `Prefix.*`. All comparisons are ordinal. */
module PatternMatcher {
  import opened Text

  /** The type-qualifier branch of a wildcard: the signature has a parameter
      list, and the part before it, cut at its last dot, is `prefix`. */
  predicate TypeQualifierMatches(signature: string, prefix: string) {
    var parenIndex := IndexOf(signature, '(');
    if parenIndex > 0 then
      var withoutParams := signature[..parenIndex];
      var lastDot := LastIndexOf(withoutParams, '.');
      lastDot > 0 && withoutParams[..lastDot] == prefix
    else false
  }

  /** Does `signature` match `pattern`? */
  function Matches(signature: string, pattern: string): (r: bool)
    ensures pattern == [] ==> !r
    ensures pattern != [] && signature == pattern ==> r
    ensures !EndsWith(pattern, ".*") ==> (r <==> pattern != [] && signature == pattern)
  {
    if pattern == [] then false
    else if signature == pattern then true
    else if EndsWith(pattern, ".*") then
      var prefix := pattern[..|pattern| - 2];
      StartsWith(signature, prefix + ".") || TypeQualifierMatches(signature, prefix)
    else false
  }

  /** Does `signature` match some pattern of the set? */
  predicate MatchesAny(signature: string, patterns: set<string>) {
    exists pattern :: pattern in patterns && Matches(signature, pattern)
  }

  /** The type-qualifier branch never adds a match: whenever it fires, the
      signature already starts with `prefix + "."`. */
  lemma TypeQualifierBranchSubsumed(signature: string, prefix: string)
    requires TypeQualifierMatches(signature, prefix)
    ensures StartsWith(signature, prefix + ".")
  {
    var parenIndex := IndexOf(signature, '(');
    var withoutParams := signature[..parenIndex];
    var lastDot := LastIndexOf(withoutParams, '.');
    assert signature[..lastDot + 1] == withoutParams[..lastDot] + [withoutParams[lastDot]];
  }

  /** A wildcard `prefix.*` matches exactly the pattern itself and the
      signatures that start with `prefix.`, at any depth below it. */
  lemma WildcardMatches(signature: string, prefix: string)
    ensures Matches(signature, prefix + ".*") <==> signature == prefix + ".*" || StartsWith(signature, prefix + ".")
  {
    var pattern := prefix + ".*";
    assert EndsWith(pattern, ".*");
    assert pattern[..|pattern| - 2] == prefix;
    if TypeQualifierMatches(signature, prefix) {
      TypeQualifierBranchSubsumed(signature, prefix);
    }
  }

  /** A wildcard never matches across a non-dot boundary: a different
      signature that matches `prefix.*` has a dot right after `prefix`. */
  lemma WildcardNeedsDotBoundary(signature: string, prefix: string)
    requires Matches(signature, prefix + ".*") && signature != prefix + ".*"
    ensures |prefix| < |signature| && signature[..|prefix|] == prefix && signature[|prefix|] == '.'
  {
    WildcardMatches(signature, prefix);
    assert signature[..|prefix| + 1] == prefix + ".";
    assert signature[..|prefix|] == signature[..|prefix| + 1][..|prefix|];
  }

  /** MatchesAny distributes over the union of pattern sets, so a pattern
      added by any configuration scope keeps matching after a merge. */
  lemma MatchesAnyUnion(signature: string, first: set<string>, second: set<string>)
    ensures MatchesAny(signature, first + second) <==> MatchesAny(signature, first) || MatchesAny(signature, second)
  {
    if MatchesAny(signature, first + second) {
      var pattern :| pattern in first + second && Matches(signature, pattern);
      assert pattern in first ==> MatchesAny(signature, first);
      assert pattern in second ==> MatchesAny(signature, second);
    }
  }

  /** A type wildcard matches every member of the type: a method with its
      parameter list as well as a parameterless property. */
  lemma TypeWildcardMatchesMembers(owner: string, member: string)
    ensures Matches(owner + "." + member, owner + ".*")
  {
    var signature := owner + "." + member;
    assert signature[..|owner| + 1] == owner + ".";
    WildcardMatches(signature, owner);
  }

  /** A namespace wildcard matches members of types nested below it. */
  lemma NamespaceWildcardExample()
    ensures Matches("MyApp." + "Services.Calculator.Add(System.Int32,System.Int32)", "MyApp.*")
  {
    var signature := "MyApp." + "Services.Calculator.Add(System.Int32,System.Int32)";
    assert StartsWith(signature, "MyApp.");
    WildcardMatches(signature, "MyApp");
  }

  /** `System.Math.*` does not match the sibling type `System.MathF`. */
  lemma SiblingTypeNotMatched()
    ensures !Matches("System.MathF.Abs(System.Single)", "System.Math.*")
  {
    assert !StartsWith("System.MathF.Abs(System.Single)", "System.Math.") by {
      assert "System.MathF.Abs(System.Single)"[11] == 'F';
    }
    WildcardMatches("System.MathF.Abs(System.Single)", "System.Math");
  }

  /** Matching is case-sensitive: a signature that spells the first letter
      of the wildcard's prefix in lower case does not match it. */
  lemma MatchingIsCaseSensitive(signature: string, prefix: string)
    requires prefix != [] && signature != []
    requires 'A' <= prefix[0] <= 'Z' && signature[0] == ToLowerChar(prefix[0])
    ensures !Matches(signature, prefix + ".*")
  {
    assert (prefix + ".*")[0] == prefix[0] && (prefix + ".")[0] == prefix[0];
    WildcardMatches(signature, prefix);
  }
}
