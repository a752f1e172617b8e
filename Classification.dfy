/** The purity verdict for a called method: user excludes first, then user
    includes (with the review list), then the trust mode. */
module Classification {
  import opened Wrappers
  import opened Config
  import opened Symbols
  import opened PatternMatcher
  import ConfigurationLoader
  import PurityWhitelist

  const EnforcedPureAttributeFullName: string := "Purity.Contracts.EnforcedPureAttribute"
  const BclPureAttributeFullName: string := "System.Diagnostics.Contracts.PureAttribute"

  /** `PurityCheckResult`: the three verdicts the classification can reach. */
  datatype PurityCheckResult = NotPure | Pure | PureWithReview
  {
    predicate IsPure() { this != NotPure }
    predicate IsReviewRequired() { this == PureWithReview }
  }

  /** `HasPurityAttribute`: some attribute's class is `EnforcedPure` or the
      BCL `Pure` attribute, compared by display name. */
  function HasPurityAttribute(attributes: seq<Option<string>>): (r: bool)
    ensures r <==> Some(EnforcedPureAttributeFullName) in attributes || Some(BclPureAttributeFullName) in attributes
    ensures r ==> attributes != []
  {
    exists i :: 0 <= i < |attributes| &&
      attributes[i] in {Some(EnforcedPureAttributeFullName), Some(BclPureAttributeFullName)}
  }

  /** The position of the purity attribute among the others does not matter. */
  lemma PurityAttributeAnywhere(before: seq<Option<string>>, after: seq<Option<string>>)
    ensures HasPurityAttribute(before + after) <==> HasPurityAttribute(before) || HasPurityAttribute(after)
    ensures HasPurityAttribute(before + after) == HasPurityAttribute(after + before)
  {
  }

  /** The containing type exists and carries a purity attribute. */
  predicate OwnerHasPurityAttribute(m: MethodSymbol) {
    m.containingType.Some? && HasPurityAttribute(m.containingType.value.attributes)
  }

  /** `IsPureMethod`: the method, or its containing type, is marked pure; only
      such methods are analysed. */
  function IsPureMethod(m: MethodSymbol): (r: bool)
    ensures m.containingType.None? ==> (r <==> HasPurityAttribute(m.attributes))
    ensures r ==> m.attributes != [] || (m.containingType.Some? && m.containingType.value.attributes != [])
  {
    HasPurityAttribute(m.attributes) || OwnerHasPurityAttribute(m)
  }

  /** `IsMethodPureStandard`: attributes from any assembly, and the static
      whitelist, are trusted. */
  function IsMethodPureStandard(m: MethodSymbol, signature: string, whitelist: set<string>): (r: PurityCheckResult)
    ensures !r.IsReviewRequired()
    ensures r.IsPure() <==> IsPureMethod(m) || signature in whitelist
  {
    if HasPurityAttribute(m.attributes) then Pure
    else if OwnerHasPurityAttribute(m) then Pure
    else if PurityWhitelist.IsWhitelisted(whitelist, signature) then Pure
    else NotPure
  }

  /** `IsMethodPureStrict`: the static whitelist is trusted, attributes only
      where they are declared in the current compilation. */
  function IsMethodPureStrict(m: MethodSymbol, signature: string, whitelist: set<string>): (r: PurityCheckResult)
    ensures !r.IsReviewRequired()
    ensures signature in whitelist ==> r == Pure
    ensures (signature !in whitelist && !m.inCurrentCompilation &&
             (m.containingType.None? || !m.containingType.value.inCurrentCompilation)) ==> r == NotPure
    ensures r.IsPure() <==> signature in whitelist ||
                            (HasPurityAttribute(m.attributes) && m.inCurrentCompilation) ||
                            (OwnerHasPurityAttribute(m) && m.containingType.value.inCurrentCompilation)
  {
    if PurityWhitelist.IsWhitelisted(whitelist, signature) then Pure
    else if HasPurityAttribute(m.attributes) && m.inCurrentCompilation then Pure
    else if OwnerHasPurityAttribute(m) && m.containingType.value.inCurrentCompilation then Pure
    else NotPure
  }

  /** Does the review list name this signature, exactly or by pattern? */
  predicate IsReviewListed(signature: string, reviewRequired: set<string>) {
    signature in reviewRequired || MatchesAny(signature, reviewRequired)
  }

  /** `IsCalledMethodPure`. */
  function IsCalledMethodPure(m: MethodSymbol, signature: string, config: PurityConfig, whitelist: set<string>): (r: PurityCheckResult)
    ensures MatchesAny(signature, config.whitelist.excludes) ==> r == NotPure
    ensures !MatchesAny(signature, config.whitelist.excludes) && MatchesAny(signature, config.whitelist.includes) ==>
              r.IsPure() && (r.IsReviewRequired() <==> IsReviewListed(signature, config.reviewRequired))
    ensures r.IsReviewRequired() ==> MatchesAny(signature, config.whitelist.includes)
    ensures !MatchesAny(signature, config.whitelist.excludes) && !MatchesAny(signature, config.whitelist.includes) ==>
              (config.trustMode == Standard ==> r == IsMethodPureStandard(m, signature, whitelist)) &&
              (config.trustMode == Strict ==> r == IsMethodPureStrict(m, signature, whitelist))
    ensures config.trustMode == ZeroTrust ==>
              (r.IsPure() <==> !MatchesAny(signature, config.whitelist.excludes) && MatchesAny(signature, config.whitelist.includes))
  {
    if MatchesAny(signature, config.whitelist.excludes) then NotPure
    else if MatchesAny(signature, config.whitelist.includes) then
      if IsReviewListed(signature, config.reviewRequired) then PureWithReview else Pure
    else
      match config.trustMode
      case Standard => IsMethodPureStandard(m, signature, whitelist)
      case Strict => IsMethodPureStrict(m, signature, whitelist)
      case ZeroTrust => NotPure
  }

  // ---------------------------------------------------------------------
  // Properties

  /** Trust is monotone in the mode: whatever ZeroTrust accepts Strict
      accepts, and whatever Strict accepts Standard accepts. */
  lemma TrustMonotone(m: MethodSymbol, signature: string, config: PurityConfig, whitelist: set<string>)
    ensures IsCalledMethodPure(m, signature, config.(trustMode := ZeroTrust), whitelist).IsPure() ==>
            IsCalledMethodPure(m, signature, config.(trustMode := Strict), whitelist).IsPure()
    ensures IsCalledMethodPure(m, signature, config.(trustMode := Strict), whitelist).IsPure() ==>
            IsCalledMethodPure(m, signature, config.(trustMode := Standard), whitelist).IsPure()
  {
    if IsMethodPureStrict(m, signature, whitelist).IsPure() {
      assert IsMethodPureStandard(m, signature, whitelist).IsPure();
    }
  }

  /** A marked method from another assembly is trusted in Standard mode but
      not in Strict mode, unless the static whitelist names it. */
  lemma StrictDistrustsForeignAttributes(m: MethodSymbol, signature: string, config: PurityConfig, whitelist: set<string>)
    requires HasPurityAttribute(m.attributes) && !m.inCurrentCompilation
    requires m.containingType.None? || !m.containingType.value.inCurrentCompilation
    requires signature !in whitelist
    requires !MatchesAny(signature, config.whitelist.excludes) && !MatchesAny(signature, config.whitelist.includes)
    ensures IsCalledMethodPure(m, signature, config.(trustMode := Standard), whitelist) == Pure
    ensures IsCalledMethodPure(m, signature, config.(trustMode := Strict), whitelist) == NotPure
  {
  }

  /** The exact-membership test of the review list adds nothing for a
      non-empty signature, which every built signature is. */
  lemma ReviewMembershipSubsumed(signature: string, reviewRequired: set<string>)
    requires signature != []
    ensures IsReviewListed(signature, reviewRequired) <==> MatchesAny(signature, reviewRequired)
  {
    if signature in reviewRequired {
      assert Matches(signature, signature);
    }
  }

  /** An exclude pattern contributed by any scope of a merged configuration
      makes every signature it matches not pure, whatever the other scopes
      include or however they set the trust mode. */
  lemma MergedExcludeWins(configs: seq<PurityConfig>, k: nat, pattern: string,
                          m: MethodSymbol, signature: string, whitelist: set<string>)
    requires k < |configs| && pattern in configs[k].whitelist.excludes
    requires Matches(signature, pattern)
    ensures IsCalledMethodPure(m, signature, ConfigurationLoader.Merged(configs), whitelist) == NotPure
  {
    ConfigurationLoader.MergedUnion(configs, pattern);
  }

  /** An include pattern from any scope is honoured after the merge, in every
      trust mode, unless some scope excludes the signature. */
  lemma MergedIncludeTrusted(configs: seq<PurityConfig>, k: nat, pattern: string,
                             m: MethodSymbol, signature: string, whitelist: set<string>)
    requires k < |configs| && pattern in configs[k].whitelist.includes
    requires Matches(signature, pattern)
    requires forall i, p :: 0 <= i < |configs| && p in configs[i].whitelist.excludes ==> !Matches(signature, p)
    ensures IsCalledMethodPure(m, signature, ConfigurationLoader.Merged(configs), whitelist).IsPure()
  {
    ConfigurationLoader.MergedUnion(configs, pattern);
    forall p | p in ConfigurationLoader.Merged(configs).whitelist.excludes
      ensures !Matches(signature, p)
    {
      ConfigurationLoader.MergedUnion(configs, p);
    }
  }
}
