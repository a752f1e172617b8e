/** Reading `.purity/config.json` files into one effective configuration:
    each file's JSON object is mapped to a configuration record, and the
    records, ordered from the broadest scope to the narrowest, are merged. */
module ConfigurationLoader {
  import opened Wrappers
  import opened Text
  import opened Config

  /** The `whitelist` object of the JSON file; a missing key is None. */
  datatype WhitelistDto = WhitelistDto(includes: Option<seq<string>>, excludes: Option<seq<string>>)

  /** The JSON object as the deserializer returns it; a missing key is None. */
  datatype ConfigDto = ConfigDto(
    trustMode: Option<string>,
    whitelist: Option<WhitelistDto>,
    reviewRequired: Option<seq<string>>,
    outputPendingReview: Option<bool>)

  /** An additional file of the compilation; its text may be unavailable. */
  datatype AdditionalText = AdditionalText(path: string, text: Option<string>)

  const ConfigDirectory := ".purity"
  const ConfigFileName := "config.json"

  /** Is the file a configuration file? `directorySeparator` is the host's
      path separator, which the first of the two suffixes is built with. */
  function IsConfigFile(file: AdditionalText, directorySeparator: char): (r: bool)
    ensures EndsWithIgnoreCase(file.path, ".purity/config.json") ==> r
    ensures EndsWithIgnoreCase(file.path, ".purity" + [directorySeparator] + "config.json") ==> r
    ensures r ==> |file.path| >= |".purity/config.json"|
  {
    assert ConfigDirectory + "/" + ConfigFileName == ".purity/config.json";
    assert |ConfigDirectory + [directorySeparator] + ConfigFileName| == |".purity/config.json"|;
    || EndsWithIgnoreCase(file.path, ConfigDirectory + [directorySeparator] + ConfigFileName)
    || EndsWithIgnoreCase(file.path, ConfigDirectory + "/" + ConfigFileName)
  }

  /** The `trustMode` string, lower-cased, mapped to a mode; anything
      unrecognised, or no string at all, is Standard. */
  function ParseTrustMode(text: Option<string>): (mode: TrustMode)
    ensures mode == Strict <==> text.Some? && ToLower(text.value) == "strict"
    ensures mode == ZeroTrust <==> text.Some? && ToLower(text.value) in {"zero-trust", "zerotrust"}
  {
    if text.None? then Standard
    else
      var lower := ToLower(text.value);
      if lower == "standard" then Standard
      else if lower == "strict" then Strict
      else if lower == "zero-trust" || lower == "zerotrust" then ZeroTrust
      else Standard
  }

  /** An optional JSON array as an ordinal set; a missing array is empty. */
  function ToSet(items: Option<seq<string>>): (s: set<string>)
    ensures forall x :: x in s <==> items.Some? && x in items.value
  {
    if items.None? then {} else set x | x in items.value
  }

  /** Maps the JSON object to a configuration record, defaulting every
      missing key. */
  function MapFromDto(dto: ConfigDto): (config: PurityConfig)
    ensures config.trustMode == ParseTrustMode(dto.trustMode)
    ensures dto.whitelist.None? ==> config.whitelist == EmptyWhitelist
    ensures dto.whitelist.Some? ==> config.whitelist.includes == ToSet(dto.whitelist.value.includes)
    ensures dto.whitelist.Some? ==> config.whitelist.excludes == ToSet(dto.whitelist.value.excludes)
    ensures config.reviewRequired == ToSet(dto.reviewRequired)
    ensures config.outputPendingReview <==> dto.outputPendingReview == Some(true)
  {
    var whitelist :=
      if dto.whitelist.None? then EmptyWhitelist
      else WhitelistConfig(ToSet(dto.whitelist.value.includes), ToSet(dto.whitelist.value.excludes));
    PurityConfig(
      ParseTrustMode(dto.trustMode),
      whitelist,
      ToSet(dto.reviewRequired),
      dto.outputPendingReview.GetOr(false))
  }

  /** Parses one file's text. `parse` stands for the JSON deserializer: it
      gives None for malformed JSON (the caught exception) and for a JSON
      `null`. Missing or blank text contributes no configuration. */
  function TryParseConfig(json: Option<string>, parse: string -> Option<ConfigDto>): (config: Option<PurityConfig>)
    ensures json.None? || IsBlank(json.value) ==> config.None?
    ensures config.Some? <==> json.Some? && !IsBlank(json.value) && parse(json.value).Some?
    ensures config.Some? ==> config.value == MapFromDto(parse(json.value).value)
  {
    if json.None? || IsBlank(json.value) then None
    else
      match parse(json.value)
      case None => None
      case Some(dto) => Some(MapFromDto(dto))
  }

  /** The configurations that survive filtering and parsing, in file order. */
  function ParsedConfigs(files: seq<AdditionalText>, parse: string -> Option<ConfigDto>, directorySeparator: char): (configs: seq<PurityConfig>)
    ensures |configs| <= |files|
  {
    if files == [] then []
    else
      var rest := ParsedConfigs(files[1..], parse, directorySeparator);
      if !IsConfigFile(files[0], directorySeparator) then rest
      else
        match TryParseConfig(files[0].text, parse)
        case None => rest
        case Some(config) => [config] + rest
  }

  /** One step of the merge: the later configuration's trust mode and flag
      replace the accumulated ones, and the pattern sets are unioned. */
  function MergeStep(accumulated: PurityConfig, current: PurityConfig): PurityConfig {
    PurityConfig(
      current.trustMode,
      WhitelistConfig(
        accumulated.whitelist.includes + current.whitelist.includes,
        accumulated.whitelist.excludes + current.whitelist.excludes),
      accumulated.reviewRequired + current.reviewRequired,
      current.outputPendingReview)
  }

  /** The merge as a left fold of MergeStep over the configurations. */
  function Merged(configs: seq<PurityConfig>): PurityConfig
    requires |configs| > 0
  {
    if |configs| == 1 then configs[0]
    else MergeStep(Merged(configs[..|configs| - 1]), configs[|configs| - 1])
  }

  /** `MergeConfigs`: merges configurations ordered broadest first. */
  method MergeConfigs(configs: seq<PurityConfig>) returns (result: PurityConfig)
    requires |configs| > 0
    ensures result == Merged(configs)
    ensures |configs| == 1 ==> result == configs[0]
    ensures result.trustMode == configs[|configs| - 1].trustMode
    ensures result.outputPendingReview == configs[|configs| - 1].outputPendingReview
  {
    if |configs| == 1 {
      return configs[0];
    }
    result := configs[0];
    for i := 1 to |configs|
      invariant result == Merged(configs[..i])
    {
      var current := configs[i];
      result := PurityConfig(
        current.trustMode,
        WhitelistConfig(
          result.whitelist.includes + current.whitelist.includes,
          result.whitelist.excludes + current.whitelist.excludes),
        result.reviewRequired + current.reviewRequired,
        current.outputPendingReview);
      assert configs[..i + 1][..i] == configs[..i];
    }
    assert configs[..|configs|] == configs;
  }

  /** `Load`: the merged configuration of the files that are configuration
      files and parse, or the default when there is none. */
  function Load(files: seq<AdditionalText>, parse: string -> Option<ConfigDto>, directorySeparator: char): (config: PurityConfig)
    ensures ParsedConfigs(files, parse, directorySeparator) == [] ==> config == Default
    ensures var configs := ParsedConfigs(files, parse, directorySeparator);
            configs != [] ==>
              config.trustMode == configs[|configs| - 1].trustMode &&
              config.outputPendingReview == configs[|configs| - 1].outputPendingReview &&
              (forall pattern :: pattern in config.whitelist.includes <==>
                 exists i :: 0 <= i < |configs| && pattern in configs[i].whitelist.includes) &&
              (forall pattern :: pattern in config.whitelist.excludes <==>
                 exists i :: 0 <= i < |configs| && pattern in configs[i].whitelist.excludes) &&
              (forall pattern :: pattern in config.reviewRequired <==>
                 exists i :: 0 <= i < |configs| && pattern in configs[i].reviewRequired)
  {
    var configs := ParsedConfigs(files, parse, directorySeparator);
    if |configs| == 0 then Default
    else
      LastScopeWins(configs);
      MergedUnions(configs);
      Merged(configs)
  }

  // ---------------------------------------------------------------------
  // Properties of the merge

  /** A pattern is in a merged set iff some merged configuration has it. */
  lemma {:induction false} MergedUnion(configs: seq<PurityConfig>, pattern: string)
    requires |configs| > 0
    ensures pattern in Merged(configs).whitelist.includes <==>
            exists i :: 0 <= i < |configs| && pattern in configs[i].whitelist.includes
    ensures pattern in Merged(configs).whitelist.excludes <==>
            exists i :: 0 <= i < |configs| && pattern in configs[i].whitelist.excludes
    ensures pattern in Merged(configs).reviewRequired <==>
            exists i :: 0 <= i < |configs| && pattern in configs[i].reviewRequired
  {
    if |configs| > 1 {
      var init := configs[..|configs| - 1];
      MergedUnion(init, pattern);
      assert forall i :: 0 <= i < |init| ==> configs[i] == init[i];
    }
  }

  /** `MergedUnion` for every pattern at once: include, exclude and review
      sets are unions. */
  lemma MergedUnions(configs: seq<PurityConfig>)
    requires |configs| > 0
    ensures forall pattern :: pattern in Merged(configs).whitelist.includes <==>
              exists i :: 0 <= i < |configs| && pattern in configs[i].whitelist.includes
    ensures forall pattern :: pattern in Merged(configs).whitelist.excludes <==>
              exists i :: 0 <= i < |configs| && pattern in configs[i].whitelist.excludes
    ensures forall pattern :: pattern in Merged(configs).reviewRequired <==>
              exists i :: 0 <= i < |configs| && pattern in configs[i].reviewRequired
  {
    forall pattern: string {
      MergedUnion(configs, pattern);
    }
  }

  /** The last configuration's trust mode and flag win. */
  lemma LastScopeWins(configs: seq<PurityConfig>)
    requires |configs| > 0
    ensures Merged(configs).trustMode == configs[|configs| - 1].trustMode
    ensures Merged(configs).outputPendingReview == configs[|configs| - 1].outputPendingReview
  {
  }

  /** Merging a prefix first and the rest after gives the same result as
      merging everything at once. */
  lemma {:induction false} MergeRegroups(first: seq<PurityConfig>, rest: seq<PurityConfig>)
    requires |first| > 0
    ensures Merged([Merged(first)] + rest) == Merged(first + rest)
  {
    if rest != [] {
      var init := rest[..|rest| - 1];
      MergeRegroups(first, init);
      assert ([Merged(first)] + rest)[..|rest|] == [Merged(first)] + init;
      assert (first + rest)[..|first + rest| - 1] == first + init;
    } else {
      assert first + rest == first;
    }
  }

  /** The identity stated for three configurations. */
  lemma MergeOfMergeThree(a: PurityConfig, b: PurityConfig, c: PurityConfig)
    ensures Merged([Merged([a, b]), c]) == Merged([a, b, c])
  {
    MergeRegroups([a, b], [c]);
    assert [a, b] + [c] == [a, b, c];
  }

  // ---------------------------------------------------------------------
  // Properties of loading

  /** Files that contribute nothing (not configuration files, blank text,
      text that does not parse) do not change the result. */
  lemma {:induction false} NonContributingFilesIgnored(
    files: seq<AdditionalText>, ignored: AdditionalText, parse: string -> Option<ConfigDto>, directorySeparator: char)
    requires !IsConfigFile(ignored, directorySeparator) || TryParseConfig(ignored.text, parse).None?
    ensures ParsedConfigs(files + [ignored], parse, directorySeparator) == ParsedConfigs(files, parse, directorySeparator)
  {
    if files == [] {
      assert [] + [ignored] == [ignored];
    } else {
      assert (files + [ignored])[1..] == files[1..] + [ignored];
      NonContributingFilesIgnored(files[1..], ignored, parse, directorySeparator);
    }
  }

  /** Loading a concatenation of file lists concatenates their configurations:
      file order is kept. */
  lemma {:induction false} ParsedConfigsAppend(
    first: seq<AdditionalText>, second: seq<AdditionalText>, parse: string -> Option<ConfigDto>, directorySeparator: char)
    ensures ParsedConfigs(first + second, parse, directorySeparator) ==
            ParsedConfigs(first, parse, directorySeparator) + ParsedConfigs(second, parse, directorySeparator)
  {
    if first == [] {
      assert first + second == second;
    } else {
      assert (first + second)[0] == first[0];
      assert (first + second)[1..] == first[1..] + second;
      ParsedConfigsAppend(first[1..], second, parse, directorySeparator);
    }
  }

  /** A configuration is loaded iff some configuration file parses to it. */
  lemma {:induction false} ParsedConfigsMembership(
    files: seq<AdditionalText>, parse: string -> Option<ConfigDto>, directorySeparator: char, config: PurityConfig)
    ensures config in ParsedConfigs(files, parse, directorySeparator) <==>
            exists i :: 0 <= i < |files| && IsConfigFile(files[i], directorySeparator) &&
                        TryParseConfig(files[i].text, parse) == Some(config)
  {
    if files != [] {
      ParsedConfigsMembership(files[1..], parse, directorySeparator, config);
      assert forall i :: 1 <= i < |files| ==> files[i] == files[1..][i - 1];
      if exists i :: 0 <= i < |files| && IsConfigFile(files[i], directorySeparator) &&
                     TryParseConfig(files[i].text, parse) == Some(config) {
        var i :| 0 <= i < |files| && IsConfigFile(files[i], directorySeparator) &&
                 TryParseConfig(files[i].text, parse) == Some(config);
        if i > 0 {
          assert files[1..][i - 1] == files[i];
        }
      }
    }
  }

  /** When no additional file is a configuration file that parses (none is a
      configuration file, or each one's text is missing, blank or malformed),
      Load gives the default: Standard trust, empty sets, no pending-review
      output. */
  lemma {:induction false} NoConfigFilesGiveDefault(
    files: seq<AdditionalText>, parse: string -> Option<ConfigDto>, directorySeparator: char)
    requires forall i :: 0 <= i < |files| ==>
               !IsConfigFile(files[i], directorySeparator) || TryParseConfig(files[i].text, parse).None?
    ensures Load(files, parse, directorySeparator) == Default
    ensures Default.trustMode == Standard && Default.whitelist.includes == {} && Default.whitelist.excludes == {}
    ensures Default.reviewRequired == {} && !Default.outputPendingReview
  {
    if files != [] {
      NoConfigFilesGiveDefault(files[1..], parse, directorySeparator);
    }
  }

  /** With `/` as the host separator, a file is a configuration file iff its
      path ends with `.purity/config.json`, ignoring letter case. */
  lemma ForwardSlashConfigFile(file: AdditionalText)
    ensures IsConfigFile(file, '/') <==> EndsWithIgnoreCase(file.path, ".purity/config.json")
  {
    assert ConfigDirectory + ['/'] + ConfigFileName == ".purity/config.json";
    assert ConfigDirectory + "/" + ConfigFileName == ".purity/config.json";
  }

  /** `"Zero-Trust"`, as a unit test spells it, selects ZeroTrust. */
  lemma MixedCaseZeroTrust(text: string)
    requires text == "Zero-Trust"
    ensures ParseTrustMode(Some(text)) == ZeroTrust
  {
    assert ToLower(text) == "zero-trust";
  }

  /** Any string other than `strict`, `zero-trust` or `zerotrust` (after
      lower-casing) falls back to Standard. */
  lemma UnknownTrustModeIsStandard(text: string)
    requires ToLower(text) !in {"strict", "zero-trust", "zerotrust"}
    ensures ParseTrustMode(Some(text)) == Standard
  {
  }

  /** `"invalid"`, as a unit test spells it, is such a string. */
  lemma InvalidTrustModeIsStandard(text: string)
    requires text == "invalid"
    ensures ParseTrustMode(Some(text)) == Standard
  {
    assert ToLower(text) == "invalid";
    UnknownTrustModeIsStandard(text);
  }

  /** Trust-mode parsing ignores letter case. */
  lemma TrustModeIgnoresCase(a: string, b: string)
    requires ToLower(a) == ToLower(b)
    ensures ParseTrustMode(Some(a)) == ParseTrustMode(Some(b))
  {
  }
}
