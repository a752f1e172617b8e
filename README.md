# Purity.Analyzer in Dafny

A Dafny model of the core of Purity.Analyzer, a C# compiler analyzer. For every method
marked `[EnforcedPure]` or `[Pure]`, directly or through its containing type, it reports
the ways the method body breaks purity: field mutation (PUR001), calls to methods that are
not known to be pure (PUR002, with PUR011 for calls that are trusted but flagged for review),
I/O (PUR003), non-determinism (PUR004), mutable return types (PUR005), parameter mutation
(PUR006), `ref`/`out` parameters (PUR007), unsafe code (PUR008), reflection (PUR009) and
exceptions used as control flow (PUR010).

The model covers six parts of the program:

- **Pattern matcher.** Matches signatures against exact or `Prefix.*` user patterns
  (module `PatternMatcher`).
- **Configuration.**
  - The configuration records and their defaults (module `Config`).
  - Mapping each `.purity/config.json` object to a record, and merging the records
    from the broadest scope to the narrowest (module `ConfigurationLoader`).
- **Static whitelist.** The set of library signatures known to be pure, built from the
  lines of an embedded resource (module `PurityWhitelist`). It is a value that the
  classification receives as an argument.
- **Signatures and classification.**
  - CLR-format signature building (module `Signatures`, over the symbol descriptors of
    module `Symbols`).
  - The verdict for a called method: user excludes, then user includes with the review
    list, then the trust mode (module `Classification`).
- **The ten detectors and the entry point.**
  - The scans run over an abstract syntax tree (module `Syntax`) and report findings
    (module `Findings`).
  - The string catalogues live in module `Catalogues`; the detectors are in module
    `Detectors`.
  - Properties that involve several detectors are in `DetectorProperties`.
- **Whitelist compiler.** The build-time tool that reads the Markdown tables of the
  whitelist documents and writes the distinct signatures in sorted order
  (module `WhitelistCompiler`).

Module `Text` holds the ordinal string operations of the .NET base library that the code
relies on: `StartsWith`, `IndexOf`, `Trim`, lower-casing and ordinal order.

**Modelling conventions.**

- **Loops become methods.** Each loop of the source is a method with a loop: `MergeConfigs`,
  `LoadWhitelist`, `Scan`, `CheckForRefOutParameters` and `ParseMarkdownTable`. Each is
  proved equal to a specification function, and the properties are proved about that
  function.
- **Detectors.** The `foreach` over `DescendantNodes()` of each detector is `Findings.Scan`.
  It applies a per-node check and appends what the check reports.
- **JSON parsing** is a function parameter `string -> Option<ConfigDto>`. `None` stands
  for both malformed JSON and a JSON `null`.

**Wildcards match at any depth.** The doc comment of `PatternMatcher.Matches`
(src/Purity.Analyzer.Roslyn/Configuration/PatternMatcher.cs:32-34) says that `System.Math.*`
matches the methods of `System.Math` and that `System.*` matches the types of `System`. The
code, and tests/Purity.Analyzer.Tests/PatternMatcherTests.cs, match every signature that starts with
`Prefix.` at any depth, so `System.*` also matches members of nested namespaces. The model
follows the code (`PatternMatcher.WildcardMatches`).

## Model

| member | source | states |
|---|---|---|
| PatternMatcher.Matches | src/Purity.Analyzer.Roslyn/Configuration/PatternMatcher.cs:37-79 | An empty pattern never matches. A pattern equal to the signature always matches, even one ending in `.*`. A pattern not ending in `.*` matches exactly when it equals the signature. |
| PatternMatcher.TypeQualifierBranchSubsumed | src/Purity.Analyzer.Roslyn/Configuration/PatternMatcher.cs:64-75 | Whenever the type-qualifier branch accepts, the signature already starts with `prefix.`, so the branch never adds a match. |
| PatternMatcher.WildcardMatches | src/Purity.Analyzer.Roslyn/Configuration/PatternMatcher.cs:47-75 | `prefix.*` matches a signature iff the signature is the pattern itself or starts with `prefix.`, at any depth. |
| PatternMatcher.WildcardNeedsDotBoundary | src/Purity.Analyzer.Roslyn/Configuration/PatternMatcher.cs:59 | A different signature that matches `prefix.*` has a dot right after `prefix`. |
| PatternMatcher.MatchesAnyUnion | src/Purity.Analyzer.Roslyn/Configuration/PatternMatcher.cs:17-25 | Matching some pattern of a union is matching some pattern of either set. |
| PatternMatcher.TypeWildcardMatchesMembers | src/Purity.Analyzer.Roslyn/Configuration/PatternMatcher.cs:59 | `Owner.*` matches every `Owner.member`, with or without a parameter list (e.g. `System.Math.PI`). |
| PatternMatcher.NamespaceWildcardExample | src/Purity.Analyzer.Roslyn/Configuration/PatternMatcher.cs:59 | `MyApp.*` matches `MyApp.Services.Calculator.Add(System.Int32,System.Int32)`. |
| PatternMatcher.SiblingTypeNotMatched | src/Purity.Analyzer.Roslyn/Configuration/PatternMatcher.cs:59 | `System.Math.*` does not match `System.MathF.Abs(System.Single)`. |
| PatternMatcher.MatchingIsCaseSensitive | src/Purity.Analyzer.Roslyn/Configuration/PatternMatcher.cs:43-72 | A signature that writes the first letter of the prefix in lower case does not match the wildcard. |
| ConfigurationLoader.ParseTrustMode | src/Purity.Analyzer.Roslyn/Configuration/ConfigurationLoader.cs:119-125 | Strict iff the lower-cased text is `strict`. ZeroTrust iff it is `zero-trust` or `zerotrust`. Otherwise, including missing text, Standard. |
| ConfigurationLoader.ToSet | src/Purity.Analyzer.Roslyn/Configuration/ConfigurationLoader.cs:129-136 | The set holds exactly the elements of the array, and is empty when the array is missing. |
| ConfigurationLoader.MapFromDto | src/Purity.Analyzer.Roslyn/Configuration/ConfigurationLoader.cs:117-145 | Each field is taken from the JSON object. The trust mode is parsed. A missing whitelist gives empty sets, otherwise each set holds exactly its array's patterns. The review set holds exactly the review array's patterns, and is empty when it is missing. `outputPendingReview` is true only when given as true. |
| ConfigurationLoader.TryParseConfig | src/Purity.Analyzer.Roslyn/Configuration/ConfigurationLoader.cs:97-112 | Missing or blank text gives nothing. Otherwise there is a configuration iff the parser accepts the text, and it is the mapped object. |
| ConfigurationLoader.IsConfigFile | src/Purity.Analyzer.Roslyn/Configuration/ConfigurationLoader.cs:89-91 | A path ending in `.purity`, the host separator and `config.json`, in any letter case, is a configuration file, and so is one ending in `.purity/config.json` whatever the host separator. A configuration file's path is at least that long. |
| ConfigurationLoader.Load | src/Purity.Analyzer.Roslyn/Configuration/ConfigurationLoader.cs:34-46 | With no configuration file that parses, the default configuration. Otherwise the last parsed configuration's trust mode and pending-review flag, and include, exclude and review-required sets that are the unions of the parsed ones. |
| ConfigurationLoader.ParsedConfigs | src/Purity.Analyzer.Roslyn/Configuration/ConfigurationLoader.cs:36-41 | No more configurations than files. |
| ConfigurationLoader.ParsedConfigsAppend | src/Purity.Analyzer.Roslyn/Configuration/ConfigurationLoader.cs:36-41 | Loading two lists of files one after the other concatenates their configurations, so file order is kept. |
| ConfigurationLoader.ParsedConfigsMembership | src/Purity.Analyzer.Roslyn/Configuration/ConfigurationLoader.cs:36-41 | A configuration is loaded iff some configuration file's text parses to it. |
| ConfigurationLoader.MergeConfigs | src/Purity.Analyzer.Roslyn/Configuration/ConfigurationLoader.cs:151-187 | The loop computes the left fold `Merged`. A single configuration is returned unchanged. The trust mode and the pending-review flag are the last configuration's. |
| ConfigurationLoader.MergedUnion | src/Purity.Analyzer.Roslyn/Configuration/ConfigurationLoader.cs:168-172 | A pattern is in the merged include, exclude or review set iff some merged configuration has it there. |
| ConfigurationLoader.MergedUnions | src/Purity.Analyzer.Roslyn/Configuration/ConfigurationLoader.cs:168-172 | The include, exclude and review-required sets of a merge are the unions of the merged ones, for every pattern at once. |
| ConfigurationLoader.LastScopeWins | src/Purity.Analyzer.Roslyn/Configuration/ConfigurationLoader.cs:165-175 | The merged trust mode and pending-review flag are those of the last configuration. |
| ConfigurationLoader.MergeRegroups | src/Purity.Analyzer.Roslyn/Configuration/ConfigurationLoader.cs:151-187 | Merging a prefix first and then the rest gives the same result as merging everything at once. |
| ConfigurationLoader.MergeOfMergeThree | src/Purity.Analyzer.Roslyn/Configuration/ConfigurationLoader.cs:151-187 | `Merge([Merge([a, b]), c]) == Merge([a, b, c])`. |
| ConfigurationLoader.NonContributingFilesIgnored | src/Purity.Analyzer.Roslyn/Configuration/ConfigurationLoader.cs:36-41 | A file that is not a configuration file, or whose text is blank or does not parse, leaves the parsed configurations unchanged. |
| ConfigurationLoader.NoConfigFilesGiveDefault | src/Purity.Analyzer.Roslyn/Configuration/ConfigurationLoader.cs:43-45 | When no file is a configuration file whose text parses (each is not a configuration file, or its text is missing, blank or malformed), `Load` gives the default: Standard trust, empty sets, and no pending-review output. |
| ConfigurationLoader.ForwardSlashConfigFile | src/Purity.Analyzer.Roslyn/Configuration/ConfigurationLoader.cs:89-91 | With `/` as the host separator, a file is a configuration file iff its path ends in `.purity/config.json`, ignoring case. |
| ConfigurationLoader.MixedCaseZeroTrust | src/Purity.Analyzer.Roslyn/Configuration/ConfigurationLoader.cs:119-123 | `"Zero-Trust"` selects ZeroTrust. |
| ConfigurationLoader.UnknownTrustModeIsStandard | src/Purity.Analyzer.Roslyn/Configuration/ConfigurationLoader.cs:119-125 | Every string whose lower-cased form is not `strict`, `zero-trust` or `zerotrust` selects Standard. |
| ConfigurationLoader.InvalidTrustModeIsStandard | src/Purity.Analyzer.Roslyn/Configuration/ConfigurationLoader.cs:124 | `"invalid"` selects Standard. |
| ConfigurationLoader.TrustModeIgnoresCase | src/Purity.Analyzer.Roslyn/Configuration/ConfigurationLoader.cs:119 | Two strings equal up to case select the same trust mode. |
| PurityWhitelist.NormalizeSignature | src/Purity.Analyzer.Roslyn/PurityWhitelist.cs:64-68 | Normalisation never lengthens a line, and keeps a non-empty line non-empty with the same first character. |
| PurityWhitelist.NormalizeRemovesCommaSpace | src/Purity.Analyzer.Roslyn/PurityWhitelist.cs:64-68 | After normalisation no comma is followed by a space, for any line in which no comma is followed by two spaces. |
| PurityWhitelist.CommaTwoSpacesKeepsOne | src/Purity.Analyzer.Roslyn/PurityWhitelist.cs:67 | The single replacement pass turns `a,  b` into `a, b`, so the condition above is needed. |
| PurityWhitelist.NormalizeNoCommaPrefix | src/Purity.Analyzer.Roslyn/PurityWhitelist.cs:67 | A comma-free prefix passes through normalisation unchanged. |
| PurityWhitelist.SpacedListNormalizes | src/Purity.Analyzer.Roslyn/PurityWhitelist.cs:64-68 | Comma-free parts joined with `", "` normalise to the same parts joined with `","`, the form the signature builder writes. |
| PurityWhitelist.LoadWhitelist | src/Purity.Analyzer.Roslyn/PurityWhitelist.cs:32-58 | The loop collects the normalised non-blank lines. A missing resource gives the empty set. |
| PurityWhitelist.IsWhitelisted | src/Purity.Analyzer.Roslyn/PurityWhitelist.cs:21 | A whitelisted signature implies a non-empty whitelist (exact membership; `WhitelistedIffLine` says which signatures a loaded resource whitelists). |
| PurityWhitelist.WhitelistedIffLine | src/Purity.Analyzer.Roslyn/PurityWhitelist.cs:21-55 | A signature is whitelisted by a loaded resource iff it is the normalised form of one of its non-blank lines. |
| PurityWhitelist.Count | src/Purity.Analyzer.Roslyn/PurityWhitelist.cs:26 | The count is zero exactly for the empty whitelist. |
| PurityWhitelist.NormalizeOnlyDeletesSpaces | src/Purity.Analyzer.Roslyn/PurityWhitelist.cs:64-68 | Normalisation deletes spaces and nothing else. |
| PurityWhitelist.NormalizeIdentity | src/Purity.Analyzer.Roslyn/PurityWhitelist.cs:67 | A line without `", "` is stored unchanged. |
| PurityWhitelist.LineEntriesMembership | src/Purity.Analyzer.Roslyn/PurityWhitelist.cs:45-55 | A signature is stored iff it is the normalised form of some non-blank line. |
| PurityWhitelist.EmptyNeverWhitelisted | src/Purity.Analyzer.Roslyn/PurityWhitelist.cs:21-55 | The empty signature is never whitelisted, whatever the resource holds. |
| PurityWhitelist.CountBound | src/Purity.Analyzer.Roslyn/PurityWhitelist.cs:26 | `Count` of the loaded lines is at most the number of lines. |
| Signatures.ClrTypeName | src/Purity.Analyzer.Roslyn/PurityAnalyzer.cs:416-435 | A missing type gives the empty string. A special or generic named type gives a name ending in `.` and its metadata name. Any other type gives its display name. |
| Signatures.ParameterTypeNames | src/Purity.Analyzer.Roslyn/PurityAnalyzer.cs:399-408 | One entry per parameter, in order: its CLR type name plus the passing-mode suffix. |
| Signatures.NatToString | src/Purity.Analyzer.Roslyn/PurityAnalyzer.cs:395 | The arity is written with decimal digits only, and never as the empty string. |
| Signatures.NatToStringRoundTrip | src/Purity.Analyzer.Roslyn/PurityAnalyzer.cs:395 | Reading the digits back gives the arity, so different arities are written differently. |
| Signatures.ParameterList | src/Purity.Analyzer.Roslyn/PurityAnalyzer.cs:399-410 | The parameter list is enclosed in parentheses. |
| Signatures.BuildMethodSignature | src/Purity.Analyzer.Roslyn/PurityAnalyzer.cs:387-411 | A method signature starts with `Owner.Name` and ends with `)`. |
| Signatures.BuildPropertySignature | src/Purity.Analyzer.Roslyn/PurityAnalyzer.cs:440-444 | A property signature is `Owner.` followed by the name, with no parameter list. |
| Signatures.JoinCommaLength | src/Purity.Analyzer.Roslyn/PurityAnalyzer.cs:399 | The joined list is as long as its parts plus one comma between each pair. |
| Signatures.ParameterNamesLength | src/Purity.Analyzer.Roslyn/PurityAnalyzer.cs:399-408 | The parameter names are as long as their type names plus one suffix character per `ref`/`out` parameter. |
| Signatures.RefOverloadsDistinct | src/Purity.Analyzer.Roslyn/PurityAnalyzer.cs:399-408 | Overloads with the same parameter types but a different number of `ref`/`out` parameters never share a signature. |
| Signatures.InParameterUnmarked | src/Purity.Analyzer.Roslyn/PurityAnalyzer.cs:403-406 | An `in` parameter is written exactly like a by-value one. |
| Signatures.ArityOverloadsDistinct | src/Purity.Analyzer.Roslyn/PurityAnalyzer.cs:393-396 | Methods that differ only in generic arity never share a signature. |
| Signatures.MethodMatchesOwnerWildcard | src/Purity.Analyzer.Roslyn/PurityAnalyzer.cs:410 | Every method signature matches the pattern `Owner.*` of its type. |
| Signatures.PropertyMatchesOwnerWildcard | src/Purity.Analyzer.Roslyn/PurityAnalyzer.cs:443 | Every property signature matches the pattern `Owner.*` of its type. |
| Classification.IsMethodPureStandard | src/Purity.Analyzer.Roslyn/PurityAnalyzer.cs:324-339 | Pure iff the method or its type carries a purity attribute, or the signature is whitelisted. Never a review verdict. |
| Classification.IsMethodPureStrict | src/Purity.Analyzer.Roslyn/PurityAnalyzer.cs:344-364 | Pure iff the signature is whitelisted, or the method is marked and in the current compilation, or its type is marked and in the current compilation. So a foreign method that is not whitelisted is not pure whatever its attributes. Never a review verdict. |
| Classification.IsCalledMethodPure | src/Purity.Analyzer.Roslyn/PurityAnalyzer.cs:293-319 | An exclude match gives not pure. Otherwise an include match gives pure, with review exactly when the review list matches. A review verdict needs an include match. With neither match, Standard gives the Standard verdict and Strict the Strict verdict. Under ZeroTrust, pure iff included and not excluded. |
| Classification.TrustMonotone | src/Purity.Analyzer.Roslyn/PurityAnalyzer.cs:312-363 | Whatever ZeroTrust accepts Strict accepts, and whatever Strict accepts Standard accepts. |
| Classification.StrictDistrustsForeignAttributes | src/Purity.Analyzer.Roslyn/PurityAnalyzer.cs:344-364 | A marked method from another assembly, not whitelisted, is pure under Standard and not pure under Strict. |
| Classification.ReviewMembershipSubsumed | src/Purity.Analyzer.Roslyn/PurityAnalyzer.cs:306-307 | For a non-empty signature, the exact-membership test of the review list adds nothing to the pattern test. |
| Classification.MergedExcludeWins | src/Purity.Analyzer.Roslyn/PurityAnalyzer.cs:300-301 | An exclude pattern from any configuration scope makes a matching signature not pure after the merge. |
| Classification.MergedIncludeTrusted | src/Purity.Analyzer.Roslyn/PurityAnalyzer.cs:304-309 | An include pattern from any scope makes a matching signature pure after the merge, in every trust mode, unless some scope excludes it. |
| Classification.HasPurityAttribute | src/Purity.Analyzer.Roslyn/PurityAnalyzer.cs:675-686 | True iff the attributes include `Purity.Contracts.EnforcedPureAttribute` or `System.Diagnostics.Contracts.PureAttribute`; never for an empty list. |
| Classification.PurityAttributeAnywhere | src/Purity.Analyzer.Roslyn/PurityAnalyzer.cs:677-683 | The attribute is found wherever it stands in the list: splitting the list in two, either half may hold it, in either order. |
| Classification.IsPureMethod | src/Purity.Analyzer.Roslyn/PurityAnalyzer.cs:658-669 | Without a containing type, a method is marked pure iff it has a purity attribute itself. A marked method, or its type, has at least one attribute. |
| Catalogues.MutableLookupKey | src/Purity.Analyzer.Roslyn/PurityAnalyzer.cs:735-738 | The key is the definition up to its first `<`, or the whole definition when it has none. |
| Catalogues.ClrMemberName | src/Purity.Analyzer.Roslyn/PurityAnalyzer.cs:1074-1082 | A name exists iff the method has a containing type, and it ends in `.` and the method name. |
| Catalogues.IsIoTypeName | src/Purity.Analyzer.Roslyn/PurityAnalyzer.cs:484 | Every I/O type name starts with `System.`. Any name that starts with `System.IO.File` is an I/O type name, since the match is a raw prefix. |
| Catalogues.IsIoOperation | src/Purity.Analyzer.Roslyn/PurityAnalyzer.cs:500-508 | An I/O call has a containing type whose name starts with `System.`. A method of any type whose name starts with `System.IO.File` is an I/O call. |
| Catalogues.IsNonDeterministicMethod | src/Purity.Analyzer.Roslyn/PurityAnalyzer.cs:514-528 | A non-deterministic method has a containing type and a full name under `System.`. Every method of `System.Random` counts, whatever its name, and so does `System.Guid.NewGuid`. |
| Catalogues.IsNonDeterministicProperty | src/Purity.Analyzer.Roslyn/PurityAnalyzer.cs:534-543 | A non-deterministic property has a containing type and a full name under `System.`. `System.DateTime.Now` counts. No property of `System.Random` counts, unlike its methods. |
| Catalogues.RandomMemberNotCatalogued | src/Purity.Analyzer.Roslyn/PurityAnalyzer.cs:541-542 | No `System.Random.<name>` is in the non-deterministic member catalogue. |
| Catalogues.ReflectionName | src/Purity.Analyzer.Roslyn/PurityAnalyzer.cs:1015-1019 | A name exists iff the method has a containing type. It starts with that type's display name and ends in `.` and the method name. |
| Syntax.Walk | src/Purity.Analyzer.Roslyn/PurityAnalyzer.cs:127 | A subtree is visited root first. |
| Syntax.CalledMethod | src/Purity.Analyzer.Roslyn/PurityAnalyzer.cs:186 | A called method is found only for an invocation bound to that method. |
| Syntax.RootIdentifierName | src/Purity.Analyzer.Roslyn/PurityAnalyzer.cs:878-884 | An identifier is its own root. Any node that is neither an identifier nor a member access has no root. |
| Syntax.TopLevelNodesVisited | src/Purity.Analyzer.Roslyn/PurityAnalyzer.cs:127 | Every top-level node of the method is visited, not as a callee. |
| Syntax.DescendantNodes | src/Purity.Analyzer.Roslyn/PurityAnalyzer.cs:127 | Every top-level node of the method body is visited, not as a callee. |
| Syntax.AllTopLevelNodesVisited | src/Purity.Analyzer.Roslyn/PurityAnalyzer.cs:127 | Walking a list of nodes visits each of them, not as a callee. |
| Syntax.WalkAllContains | src/Purity.Analyzer.Roslyn/PurityAnalyzer.cs:127 | What the walk of one node of a list visits, the walk of the list visits. |
| Syntax.WalkVisitsWithin | src/Purity.Analyzer.Roslyn/PurityAnalyzer.cs:127 | Every node inside a subtree, at any depth, is visited by the walk of that subtree. |
| Syntax.WalkVisitsWithinAs | src/Purity.Analyzer.Roslyn/PurityAnalyzer.cs:127 | A node below a subtree is visited with the callee flag its position gives it: `true` exactly as the direct callee of an invocation. |
| Syntax.DescendantNodesComplete | src/Purity.Analyzer.Roslyn/PurityAnalyzer.cs:127 | Every node anywhere under the method declaration is visited by `DescendantNodes`. |
| Syntax.InvokedExpressionVisited | src/Purity.Analyzer.Roslyn/PurityAnalyzer.cs:224 | The callee of an invocation is visited right after it, marked as the invoked expression. |
| Syntax.RootOfMemberChain | src/Purity.Analyzer.Roslyn/PurityAnalyzer.cs:874-884 | `a.b.c` is rooted at `a`. |
| Syntax.RootOfThisOrIndexerChain | src/Purity.Analyzer.Roslyn/PurityAnalyzer.cs:878-884 | A member access on `this` or on an indexer has no root identifier. |
| Findings.SeverityOf | src/Purity.Analyzer.Roslyn/DiagnosticDescriptors.cs:22-142 | PUR010 is a warning, PUR011 is information, and every other rule is an error. |
| Findings.Scan | src/Purity.Analyzer.Roslyn/PurityAnalyzer.cs:127-147 | The loop over the descendant nodes appends what the check reports at each node, in order. |
| Findings.FlatMapMembership | src/Purity.Analyzer.Roslyn/PurityAnalyzer.cs:127-147 | A scan reports a finding iff the check reports it at some node. |
| Findings.FlatMapNamesMethod | src/Purity.Analyzer.Roslyn/PurityAnalyzer.cs:127-147 | If every per-node report names the method, the whole scan does. |
| Findings.FlatMapSilent | src/Purity.Analyzer.Roslyn/PurityAnalyzer.cs:127-147 | A check silent at every node gives an empty scan. |
| Findings.FlatMapOfRules | src/Purity.Analyzer.Roslyn/PurityAnalyzer.cs:127-147 | If the per-node check reports only certain rules, so does the whole scan. |
| Findings.FlatMapReports | src/Purity.Analyzer.Roslyn/PurityAnalyzer.cs:127-147 | What the check reports at a visited node, the scan reports. |
| Detectors.FieldTarget | src/Purity.Analyzer.Roslyn/PurityAnalyzer.cs:153-170 | At most one finding, reported iff the target binds to a field. The finding is PUR001 with the method name and the field name. |
| Detectors.FieldMutationAt | src/Purity.Analyzer.Roslyn/PurityAnalyzer.cs:127-147 | PUR001 is reported iff the node is an assignment, increment or decrement whose target binds to a field. The finding carries the method name and the field name. |
| Detectors.FieldMutationFindings | src/Purity.Analyzer.Roslyn/PurityAnalyzer.cs:122-148 | Every finding of `CheckForFieldMutation` is PUR001. |
| Detectors.CheckForFieldMutation | src/Purity.Analyzer.Roslyn/PurityAnalyzer.cs:122-148 | The scan reports the field-mutation findings of every node, in order. |
| Detectors.InvocationPurityAt | src/Purity.Analyzer.Roslyn/PurityAnalyzer.cs:184-218 | For a resolved call: PUR011 iff the verdict is pure with review; PUR002 iff not pure and neither I/O nor non-deterministic. Never both; nothing for an unresolved call. |
| Detectors.PropertyReadAt | src/Purity.Analyzer.Roslyn/PurityAnalyzer.cs:221-268 | For a property read outside a call, with a getter: PUR011 iff the getter's verdict is pure with review. PUR002 iff not pure, the property signature is not whitelisted, and it is not non-deterministic. |
| Detectors.NonPureCallFindings | src/Purity.Analyzer.Roslyn/PurityAnalyzer.cs:178-269 | Every finding of `CheckForNonPureCalls` is PUR002 or PUR011. |
| Detectors.CheckForNonPureCalls | src/Purity.Analyzer.Roslyn/PurityAnalyzer.cs:178-269 | All invocation findings first, then all property-read findings. |
| Detectors.IoCallAt | src/Purity.Analyzer.Roslyn/PurityAnalyzer.cs:455-472 | PUR003 iff the node calls a method of an I/O type. The finding carries the method name and the called method's short display. |
| Detectors.IoCreationAt | src/Purity.Analyzer.Roslyn/PurityAnalyzer.cs:475-494 | PUR003 iff the node creates an object whose type name starts with an I/O pattern. The finding carries the method name and `new Type()`. |
| Detectors.IoFindings | src/Purity.Analyzer.Roslyn/PurityAnalyzer.cs:450-495 | Every finding of `CheckForIoOperations` is PUR003. |
| Detectors.CheckForIoOperations | src/Purity.Analyzer.Roslyn/PurityAnalyzer.cs:450-495 | All I/O call findings first, then all creation findings. |
| Detectors.NonDeterminismAt | src/Purity.Analyzer.Roslyn/PurityAnalyzer.cs:554-652 | PUR004 iff one of these: a member access of a catalogued member, a creation of a non-deterministic type, or a call on a non-deterministic type. Nothing at other nodes. The finding is PUR004 with the method name and, in that order of cases, the member's full name, `new Type()` or the called method's short display. |
| Detectors.NonDeterminismFindings | src/Purity.Analyzer.Roslyn/PurityAnalyzer.cs:549-571 | Every finding of `CheckForNonDeterministicApis` is PUR004. |
| Detectors.CheckForNonDeterministicApis | src/Purity.Analyzer.Roslyn/PurityAnalyzer.cs:549-571 | The scan reports the non-determinism findings of every node, in order. |
| Detectors.MutableReturnFindings | src/Purity.Analyzer.Roslyn/PurityAnalyzer.cs:712-750 | An array return is reported with `ImmutableArray<element>`. A named type is reported iff its lookup key is catalogued. Other types are not reported. |
| Detectors.ParameterMutationAt | src/Purity.Analyzer.Roslyn/PurityAnalyzer.cs:786-872 | PUR006 iff the node mutates a receiver rooted at a checked parameter: a catalogued mutating call, a member assignment or an indexer assignment. The finding names that parameter. |
| Detectors.ParameterMutationFindings | src/Purity.Analyzer.Roslyn/PurityAnalyzer.cs:773-806 | Every finding of `CheckForParameterMutation` is PUR006. |
| Detectors.CheckForParameterMutation | src/Purity.Analyzer.Roslyn/PurityAnalyzer.cs:773-806 | The scan reports the parameter-mutation findings of every node. It returns at once, with the same result, when no parameter has a reference type. |
| Detectors.CheckForRefOutParameters | src/Purity.Analyzer.Roslyn/PurityAnalyzer.cs:894-911 | The loop computes the findings for the `ref`/`out` parameters, in declaration order. |
| Detectors.RefOutFindings | src/Purity.Analyzer.Roslyn/PurityAnalyzer.cs:894-911 | Every finding of `CheckForRefOutParameters` is PUR007. |
| Detectors.UnsafeAt | src/Purity.Analyzer.Roslyn/PurityAnalyzer.cs:937-962 | PUR008 iff the node is an unsafe block, a fixed statement or a pointer type. The finding carries the method name only. |
| Detectors.UnsafeFindings | src/Purity.Analyzer.Roslyn/PurityAnalyzer.cs:921-963 | Every finding of `CheckForUnsafeCode` is PUR008. |
| Detectors.CheckForUnsafeCode | src/Purity.Analyzer.Roslyn/PurityAnalyzer.cs:921-963 | An `unsafe` method gets a single finding and its body is not scanned. Otherwise the body is scanned. |
| Detectors.ReflectionAt | src/Purity.Analyzer.Roslyn/PurityAnalyzer.cs:1009-1029 | PUR009 iff the call's owner-and-name is a catalogued reflection member. The finding carries the method name and the called method's short display. |
| Detectors.ReflectionFindings | src/Purity.Analyzer.Roslyn/PurityAnalyzer.cs:1004-1030 | Every finding of `CheckForReflection` is PUR009. |
| Detectors.CheckForReflection | src/Purity.Analyzer.Roslyn/PurityAnalyzer.cs:1004-1030 | The scan reports the reflection findings of every node. |
| Detectors.ExceptionFlowAt | src/Purity.Analyzer.Roslyn/PurityAnalyzer.cs:1067-1092 | PUR010 iff the call's CLR name (namespace, metadata name, member) is catalogued. The finding carries the method name and the called method's short display. |
| Detectors.ExceptionFlowFindings | src/Purity.Analyzer.Roslyn/PurityAnalyzer.cs:1062-1093 | Every finding of `CheckForExceptionControlFlow` is PUR010. |
| Detectors.CheckForExceptionControlFlow | src/Purity.Analyzer.Roslyn/PurityAnalyzer.cs:1062-1093 | The scan reports the exception-flow findings of every node. |
| Detectors.AnalyzeMethod | src/Purity.Analyzer.Roslyn/PurityAnalyzer.cs:95-116 | Runs the ten detectors in the source's order, skipping methods without a symbol or not marked pure. |
| Detectors.Analysis | src/Purity.Analyzer.Roslyn/PurityAnalyzer.cs:95-116 | A method with a diagnostic has a symbol and is marked pure. |
| DetectorProperties.FindingsNameAnalysedMethod | src/Purity.Analyzer.Roslyn/PurityAnalyzer.cs:95-116 | Every diagnostic reported for a method has that method's name as its first argument. |
| DetectorProperties.ScansNameMethod | src/Purity.Analyzer.Roslyn/PurityAnalyzer.cs:106-115 | Each body scan attributes its findings to the analysed method. |
| DetectorProperties.RefOutFindingsNameMethod | src/Purity.Analyzer.Roslyn/PurityAnalyzer.cs:903-908 | Each PUR007 finding names the analysed method. |
| DetectorProperties.UnmarkedMethodsNotAnalysed | src/Purity.Analyzer.Roslyn/PurityAnalyzer.cs:100-104 | A method with no symbol, or not marked pure, gets no diagnostic at all. |
| DetectorProperties.UnsafeMethodReported | src/Purity.Analyzer.Roslyn/PurityAnalyzer.cs:927-934 | A marked `unsafe` method is reported under PUR008. |
| DetectorProperties.NestedNodeScanned | src/Purity.Analyzer.Roslyn/PurityAnalyzer.cs:127 | A per-node check that ignores the callee flag reports, over the walk of a declaration, whatever it finds at any node below the declaration. |
| DetectorProperties.FieldMutationAnywhereReported | src/Purity.Analyzer.Roslyn/PurityAnalyzer.cs:127-147 | A field mutation at any depth of a marked method is among its diagnostics. |
| DetectorProperties.InvocationAnywhereReported | src/Purity.Analyzer.Roslyn/PurityAnalyzer.cs:184-218 | A PUR002 or PUR011 call at any depth of a marked method is among its diagnostics. |
| DetectorProperties.NonPureCallsInAnalysis | src/Purity.Analyzer.Roslyn/PurityAnalyzer.cs:95-116 | A finding of the invocation scan of a marked method is among its diagnostics. |
| DetectorProperties.PropertyReadAnywhereReported | src/Purity.Analyzer.Roslyn/PurityAnalyzer.cs:221-268 | A property read at any depth of a marked method, not itself the callee of an invocation, that gets PUR002 or PUR011 is among its diagnostics. |
| DetectorProperties.PropertyReadsInAnalysis | src/Purity.Analyzer.Roslyn/PurityAnalyzer.cs:95-116 | A finding of the property-read scan of a marked method is among its diagnostics. |
| DetectorProperties.IoCallAnywhereReported | src/Purity.Analyzer.Roslyn/PurityAnalyzer.cs:455-472 | An I/O call at any depth of a marked method is among its diagnostics. |
| DetectorProperties.IoCreationAnywhereReported | src/Purity.Analyzer.Roslyn/PurityAnalyzer.cs:475-494 | An I/O object creation at any depth of a marked method is among its diagnostics. |
| DetectorProperties.NonDeterminismAnywhereReported | src/Purity.Analyzer.Roslyn/PurityAnalyzer.cs:554-652 | A non-deterministic API use at any depth of a marked method is among its diagnostics. |
| DetectorProperties.ParameterMutationAnywhereReported | src/Purity.Analyzer.Roslyn/PurityAnalyzer.cs:786-872 | A mutation through a reference-type parameter at any depth of a marked method is among its diagnostics. |
| DetectorProperties.UnsafeAnywhereReported | src/Purity.Analyzer.Roslyn/PurityAnalyzer.cs:937-962 | An unsafe construct at any depth of a marked method without the `unsafe` modifier is among its diagnostics. |
| DetectorProperties.ReflectionAnywhereReported | src/Purity.Analyzer.Roslyn/PurityAnalyzer.cs:1009-1029 | A reflection call at any depth of a marked method is among its diagnostics. |
| DetectorProperties.ExceptionFlowAnywhereReported | src/Purity.Analyzer.Roslyn/PurityAnalyzer.cs:1067-1092 | A control-flow exception call at any depth of a marked method is among its diagnostics. |
| DetectorProperties.RefOutOncePerParameter | src/Purity.Analyzer.Roslyn/PurityAnalyzer.cs:898-910 | There are exactly as many PUR007 findings as `ref`/`out` parameters. |
| DetectorProperties.RefOutFindingsExact | src/Purity.Analyzer.Roslyn/PurityAnalyzer.cs:898-910 | A PUR007 finding exists iff some `ref`/`out` parameter has that kind word and name. |
| DetectorProperties.MixedParametersExample | src/Purity.Analyzer.Roslyn/PurityAnalyzer.cs:898-910 | `Mixed(int a, in int b, ref int c, out int d)` gets exactly "ref c" and then "out d". |
| DetectorProperties.ParameterMutationOnlyReferenceTypes | src/Purity.Analyzer.Roslyn/PurityAnalyzer.cs:778-781 | Every PUR006 finding names a parameter of reference type. |
| DetectorProperties.ValueTypeParametersNeverMutated | src/Purity.Analyzer.Roslyn/PurityAnalyzer.cs:778-784 | A method whose parameters are all value types gets no PUR006. |
| DetectorProperties.MutatingCallExamples | src/Purity.Analyzer.Roslyn/PurityAnalyzer.cs:818-831 | `items.Add(x)` on a parameter `items` is reported; `this.items.Add(x)` is not. |
| DetectorProperties.ReflectionCallsNotSuppressed | src/Purity.Analyzer.Roslyn/PurityAnalyzer.cs:208 | A call PUR009 reports is neither I/O nor non-deterministic. |
| DetectorProperties.ReflectionAlsoReportedAsNonPure | src/Purity.Analyzer.Roslyn/PurityAnalyzer.cs:204-217 | A reflection call whose verdict is not pure is also reported under PUR002. |
| DetectorProperties.IntParseReportedTwice | src/Purity.Analyzer.Roslyn/PurityAnalyzer.cs:1078-1090 | `int.Parse`, unmarked and not whitelisted, under the default configuration, is reported under both PUR002 and PUR010. |
| DetectorProperties.IntParseNotPure | src/Purity.Analyzer.Roslyn/PurityAnalyzer.cs:204-209 | That call is not pure, and is neither I/O nor non-deterministic. |
| DetectorProperties.DefaultVerdictNotPure | src/Purity.Analyzer.Roslyn/PurityAnalyzer.cs:324-338 | Under the default configuration, an unmarked method on an unmarked type, not whitelisted, is not pure. |
| DetectorProperties.ClrNameOfInt32Parse | src/Purity.Analyzer.Roslyn/PurityAnalyzer.cs:1078-1082 | The CLR name of `int.Parse` is `System.Int32.Parse`. |
| DetectorProperties.IoMatchHasNoDotBoundary | src/Purity.Analyzer.Roslyn/PurityAnalyzer.cs:507 | Any type name that extends an I/O pattern is I/O, e.g. `System.IO.FileInfo` through `System.IO.File`. |
| DetectorProperties.DateTimeNowExample | src/Purity.Analyzer.Roslyn/PurityAnalyzer.cs:576-597 | Reading `DateTime.Now` is reported under PUR004 with its full name, and not under PUR002. |
| DetectorProperties.WhitelistedPropertyNotReported | src/Purity.Analyzer.Roslyn/PurityAnalyzer.cs:251-253 | A property read whose own signature is whitelisted gets at most a PUR011, even when an exclude or ZeroTrust makes its getter not pure. |
| DetectorProperties.GenericReturnLookup | src/Purity.Analyzer.Roslyn/PurityAnalyzer.cs:735-747 | A generic return type is looked up by its definition's name without the type parameters. |
| DetectorProperties.ListReturnReported | src/Purity.Analyzer.Roslyn/PurityAnalyzer.cs:740-747 | A `List<T>` return is reported with `ImmutableList<T>` as the alternative. |
| DetectorProperties.ReadOnlyListReturnAccepted | src/Purity.Analyzer.Roslyn/PurityAnalyzer.cs:733-749 | An `IReadOnlyList<T>` return is not reported. |
| WhitelistCompiler.Split | tools/WhitelistCompiler/Program.cs:94 | Splitting gives at least one piece, and no piece contains the separator. |
| WhitelistCompiler.RemoveEmpty | tools/WhitelistCompiler/Program.cs:94 | Exactly the non-empty pieces are kept. |
| WhitelistCompiler.Columns | tools/WhitelistCompiler/Program.cs:94 | Every column is non-empty and contains no `\|`. |
| WhitelistCompiler.ExtractSignature | tools/WhitelistCompiler/Program.cs:92-100 | A line with no columns gives nothing. A result is never blank, contains no `\|`, and neither starts nor ends with a backtick. |
| WhitelistCompiler.ExtractRow | tools/WhitelistCompiler/Program.cs:92-100 | Round trip: extracting from the row `` | `sig` | ... `` gives back `sig`. |
| WhitelistCompiler.RowKinds | tools/WhitelistCompiler/Program.cs:53-76 | Table-opening rows and separators are table lines. A `\| Signature` header is not a signature row, and a separator does not open a table. |
| WhitelistCompiler.NextInTable | tools/WhitelistCompiler/Program.cs:53-79 | An opening row opens the table. A separator or another `\|` row keeps the state. Any other line closes the table. |
| WhitelistCompiler.LineYield | tools/WhitelistCompiler/Program.cs:53-84 | A signature row yields its signature. A header, a separator or a non-table line yields nothing. Any other row yields only inside a table. |
| WhitelistCompiler.ParseMarkdownTable | tools/WhitelistCompiler/Program.cs:45-86 | The loop computes `TableSignatures`, the line-by-line specification. |
| WhitelistCompiler.InTableSince | tools/WhitelistCompiler/Program.cs:48-79 | A table is open iff some line opened it and every line since is a table line. |
| WhitelistCompiler.TableSignaturesMembership | tools/WhitelistCompiler/Program.cs:45-86 | A signature is emitted iff some line yields it in the state reached just before that line. |
| WhitelistCompiler.SignaturesAreFirstColumns | tools/WhitelistCompiler/Program.cs:60-62 | Every emitted signature is extracted from a table line. It is never blank, contains no `\|`, and has no backticks at its ends. |
| WhitelistCompiler.RowsCollected | tools/WhitelistCompiler/Program.cs:57-84 | A signature row, or a row inside an open table, always has its signature emitted. |
| WhitelistCompiler.Parsed | tools/WhitelistCompiler/Program.cs:22-23 | One list of signatures per document, each as `ParseMarkdownTable` computes it. |
| WhitelistCompiler.GatheredAppend | tools/WhitelistCompiler/Program.cs:22-23 | Gathering the signatures of two groups of documents concatenates their results. |
| WhitelistCompiler.Insert | tools/WhitelistCompiler/Program.cs:24-25 | Inserting into a strictly sorted list keeps it strictly sorted and adds exactly the new element. |
| WhitelistCompiler.SortDistinct | tools/WhitelistCompiler/Program.cs:24-25 | The result is strictly sorted and has exactly the input's elements. |
| WhitelistCompiler.Compiled | tools/WhitelistCompiler/Program.cs:22-26 | The output is strictly sorted and holds exactly the signatures gathered from the documents. |
| WhitelistCompiler.SortedUnique | tools/WhitelistCompiler/Program.cs:24-25 | Two strictly sorted lists with the same elements are equal. |
| WhitelistCompiler.CompiledDistinct | tools/WhitelistCompiler/Program.cs:24 | The output has no duplicates. |
| WhitelistCompiler.CompiledIsCanonical | tools/WhitelistCompiler/Program.cs:22-26 | Any strictly sorted list of the gathered signatures is the output. |
| WhitelistCompiler.CompiledOrderIndependent | tools/WhitelistCompiler/Program.cs:22-26 | Reading two groups of documents in either order gives the same output. |

## Left out

- **Compiler plumbing is not modelled.** This covers analyzer registration, concurrent
  execution, the semantic model and display formatting. Each symbol descriptor therefore
  carries its rendered names (display name, metadata name, namespace, short and minimal
  displays) as input fields.
- **`SymbolOf` reads the bound symbol only from some nodes.** The semantic model's binding
  is an input on identifiers, member accesses, element accesses and invocations. Every
  other node binds to nothing.
- **`Syntax.Walk` omits wrapper and name nodes.** The parser's argument and argument-list
  nodes are not separate nodes. The walk also does not visit the name child of a member
  access, or the type node of an object creation. No detector reacts to any of these
  nodes.
- **Diagnostic output is not modelled.** Locations, spans, message formatting and
  `ReportDiagnostic` are left out. A finding is its rule and its message arguments.
- **`ConfigurationLoader.TryParseConfig` takes JSON parsing as a parameter.** It is a
  function returning `Option`; System.Text.Json is not modelled.
- **`LoadFromDirectory` is not modelled.** It is file-system I/O used only by tests.
- **The fallback arm of the trust-mode switch is not modelled.** `TrustMode` has exactly
  three values, so that arm cannot be reached.
- **`PatternMatcher.Matches` has no null pattern.** Strings cannot be null here, so the
  null case is the empty-pattern case.
- **`Text.ToLower` folds only ASCII letters.** `ToLowerInvariant` and `OrdinalIgnoreCase`
  fold all of Unicode; the model folds `A`-`Z` only.
- **`Catalogues.IsIoTypeName` uses ordinal comparison.** The source's `StartsWith`
  without a comparison argument is culture-sensitive.
- **`WhitelistCompiler.OpensTable` uses ordinal comparison.** The same applies to the
  compiler's row tests.
- **`WhitelistCompiler.Compiled` orders ordinally.** The culture-sensitive
  `OrderBy(s => s)` is modelled by ordinal order (`Text.Less`).
- **`WhitelistCompiler.Compiled` fuses `Distinct` and `OrderBy`.** It is one
  sort-and-deduplicate step. `SortedUnique` proves that any strictly sorted listing of the
  same signatures is this one.
- **The whitelist compiler's I/O is not modelled.** Argument and exit-code handling,
  directory enumeration, file reading and writing, and console output are left out. A
  document is its sequence of lines.
- **The whitelist's resource reading is not modelled.** Embedded-resource and stream
  reading are left out; the resource is `Option<seq<string>>`, a missing resource or its
  lines.
- **Extension-method receivers are not resolved.** Whatever owner the descriptor
  supplies is used.
- **`PurityWhitelist.Count` is only bounded.** The model proves it is at most the number
  of lines, and characterises the stored set exactly through `LineEntriesMembership`.
