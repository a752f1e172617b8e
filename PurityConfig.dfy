/** The analyzer's configuration: immutable records with their defaults.
    Datatype equality is field-wise, as for the source's sealed records. */
module Config {

  /** How far the analyzer trusts purity claims it cannot check itself. */
  datatype TrustMode =
    | Standard   // the library whitelist and purity attributes in any assembly
    | Strict     // the library whitelist and purity attributes of the current compilation
    | ZeroTrust  // nothing but the user's include list

  /** The user's own include and exclude pattern sets. */
  datatype WhitelistConfig = WhitelistConfig(includes: set<string>, excludes: set<string>)

  datatype PurityConfig = PurityConfig(
    trustMode: TrustMode,
    whitelist: WhitelistConfig,
    reviewRequired: set<string>,
    outputPendingReview: bool)

  /** `WhitelistConfig.Empty`. */
  const EmptyWhitelist := WhitelistConfig({}, {})

  /** `PurityConfig.Default`: used when no configuration file contributes. */
  const Default := PurityConfig(Standard, EmptyWhitelist, {}, false)
}
