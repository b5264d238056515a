/**
 * Validation of the configuration file (src/config/validator.rs, with the records of
 * src/config/mod.rs): a language-pack black list and white list may not both be given.
 */
module Validator {
  import opened Wrappers

  datatype LangPacks = LangPacks(whitelisted: Option<seq<string>>, blacklisted: Option<seq<string>>)

  datatype TyperacerConfig = TyperacerConfig(langPacks: Option<LangPacks>, repo: Option<string>,
                                             repoVersion: Option<string>, historySize: Option<nat>)

  const BothListsMessage: string := "Both blacklist and whitelist cannot be filled out"

  /** `validate_lang_packs`: an error exactly when both lists are present. */
  function ValidateLangPacks(config: TyperacerConfig): (r: Result<(), string>)
    ensures r.Err? <==> config.langPacks.Some? &&
                        config.langPacks.value.blacklisted.Some? &&
                        config.langPacks.value.whitelisted.Some?
    ensures r.Err? ==> r.error == BothListsMessage
  {
    match config.langPacks
    case None => Ok(())
    case Some(packs) =>
      if packs.blacklisted.Some? && packs.whitelisted.Some? then Err(BothListsMessage)
      else Ok(())
  }

  /** `validate_config`: the configuration comes back unchanged, or the language-pack
      error. */
  function ValidateConfig(config: TyperacerConfig): (r: Result<TyperacerConfig, string>)
    ensures r.Ok? ==> r.value == config
    ensures r.Err? ==> ValidateLangPacks(config) == Err(r.error)
  {
    var check := ValidateLangPacks(config);
    if check.Err? then Err(check.error) else Ok(config)
  }

  /** A configuration passes exactly when it does not give both lists. */
  lemma ValidExactlyWithoutBothLists(config: TyperacerConfig)
    ensures ValidateConfig(config).Ok? <==>
              (config.langPacks.None? || config.langPacks.value.blacklisted.None? ||
               config.langPacks.value.whitelisted.None?)
  {
  }

  /** The three cases of the validator's own examples. */
  lemma ValidatorExamples()
    ensures ValidateConfig(TyperacerConfig(None, None, None, None)).Ok?
    ensures ValidateConfig(TyperacerConfig(Some(LangPacks(Some(["vrinda", "punj"]), Some(["tub", "golang"]))),
                                           None, None, None)) == Err(BothListsMessage)
    ensures ValidateConfig(TyperacerConfig(Some(LangPacks(Some(["vrinda", "punj"]), None)),
                                           None, None, None)).Ok?
    ensures ValidateConfig(TyperacerConfig(Some(LangPacks(None, Some(["tub", "golang"]))),
                                           None, None, None)).Ok?
  {
  }
}
