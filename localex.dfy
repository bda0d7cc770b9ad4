/**
 * localex: a translator that looks a message up in a storage under the
 * request's locale and then substitutes `{{var_k}}` placeholders from a
 * flat key/value argument list.
 */
module Localex {
  import opened Go
  import opened Placeholders

  /** The context key under which a request carries its locale. */
  const XLocale: string := "X-LOCALE"

  datatype TranslatorCfg = TranslatorCfg(enabled: bool, defaultLocale: string)

  /**
   * The locale a request asks for: the context value under X-LOCALE when it
   * is a non-empty string, otherwise the default. Both an absent value and
   * one that is not a string read as "".
   */
  function LocaleOf(ctxLocale: Option<Dyn>, defaultLocale: string): (l: string)
    ensures ctxLocale.Some? && ctxLocale.value.DynString? && ctxLocale.value.s != "" ==> l == ctxLocale.value.s
    ensures !(ctxLocale.Some? && ctxLocale.value.DynString? && ctxLocale.value.s != "") ==> l == defaultLocale
  {
    var locale := if ctxLocale.Some? && ctxLocale.value.DynString? then ctxLocale.value.s else "";
    if locale == "" then defaultLocale else locale
  }

  /**
   * The text before substitution: with translation enabled, the storage's
   * answer for (messageID, locale) when it is non-empty, else messageID.
   */
  function Localized(cfg: TranslatorCfg, storage: (string, string) -> string, ctxLocale: Option<Dyn>,
                     messageID: string): string
  {
    if !cfg.enabled then messageID
    else
      var localized := storage(messageID, LocaleOf(ctxLocale, cfg.defaultLocale));
      if localized != "" then localized else messageID
  }

  /** Translate's result, for one iteration order of the argument map. */
  function Translation(cfg: TranslatorCfg, storage: (string, string) -> string, ctxLocale: Option<Dyn>,
                       messageID: string, argKvs: seq<string>, order: seq<string>): string
    requires Enumerates(order, SuccessorMap(argKvs).Keys)
  {
    var text := Localized(cfg, storage, ctxLocale, messageID);
    if |argKvs| == 0 then text else Substitute(text, SuccessorMap(argKvs), order)
  }

  /** A disabled translator never consults its storage: any two storages give the same result. */
  lemma DisabledIgnoresStorage(cfg: TranslatorCfg, s1: (string, string) -> string, s2: (string, string) -> string,
                               ctxLocale: Option<Dyn>, messageID: string, argKvs: seq<string>, order: seq<string>)
    requires !cfg.enabled && Enumerates(order, SuccessorMap(argKvs).Keys)
    ensures Translation(cfg, s1, ctxLocale, messageID, argKvs, order) ==
              Translation(cfg, s2, ctxLocale, messageID, argKvs, order)
    ensures Localized(cfg, s1, ctxLocale, messageID) == messageID
  {
  }

  /**
   * An enabled translator asks the storage for the message id under the
   * chosen locale, in that argument order, and keeps the id when the answer is "".
   */
  lemma EnabledLookup(cfg: TranslatorCfg, storage: (string, string) -> string, ctxLocale: Option<Dyn>,
                      messageID: string)
    requires cfg.enabled
    ensures var answer := storage(messageID, LocaleOf(ctxLocale, cfg.defaultLocale));
      Localized(cfg, storage, ctxLocale, messageID) == if answer == "" then messageID else answer
  {
  }

  /** Without arguments the text is returned as found, with no substitution. */
  lemma NoArgsNoSubstitution(cfg: TranslatorCfg, storage: (string, string) -> string, ctxLocale: Option<Dyn>,
                             messageID: string, order: seq<string>)
    requires Enumerates(order, SuccessorMap([]).Keys)
    ensures Translation(cfg, storage, ctxLocale, messageID, [], order) == Localized(cfg, storage, ctxLocale, messageID)
  {
  }

  /** A text that names none of the argument keys' placeholders is left as it is. */
  lemma UnmentionedArgsIgnored(cfg: TranslatorCfg, storage: (string, string) -> string, ctxLocale: Option<Dyn>,
                               messageID: string, argKvs: seq<string>, order: seq<string>)
    requires Enumerates(order, SuccessorMap(argKvs).Keys)
    requires forall k :: k in SuccessorMap(argKvs) ==> !Occurs(Localized(cfg, storage, ctxLocale, messageID), Placeholder(k))
    ensures Translation(cfg, storage, ctxLocale, messageID, argKvs, order) == Localized(cfg, storage, ctxLocale, messageID)
  {
    if |argKvs| != 0 {
      SubstituteNoPlaceholders(Localized(cfg, storage, ctxLocale, messageID), SuccessorMap(argKvs), order);
    }
  }

  /** A stored text that is one placeholder, with that key and a value as arguments, becomes the value. */
  lemma SinglePlaceholderTranslation(cfg: TranslatorCfg, storage: (string, string) -> string, ctxLocale: Option<Dyn>,
                                     messageID: string, k: string, v: string, order: seq<string>)
    requires k != "" && Localized(cfg, storage, ctxLocale, messageID) == Placeholder(k)
    requires Enumerates(order, SuccessorMap([k, v]).Keys)
    ensures Translation(cfg, storage, ctxLocale, messageID, [k, v], order) == v
  {
    SinglePairSubstitution(k, v);
    assert order == [k] by {
      assert |order| == 1 && order[0] in {k};
    }
  }

  /** The translator: its configuration and its message storage, fixed at construction. */
  class Translator {
    const cfg: TranslatorCfg
    /** storage.GetLocalizedMessage, called as (messageID, locale). */
    const storage: (string, string) -> string

    /** NewTranslator. */
    constructor (cfg: TranslatorCfg, storage: (string, string) -> string)
      ensures this.cfg == cfg && this.storage == storage
    {
      this.cfg := cfg;
      this.storage := storage;
    }

    /**
     * Translate: the localized text, then, when there are arguments, the
     * argument map filled pair by pair and each entry substituted in turn.
     */
    method Translate(ctxLocale: Option<Dyn>, messageID: string, argKvs: seq<string>, order: seq<string>)
      returns (r: string)
      requires Enumerates(order, SuccessorMap(argKvs).Keys)
      ensures r == Translation(cfg, storage, ctxLocale, messageID, argKvs, order)
    {
      var translatedString := messageID;
      if cfg.enabled {
        var locale := if ctxLocale.Some? && ctxLocale.value.DynString? then ctxLocale.value.s else "";
        if locale == "" {
          locale := cfg.defaultLocale;
        }
        var localizedString := storage(messageID, locale);
        if localizedString != "" {
          translatedString := localizedString;
        }
      }
      if |argKvs| != 0 {
        var argsMap := BuildSuccessorMap(argKvs);
        translatedString := ReplaceEach(translatedString, argsMap, order);
      }
      r := translatedString;
    }
  }
}
