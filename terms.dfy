/**
 * The glossary behind the term tooltips: a fixed map from a term key to its
 * definition, read with a fallback text for keys that have no definition.
 */
module Terms {

  /** The text shown for a key with no definition ("definition unavailable"). */
  const Placeholder: string := "Определение недоступно"

  /** The glossary exactly as the page declares it. */
  const Definitions: map<string, string> := map[
    "читов" := "Программы или модификации, дающие нечестное преимущество в игре",
    "читеров" := "Игроки, использующие программы для нечестного преимущества",
    "токсичность" := "Оскорбления, провокации, негативное поведение, портящее атмосферу",
    "токсиков" := "Игроки, которые оскорбляют других и создают неприятную атмосферу",
    "спам" := "Повторяющиеся однотипные сообщения, засоряющие чат",
    "фарм" := "Искусственное накручивание игровой валюты или прогресса",
    "rcon" := "Remote Console — панель управления сервером для модераторов",
    "ddos" := "Атака на сервер большим количеством запросов для его отключения"
  ]

  /** Every term key the page's text wraps in a tooltip. */
  const UsedTerms: set<string> :=
    {"читеров", "токсиков", "токсичности", "спам", "токсичность", "читов", "фарм", "ddos", "rcon"}

  /**
   * The text a tooltip shows for a key: its definition, or the placeholder
   * when the key is missing or its definition is empty (the fallback is taken
   * on any falsy lookup result).
   */
  function Lookup(defs: map<string, string>, term: string): (text: string)
    ensures text != ""
    ensures text == Placeholder || (term in defs && text == defs[term])
    ensures term in defs && defs[term] != "" ==> text == defs[term]
    ensures term !in defs ==> text == Placeholder
  {
    if term in defs && defs[term] != "" then defs[term] else Placeholder
  }

  /**
   * As declared, the glossary has no entry for the inflected key used in the
   * intro section's list of goals, so that tooltip shows the placeholder.
   */
  lemma InflectedKeyShowsPlaceholder()
    ensures "токсичности" in UsedTerms
    ensures Lookup(Definitions, "токсичности") == Placeholder
  {
  }

  /** The glossary with the missing inflected key added, sharing the base form's definition. */
  const CorrectedDefinitions: map<string, string> :=
    Definitions["токсичности" := "Оскорбления, провокации, негативное поведение, портящее атмосферу"]

  /**
   * With the corrected glossary every term on the page shows a real
   * definition, and every key declared originally keeps its text.
   */
  lemma EveryUsedTermDefined()
    ensures forall t :: t in UsedTerms ==> t in CorrectedDefinitions && Lookup(CorrectedDefinitions, t) != Placeholder
    ensures forall t :: t in Definitions ==> t in CorrectedDefinitions && CorrectedDefinitions[t] == Definitions[t]
  {
  }
}
