/** What `loadData` does with a stored document once it has been parsed:
    each array that is present replaces the store's, and stored settings are
    laid over the current ones (`{...dataStore.settings, ...data.settings}`). */
module Persistence {
  import opened Wrappers
  import opened Journal

  /** A parsed stored document. A key the document lacks is `None`; an empty
      array is present (and so replaces the store's array). */
  datatype StoredData = StoredData(
    trades: Option<seq<Trade>>,
    moneyEntries: Option<seq<MoneyEntry>>,
    templates: Option<seq<Template>>,
    settings: Option<Settings>)

  /** `{...current, ...stored}`: every key of either object, the stored value
      winning where both have one. */
  function MergeSettings(current: Settings, stored: Settings): (r: Settings)
    ensures r.Keys == current.Keys + stored.Keys
    ensures forall k :: k in stored ==> r[k] == stored[k]
    ensures forall k :: k in current && k !in stored ==> r[k] == current[k]
  {
    current + stored
  }

  /** Loading the same stored settings a second time changes nothing more. */
  lemma MergeIdempotent(current: Settings, stored: Settings)
    ensures MergeSettings(MergeSettings(current, stored), stored) == MergeSettings(current, stored)
  {
  }

  /** Stored settings that set every key the current ones have replace them
      completely. */
  lemma MergeCoversAll(current: Settings, stored: Settings)
    requires current.Keys <= stored.Keys
    ensures MergeSettings(current, stored) == stored
  {
  }

  /** A stored document that only sets the theme keeps the other defaults. */
  lemma MergeThemeOnly()
    ensures var r := MergeSettings(DefaultSettings(), map["theme" := Text("light")]);
            r["theme"] == Text("light") && r["initialBalance"] == Number(10000.0)
            && r["defaultRisk"] == Number(2.0) && r["autoSave"] == Flag(true)
  {
  }
}
