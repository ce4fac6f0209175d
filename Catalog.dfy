/** The region catalog (`regionData`): for each region identifier of the
    map asset, its display text and its fill colour. The adventures map and
    the plain map colour every region alike; the discovery map gives each
    its own colour. A name missing from the catalog falls back to the
    default fill and to the raw identifier as text. */
module Catalog {

  datatype RegionInfo = RegionInfo(text: string, color: string)

  type Catalog = map<string, RegionInfo>

  /** Fill of a region at rest when the catalog has no colour for it. */
  const DefaultFill: string := "#6f9c76"

  /** Fill of the region under the pointer. */
  const HighlightFill: string := "#4a7c5a"

  /** The catalog of src/App.js and src/components/YourAdventures.js. */
  const UniformCatalog: Catalog := map[
    "Avtonomna Respublika Krym" := RegionInfo("Crimea", DefaultFill),
    "Vinnytska" := RegionInfo("Vinnytsia", DefaultFill),
    "Volynska" := RegionInfo("Volyn", DefaultFill),
    "Dnipropetrovska" := RegionInfo("Dnipropetrovsk", DefaultFill),
    "Donetska" := RegionInfo("Donetsk", DefaultFill),
    "Zhytomyrska" := RegionInfo("Zhytomyr", DefaultFill),
    "Zakarpatska" := RegionInfo("Zakarpattia", DefaultFill),
    "Zaporizka" := RegionInfo("Zaporizhzhia", DefaultFill),
    "Ivano-Frankivska" := RegionInfo("Ivano-Frankivsk", DefaultFill),
    "Kyivska" := RegionInfo("Kyiv Oblast", DefaultFill),
    "Kirovohradska" := RegionInfo("Kirovohrad", DefaultFill),
    "Luhanska" := RegionInfo("Luhansk", DefaultFill),
    "Lvivska" := RegionInfo("Lviv", DefaultFill),
    "Mykolaivska" := RegionInfo("Mykolaiv", DefaultFill),
    "Odeska" := RegionInfo("Odesa", DefaultFill),
    "Poltavska" := RegionInfo("Poltava", DefaultFill),
    "Rivnenska" := RegionInfo("Rivne", DefaultFill),
    "Sumska" := RegionInfo("Sumy", DefaultFill),
    "Ternopilska" := RegionInfo("Ternopil", DefaultFill),
    "Kharkivska" := RegionInfo("Kharkiv", DefaultFill),
    "Khersonska" := RegionInfo("Kherson", DefaultFill),
    "Khmelnytska" := RegionInfo("Khmelnytskyi", DefaultFill),
    "Cherkaska" := RegionInfo("Cherkasy", DefaultFill),
    "Chernivetska" := RegionInfo("Chernivtsi", DefaultFill),
    "Chernihivska" := RegionInfo("Chernihiv", DefaultFill),
    "Sevastopilska" := RegionInfo("Sevastopol", DefaultFill)
  ]

  /** The catalog of src/components/DiscoveringUkraine.js (and of the shared
      src/data/regionData.js). */
  const RainbowCatalog: Catalog := map[
    "Avtonomna Respublika Krym" := RegionInfo("Crimea", "#ff9aa2"),
    "Vinnytska" := RegionInfo("Vinnytsia", "#9ad3ff"),
    "Volynska" := RegionInfo("Volyn", "#ffff99"),
    "Dnipropetrovska" := RegionInfo("Dnipropetrovsk", "#ffcc99"),
    "Donetska" := RegionInfo("Donetsk", "#d099f0"),
    "Zhytomyrska" := RegionInfo("Zhytomyr", "#99ffb3"),
    "Zakarpatska" := RegionInfo("Zakarpattia", "#ffb3d9"),
    "Zaporizka" := RegionInfo("Zaporizhzhia", "#b3e6f0"),
    "Ivano-Frankivska" := RegionInfo("Ivano-Frankivsk", "#ffeb99"),
    "Kyivska" := RegionInfo("Kyiv Oblast", "#ffb399"),
    "Kirovohradska" := RegionInfo("Kirovohrad", "#b399ff"),
    "Luhanska" := RegionInfo("Luhansk", "#99ffe0"),
    "Lvivska" := RegionInfo("Lviv", "#ff99d6"),
    "Mykolaivska" := RegionInfo("Mykolaiv", "#99ccff"),
    "Odeska" := RegionInfo("Odesa", "#ffd699"),
    "Poltavska" := RegionInfo("Poltava", "#c299ff"),
    "Rivnenska" := RegionInfo("Rivne", "#99ffcc"),
    "Sumska" := RegionInfo("Sumy", "#ff9999"),
    "Ternopilska" := RegionInfo("Ternopil", "#99e6ff"),
    "Kharkivska" := RegionInfo("Kharkiv", "#fff799"),
    "Khersonska" := RegionInfo("Kherson", "#ffc499"),
    "Khmelnytska" := RegionInfo("Khmelnytskyi", "#d499f0"),
    "Cherkaska" := RegionInfo("Cherkasy", "#99ffd9"),
    "Chernivetska" := RegionInfo("Chernivtsi", "#ffcceb"),
    "Chernihivska" := RegionInfo("Chernihiv", "#cce6ff"),
    "Sevastopilska" := RegionInfo("Sevastopol", "#ff99c2")
  ]

  /** `regionData[name]?.color || '#6f9c76'`: a missing entry or an empty
      colour falls back to the default fill. */
  function FillOf(cat: Catalog, name: string): (fill: string)
    ensures fill != ""
    ensures fill != DefaultFill ==> name in cat && cat[name].color == fill
  {
    if name in cat && cat[name].color != "" then cat[name].color else DefaultFill
  }

  /** `regionData[name]?.text || name`: tooltip and label text. */
  function TextOf(cat: Catalog, name: string): (text: string)
    ensures text == name || (name in cat && cat[name].text == text)
    ensures name !in cat ==> text == name
  {
    if name in cat && cat[name].text != "" then cat[name].text else name
  }

  /** `region ? region.text : name`: the text of the click message, which
      does not fall back on an empty catalog text. */
  function ClickText(cat: Catalog, name: string): (text: string)
    ensures name in cat ==> text == cat[name].text
    ensures name !in cat ==> text == name
  {
    if name in cat then cat[name].text else name
  }

  /** The text of the click alert. */
  function ClickMessage(cat: Catalog, name: string): string {
    "You clicked on: " + ClickText(cat, name)
  }

  /** Every path of the uniformly coloured maps rests in the default fill,
      whether or not its name is in the catalog. */
  lemma UniformFillIsDefault(name: string)
    ensures FillOf(UniformCatalog, name) == DefaultFill
  {
  }

  /** The two catalogs list the same regions with the same texts; they
      differ only in colour. */
  lemma CatalogsAgreeOnText()
    ensures UniformCatalog.Keys == RainbowCatalog.Keys
    ensures forall k :: k in UniformCatalog ==> UniformCatalog[k].text == RainbowCatalog[k].text
  {
  }

  /** Where every catalog text is non-empty, the click message and the
      tooltip show the same text. */
  lemma ClickTextMatchesTooltip(cat: Catalog, name: string)
    requires forall k :: k in cat ==> cat[k].text != ""
    ensures ClickText(cat, name) == TextOf(cat, name)
  {
  }
}
