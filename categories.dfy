/**
 * The six-valued category enumeration of the members' app and of the admin
 * dashboard (src/lib/categories.ts): the ordered id list and the label and
 * colour tables keyed by id.
 */
module Categories {

  import opened Wrappers

  /** One value per entry of `SUGGESTION_CATEGORIES`. */
  datatype CategoryId = Facility | Workflow | Efficiency | Welfare | Event | Other

  /** The string id under which a category is stored and looked up. */
  function Id(c: CategoryId): string {
    match c
    case Facility => "facility"
    case Workflow => "workflow"
    case Efficiency => "efficiency"
    case Welfare => "welfare"
    case Event => "event"
    case Other => "other"
  }

  /** `SUGGESTION_CATEGORIES`, in declaration order. */
  const SuggestionCategories: seq<string> :=
    ["facility", "workflow", "efficiency", "welfare", "event", "other"]

  /** `CATEGORY_LABELS`. */
  const CategoryLabels: map<string, string> := map[
    "facility" := "設備修繕",
    "workflow" := "授業アイデア",
    "efficiency" := "業務効率化",
    "welfare" := "福利厚生",
    "event" := "イベント・交流",
    "other" := "その他"
  ]

  /** `CATEGORY_COLORS`. */
  const CategoryColors: map<string, string> := map[
    "facility" := "bg-teal-100 text-teal-800",
    "workflow" := "bg-sky-100 text-sky-800",
    "efficiency" := "bg-indigo-100 text-indigo-800",
    "welfare" := "bg-amber-100 text-amber-800",
    "event" := "bg-violet-100 text-violet-800",
    "other" := "bg-slate-100 text-slate-700"
  ]

  /** The category the member create action falls back to. */
  const DefaultCategory: string := "other"

  /** The TypeScript type `CategoryId`: a string that is one of the listed ids. */
  predicate IsCategoryId(s: string) {
    s in SuggestionCategories
  }

  /** Reads a stored string back as a category, if it is one of the six ids. */
  function Parse(s: string): (r: Option<CategoryId>)
    ensures r.Some? <==> IsCategoryId(s)
    ensures r.Some? ==> Id(r.value) == s
  {
    if s == "facility" then Some(Facility)
    else if s == "workflow" then Some(Workflow)
    else if s == "efficiency" then Some(Efficiency)
    else if s == "welfare" then Some(Welfare)
    else if s == "event" then Some(Event)
    else if s == "other" then Some(Other)
    else None
  }

  /** The label shown for a category. */
  function Label(c: CategoryId): (l: string)
    ensures Id(c) in CategoryLabels && CategoryLabels[Id(c)] == l
  {
    CategoryLabels[Id(c)]
  }

  /** The badge colour classes shown for a category. */
  function Color(c: CategoryId): (k: string)
    ensures Id(c) in CategoryColors && CategoryColors[Id(c)] == k
  {
    CategoryColors[Id(c)]
  }

  /** The list is exactly the six ids, in declaration order, each id once. */
  lemma ListIsEnumeration()
    ensures SuggestionCategories == [Id(Facility), Id(Workflow), Id(Efficiency), Id(Welfare), Id(Event), Id(Other)]
    ensures forall i, j :: 0 <= i < j < |SuggestionCategories| ==> SuggestionCategories[i] != SuggestionCategories[j]
  {
  }

  /** Id and Parse are inverse: each category round-trips through its string id. */
  lemma IdRoundTrip(c: CategoryId)
    ensures Parse(Id(c)) == Some(c)
  {
  }

  /** Both tables are keyed by exactly the listed ids, and "other" is listed. */
  lemma TablesCoverExactlyTheList()
    ensures CategoryLabels.Keys == set s | s in SuggestionCategories
    ensures CategoryColors.Keys == set s | s in SuggestionCategories
    ensures IsCategoryId(DefaultCategory) && Parse(DefaultCategory) == Some(Other)
  {
  }
}
