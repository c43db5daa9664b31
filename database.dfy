/**
 * The row type of the `suggestions` table and the four-valued category
 * enumeration of the members' timeline (src/types/database.ts).
 */
module Database {

  import opened Wrappers
  import C = Categories

  /**
   * An instant as the store's timestamp columns hold it. The store orders
   * `created_at` chronologically; the ISO-8601 text the client receives is
   * a rendering of this instant and is not modelled.
   */
  type Timestamp = int

  /**
   * `Suggestion`. `author_name` and `user_id` are nullable (`None` is null);
   * `category` is any string; `status` is optional (`None` is absent);
   * `admin_response` and `admin_responded_at` are optional AND nullable:
   * `None` is absent, `Some(None)` is null, `Some(Some(v))` is a value.
   */
  datatype Suggestion = Suggestion(
    id: string,
    content: string,
    author_name: Option<string>,
    user_id: Option<string>,
    category: string,
    status: Option<string>,
    admin_response: Option<Option<string>>,
    admin_responded_at: Option<Option<Timestamp>>,
    created_at: Timestamp)

  /** The four-valued `CategoryId` of the members' timeline. */
  datatype CategoryId = Facility | Workflow | Efficiency | Other

  /** An entry of `CATEGORIES`; `caption` is its `label`. */
  datatype CategoryEntry = CategoryEntry(id: CategoryId, caption: string)

  /** The string id of a four-set category. */
  function Id(c: CategoryId): string {
    match c
    case Facility => "facility"
    case Workflow => "workflow"
    case Efficiency => "efficiency"
    case Other => "other"
  }

  /** `CATEGORIES`, in declaration order. */
  const Categories: seq<CategoryEntry> := [
    CategoryEntry(Facility, "設備修繕"),
    CategoryEntry(Workflow, "授業アイデア"),
    CategoryEntry(Efficiency, "業務効率化"),
    CategoryEntry(Other, "その他")
  ]

  /** `CATEGORY_COLORS`, a record over `CategoryId`. */
  const CategoryColors: map<CategoryId, string> := map[
    Facility := "bg-teal-100 text-teal-800",
    Workflow := "bg-sky-100 text-sky-800",
    Efficiency := "bg-indigo-100 text-indigo-800",
    Other := "bg-slate-100 text-slate-700"
  ]

  /**
   * The six-set category with the same string id: every four-set id is a
   * six-set id, with the same label and the same colour.
   */
  function Widen(c: CategoryId): (w: C.CategoryId)
    ensures C.Id(w) == Id(c)
    ensures exists i :: 0 <= i < |Categories| && Categories[i].id == c && Categories[i].caption == C.Label(w)
    ensures c in CategoryColors && CategoryColors[c] == C.Color(w)
  {
    match c
    case Facility =>
      assert Categories[0].id == c;
      C.Facility
    case Workflow =>
      assert Categories[1].id == c;
      C.Workflow
    case Efficiency =>
      assert Categories[2].id == c;
      C.Efficiency
    case Other =>
      assert Categories[3].id == c;
      C.Other
  }

  /** Some entry of `CATEGORIES` has id `c`. */
  predicate Listed(c: CategoryId) {
    exists i :: 0 <= i < |Categories| && Categories[i].id == c
  }

  /** `CATEGORIES` lists every `CategoryId` exactly once, in declaration order. */
  lemma CategoriesEnumerateTheType()
    ensures |Categories| == 4
    ensures Categories[0].id == Facility && Categories[1].id == Workflow
    ensures Categories[2].id == Efficiency && Categories[3].id == Other
    ensures forall c: CategoryId :: Listed(c)
    ensures forall i, j :: 0 <= i < j < |Categories| ==> Categories[i].id != Categories[j].id
    ensures forall c: CategoryId :: c in CategoryColors
  {
    forall c: CategoryId ensures Listed(c) && c in CategoryColors {
      match c
      case Facility => assert Categories[0].id == c;
      case Workflow => assert Categories[1].id == c;
      case Efficiency => assert Categories[2].id == c;
      case Other => assert Categories[3].id == c;
    }
  }

  /** The four-set is the six-set without "welfare" and "event". */
  lemma FourSetIsSubsetOfSixSet()
    ensures (set c: CategoryId :: Id(c)) == set s | s in C.SuggestionCategories && s != "welfare" && s != "event"
  {
    var four := set c: CategoryId :: Id(c);
    assert Id(Facility) in four && Id(Workflow) in four && Id(Efficiency) in four && Id(Other) in four;
  }
}
