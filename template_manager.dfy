// The saved-template list: the 'mcq-templates' local-storage key, loading it on
// mount, the search filter, the four sort orders, and delete by id.
// `toLowerCase` and `localeCompare` depend on Unicode case folding and locale
// collation; they are parameters here: `fold` maps a string to its lower case,
// and `nameLe(a, b)` holds when `a.localeCompare(b) <= 0`.
module TemplateManager {
  import opened Common
  import opened QuizTypes
  import Text
  import Sorting

  /** The 'mcq-templates' key, shared by the template list and the page that appends to it. */
  class TemplateStore {
    var slot: Slot<Template>

    constructor (initial: Slot<Template>)
      ensures slot == initial
    {
      slot := initial;
    }
  }

  datatype SortOrder = DateNew | DateOld | NameAsc | NameDesc

  /** `le(a, b)` holds when the comparator of `order` does not put `b` before `a`
      (its value is at most 0). */
  function OrderLe(order: SortOrder, nameLe: (string, string) -> bool): (Template, Template) -> bool {
    match order
    case DateNew => (a: Template, b: Template) => b.createdAt - a.createdAt <= 0
    case DateOld => (a: Template, b: Template) => a.createdAt - b.createdAt <= 0
    case NameAsc => (a: Template, b: Template) => nameLe(a.name, b.name)
    case NameDesc => (a: Template, b: Template) => nameLe(b.name, a.name)
  }

  /** Every order is a total preorder when the locale comparison is one. */
  lemma OrderLeIsTotalPreorder(order: SortOrder, nameLe: (string, string) -> bool)
    requires Sorting.TotalPreorder(nameLe)
    ensures Sorting.TotalPreorder(OrderLe(order, nameLe))
  {
    var le := OrderLe(order, nameLe);
    forall a: Template, b: Template
      ensures le(a, b) || le(b, a)
    {
      assert nameLe(a.name, b.name) || nameLe(b.name, a.name);
    }
    forall a: Template, b: Template, c: Template | le(a, b) && le(b, c)
      ensures le(a, c)
    {
      if order == NameAsc {
        assert nameLe(a.name, b.name) && nameLe(b.name, c.name);
      } else if order == NameDesc {
        assert nameLe(c.name, b.name) && nameLe(b.name, a.name);
      }
    }
  }

  /** Whether a template matches the lower-cased query: its name, its prompt or its
      subject (when present and non-empty) contains it. */
  predicate Matches(t: Template, query: string, fold: string -> string) {
    || Text.Contains(fold(t.name), query)
    || Text.Contains(fold(t.prompt), query)
    || (t.subject.Some? && t.subject.value != "" && Text.Contains(fold(t.subject.value), query))
  }

  /** The filter step of the effect: every template for a blank query, otherwise those
      matching the lower-cased query, which is not trimmed. */
  function FilterTemplates(templates: seq<Template>, searchQuery: string, fold: string -> string): (r: seq<Template>)
    ensures |r| <= |templates|
    ensures forall t :: t in r ==> t in templates
  {
    if Text.Trim(searchQuery) == "" then templates
    else Keep(templates, (t: Template) => Matches(t, fold(searchQuery), fold))
  }

  /** `filteredTemplates` as the effect computes it: filtered, then sorted stably. */
  function View(templates: seq<Template>, searchQuery: string, order: SortOrder,
                fold: string -> string, nameLe: (string, string) -> bool): (v: seq<Template>)
    ensures multiset(v) == multiset(FilterTemplates(templates, searchQuery, fold))
  {
    Sorting.SortBy(FilterTemplates(templates, searchQuery, fold), OrderLe(order, nameLe))
  }

  /** A whitespace-only (or empty) search keeps every template. */
  lemma BlankQueryKeepsAll(templates: seq<Template>, searchQuery: string, fold: string -> string)
    requires Text.IsBlank(searchQuery)
    ensures FilterTemplates(templates, searchQuery, fold) == templates
  {
    Text.TrimEmptyIffBlank(searchQuery);
  }

  /** A non-blank search keeps exactly the templates that match the lower-cased query. */
  lemma SearchKeepsExactlyMatches(templates: seq<Template>, searchQuery: string, fold: string -> string, t: Template)
    requires !Text.IsBlank(searchQuery)
    ensures t in FilterTemplates(templates, searchQuery, fold)
            <==> t in templates && Matches(t, fold(searchQuery), fold)
  {
    Text.TrimEmptyIffBlank(searchQuery);
    KeepMembers(templates, (t: Template) => Matches(t, fold(searchQuery), fold), t);
  }

  /** The displayed list is a reordering of a sub-collection of the templates:
      nothing is added or duplicated. */
  lemma ViewIsReorderedSubset(templates: seq<Template>, searchQuery: string, order: SortOrder,
                              fold: string -> string, nameLe: (string, string) -> bool)
    ensures multiset(View(templates, searchQuery, order, fold, nameLe)) <= multiset(templates)
    ensures |View(templates, searchQuery, order, fold, nameLe)| <= |templates|
  {
    if Text.Trim(searchQuery) != "" {
      KeepSubMultiset(templates, (t: Template) => Matches(t, fold(searchQuery), fold));
    }
  }

  /** Each order sorts as its name says: by `createdAt` newest or oldest first, or
      by name ascending or descending under the locale comparison. */
  lemma ViewOrdered(templates: seq<Template>, searchQuery: string, order: SortOrder,
                    fold: string -> string, nameLe: (string, string) -> bool)
    requires Sorting.TotalPreorder(nameLe)
    ensures var v := View(templates, searchQuery, order, fold, nameLe);
            && (order == DateNew ==> forall i, j :: 0 <= i < j < |v| ==> v[i].createdAt >= v[j].createdAt)
            && (order == DateOld ==> forall i, j :: 0 <= i < j < |v| ==> v[i].createdAt <= v[j].createdAt)
            && (order == NameAsc ==> forall i, j :: 0 <= i < j < |v| ==> nameLe(v[i].name, v[j].name))
            && (order == NameDesc ==> forall i, j :: 0 <= i < j < |v| ==> nameLe(v[j].name, v[i].name))
  {
    var le := OrderLe(order, nameLe);
    OrderLeIsTotalPreorder(order, nameLe);
    Sorting.SortBySorted(FilterTemplates(templates, searchQuery, fold), le);
    var v := View(templates, searchQuery, order, fold, nameLe);
    assert Sorting.SortedBy(v, le);
    match order {
      case DateNew =>
        forall i, j | 0 <= i < j < |v| ensures v[i].createdAt >= v[j].createdAt {
          assert le(v[i], v[j]);
        }
      case DateOld =>
        forall i, j | 0 <= i < j < |v| ensures v[i].createdAt <= v[j].createdAt {
          assert le(v[i], v[j]);
        }
      case NameAsc =>
        forall i, j | 0 <= i < j < |v| ensures nameLe(v[i].name, v[j].name) {
          assert le(v[i], v[j]);
        }
      case NameDesc =>
        forall i, j | 0 <= i < j < |v| ensures nameLe(v[j].name, v[i].name) {
          assert le(v[i], v[j]);
        }
    }
  }

  /** `templates.filter(template => template.id !== id)`. */
  function WithoutTemplate(templates: seq<Template>, id: string): (r: seq<Template>)
    ensures forall t :: t in r <==> t in templates && t.id != id
    ensures (forall t :: t in templates ==> t.id != id) ==> r == templates
  {
    var keep := (t: Template) => t.id != id;
    KeepFacts(templates, keep);
    Keep(templates, keep)
  }

  /** Deleting from a concatenation deletes from each part, so the remaining
      templates keep their relative order. */
  lemma DeleteKeepsOrder(a: seq<Template>, b: seq<Template>, id: string)
    ensures WithoutTemplate(a + b, id) == WithoutTemplate(a, id) + WithoutTemplate(b, id)
  {
    KeepAppend(a, b, (t: Template) => t.id != id);
  }

  /** The component's state. */
  class TemplateList {
    /** The locale-dependent string operations the component relies on. */
    const fold: string -> string
    const nameLe: (string, string) -> bool

    var templates: seq<Template>
    var filteredTemplates: seq<Template>
    var searchQuery: string
    var sortOrder: SortOrder
    var isOpen: bool

    /** The list as rendered: `filteredTemplates` is what the filter-and-sort effect
        derives from the other fields. */
    predicate Valid()
      reads this
    {
      filteredTemplates == View(templates, searchQuery, sortOrder, fold, nameLe)
    }

    constructor (fold: string -> string, nameLe: (string, string) -> bool)
      ensures this.fold == fold && this.nameLe == nameLe
      ensures templates == [] && filteredTemplates == [] && searchQuery == ""
      ensures sortOrder == DateNew && !isOpen
      ensures Valid()
    {
      this.fold := fold;
      this.nameLe := nameLe;
      templates := [];
      filteredTemplates := [];
      searchQuery := "";
      sortOrder := DateNew;
      isOpen := false;
    }

    /** The filter-and-sort effect, run whenever the query, the list or the order changes. */
    method Refresh()
      modifies this`filteredTemplates
      ensures Valid()
    {
      var result := FilterTemplates(templates, searchQuery, fold);
      result := Sorting.SortBy(result, OrderLe(sortOrder, nameLe));
      filteredTemplates := result;
    }

    /** The mount effect: a stored list is loaded; a missing key or unparseable
        content leaves the list empty. Then the filter-and-sort effect runs. */
    method Mount(store: TemplateStore)
      modifies this`templates, this`filteredTemplates
      ensures store.slot.Stored? ==> templates == store.slot.items
      ensures !store.slot.Stored? ==> templates == old(templates)
      ensures Valid()
    {
      if store.slot.Stored? {
        templates := store.slot.items;
        filteredTemplates := store.slot.items;
      }
      Refresh();
    }

    method SetSearchQuery(query: string)
      modifies this`searchQuery, this`filteredTemplates
      ensures searchQuery == query
      ensures Valid()
    {
      searchQuery := query;
      Refresh();
    }

    method SetSortOrder(order: SortOrder)
      modifies this`sortOrder, this`filteredTemplates
      ensures sortOrder == order
      ensures Valid()
    {
      sortOrder := order;
      Refresh();
    }

    /** The "Show Saved Templates" / "Hide Templates" button. */
    method ToggleOpen()
      modifies this`isOpen
      ensures isOpen == !old(isOpen)
    {
      isOpen := !isOpen;
    }

    /** `handleLoadTemplate`: hands the template to the page and closes the list. */
    method HandleLoadTemplate(template: Template) returns (loaded: Template)
      modifies this`isOpen
      ensures loaded == template && !isOpen
    {
      loaded := template;
      isOpen := false;
    }

    /** `handleDeleteTemplate`: removes every template with `id`, keeps the others in
        order, and writes exactly that list to the key. */
    method HandleDeleteTemplate(store: TemplateStore, id: string)
      modifies this`templates, this`filteredTemplates, store
      ensures templates == WithoutTemplate(old(templates), id)
      ensures store.slot == Stored(templates)
      ensures Valid()
    {
      var updated := WithoutTemplate(templates, id);
      templates := updated;
      store.slot := Stored(updated);
      ghost var written := store.slot;
      Refresh();
      assert store.slot == written;
    }
  }
}
