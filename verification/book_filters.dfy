/** The filter panel of the catalogue (src/components/BookFilters.tsx). Filters are a plain
    object whose keys keep their insertion order (`genre`, `publisher`, `author`,
    `availability`, `search`), with `Undefined` for a key that is present but unset. The
    panel keeps its own search and author text, folds the debounced text into the filters,
    and maps the availability flag to and from the select's text values. */
module BookFilters {
  import opened Common

  /** A `BookFilters` object. */
  type Filters = seq<(string, Js)>

  /** `value === '' ? undefined : value`. */
  function Normalize(value: Js): Js {
    if value == Str("") then Undefined else value
  }

  /** `handleFilterChange(key, value)`: `{ ...filters, [key]: value === '' ? undefined : value }`.
      Only the named key changes, the empty text unsets it, and the key order is kept. */
  function FilterChanged(filters: Filters, key: string, value: Js): (r: Filters)
    ensures Lookup(r, key) == Some(if value == Str("") then Undefined else value)
    ensures forall k :: k != key ==> Lookup(r, k) == Lookup(filters, k)
    ensures Lookup(filters, key).Some? ==> Keys(r) == Keys(filters)
  {
    Assign(filters, key, Normalize(value))
  }

  /** The filters the debounced search or author effect emits: `term || undefined` under
      `key`, every other key as it was. */
  function TermFolded(filters: Filters, key: string, term: string): (r: Filters)
    ensures term == "" ==> Lookup(r, key) == Some(Undefined)
    ensures term != "" ==> Lookup(r, key) == Some(Str(term))
    ensures forall k :: k != key ==> Lookup(r, k) == Lookup(filters, k)
  {
    Assign(filters, key, if term == "" then Undefined else Str(term))
  }

  /** `filters[key] || ''`: the text a box starts with. */
  function InitialTerm(filters: Filters, key: string): (t: string)
    ensures Lookup(filters, key) == Some(Str(t)) || (t == "" && !(exists s :: s != "" && Lookup(filters, key) == Some(Str(s))))
  {
    var v := Lookup(filters, key);
    if v.Some? && v.value.Str? then v.value.s else ""
  }

  /** Folding back the text a box was initialised with changes nothing a request can see:
      a text filter stays the same text, and an unset or empty one becomes unset. */
  lemma FoldingInitialTermIsStable(filters: Filters, key: string)
    ensures var r := TermFolded(filters, key, InitialTerm(filters, key));
      (forall s :: s != "" && Lookup(filters, key) == Some(Str(s)) ==> Lookup(r, key) == Some(Str(s))) &&
      (Lookup(filters, key).None? || Lookup(filters, key) == Some(Str("")) || Lookup(filters, key) == Some(Undefined) ==>
        Lookup(r, key) == Some(Undefined))
  {
  }

  /** The select's text for an availability filter:
      `filters.availability === undefined ? '' : filters.availability.toString()`. */
  function AvailabilityText(availability: Js): string {
    if availability.Undefined? then "" else ToText(availability)
  }

  /** The availability filter a choice of the select sets:
      `value === '' ? undefined : value === 'true'`. */
  function AvailabilityChosen(text: string): Js {
    if text == "" then Undefined else Bool(text == "true")
  }

  /** The select round-trips: unset, true and false give `''`, `'true'` and `'false'`, which
      give back unset, true and false. */
  lemma AvailabilityRoundTrip(v: Js, text: string)
    ensures v.Undefined? || v.Bool? ==> AvailabilityChosen(AvailabilityText(v)) == v
    ensures text in {"", "true", "false"} ==> AvailabilityText(AvailabilityChosen(text)) == text
  {
  }

  /** The panel's own state: the text in the search and author boxes. */
  class FilterPanel {
    var searchTerm: string
    var authorTerm: string

    /** The boxes start from the incoming filters. */
    constructor(filters: Filters)
      ensures searchTerm == InitialTerm(filters, "search")
      ensures authorTerm == InitialTerm(filters, "author")
    {
      searchTerm := InitialTerm(filters, "search");
      authorTerm := InitialTerm(filters, "author");
    }

    method TypeSearch(text: string)
      modifies this
      ensures searchTerm == text && authorTerm == old(authorTerm)
    {
      searchTerm := text;
    }

    method TypeAuthor(text: string)
      modifies this
      ensures authorTerm == text && searchTerm == old(searchTerm)
    {
      authorTerm := text;
    }

    /** The search effect once the text has settled: the filters it emits. */
    method SearchSettled(filters: Filters) returns (emitted: Filters)
      ensures emitted == TermFolded(filters, "search", searchTerm)
    {
      emitted := Assign(filters, "search", if searchTerm == "" then Undefined else Str(searchTerm));
    }

    /** The author effect once the text has settled: the filters it emits. */
    method AuthorSettled(filters: Filters) returns (emitted: Filters)
      ensures emitted == TermFolded(filters, "author", authorTerm)
    {
      emitted := Assign(filters, "author", if authorTerm == "" then Undefined else Str(authorTerm));
    }

    /** `clearFilters()`: both boxes empty and `{}` emitted. */
    method ClearFilters() returns (emitted: Filters)
      modifies this
      ensures searchTerm == "" && authorTerm == "" && emitted == []
    {
      searchTerm := "";
      authorTerm := "";
      emitted := [];
    }
  }
}
