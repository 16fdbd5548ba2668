/** The sort selector of the catalogue (src/components/BookSorting.tsx): choosing a field
    and choosing a direction, each of which emits a new sort object. */
module BookSorting {

  datatype Direction = Asc | Desc

  /** `BookSort`: the field sorted on and the direction. */
  datatype Sort = Sort(field: string, direction: Direction)

  /** `SORT_FIELDS`: the fields the selector offers, in its order. */
  const SortFields: seq<string> := ["title", "author", "publisher", "price", "genre", "createdAt"]

  /** `handleFieldChange(field)`: the chosen field, descending only when it is the field
      already sorted on ascending, ascending in every other case. */
  function FieldChanged(sort: Sort, field: string): (r: Sort)
    ensures r.field == field
    ensures r.direction == Desc <==> sort.field == field && sort.direction == Asc
    ensures r.direction == Asc <==> sort.field != field || sort.direction == Desc
  {
    Sort(field, if sort.field == field && sort.direction == Asc then Desc else Asc)
  }

  /** `handleDirectionChange(direction)`: `{ ...sort, direction }`. */
  function DirectionChanged(sort: Sort, direction: Direction): (r: Sort)
    ensures r.field == sort.field && r.direction == direction
  {
    sort.(direction := direction)
  }

  /** Choosing the same field again alternates the direction, so two choices of it in a
      row after a first one return to where the first one led. */
  lemma SameFieldAlternates(sort: Sort, field: string)
    ensures var once := FieldChanged(sort, field);
      FieldChanged(once, field).direction != once.direction &&
      FieldChanged(FieldChanged(once, field), field) == once
  {
  }

  /** A direction change is idempotent and the last one wins. */
  lemma DirectionChangeIdempotent(sort: Sort, d: Direction, e: Direction)
    ensures DirectionChanged(DirectionChanged(sort, d), d) == DirectionChanged(sort, d)
    ensures DirectionChanged(DirectionChanged(sort, d), e) == DirectionChanged(sort, e)
  {
  }

  /** Choosing from the selector keeps the sort on one of its six fields. */
  lemma ChosenFieldIsOffered(sort: Sort, k: int, d: Direction)
    requires 0 <= k < |SortFields|
    ensures FieldChanged(sort, SortFields[k]).field in SortFields
    ensures sort.field in SortFields ==> DirectionChanged(sort, d).field in SortFields
  {
  }
}
