/**
 * The rule the list pages share for their local list after a delete:
 * `prev.filter((p) => p.id !== id)`.
 */
module ListPage {
  import opened Lists
  import opened Store
  import Text

  /** The rows left after removing every row whose `id` is `id`, in their original order. */
  function WithoutId(rows: seq<Fields>, id: string): (r: seq<Fields>)
    ensures forall row :: row in r <==> row in rows && !HasId(row, id)
    ensures forall row :: multiset(r)[row] == if HasId(row, id) then 0 else multiset(rows)[row]
    ensures Subseq(r, rows)
  {
    Filter(rows, (row: Fields) => !HasId(row, id))
  }

  /** Removing an id no row carries leaves the list as it was. */
  lemma WithoutAbsentId(rows: seq<Fields>, id: string)
    requires forall row :: row in rows ==> !HasId(row, id)
    ensures WithoutId(rows, id) == rows
  {
    FilterKeepsAll(rows, (row: Fields) => !HasId(row, id));
  }

  /** Removing the same id twice is removing it once. */
  lemma WithoutIdIdempotent(rows: seq<Fields>, id: string)
    ensures WithoutId(WithoutId(rows, id), id) == WithoutId(rows, id)
  {
    WithoutAbsentId(WithoutId(rows, id), id);
  }

  /** A fetched row carries its document id as text unless the stored data overrides `id`
      with something else, so it matches the empty query on `id`. */
  lemma FetchedRowMatchesEmptyQuery(d: Doc)
    requires "id" !in d.data || d.data["id"].Str?
    ensures FieldIncludes(Row(d), "id", "")
  {
    Text.EmptyQueryIncluded(Row(d)["id"].s);
  }
}
