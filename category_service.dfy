/** `getCategories`: the backend's categories with a slug guaranteed, the
    name standing in for a missing one. */
module CategoryService {
  import opened Entities

  function WithSlug(c: Category): Category {
    c.(slug := if c.slug != "" then c.slug else c.name)
  }

  /** Same length and order; each slug is the item's own slug when
      non-empty and its name otherwise; every other field is copied. */
  function WithSlugFallback(data: seq<Category>): (r: seq<Category>)
    ensures |r| == |data|
    ensures forall i :: 0 <= i < |data| ==>
      r[i].id == data[i].id && r[i].name == data[i].name && r[i].count == data[i].count &&
      r[i].slug == (if data[i].slug != "" then data[i].slug else data[i].name)
    ensures forall i :: 0 <= i < |data| && data[i].slug != "" ==> r[i] == data[i]
  {
    seq(|data|, i requires 0 <= i < |data| => WithSlug(data[i]))
  }

  /** Every slug is non-empty afterwards unless the name is empty too, and
      applying the fallback again changes nothing. */
  lemma FallbackIdempotent(data: seq<Category>)
    ensures forall i :: 0 <= i < |data| ==> (WithSlugFallback(data)[i].slug == "" <==> data[i].slug == "" && data[i].name == "")
    ensures WithSlugFallback(WithSlugFallback(data)) == WithSlugFallback(data)
  {
  }
}
