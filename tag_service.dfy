/** `getTags`: the backend's tags, which carry no slug of their own, with
    the name standing in as the slug. */
module TagService {
  import opened Entities

  function WithSlug(t: Tag): Tag {
    t.(slug := if t.slug != "" then t.slug else t.name)
  }

  /** Same length and order; each slug is the item's own slug when
      non-empty and its name otherwise; every other field is copied. */
  function WithSlugFallback(data: seq<Tag>): (r: seq<Tag>)
    ensures |r| == |data|
    ensures forall i :: 0 <= i < |data| ==>
      r[i].id == data[i].id && r[i].name == data[i].name && r[i].count == data[i].count &&
      r[i].slug == (if data[i].slug != "" then data[i].slug else data[i].name)
    ensures forall i :: 0 <= i < |data| && data[i].slug != "" ==> r[i] == data[i]
  {
    seq(|data|, i requires 0 <= i < |data| => WithSlug(data[i]))
  }

  lemma FallbackIdempotent(data: seq<Tag>)
    ensures forall i :: 0 <= i < |data| ==> (WithSlugFallback(data)[i].slug == "" <==> data[i].slug == "" && data[i].name == "")
    ensures WithSlugFallback(WithSlugFallback(data)) == WithSlugFallback(data)
  {
  }
}
