/** The callbacks the post form passes to its two selectors: a single
    category, and up to five tags without duplicate ids. */
module PostMetaForm {
  import opened Wrappers
  import opened Entities
  import opened Seqs
  import opened SmartSelector

  const CategoryLimit: int := 1
  const TagLimit: int := 5

  /** Picking a category replaces the whole selection. */
  function SelectCategory(selected: seq<Category>, item: Category): (r: seq<Category>)
    ensures r == [item]
    ensures LimitReached(Some(CategoryLimit), |r|)
  {
    [item]
  }

  /** `selected.filter(x => x.id !== id)`. */
  function RemoveById<T>(selected: seq<T>, id: int, idOf: T -> int): (r: seq<T>)
    ensures |r| <= |selected|
    ensures forall k :: 0 <= k < |r| ==> idOf(r[k]) != id && r[k] in selected
    ensures forall k :: 0 <= k < |selected| && idOf(selected[k]) != id ==> selected[k] in r
  {
    Filter(selected, x => idOf(x) != id)
  }

  /** Removing an id nobody has changes nothing. */
  lemma RemoveAbsentId<T>(selected: seq<T>, id: int, idOf: T -> int)
    requires forall k :: 0 <= k < |selected| ==> idOf(selected[k]) != id
    ensures RemoveById(selected, id, idOf) == selected
  {
    FilterKeepsAll(selected, x => idOf(x) != id);
  }

  /** The survivors of a removal keep their order. */
  lemma RemoveByIdAppend<T>(a: seq<T>, b: seq<T>, id: int, idOf: T -> int)
    ensures RemoveById(a + b, id, idOf) == RemoveById(a, id, idOf) + RemoveById(b, id, idOf)
  {
    FilterAppend(a, b, x => idOf(x) != id);
  }

  predicate HasTagId(selected: seq<Tag>, id: int) {
    exists k :: 0 <= k < |selected| && selected[k].id == id
  }

  /** Picking a tag appends it unless a tag with its id is already there. */
  function SelectTag(selected: seq<Tag>, item: Tag): (r: seq<Tag>)
    ensures HasTagId(selected, item.id) ==> r == selected
    ensures !HasTagId(selected, item.id) ==> r == selected + [item]
    ensures HasTagId(r, item.id)
  {
    if HasTagId(selected, item.id) then selected
    else
      assert (selected + [item])[|selected|] == item;
      selected + [item]
  }

  function TagId(t: Tag): int { t.id }

  predicate DistinctIds(tags: seq<Tag>) {
    forall i, j :: 0 <= i < j < |tags| ==> tags[i].id != tags[j].id
  }

  lemma SelectTagKeepsDistinct(selected: seq<Tag>, item: Tag)
    requires DistinctIds(selected)
    ensures DistinctIds(SelectTag(selected, item))
  {
  }

  /** Tag ids are distinct iff the first id is new and the rest are distinct. */
  lemma DistinctIdsCons(head: Tag, tail: seq<Tag>)
    ensures DistinctIds([head] + tail) <==>
      (forall k :: 0 <= k < |tail| ==> tail[k].id != head.id) && DistinctIds(tail)
  {
    var r := [head] + tail;
    if DistinctIds(r) {
      forall k | 0 <= k < |tail| ensures tail[k].id != head.id {
        assert r[0] == head && r[k + 1] == tail[k];
      }
      forall i, j | 0 <= i < j < |tail| ensures tail[i].id != tail[j].id {
        assert r[i + 1] == tail[i] && r[j + 1] == tail[j];
      }
    }
  }

  lemma {:induction false} RemoveTagKeepsDistinct(selected: seq<Tag>, id: int)
    requires DistinctIds(selected)
    ensures DistinctIds(RemoveById(selected, id, TagId))
  {
    if selected != [] {
      var head, rest := selected[0], selected[1..];
      assert selected == [head] + rest;
      DistinctIdsCons(head, rest);
      RemoveTagKeepsDistinct(rest, id);
      var tail := RemoveById(rest, id, TagId);
      assert RemoveById(selected, id, TagId) == (if head.id != id then [head] else []) + tail;
      if head.id != id {
        forall k | 0 <= k < |tail| ensures tail[k].id != head.id {
          var m :| 0 <= m < |rest| && rest[m] == tail[k];
        }
        DistinctIdsCons(head, tail);
      }
    }
  }

  /** One interaction with the tag selector. */
  datatype TagEdit = Pick(tag: Tag) | Drop(id: int)

  function ApplyTagEdits(selected: seq<Tag>, edits: seq<TagEdit>): seq<Tag>
    decreases |edits|
  {
    if edits == [] then selected
    else
      var next := match edits[0]
        case Pick(t) => SelectTag(selected, t)
        case Drop(id) => RemoveById(selected, id, TagId);
      ApplyTagEdits(next, edits[1..])
  }

  /** Tag ids stay pairwise distinct under any sequence of picks and
      removals. */
  lemma {:induction false} TagEditsKeepDistinct(selected: seq<Tag>, edits: seq<TagEdit>)
    requires DistinctIds(selected)
    ensures DistinctIds(ApplyTagEdits(selected, edits))
    decreases |edits|
  {
    if edits != [] {
      match edits[0]
      case Pick(t) =>
        SelectTagKeepsDistinct(selected, t);
        TagEditsKeepDistinct(SelectTag(selected, t), edits[1..]);
      case Drop(id) =>
        RemoveTagKeepsDistinct(selected, id);
        TagEditsKeepDistinct(RemoveById(selected, id, TagId), edits[1..]);
    }
  }
}
