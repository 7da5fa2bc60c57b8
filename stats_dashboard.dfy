/** The favourites page's statistics: how many bookmarks fall in each
    category and under each tag, and the most frequent of each. A
    `Record<string, number>` is a list of (key, count) entries in insertion
    order. */
module StatsDashboard {
  import opened Wrappers
  import opened Entities
  import opened Ranking

  const Uncategorized := "未分類"
  const NoData: (string, nat) := ("無數據", 0)
  const NoTagData := "無標籤數據"

  type Counts = seq<(string, nat)>

  /** `counts[key] || 0`. */
  function Lookup(counts: Counts, key: string): nat {
    if counts == [] then 0
    else if counts[0].0 == key then counts[0].1
    else Lookup(counts[1..], key)
  }

  function Total(counts: Counts): nat {
    if counts == [] then 0 else counts[0].1 + Total(counts[1..])
  }

  predicate DistinctKeys(counts: Counts) {
    forall i, j :: 0 <= i < j < |counts| ==> counts[i].0 != counts[j].0
  }

  /** `counts[key] = (counts[key] || 0) + 1`: an existing entry is
      incremented in place, a new key is appended with count 1. */
  function Bump(counts: Counts, key: string): Counts {
    if counts == [] then [(key, 1)]
    else if counts[0].0 == key then [(key, counts[0].1 + 1)] + counts[1..]
    else [counts[0]] + Bump(counts[1..], key)
  }

  /** One increment adds one to that key's count and nothing else. */
  lemma {:induction false} BumpLookup(counts: Counts, key: string, k: string)
    ensures Lookup(Bump(counts, key), k) == Lookup(counts, k) + if k == key then 1 else 0
  {
    if counts != [] && counts[0].0 != key {
      BumpLookup(counts[1..], key, k);
    }
  }

  /** One increment adds one to the total. */
  lemma {:induction false} BumpTotal(counts: Counts, key: string)
    ensures Total(Bump(counts, key)) == Total(counts) + 1
  {
    if counts != [] && counts[0].0 != key {
      BumpTotal(counts[1..], key);
      assert ([counts[0]] + Bump(counts[1..], key))[1..] == Bump(counts[1..], key);
    } else if counts != [] {
      assert ([(key, counts[0].1 + 1)] + counts[1..])[1..] == counts[1..];
    }
  }

  lemma KeysCons(head: (string, nat), tail: Counts)
    ensures Keys([head] + tail) == {head.0} + Keys(tail)
  {
    var r := [head] + tail;
    forall x | x in Keys(r) ensures x in {head.0} + Keys(tail) {
      var i :| 0 <= i < |r| && r[i].0 == x;
      if i > 0 { assert tail[i - 1].0 == x; }
    }
    forall x | x in {head.0} + Keys(tail) ensures x in Keys(r) {
      if x == head.0 {
        assert r[0].0 == x;
      } else {
        var i :| 0 <= i < |tail| && tail[i].0 == x;
        assert r[i + 1].0 == x;
      }
    }
  }

  /** One increment adds the key to the record's keys, and keeps them
      distinct. */
  lemma {:induction false} BumpKeys(counts: Counts, key: string)
    ensures Keys(Bump(counts, key)) == Keys(counts) + {key}
    ensures DistinctKeys(counts) ==> DistinctKeys(Bump(counts, key))
  {
    BumpKeySet(counts, key);
    if DistinctKeys(counts) {
      BumpKeepsDistinct(counts, key);
    }
  }

  lemma {:induction false} BumpKeySet(counts: Counts, key: string)
    ensures Keys(Bump(counts, key)) == Keys(counts) + {key}
  {
    if counts == [] {
      KeysCons((key, 1), []);
    } else {
      assert counts == [counts[0]] + counts[1..];
      KeysCons(counts[0], counts[1..]);
      if counts[0].0 == key {
        KeysCons((key, counts[0].1 + 1), counts[1..]);
      } else {
        BumpKeySet(counts[1..], key);
        KeysCons(counts[0], Bump(counts[1..], key));
      }
    }
  }

  /** A record is distinct iff its head's key is new and its tail is distinct. */
  lemma DistinctCons(head: (string, nat), tail: Counts)
    ensures DistinctKeys([head] + tail) <==> head.0 !in Keys(tail) && DistinctKeys(tail)
  {
    var r := [head] + tail;
    if DistinctKeys(r) {
      forall x | x in Keys(tail) ensures x != head.0 {
        var i :| 0 <= i < |tail| && tail[i].0 == x;
        assert r[0] == head && r[i + 1] == tail[i];
      }
      forall i, j | 0 <= i < j < |tail| ensures tail[i].0 != tail[j].0 {
        assert r[i + 1] == tail[i] && r[j + 1] == tail[j];
      }
    }
    if head.0 !in Keys(tail) && DistinctKeys(tail) {
      forall i, j | 0 <= i < j < |r| ensures r[i].0 != r[j].0 {
        if i == 0 {
          assert r[j] == tail[j - 1];
        } else {
          assert r[i] == tail[i - 1] && r[j] == tail[j - 1];
        }
      }
    }
  }

  lemma {:induction false} BumpKeepsDistinct(counts: Counts, key: string)
    requires DistinctKeys(counts)
    ensures DistinctKeys(Bump(counts, key))
  {
    if counts != [] {
      assert counts == [counts[0]] + counts[1..];
      DistinctCons(counts[0], counts[1..]);
      if counts[0].0 == key {
        DistinctCons((key, counts[0].1 + 1), counts[1..]);
      } else {
        BumpKeepsDistinct(counts[1..], key);
        BumpKeySet(counts[1..], key);
        DistinctCons(counts[0], Bump(counts[1..], key));
      }
    }
  }

  function Keys(counts: Counts): set<string> {
    set i | 0 <= i < |counts| :: counts[i].0
  }

  /** How often `key` occurs in `keys`. */
  function Occurrences(keys: seq<string>, key: string): nat {
    if keys == [] then 0
    else Occurrences(keys[..|keys| - 1], key) + if keys[|keys| - 1] == key then 1 else 0
  }

  /** The record after incrementing once per key, in order. */
  function Tally(keys: seq<string>): Counts {
    if keys == [] then [] else Bump(Tally(keys[..|keys| - 1]), keys[|keys| - 1])
  }

  /** Each key's count is its number of occurrences, the counts add up to
      the number of keys, and no key has two entries. */
  lemma {:induction false} TallyCounts(keys: seq<string>)
    ensures forall k :: Lookup(Tally(keys), k) == Occurrences(keys, k)
    ensures Total(Tally(keys)) == |keys|
    ensures DistinctKeys(Tally(keys))
  {
    if keys != [] {
      var prefix := keys[..|keys| - 1];
      var last := keys[|keys| - 1];
      TallyCounts(prefix);
      forall k ensures Lookup(Tally(keys), k) == Occurrences(keys, k) {
        BumpLookup(Tally(prefix), last, k);
      }
      BumpTotal(Tally(prefix), last);
      BumpKeys(Tally(prefix), last);
    }
  }

  lemma TallySnoc(keys: seq<string>, key: string)
    ensures Tally(keys + [key]) == Bump(Tally(keys), key)
  {
    assert (keys + [key])[..|keys|] == keys;
  }

  /** `b.post?.category?.name || "未分類"`. */
  function CategoryOf(b: Bookmark): string {
    if b.post.Some? && b.post.value.category.Some? && b.post.value.category.value.name != ""
    then b.post.value.category.value.name
    else Uncategorized
  }

  /** `b.post?.tags || []`. */
  function PostTags(b: Bookmark): seq<Tag> {
    if b.post.Some? then b.post.value.tags else []
  }

  /** The names of the tags that have one, in order. */
  function TagNames(tags: seq<Tag>): (names: seq<string>)
    ensures forall i :: 0 <= i < |names| ==> names[i] != ""
  {
    if tags == [] then []
    else TagNames(tags[..|tags| - 1]) + if tags[|tags| - 1].name != "" then [tags[|tags| - 1].name] else []
  }

  function CategoryKeys(bookmarks: seq<Bookmark>): (keys: seq<string>)
    ensures |keys| == |bookmarks|
    ensures forall i :: 0 <= i < |keys| ==> keys[i] == CategoryOf(bookmarks[i])
  {
    if bookmarks == [] then []
    else CategoryKeys(bookmarks[..|bookmarks| - 1]) + [CategoryOf(bookmarks[|bookmarks| - 1])]
  }

  function TagKeys(bookmarks: seq<Bookmark>): seq<string> {
    if bookmarks == [] then []
    else TagKeys(bookmarks[..|bookmarks| - 1]) + TagNames(PostTags(bookmarks[|bookmarks| - 1]))
  }

  lemma KeysStep(bookmarks: seq<Bookmark>, i: nat)
    requires i < |bookmarks|
    ensures CategoryKeys(bookmarks[..i + 1]) == CategoryKeys(bookmarks[..i]) + [CategoryOf(bookmarks[i])]
    ensures TagKeys(bookmarks[..i + 1]) == TagKeys(bookmarks[..i]) + TagNames(PostTags(bookmarks[i]))
  {
    assert bookmarks[..i + 1][..i] == bookmarks[..i];
  }

  lemma TagNamesStep(tags: seq<Tag>, j: nat)
    requires j < |tags|
    ensures TagNames(tags[..j + 1]) == TagNames(tags[..j]) + if tags[j].name != "" then [tags[j].name] else []
  {
    assert tags[..j + 1][..j] == tags[..j];
  }

  /** The inner `forEach` over one post's tags. */
  method TallyTags(tags: Counts, ghost counted: seq<string>, postTags: seq<Tag>) returns (r: Counts)
    requires tags == Tally(counted)
    ensures r == Tally(counted + TagNames(postTags))
  {
    r := tags;
    var j := 0;
    assert counted + TagNames(postTags[..0]) == counted;
    while j < |postTags|
      invariant 0 <= j <= |postTags|
      invariant r == Tally(counted + TagNames(postTags[..j]))
    {
      TagNamesStep(postTags, j);
      var name := postTags[j].name;
      if name != "" {
        TallySnoc(counted + TagNames(postTags[..j]), name);
        assert counted + TagNames(postTags[..j + 1]) == counted + TagNames(postTags[..j]) + [name];
        r := Bump(r, name);
      } else {
        assert TagNames(postTags[..j + 1]) == TagNames(postTags[..j]);
      }
      j := j + 1;
    }
    assert postTags[..j] == postTags;
  }

  /** The two `forEach` loops of the statistics memo; the date bucket is
      left out. */
  method Tabulate(bookmarks: seq<Bookmark>) returns (categories: Counts, tags: Counts)
    ensures categories == Tally(CategoryKeys(bookmarks))
    ensures tags == Tally(TagKeys(bookmarks))
  {
    categories, tags := [], [];
    var i := 0;
    while i < |bookmarks|
      invariant 0 <= i <= |bookmarks|
      invariant categories == Tally(CategoryKeys(bookmarks[..i]))
      invariant tags == Tally(TagKeys(bookmarks[..i]))
    {
      var b := bookmarks[i];
      KeysStep(bookmarks, i);
      TallySnoc(CategoryKeys(bookmarks[..i]), CategoryOf(b));
      categories := Bump(categories, CategoryOf(b));
      tags := TallyTags(tags, TagKeys(bookmarks[..i]), PostTags(b));
      i := i + 1;
    }
    assert bookmarks[..i] == bookmarks;
  }

  /** Each category's count is the number of bookmarks in it, and the
      counts add up to the number of bookmarks. */
  lemma CategoryCountsAddUp(bookmarks: seq<Bookmark>, name: string)
    ensures Lookup(Tally(CategoryKeys(bookmarks)), name) == |set i | 0 <= i < |bookmarks| && CategoryOf(bookmarks[i]) == name|
    ensures Total(Tally(CategoryKeys(bookmarks))) == |bookmarks|
  {
    TallyCounts(CategoryKeys(bookmarks));
    OccurrencesCount(CategoryKeys(bookmarks), name);
    var keys := CategoryKeys(bookmarks);
    assert (set i | 0 <= i < |keys| && keys[i] == name) == (set i | 0 <= i < |bookmarks| && CategoryOf(bookmarks[i]) == name);
  }

  /** `Occurrences` counts the positions holding the key. */
  lemma {:induction false} OccurrencesCount(keys: seq<string>, key: string)
    ensures Occurrences(keys, key) == |set i | 0 <= i < |keys| && keys[i] == key|
  {
    if keys != [] {
      var n := |keys| - 1;
      OccurrencesCount(keys[..n], key);
      var before := set i | 0 <= i < n && keys[..n][i] == key;
      var all := set i | 0 <= i < |keys| && keys[i] == key;
      if keys[n] == key {
        assert all == before + {n};
      } else {
        assert all == before;
      }
    }
  }

  /** A bookmark's named tags each add one to that tag's count. */
  lemma TagCountsStep(bookmarks: seq<Bookmark>, b: Bookmark, name: string)
    ensures Lookup(Tally(TagKeys(bookmarks + [b])), name)
         == Lookup(Tally(TagKeys(bookmarks)), name) + Occurrences(TagNames(PostTags(b)), name)
  {
    assert (bookmarks + [b])[..|bookmarks|] == bookmarks;
    TallyCounts(TagKeys(bookmarks + [b]));
    TallyCounts(TagKeys(bookmarks));
    OccurrencesAppend(TagKeys(bookmarks), TagNames(PostTags(b)), name);
  }

  lemma {:induction false} OccurrencesAppend(a: seq<string>, b: seq<string>, key: string)
    ensures Occurrences(a + b, key) == Occurrences(a, key) + Occurrences(b, key)
    decreases |b|
  {
    if b != [] {
      var n := |b| - 1;
      OccurrencesAppend(a, b[..n], key);
      assert (a + b)[..|a + b| - 1] == a + b[..n];
    } else {
      assert a + b == a;
    }
  }

  /** Nameless tags are not counted. */
  lemma EmptyNameNeverCounted(bookmarks: seq<Bookmark>)
    ensures Lookup(Tally(TagKeys(bookmarks)), "") == 0
  {
    TallyCounts(TagKeys(bookmarks));
    TagKeysNamed(bookmarks);
    OccurrencesCount(TagKeys(bookmarks), "");
    var keys := TagKeys(bookmarks);
    assert (set i | 0 <= i < |keys| && keys[i] == "") == {};
  }

  lemma {:induction false} TagKeysNamed(bookmarks: seq<Bookmark>)
    ensures forall i :: 0 <= i < |TagKeys(bookmarks)| ==> TagKeys(bookmarks)[i] != ""
  {
    if bookmarks != [] {
      TagKeysNamed(bookmarks[..|bookmarks| - 1]);
    }
  }

  /** `getTop`: the first entry once sorted by count, descending; the
      "no data" pair for an empty record. */
  function Top(counts: Counts): (r: (string, nat))
    ensures counts == [] ==> r == NoData
    ensures counts != [] ==> r in counts && forall e :: e in counts ==> e.1 <= r.1
  {
    if counts == [] then NoData
    else
      var key := (e: (string, nat)) => Rank(e.1, 0);
      var sorted := SortDesc(counts, key);
      assert sorted[0] in multiset(counts) by {
        assert sorted[0] in multiset(sorted);
      }
      assert forall e :: e in counts ==> e.1 <= sorted[0].1 by {
        forall e | e in counts ensures e.1 <= sorted[0].1 {
          assert e in multiset(sorted);
          var j :| 0 <= j < |sorted| && sorted[j] == e;
          if j > 0 {
            assert AtLeast(key(sorted[0]), key(sorted[j]));
          }
        }
      }
      sorted[0]
  }

  /** The favourite-tag card's text. */
  function TagLabel(top: (string, nat)): (text: string)
    ensures top.0 == NoData.0 ==> text == NoTagData
    ensures top.0 != NoData.0 ==> text == "#" + top.0
  {
    if top.0 == NoData.0 then NoTagData else "#" + top.0
  }

  /** With no bookmarks both cards fall back to the no-data texts. */
  lemma NoBookmarksNoData()
    ensures Top(Tally(CategoryKeys([]))) == NoData
    ensures TagLabel(Top(Tally(TagKeys([])))) == NoTagData
  {
  }
}
