/** The searchable picker used for a post's categories and tags: it offers
    the unselected items whose name contains the query, a "create" entry
    when nothing is named exactly like the query, and hides the search box
    once the limit is reached. */
module SmartSelector {
  import opened Wrappers
  import opened Strings
  import opened Seqs

  /** `limit ? selected.length >= limit : false`; an absent or zero limit
      is never reached. */
  predicate LimitReached(limit: Option<int>, count: nat) {
    limit.Some? && limit.value != 0 && count >= limit.value
  }

  /** `selectedItems.find(s => s.id === item.id)` found something. */
  predicate IsSelected<T>(selected: seq<T>, x: T, id: T -> int) {
    exists k :: 0 <= k < |selected| && id(selected[k]) == id(x)
  }

  /** The name contains the query, both lower-cased. */
  predicate NameMatches(name: string, query: string) {
    Contains(ToLower(name), ToLower(query))
  }

  /** `filteredItems`: in the order of `items`, exactly the unselected ones
      whose name matches the query. */
  function FilteredItems<T>(items: seq<T>, selected: seq<T>, query: string, id: T -> int, name: T -> string): (r: seq<T>)
    ensures forall k :: 0 <= k < |r| ==>
      r[k] in items && !IsSelected(selected, r[k], id) && NameMatches(name(r[k]), query)
    ensures forall k :: 0 <= k < |items| && !IsSelected(selected, items[k], id) && NameMatches(name(items[k]), query) ==>
      items[k] in r
  {
    Filter(items, x => !IsSelected(selected, x, id) && NameMatches(name(x), query))
  }

  /** The suggestions keep the order of `items`: the suggestions for a
      concatenation are those of its parts, concatenated. */
  lemma FilteredItemsAppend<T>(a: seq<T>, b: seq<T>, selected: seq<T>, query: string, id: T -> int, name: T -> string)
    ensures FilteredItems(a + b, selected, query, id, name) ==
      FilteredItems(a, selected, query, id, name) + FilteredItems(b, selected, query, id, name)
  {
    FilterAppend(a, b, x => !IsSelected(selected, x, id) && NameMatches(name(x), query));
  }

  /** A single item is offered, once, exactly when it is unselected and
      its name matches. */
  lemma FilteredItemsOne<T>(x: T, selected: seq<T>, query: string, id: T -> int, name: T -> string)
    ensures FilteredItems([x], selected, query, id, name) ==
      if !IsSelected(selected, x, id) && NameMatches(name(x), query) then [x] else []
  {
  }

  /** With an empty query every unselected item is offered. */
  lemma EmptyQueryOffersAllUnselected<T>(items: seq<T>, selected: seq<T>, id: T -> int, name: T -> string)
    ensures forall k :: 0 <= k < |items| && !IsSelected(selected, items[k], id) ==>
      items[k] in FilteredItems(items, selected, "", id, name)
  {
    forall k | 0 <= k < |items| ensures NameMatches(name(items[k]), "") {
      var n := ToLower(name(items[k]));
      assert ToLower("") == "";
      assert n[..0] == "";
    }
  }

  /** `exactMatch`: the first item, selected or not, whose lower-cased name
      equals the lower-cased query. */
  function ExactMatch<T>(items: seq<T>, query: string, name: T -> string): (r: Option<T>)
    ensures r.None? <==> forall k :: 0 <= k < |items| ==> ToLower(name(items[k])) != ToLower(query)
    ensures r.Some? ==>
      exists k :: 0 <= k < |items| && items[k] == r.value && ToLower(name(items[k])) == ToLower(query) &&
        forall j :: 0 <= j < k ==> ToLower(name(items[j])) != ToLower(query)
  {
    if items == [] then None
    else if ToLower(name(items[0])) == ToLower(query) then Some(items[0])
    else
      var r := ExactMatch(items[1..], query, name);
      assert forall k :: 0 < k < |items| ==> items[k] == items[1..][k - 1];
      assert r.Some? ==>
        exists k :: 0 <= k < |items| && items[k] == r.value && ToLower(name(items[k])) == ToLower(query) &&
          forall j :: 0 <= j < k ==> ToLower(name(items[j])) != ToLower(query)
      by {
        if r.Some? {
          var k :| 0 <= k < |items| - 1 && items[1..][k] == r.value && ToLower(name(items[1..][k])) == ToLower(query) &&
            forall j :: 0 <= j < k ==> ToLower(name(items[1..][j])) != ToLower(query);
          assert items[k + 1] == r.value;
        }
      }
      r
  }

  /** The "create" entry is offered iff no item is named like the query and
      the trimmed query is not empty. */
  predicate CreateOffered<T>(items: seq<T>, query: string, name: T -> string) {
    ExactMatch(items, query, name).None? && Trim(query) != ""
  }

  /** The notice shown in place of the search box once the limit is reached:
      the category text for a limit of one, otherwise the tag text with the
      limit written out in decimal between its two parts. */
  function LimitMessage(limit: int): (m: string)
    ensures limit == 1 ==> m == "若要更換分類，請先移除目前的分類"
    ensures limit != 1 ==> StartsWith(m, TagLimitHead) && EndsWith(m, TagLimitTail)
    ensures limit != 1 ==> |m| > |TagLimitHead| + |TagLimitTail|
    ensures limit != 1 && limit >= 0 ==>
      var d := m[|TagLimitHead|..|m| - |TagLimitTail|];
      (forall i :: 0 <= i < |d| ==> IsDigit(d[i])) && DigitsValue(d) == limit
    ensures limit < 0 ==>
      var d := m[|TagLimitHead|..|m| - |TagLimitTail|];
      |d| > 1 && d[0] == '-' && (forall i :: 1 <= i < |d| ==> IsDigit(d[i])) && DigitsValue(d[1..]) == -limit
  {
    if limit == 1 then "若要更換分類，請先移除目前的分類"
    else
      var n := IntToString(limit);
      var m := TagLimitHead + n + TagLimitTail;
      assert m[|TagLimitHead|..|m| - |TagLimitTail|] == n && |n| > 0 by {
        MiddleOf(TagLimitHead, n, TagLimitTail);
        IntToStringDenotes(limit);
      }
      assert limit >= 0 ==> DigitsValue(n) == limit by { IntToStringDenotes(limit); }
      assert limit < 0 ==> DigitsValue(n[1..]) == -limit by { IntToStringDenotes(limit); }
      m
  }

  lemma MiddleOf(head: string, middle: string, tail: string)
    ensures var m := head + middle + tail; m[|head|..|m| - |tail|] == middle
  {
  }

  const TagLimitHead := "已達到標籤上限 ("
  const TagLimitTail := " 個)"

  /** The tag selector's limit of five shows `5`. */
  lemma TagLimitFive()
    ensures LimitMessage(5) == "已達到標籤上限 (5 個)"
  {
    assert IntToString(5) == "5";
  }

  /** The open suggestion list: the options, and the label of the create
      entry when it is offered. */
  datatype Dropdown<T> = Dropdown(options: seq<T>, createLabel: Option<string>)

  /** What the selector shows below the chips of the selected items. */
  datatype View<T> =
    | LimitNotice(message: string)
    | SearchBox(query: string, dropdown: Option<Dropdown<T>>)

  /** The selector's own state: the search text and whether the list is open. */
  class Selector<T> {
    const id: T -> int
    const name: T -> string
    var query: string
    var isOpen: bool

    constructor(id: T -> int, name: T -> string)
      ensures this.id == id && this.name == name
      ensures query == "" && !isOpen
    {
      this.id := id;
      this.name := name;
      query := "";
      isOpen := false;
    }

    /** The rendered view: the limit notice, or the search box with the
        list open only while focused with a non-empty query. */
    function Render(items: seq<T>, selected: seq<T>, limit: Option<int>): (v: View<T>)
      reads this
      ensures v.LimitNotice? <==> LimitReached(limit, |selected|)
      ensures v.LimitNotice? ==> v.message == LimitMessage(limit.value)
      ensures v.SearchBox? ==> v.query == query && (v.dropdown.Some? <==> isOpen && query != "")
      ensures v.SearchBox? && v.dropdown.Some? ==>
        v.dropdown.value.options == FilteredItems(items, selected, query, id, name) &&
        (v.dropdown.value.createLabel.Some? <==> CreateOffered(items, query, name))
    {
      if LimitReached(limit, |selected|) then LimitNotice(LimitMessage(limit.value))
      else if isOpen && query != "" then
        SearchBox(query, Some(Dropdown(
          FilteredItems(items, selected, query, id, name),
          if CreateOffered(items, query, name) then Some("建立新項目：\"" + query + "\"") else None)))
      else SearchBox(query, None)
    }

    /** Typing in the search box. */
    method Change(text: string)
      modifies this
      ensures query == text && isOpen
    {
      query := text;
      isOpen := true;
    }

    method Focus()
      modifies this`isOpen
      ensures isOpen
    {
      isOpen := true;
    }

    /** Leaving the search box closes the list (after a 200 ms delay that
        the model does not represent). */
    method Blur()
      modifies this`isOpen
      ensures !isOpen
    {
      isOpen := false;
    }

    /** Clicking the `k`-th suggestion hands that item to `onSelect` and
        clears the query; without such a suggestion on screen nothing
        happens. */
    method ClickOption(items: seq<T>, selected: seq<T>, limit: Option<int>, k: nat) returns (picked: Option<T>)
      modifies this`query
      ensures var v := old(Render(items, selected, limit));
        if v.SearchBox? && v.dropdown.Some? && k < |v.dropdown.value.options| then
          picked == Some(v.dropdown.value.options[k]) && query == ""
        else
          picked.None? && query == old(query)
      ensures picked.Some? ==> picked.value in items && !IsSelected(selected, picked.value, id)
    {
      var v := Render(items, selected, limit);
      if v.SearchBox? && v.dropdown.Some? && k < |v.dropdown.value.options| {
        picked := Some(v.dropdown.value.options[k]);
        query := "";
      } else {
        picked := None;
      }
    }

    /** Clicking the create entry hands the trimmed query to `onCreate` and
        clears the query. */
    method ClickCreate(items: seq<T>, selected: seq<T>, limit: Option<int>) returns (created: Option<string>)
      modifies this`query
      ensures var v := old(Render(items, selected, limit));
        if v.SearchBox? && v.dropdown.Some? && v.dropdown.value.createLabel.Some? then
          created == Some(Trim(old(query))) && query == ""
        else
          created.None? && query == old(query)
      ensures created.Some? ==> created.value != "" && ExactMatch(items, old(query), name).None?
    {
      var v := Render(items, selected, limit);
      if v.SearchBox? && v.dropdown.Some? && v.dropdown.value.createLabel.Some? {
        created := Some(Trim(query));
        query := "";
      } else {
        created := None;
      }
    }
  }
}
