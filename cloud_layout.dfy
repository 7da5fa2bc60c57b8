/** The shared trick of the tag and category clouds: a margin is built as
    the string `"<Y>px <X>px"` and then split on the space to recover the
    bottom and right margins. */
module CloudLayout {
  import opened Strings

  /** `${n}px`. */
  function Px(n: int): (r: string)
    ensures ' ' !in r
  {
    IntToString(n) + "px"
  }

  /** `${marginY}px ${marginX}px`. */
  function Margin(y: int, x: int): string {
    Px(y) + " " + Px(x)
  }

  /** Splitting the margin string on `" "` gives the two lengths back. */
  lemma MarginSplits(y: int, x: int)
    ensures Split(Margin(y, x), ' ') == [Px(y), Px(x)]
  {
    assert Join([Px(y), Px(x)], ' ') == Margin(y, x) by {
      assert Join([Px(x)], ' ') == Px(x);
    }
    SplitJoin([Px(y), Px(x)], ' ');
  }

  /** The margins an item's `style` receives. */
  datatype Spacing = Spacing(marginBottom: string, marginRight: string)

  /** `marginRight: margin.split(" ")[1]`, `marginBottom: margin.split(" ")[0]`. */
  function SpacingOf(y: int, x: int): (s: Spacing)
    ensures s == Spacing(Px(y), Px(x))
  {
    MarginSplits(y, x);
    var parts := Split(Margin(y, x), ' ');
    Spacing(parts[0], parts[1])
  }
}
