/** The tag cloud's per-item look, a function of the item's index alone:
    a colour from a palette of five, a tilt and a margin. */
module TagCloud {
  import opened CloudLayout

  const Palette := ["text-primary", "text-secondary", "text-accent", "text-info", "text-success"]

  /** `colors[index % colors.length]`: cycles with period five. */
  function ColorClass(index: nat): (c: string)
    ensures c in Palette
  {
    Palette[index % |Palette|]
  }

  /** Even indices tilt one way, odd ones the other, by `(7i) mod 15`
      degrees. */
  function Rotate(index: nat): (r: int)
    ensures -14 <= r <= 14
    ensures index % 2 == 0 ==> r == (index * 7) % 15
    ensures index % 2 == 1 ==> r == -((index * 7) % 15)
  {
    (if index % 2 == 0 then 1 else -1) * ((index * 7) % 15)
  }

  function MarginX(index: nat): (m: int)
    ensures 0 <= m < 20
  {
    (index * 3) % 20
  }

  function MarginY(index: nat): (m: int)
    ensures 0 <= m < 15
  {
    (index * 5) % 15
  }

  datatype ItemStyle = ItemStyle(color: string, rotate: int, spacing: Spacing)

  /** Everything the cloud derives for the item at `index`. */
  function StyleAt(index: nat): (s: ItemStyle)
    ensures s.spacing.marginBottom == Px(MarginY(index)) && s.spacing.marginRight == Px(MarginX(index))
    ensures s.color == ColorClass(index) && s.rotate == Rotate(index)
  {
    ItemStyle(ColorClass(index), Rotate(index), SpacingOf(MarginY(index), MarginX(index)))
  }

  /** The colour repeats every five items. */
  lemma ColorPeriodic(index: nat)
    ensures ColorClass(index + 5) == ColorClass(index)
    ensures ColorClass(index) == Palette[index % 5]
  {
    assert (index + 5) % 5 == index % 5;
  }
}
