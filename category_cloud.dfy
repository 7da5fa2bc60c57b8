/** The category cloud's per-item look: the same scheme as the tag cloud
    with other coefficients and palette. */
module CategoryCloud {
  import opened CloudLayout

  const Palette := ["text-primary", "text-secondary", "text-accent", "text-neutral-content", "text-base-content"]

  function ColorClass(index: nat): (c: string)
    ensures c in Palette
  {
    Palette[index % |Palette|]
  }

  /** `±((13i) mod 10)`, positive for even indices. */
  function Rotate(index: nat): (r: int)
    ensures -9 <= r <= 9
    ensures index % 2 == 0 ==> r == (index * 13) % 10
    ensures index % 2 == 1 ==> r == -((index * 13) % 10)
  {
    (if index % 2 == 0 then 1 else -1) * ((index * 13) % 10)
  }

  function MarginX(index: nat): (m: int)
    ensures 0 <= m < 30
  {
    (index * 7) % 30
  }

  function MarginY(index: nat): (m: int)
    ensures 0 <= m < 20
  {
    (index * 4) % 20
  }

  datatype ItemStyle = ItemStyle(color: string, rotate: int, spacing: Spacing)

  function StyleAt(index: nat): (s: ItemStyle)
    ensures s.spacing.marginBottom == Px(MarginY(index)) && s.spacing.marginRight == Px(MarginX(index))
    ensures s.color == ColorClass(index) && s.rotate == Rotate(index)
  {
    ItemStyle(ColorClass(index), Rotate(index), SpacingOf(MarginY(index), MarginX(index)))
  }

  lemma ColorPeriodic(index: nat)
    ensures ColorClass(index + 5) == ColorClass(index)
    ensures ColorClass(index) == Palette[index % 5]
  {
    assert (index + 5) % 5 == index % 5;
  }
}
