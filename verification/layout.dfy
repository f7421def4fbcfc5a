/** Layout helpers of the horizontal page lists. */
module Layout {
  import opened Arith

  /** The page lists are drawn inverted exactly when one, but not both, of
      "most recent first" and "right to left" is set. */
  function HorizontalInverted(prependMostRecent: bool, rightToLeft: bool): (inverted: bool)
    ensures inverted <==> prependMostRecent != rightToLeft
  {
    (prependMostRecent && !rightToLeft) || (!prependMostRecent && rightToLeft)
  }

  /** Inverting either flag flips the direction; setting both restores it. */
  lemma InvertedFlips(prependMostRecent: bool, rightToLeft: bool)
    ensures HorizontalInverted(!prependMostRecent, rightToLeft) == !HorizontalInverted(prependMostRecent, rightToLeft)
    ensures HorizontalInverted(prependMostRecent, !rightToLeft) == !HorizontalInverted(prependMostRecent, rightToLeft)
    ensures HorizontalInverted(prependMostRecent, prependMostRecent) == false
  {
  }

  /** Position of a page in the list: every page is one container wide. */
  datatype ItemLayout = ItemLayout(length: int, offset: int, index: int)

  /** The layout of page `index`: as long as the container, starting
      `index` page lengths in, so its offset in page lengths is its index. */
  function GetListItemLayout(containerWidth: int, index: int): (l: ItemLayout)
    ensures l.length == containerWidth && l.index == index
    ensures l.offset == l.index * l.length
    ensures containerWidth > 0 ==> l.offset / l.length == l.index
  {
    var l := ItemLayout(containerWidth, containerWidth * index, index);
    if containerWidth > 0 then DivExact(index, containerWidth); l else l
  }

  /** Pages are one container wide and abut: each starts where the previous
      one ends, the first at offset zero, so a page's index is its offset in
      container widths. */
  lemma LayoutContiguous(containerWidth: int, index: int)
    requires containerWidth > 0
    ensures GetListItemLayout(containerWidth, index).length == containerWidth
    ensures GetListItemLayout(containerWidth, index).index == index
    ensures GetListItemLayout(containerWidth, 0).offset == 0
    ensures GetListItemLayout(containerWidth, index + 1).offset
         == GetListItemLayout(containerWidth, index).offset + GetListItemLayout(containerWidth, index).length
    ensures GetListItemLayout(containerWidth, index).offset / containerWidth == index
  {
    assert containerWidth * (index + 1) == containerWidth * index + containerWidth;
    DivExact(index, containerWidth);
    assert containerWidth * index == index * containerWidth;
  }
}
