/** The state one gallery screen keeps while it is composed: a cursor into its fixed list. */
module Gallery {
  import opened CyclicIndex

  /**
   * The `remember`ed index of a gallery over its non-empty list of items.
   * A cursor is created with the screen and discarded with it.
   */
  class Cursor<T> {
    const items: seq<T>
    var index: int
    /** The clicks received since the cursor was created, oldest first. */
    ghost var clicks: seq<Click>

    ghost predicate Valid()
      reads this
    {
      |items| > 0 &&
      index == Clicks(0, |items|, clicks) &&
      0 <= index < |items|
    }

    /** `mutableStateOf(0)`: a new cursor points at the first item. */
    constructor (items: seq<T>)
      requires |items| > 0
      ensures Valid() && this.items == items
      ensures index == 0 && clicks == []
    {
      this.items := items;
      index := 0;
      clicks := [];
    }

    /** The item on show: `images[indice]`. */
    function Current(): (x: T)
      reads this
      requires Valid()
      ensures x in items
    {
      items[index]
    }

    /** The "Previous" button. */
    method Previous()
      requires Valid()
      modifies this
      ensures Valid()
      ensures index == CyclicIndex.Previous(old(index), |items|)
      ensures clicks == old(clicks) + [PreviousClick]
    {
      PreviousWraps(index, |items|);
      index := CyclicIndex.Previous(index, |items|);
      clicks := clicks + [PreviousClick];
      assert clicks[..|clicks| - 1] == old(clicks);
    }

    /** The "Next" button. */
    method Next()
      requires Valid()
      modifies this
      ensures Valid()
      ensures index == CyclicIndex.Next(old(index), |items|)
      ensures clicks == old(clicks) + [NextClick]
    {
      NextWraps(index, |items|);
      index := CyclicIndex.Next(index, |items|);
      clicks := clicks + [NextClick];
      assert clicks[..|clicks| - 1] == old(clicks);
    }
  }
}
