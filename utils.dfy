/** The small integer and slice helpers of the viewer package (viewport/utils.go). */
module Utils {
  import opened Wrappers

  /**
   * `clamp`: restricts `val` to `[lo, hi]`. The bounds are inclusive (the Go
   * comment calls them exclusive, the code is not).
   */
  function Clamp(val: int, lo: int, hi: int): (r: int)
    ensures lo <= hi ==> lo <= r <= hi
    ensures lo <= val <= hi ==> r == val
    ensures val < lo ==> r == lo
    ensures lo <= val && hi < val ==> r == hi
  {
    if val < lo then lo
    else if val > hi then hi
    else val
  }

  /**
   * `clampLoop`: like `Clamp`, but a value below `lo` wraps to `hi` and a value
   * above `hi` wraps to `lo`. Both tests run in sequence, as in the Go code; the
   * second cannot undo the first, so a value below `lo` always ends at `hi`,
   * even when `hi < lo`.
   */
  function ClampLoop(val: int, lo: int, hi: int): (r: int)
    ensures lo <= hi ==> lo <= r <= hi
    ensures lo <= val <= hi ==> r == val
    ensures val < lo ==> r == hi
    ensures lo <= val && hi < val ==> r == lo
  {
    var v := if val < lo then hi else val;
    if v > hi then lo else v
  }

  /** `max`: the larger of the two arguments. */
  function Max(a: int, b: int): (r: int)
    ensures r >= a && r >= b
    ensures r == a || r == b
  {
    if a > b then a else b
  }

  /**
   * A Go slice variable that `pop` and `push` reach through a `*[]t` pointer:
   * the heap cell holding the slice header, with its elements as `items`.
   */
  class SliceRef<T> {
    var items: seq<T>

    constructor (init: seq<T>)
      ensures items == init
    {
      items := init;
    }

    /** `pop`: removes and returns the last element, or `None` (nil) on an empty slice. */
    method Pop() returns (last: Option<T>)
      modifies this
      ensures old(items) == [] ==> last == None && items == []
      ensures old(items) != [] ==> last == Some(old(items)[|old(items)| - 1])
      ensures old(items) != [] ==> items == old(items)[..|old(items)| - 1]
    {
      if |items| == 0 {
        return None;
      }
      var x := items[|items| - 1];
      items := items[..|items| - 1];
      return Some(x);
    }

    /** `push`: appends every item, in order, after the existing elements. */
    method Push(more: seq<T>)
      modifies this
      ensures items == old(items) + more
      ensures |items| == |old(items)| + |more|
      ensures items[..|old(items)|] == old(items)
    {
      items := items + more;
    }
  }

  /** Popping after pushing one item gives that item back and restores the slice. */
  method PushPop<T>(s: SliceRef<T>, x: T) returns (r: Option<T>)
    modifies s
    ensures r == Some(x) && s.items == old(s.items)
  {
    s.Push([x]);
    r := s.Pop();
  }
}
