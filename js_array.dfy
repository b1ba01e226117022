/**
 * The part of JavaScript's `Array` the list helpers rely on: an array object whose contents
 * `splice` changes in place, so that a caller holding the same array sees it shrink.
 */
module JsArrays {
  /**
   * Where `splice(start)` cuts an array of length len: a negative start counts from the end
   * and stops at 0, a start past the end stops at the end.
   */
  function SpliceStart(start: int, len: nat): (k: nat)
    ensures k <= len
    ensures 0 <= start <= len ==> k == start
    ensures start > len ==> k == len
    ensures start < 0 ==> k == if len + start < 0 then 0 else len + start
  {
    if start < 0 then (if len + start < 0 then 0 else len + start)
    else if start < len then start
    else len
  }

  class JsArray<T> {
    var items: seq<T>

    constructor(items: seq<T>)
      ensures this.items == items
    {
      this.items := items;
    }

    /**
     * `arr.splice(start)` with one argument: removes everything from the cut on and returns it;
     * the array keeps what lies before the cut.
     */
    method Splice(start: int) returns (removed: seq<T>)
      modifies this
      ensures removed == old(items)[SpliceStart(start, |old(items)|)..]
      ensures items == old(items)[..SpliceStart(start, |old(items)|)]
      ensures items + removed == old(items)
    {
      var k := SpliceStart(start, |items|);
      removed := items[k..];
      items := items[..k];
    }
  }
}
