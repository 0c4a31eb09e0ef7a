/**
 * A JavaScript `string[]`: an object whose contents `push`, `shift` and
 * `pop` change in place. Every holder of the reference sees the change,
 * which is what `recentBuffer` and `Buffer.lines` rely on.
 */
module JsArray {
  import opened Wrappers

  class StringArray {
    var elems: seq<string>

    constructor ()
      ensures elems == []
    {
      elems := [];
    }

    /** `push`: append at the end. */
    method Push(x: string)
      modifies this
      ensures elems == old(elems) + [x]
    {
      elems := elems + [x];
    }

    /** `shift`: remove the first element; on an empty array, `undefined` and no change. */
    method Shift() returns (x: Option<string>)
      modifies this
      ensures old(elems) == [] ==> x == None && elems == []
      ensures old(elems) != [] ==> x == Some(old(elems)[0]) && elems == old(elems)[1..]
    {
      if elems == [] {
        x := None;
      } else {
        x := Some(elems[0]);
        elems := elems[1..];
      }
    }

    /** `pop`: remove the last element; on an empty array, `undefined` and no change. */
    method Pop() returns (x: Option<string>)
      modifies this
      ensures old(elems) == [] ==> x == None && elems == []
      ensures old(elems) != [] ==> x == Some(old(elems)[|old(elems)| - 1]) && elems == old(elems)[..|old(elems)| - 1]
    {
      if elems == [] {
        x := None;
      } else {
        x := Some(elems[|elems| - 1]);
        elems := elems[..|elems| - 1];
      }
    }
  }
}
