/**
 * An append-only list of lines. `GetLines` hands out the internal array
 * itself, not a copy: whatever the caller does to it, the buffer sees, and
 * every later `AddLine` shows through the reference handed out earlier.
 */
module LineBuffer {
  import opened JsArray

  class Buffer {
    const lines: StringArray

    constructor ()
      ensures fresh(lines) && lines.elems == []
    {
      lines := new StringArray();
    }

    /** Append `line` at the end; the earlier lines stay as they were. */
    method AddLine(line: string)
      modifies lines
      ensures lines.elems == old(lines.elems) + [line]
    {
      lines.Push(line);
    }

    /** The lines in insertion order: the buffer's own array, unchanged. */
    method GetLines() returns (r: StringArray)
      ensures r == lines && r.elems == lines.elems
    {
      r := lines;
    }
  }

  /**
   * The lines come back in insertion order, and a reference handed out
   * before a later `AddLine` sees that line too.
   */
  method AddedLinesShowThroughEarlierReference() returns (seen: seq<string>)
    ensures seen == ["first", "second"]
  {
    var b := new Buffer();
    b.AddLine("first");
    var view := b.GetLines();
    b.AddLine("second");
    seen := view.elems;
  }
}
