/**
 * The few editor types the engine reads: a position is a (line, character)
 * pair, a range is an ordered pair of positions, a selection has an anchor
 * and an active end, and a document is its list of lines (without line
 * terminators). Only what the engine asks of them is modelled.
 */
module Host {

  datatype Position = Position(line: nat, character: nat)

  /** `a` comes at or before `b` in the document. */
  predicate Before(a: Position, b: Position) {
    a.line < b.line || (a.line == b.line && a.character <= b.character)
  }

  datatype Range = Range(start: Position, end: Position) {
    predicate IsEmpty() { start == end }
  }

  /** A range built from two positions in either order, as the editor's range constructor does. */
  function MakeRange(a: Position, b: Position): (r: Range)
    ensures Before(r.start, r.end)
    ensures (r.start == a && r.end == b) || (r.start == b && r.end == a)
  {
    if Before(a, b) then Range(a, b) else Range(b, a)
  }

  datatype Selection = Selection(anchor: Position, active: Position) {
    predicate IsEmpty() { anchor == active }
    function AsRange(): Range { MakeRange(anchor, active) }
  }

  type Document = seq<string>

  predicate ValidPosition(doc: Document, p: Position) {
    p.line < |doc| && p.character <= |doc[p.line]|
  }

  predicate ValidRange(doc: Document, r: Range) {
    ValidPosition(doc, r.start) && ValidPosition(doc, r.end) && Before(r.start, r.end)
  }

  /** The position just after the last character of a line. */
  function LineEnd(doc: Document, line: nat): (p: Position)
    requires line < |doc|
    ensures ValidPosition(doc, p) && p.line == line
    ensures forall q :: ValidPosition(doc, q) && q.line == line ==> Before(q, p)
  {
    Position(line, |doc[line]|)
  }

  /** The document after the text of a range is removed: the lines around it are joined. */
  function Delete(doc: Document, r: Range): (d: Document)
    requires ValidRange(doc, r)
    ensures |d| == |doc| - (r.end.line - r.start.line)
    ensures d[..r.start.line] == doc[..r.start.line]
    ensures d[r.start.line + 1..] == doc[r.end.line + 1..]
    ensures d[r.start.line] == doc[r.start.line][..r.start.character] + doc[r.end.line][r.end.character..]
  {
    doc[..r.start.line]
      + [doc[r.start.line][..r.start.character] + doc[r.end.line][r.end.character..]]
      + doc[r.end.line + 1..]
  }

  /** What the engine sees of the active editor: its document and its selection. */
  datatype EditorState = EditorState(document: Document, selection: Selection) {
    predicate Valid() {
      ValidPosition(document, selection.anchor) && ValidPosition(document, selection.active)
    }
    function Cursor(): Position { selection.active }
  }
}
