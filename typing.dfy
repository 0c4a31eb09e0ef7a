/**
 * The per-keystroke coordinator: for every typed character, tab and delete
 * it picks the token and the highlight range, starts the floating glyph,
 * the corner box and the pulse, keeps the pitch counter and the buffer of
 * recent keys, and sends its messages to the side panel in a fixed order.
 *
 * The host's own text insertion is not modelled: a typing handler is given
 * the editor as it is once the host has inserted the text. A delete handler
 * is given the editor before its edit and returns the document after it.
 */
module Typing {
  import opened Wrappers
  import opened Host
  import opened JsArray
  import Decorations
  import Animation
  import Pulse
  import opened PixelView

  // ---------------------------------------------------------------- tokens and rules

  predicate IsUpperLetter(c: char) {
    'A' <= c <= 'Z'
  }

  /** The key name shown for typed text: named whitespace, `SHIFT+` for a capital, the text itself otherwise. */
  function Token(text: string): (t: string)
    ensures text == " " ==> t == "SPACE"
    ensures text == "\n" ==> t == "ENTER"
    ensures text == "\t" ==> t == "TAB"
    ensures |text| == 1 && IsUpperLetter(text[0]) ==> t == "SHIFT+" + text
    ensures text != " " && text != "\n" && text != "\t" && !(|text| == 1 && IsUpperLetter(text[0])) ==> t == text
  {
    if |text| == 1 && IsUpperLetter(text[0]) then "SHIFT+" + text
    else if text == " " then "SPACE"
    else if text == "\n" then "ENTER"
    else if text == "\t" then "TAB"
    else text
  }

  /** A token is falsy exactly for empty text: then no glyph, corner box or sound starts. */
  lemma TokenFalsy(text: string)
    ensures Token(text) == "" <==> text == ""
  {
  }

  /** Every named or shifted key takes its colour from the special palette. */
  lemma TokenSpecial(text: string)
    ensures text == " " || text == "\n" || text == "\t" || (|text| == 1 && IsUpperLetter(text[0])) ==>
              Decorations.IsSpecial(Token(text))
  {
  }

  /** Enter and tab float straight up; everything else typed drifts left. */
  function GlyphDirection(token: string): (d: Decorations.Direction)
    ensures d == Decorations.Middle <==> token == "ENTER" || token == "TAB"
    ensures d != Decorations.Right
  {
    if token == "ENTER" || token == "TAB" then Decorations.Middle else Decorations.Left
  }

  /** Tokens that get a corner box. */
  predicate CornerEligible(token: string) {
    token != "ENTER" && token != "TAB" && token != "BACKSPACE"
  }

  const Magenta := "#ff00ff"
  const Cyan := "#00ffff"

  /** Magenta for space, delete and shifted keys, cyan for everything else. */
  function CornerColor(token: string): (c: string)
    ensures c == Magenta <==> token == "SPACE" || token == "DELETE" || "SHIFT+" <= token
    ensures c == Magenta || c == Cyan
  {
    if token == "SPACE" || token == "DELETE" || "SHIFT+" <= token then Magenta else Cyan
  }

  /** What the typed-character rules give for characters: which keys draw a box, in which colour, which palette the glyph takes and which way it drifts. */
  lemma CharacterRules(c: char)
    ensures c == '\n' || c == '\t' <==> !CornerEligible(Token([c]))
    ensures CornerColor(Token([c])) == Magenta <==> c == ' ' || IsUpperLetter(c)
    ensures GlyphDirection(Token([c])) == Decorations.Middle <==> c == '\n' || c == '\t'
    ensures Decorations.IsSpecial(Token([c])) <==> c == ' ' || c == '\n' || c == '\t' || IsUpperLetter(c)
  {
    if IsUpperLetter(c) {
      assert Token([c]) == "SHIFT+" + [c];
      assert "SHIFT+" <= Token([c]);
    } else {
      assert !("SHIFT+" <= [c]) by {
        assert |"SHIFT+"| > |[c]|;
      }
    }
  }

  function SoundFor(token: string): (s: SoundType)
    ensures s == EnterSound <==> token == "ENTER"
  {
    if token == "ENTER" then EnterSound else Normal
  }

  // ---------------------------------------------------------------- pitch

  /**
   * The playback rate after the `level`-th keystroke of a burst, in
   * hundredths: one hundredth above normal per keystroke, between 0.95 and 1.30.
   */
  function Pitch(level: nat): (p: int)
    ensures 95 <= p <= 130
    ensures level <= 30 ==> p == 100 + level
    ensures level >= 30 ==> p == 130
  {
    var raw := 100 + level;
    if raw > 130 then 130 else if raw < 95 then 95 else raw
  }

  /** Within a burst the rate rises by one hundredth per key until the cap, and never falls. */
  lemma PitchRamp(level: nat)
    ensures Pitch(level + 1) == if Pitch(level) < 130 then Pitch(level) + 1 else 130
    ensures Pitch(level) <= Pitch(level + 1)
  {
  }

  // ---------------------------------------------------------------- recent keys

  const RecentCapacity: nat := 50

  /** The buffer after pushing `x`: appended, and the oldest entry shifted off when over capacity. */
  function Pushed(buffer: seq<string>, x: string): (b: seq<string>)
    ensures |b| <= |buffer| + 1
    ensures |buffer| <= RecentCapacity ==> |b| <= RecentCapacity
    ensures b != [] && b[|b| - 1] == x
  {
    var appended := buffer + [x];
    if |appended| > RecentCapacity then appended[1..] else appended
  }

  /** The buffer after a delete handler's unconditional `pop`. */
  function Popped(buffer: seq<string>): (b: seq<string>)
    ensures buffer == [] ==> b == []
    ensures buffer != [] ==> b + [buffer[|buffer| - 1]] == buffer
  {
    if buffer == [] then [] else buffer[..|buffer| - 1]
  }

  /** The last `n` items of `s`, or all of them when there are fewer. */
  function LastN(s: seq<string>, n: nat): (t: seq<string>)
    ensures |t| == if |s| <= n then |s| else n
  {
    if |s| <= n then s else s[|s| - n..]
  }

  function PushAll(buffer: seq<string>, xs: seq<string>): seq<string>
    decreases |xs|
  {
    if xs == [] then buffer else PushAll(Pushed(buffer, xs[0]), xs[1..])
  }

  /** However many keys are pushed, the buffer holds the last 50 of everything pushed, in push order. */
  lemma {:induction false} PushAllIsLastN(buffer: seq<string>, xs: seq<string>)
    requires |buffer| <= RecentCapacity
    ensures PushAll(buffer, xs) == LastN(buffer + xs, RecentCapacity)
    decreases |xs|
  {
    if xs == [] {
      assert buffer + xs == buffer;
    } else {
      var b := Pushed(buffer, xs[0]);
      PushAllIsLastN(b, xs[1..]);
      var all := buffer + xs;
      assert b == LastN(buffer + [xs[0]], RecentCapacity);
      assert b + xs[1..] == LastN(buffer + [xs[0]], RecentCapacity) + xs[1..];
      if |buffer| + 1 > RecentCapacity {
        assert buffer + [xs[0]] + xs[1..] == all;
        assert b + xs[1..] == all[1..];
        assert LastN(all[1..], RecentCapacity) == LastN(all, RecentCapacity);
      } else {
        assert b + xs[1..] == all;
      }
    }
  }

  // ---------------------------------------------------------------- ranges

  function Max0(x: int): nat {
    if x < 0 then 0 else x
  }

  /**
   * The range the effects are drawn on after `text` was typed and the cursor
   * moved to `cursor`: the end of the previous line for a newline, the tab
   * and the last character otherwise. At column 0 the one-character step
   * back is off the line and the editor refuses it: no range.
   */
  function InsertRange(doc: Document, cursor: Position, text: string): (r: Option<Range>)
    requires ValidPosition(doc, cursor)
    ensures r.Some? ==> ValidRange(doc, r.value) && (text != "\n" ==> r.value.end.line == r.value.start.line)
    ensures r.None? <==> text != "\n" && text != "\t" && cursor.character == 0
    ensures text == "\n" ==> r.Some? && r.value.IsEmpty()
    ensures text == "\n" && cursor.line > 0 ==> r == Some(Range(LineEnd(doc, cursor.line - 1), LineEnd(doc, cursor.line - 1)))
    ensures text == "\n" && cursor.line == 0 ==> r == Some(Range(cursor, cursor))
    ensures text != "\n" && r.Some? ==>
      && r.value.end == cursor
      && r.value.start == Position(cursor.line, Max0(cursor.character - 1))
  {
    if text == "\n" then
      var at := if cursor.line > 0 then LineEnd(doc, cursor.line - 1) else cursor;
      Some(MakeRange(at, at))
    else if text == "\t" then
      Some(MakeRange(Position(cursor.line, Max0(cursor.character - 1)), cursor))
    else if cursor.character == 0 then None
    else Some(MakeRange(Position(cursor.line, cursor.character - 1), cursor))
  }

  /** `s` typed at `p`, containing no line break. */
  function InsertText(doc: Document, p: Position, s: string): (d: Document)
    requires ValidPosition(doc, p)
    ensures |d| == |doc|
  {
    doc[..p.line] + [doc[p.line][..p.character] + s + doc[p.line][p.character..]] + doc[p.line + 1..]
  }

  /** A line break typed at `p`, the editor putting `indent` at the start of the new line. */
  function SplitLine(doc: Document, p: Position, indent: string): (d: Document)
    requires ValidPosition(doc, p)
    ensures |d| == |doc| + 1
  {
    doc[..p.line] + [doc[p.line][..p.character], indent + doc[p.line][p.character..]] + doc[p.line + 1..]
  }

  /** The text a range on one line covers. */
  function TextIn(doc: Document, r: Range): (t: string)
    requires ValidRange(doc, r) && r.start.line == r.end.line
    ensures |t| == r.end.character - r.start.character
  {
    doc[r.start.line][r.start.character..r.end.character]
  }

  /** After typing non-empty text without a line break, the highlight covers exactly its last character. */
  lemma InsertHighlightsLastCharacter(doc: Document, p: Position, s: string)
    requires ValidPosition(doc, p) && s != [] && '\n' !in s
    ensures var d, cursor := InsertText(doc, p, s), Position(p.line, p.character + |s|);
      && ValidPosition(d, cursor)
      && InsertRange(d, cursor, s) == Some(Range(Position(p.line, p.character + |s| - 1), cursor))
      && TextIn(d, InsertRange(d, cursor, s).value) == [s[|s| - 1]]
  {
    var d, cursor := InsertText(doc, p, s), Position(p.line, p.character + |s|);
    var line := doc[p.line][..p.character] + s + doc[p.line][p.character..];
    assert d[p.line] == line;
    assert s != "\n";
    var r := InsertRange(d, cursor, s);
    assert line[p.character + |s| - 1] == s[|s| - 1];
  }

  /**
   * After typing a line break, wherever on the new line the cursor ends up
   * (after the editor's indentation, say), the highlight is the empty range
   * where the break went in.
   */
  lemma NewlineHighlightsBreak(doc: Document, p: Position, indent: string, k: nat)
    requires ValidPosition(doc, p) && k <= |indent| + |doc[p.line]| - p.character
    ensures var d := SplitLine(doc, p, indent);
      && ValidPosition(d, Position(p.line + 1, k))
      && InsertRange(d, Position(p.line + 1, k), "\n") == Some(Range(p, p))
  {
    var d := SplitLine(doc, p, indent);
    assert d[p.line] == doc[p.line][..p.character];
    assert d[p.line + 1] == indent + doc[p.line][p.character..];
  }

  /**
   * Delete-left chooses, in order: a non-empty selection, the character
   * before the cursor, the line break before the cursor's line; at the very
   * start of the document, nothing.
   */
  function DeleteLeftRange(doc: Document, sel: Selection): (r: Option<Range>)
    requires ValidPosition(doc, sel.anchor) && ValidPosition(doc, sel.active)
    ensures r.Some? ==> ValidRange(doc, r.value) && !r.value.IsEmpty()
    ensures r.None? <==> sel.IsEmpty() && sel.active == Position(0, 0)
    ensures !sel.IsEmpty() ==> r == Some(sel.AsRange())
    ensures sel.IsEmpty() && r.Some? ==> r.value.end == sel.active
    ensures sel.IsEmpty() && sel.active.character > 0 ==>
      r == Some(Range(Position(sel.active.line, sel.active.character - 1), sel.active))
    ensures sel.IsEmpty() && sel.active.character == 0 && sel.active.line > 0 ==>
      r == Some(Range(LineEnd(doc, sel.active.line - 1), sel.active))
  {
    var p := sel.active;
    if !sel.IsEmpty() then Some(sel.AsRange())
    else if p.character > 0 then Some(Range(Position(p.line, p.character - 1), p))
    else if p.line > 0 then Some(Range(LineEnd(doc, p.line - 1), p))
    else None
  }

  /**
   * Delete-right chooses, in order: a non-empty selection, the character
   * after the cursor, the line break after the cursor's line; at the very
   * end of the document, nothing.
   */
  function DeleteRightRange(doc: Document, sel: Selection): (r: Option<Range>)
    requires ValidPosition(doc, sel.anchor) && ValidPosition(doc, sel.active)
    ensures r.Some? ==> ValidRange(doc, r.value) && !r.value.IsEmpty()
    ensures r.None? <==> sel.IsEmpty() && sel.active == LineEnd(doc, |doc| - 1)
    ensures !sel.IsEmpty() ==> r == Some(sel.AsRange())
    ensures sel.IsEmpty() && r.Some? ==> r.value.start == sel.active
    ensures sel.IsEmpty() && sel.active.character < |doc[sel.active.line]| ==>
      r == Some(Range(sel.active, Position(sel.active.line, sel.active.character + 1)))
    ensures sel.IsEmpty() && sel.active.character == |doc[sel.active.line]| && sel.active.line < |doc| - 1 ==>
      r == Some(Range(sel.active, Position(sel.active.line + 1, 0)))
  {
    var p := sel.active;
    if !sel.IsEmpty() then Some(sel.AsRange())
    else if p.character < |doc[p.line]| then Some(Range(p, Position(p.line, p.character + 1)))
    else if p.line < |doc| - 1 then Some(Range(p, Position(p.line + 1, 0)))
    else None
  }

  /** The document after a delete handler's edit: the chosen range removed, or nothing changed. */
  function AfterDelete(doc: Document, r: Option<Range>): (d: Document)
    requires r.Some? ==> ValidRange(doc, r.value)
    ensures r.None? ==> d == doc
    ensures r.Some? ==>
      var s, e := r.value.start, r.value.end;
      && |d| == |doc| - (e.line - s.line)
      && d[..s.line] == doc[..s.line]
      && d[s.line] == doc[s.line][..s.character] + doc[e.line][e.character..]
      && d[s.line + 1..] == doc[e.line + 1..]
  {
    if r.Some? then Delete(doc, r.value) else doc
  }

  /** Backspace right after typing a character removes it again. */
  lemma BackspaceUndoesTyping(doc: Document, p: Position, c: char)
    requires ValidPosition(doc, p) && c != '\n'
    ensures var d, cursor := InsertText(doc, p, [c]), Position(p.line, p.character + 1);
      && ValidPosition(d, cursor)
      && AfterDelete(d, DeleteLeftRange(d, Selection(cursor, cursor))) == doc
  {
    var d, cursor := InsertText(doc, p, [c]), Position(p.line, p.character + 1);
    var line := doc[p.line];
    assert d[p.line] == line[..p.character] + [c] + line[p.character..];
    var r := DeleteLeftRange(d, Selection(cursor, cursor));
    assert r == Some(Range(p, cursor));
    assert d[p.line][..p.character] + d[p.line][p.character + 1..] == line;
    assert d[..p.line] == doc[..p.line];
    assert d[p.line + 1..] == doc[p.line + 1..];
    assert doc == doc[..p.line] + [line] + doc[p.line + 1..];
  }

  /** Backspace at the start of the line a line break just created joins the two halves again. */
  lemma BackspaceUndoesLineBreak(doc: Document, p: Position)
    requires ValidPosition(doc, p)
    ensures var d, cursor := SplitLine(doc, p, ""), Position(p.line + 1, 0);
      && ValidPosition(d, cursor)
      && AfterDelete(d, DeleteLeftRange(d, Selection(cursor, cursor))) == doc
  {
    var d, cursor := SplitLine(doc, p, ""), Position(p.line + 1, 0);
    var line := doc[p.line];
    assert d[p.line] == line[..p.character] && d[p.line + 1] == line[p.character..];
    var r := DeleteLeftRange(d, Selection(cursor, cursor));
    assert r == Some(Range(p, cursor));
    assert d[p.line][..p.character] + d[p.line + 1][0..] == line;
    assert d[..p.line] == doc[..p.line];
    assert d[p.line + 2..] == doc[p.line + 1..];
    assert doc == doc[..p.line] + [line] + doc[p.line + 1..];
  }

  /** Delete with the cursor in front of a character that was just put there removes it again. */
  lemma DeleteUndoesTyping(doc: Document, p: Position, c: char)
    requires ValidPosition(doc, p) && c != '\n'
    ensures var d := InsertText(doc, p, [c]);
      && ValidPosition(d, p)
      && AfterDelete(d, DeleteRightRange(d, Selection(p, p))) == doc
  {
    var d := InsertText(doc, p, [c]);
    var line := doc[p.line];
    assert d[p.line] == line[..p.character] + [c] + line[p.character..];
    var r := DeleteRightRange(d, Selection(p, p));
    assert r == Some(Range(p, Position(p.line, p.character + 1)));
    assert d[p.line][..p.character] + d[p.line][p.character + 1..] == line;
    assert d[..p.line] == doc[..p.line];
    assert d[p.line + 1..] == doc[p.line + 1..];
    assert doc == doc[..p.line] + [line] + doc[p.line + 1..];
  }

  /** Delete at the end of the first half of a split line joins the halves again. */
  lemma DeleteUndoesLineBreak(doc: Document, p: Position)
    requires ValidPosition(doc, p)
    ensures var d := SplitLine(doc, p, "");
      && ValidPosition(d, p)
      && AfterDelete(d, DeleteRightRange(d, Selection(p, p))) == doc
  {
    var d := SplitLine(doc, p, "");
    var line := doc[p.line];
    assert d[p.line] == line[..p.character] && d[p.line + 1] == line[p.character..];
    var r := DeleteRightRange(d, Selection(p, p));
    assert r == Some(Range(p, Position(p.line + 1, 0)));
    assert d[p.line][..p.character] + d[p.line + 1][0..] == line;
    assert d[..p.line] == doc[..p.line];
    assert d[p.line + 2..] == doc[p.line + 1..];
    assert doc == doc[..p.line] + [line] + doc[p.line + 1..];
  }

  /** Backspace with an empty selection at column `c` > 0 removes exactly the character before the cursor. */
  lemma BackspaceRemovesOneCharacter(doc: Document, p: Position)
    requires ValidPosition(doc, p) && p.character > 0
    ensures var d := AfterDelete(doc, DeleteLeftRange(doc, Selection(p, p)));
      && |d| == |doc|
      && d[p.line] == doc[p.line][..p.character - 1] + doc[p.line][p.character..]
      && forall i | 0 <= i < |doc| && i != p.line :: d[i] == doc[i]
  {
    var d := AfterDelete(doc, DeleteLeftRange(doc, Selection(p, p)));
    forall i | 0 <= i < |doc| && i != p.line
      ensures d[i] == doc[i]
    {
      if i < p.line {
        assert d[i] == d[..p.line][i];
      } else {
        assert d[i] == d[p.line + 1..][i - p.line - 1];
      }
    }
  }

  // ---------------------------------------------------------------- messages

  /** The light shake and the key sound a truthy token sends before anything else. */
  function TokenMessages(token: string, pitch: int): (ms: seq<Message>)
    ensures token == "" ==> ms == []
    ensures token != "" ==> ms == [Shake(Some(3)), PlaySound(SoundFor(token), pitch)]
  {
    if token != "" then [Shake(Some(3)), PlaySound(SoundFor(token), pitch)] else []
  }

  /** Enter shakes at the webview's default strength, any other key at 0.5. */
  function ClosingShake(token: string): (m: Message)
    ensures m.Shake? && (m.intensity.None? <==> token == "ENTER")
    ensures token != "ENTER" ==> m.intensity == Some(5)
  {
    if token == "ENTER" then Shake(None) else Shake(Some(5))
  }

  /** Every entry of `qs` is a message, not a live buffer. */
  function Posts(ms: seq<Message>): (qs: seq<Queued>)
    ensures |qs| == |ms| && Buffers(qs) == {}
    ensures forall i | 0 <= i < |qs| :: qs[i] == Post(ms[i])
    decreases |ms|
  {
    if ms == [] then [] else [Post(ms[0])] + Posts(ms[1..])
  }

  /** Messages queued as they are come out as they went in. */
  lemma {:induction false} PostsResolve(ms: seq<Message>)
    ensures ResolveAll(Posts(ms)) == ms
    decreases |ms|
  {
    if ms != [] {
      PostsResolve(ms[1..]);
      assert Posts(ms)[1..] == Posts(ms[1..]);
    }
  }

  lemma PostsAppend(ms: seq<Message>, m: Message)
    ensures Posts(ms + [m]) == Posts(ms) + [Post(m)]
  {
    assert Posts(ms + [m]) == Posts(ms) + [Post(m)] by {
      assert forall i | 0 <= i < |ms| :: (ms + [m])[i] == ms[i];
    }
  }

  /** The messages `ms` posted, then an update of the live buffer `recent`. */
  function WithUpdate(ms: seq<Message>, recent: StringArray): (qs: seq<Queued>)
    ensures |qs| == |ms| + 1 && qs[|ms|] == UpdateOf(recent) && Buffers(qs) == {recent}
    ensures forall i | 0 <= i < |ms| :: qs[i] == Post(ms[i])
  {
    Posts(ms) + [UpdateOf(recent)]
  }

  /** Once drained, a posted prefix is itself and the update is the buffer as it is then. */
  lemma WithUpdateResolves(ms: seq<Message>, recent: StringArray)
    ensures ResolveAll(WithUpdate(ms, recent)) == ms + [BufferUpdate(recent.elems)]
  {
    PostsResolve(ms);
    ResolveAllAppend(Posts(ms), [UpdateOf(recent)]);
    assert [UpdateOf(recent)][1..] == [];
  }

  /**
   * What a typed key sends, in order: a light shake and the key sound if the
   * token is truthy, the closing shake, and finally the live buffer.
   */
  function TypeSends(token: string, pitch: int, recent: StringArray): (q: seq<Queued>)
    reads recent
    ensures |q| == (if token != "" then 4 else 2) && q[|q| - 1] == UpdateOf(recent)
    ensures ResolveAll(q) == TokenMessages(token, pitch) + [ClosingShake(token), BufferUpdate(recent.elems)]
  {
    WithUpdateResolves(TokenMessages(token, pitch) + [ClosingShake(token)], recent);
    assert TokenMessages(token, pitch) + [ClosingShake(token)] + [BufferUpdate(recent.elems)]
        == TokenMessages(token, pitch) + [ClosingShake(token), BufferUpdate(recent.elems)];
    WithUpdate(TokenMessages(token, pitch) + [ClosingShake(token)], recent)
  }

  /** What the tab key sends, in order: a light shake, the normal key sound, the live buffer. */
  function TabSends(pitch: int, recent: StringArray): (q: seq<Queued>)
    reads recent
    ensures |q| == 3 && q[2] == UpdateOf(recent)
    ensures ResolveAll(q) == [Shake(Some(3)), PlaySound(Normal, pitch), BufferUpdate(recent.elems)]
  {
    WithUpdateResolves([Shake(Some(3)), PlaySound(Normal, pitch)], recent);
    WithUpdate([Shake(Some(3)), PlaySound(Normal, pitch)], recent)
  }

  /** What both delete keys send, in order: the live buffer, then a shake at 0.5; never a sound. */
  function DeleteSends(recent: StringArray): (q: seq<Queued>)
    reads recent
    ensures |q| == 2 && q[0] == UpdateOf(recent) && q[1] == Post(Shake(Some(5)))
    ensures ResolveAll(q) == [BufferUpdate(recent.elems), Shake(Some(5))]
  {
    var q := [UpdateOf(recent), Post(Shake(Some(5)))];
    assert q[1..][1..] == [];
    q
  }

  /**
   * The provider `p`, which held `queue0` and had handed over `delivered0`,
   * was sent `sends`: if it was open, their messages `msgs` went straight to
   * the webview; otherwise `sends` wait at the end of the queue.
   */
  ghost predicate Handed(p: Provider, queue0: seq<Queued>, delivered0: seq<Message>, open0: bool,
                         sends: seq<Queued>, msgs: seq<Message>)
    reads p
  {
    if open0 then p.queue == queue0 && p.delivered == delivered0 + msgs
    else p.queue == queue0 + sends && p.delivered == delivered0
  }

  /** Send one entry, whose message is `m` now: `postMessage` for a message, `update` for the buffer. */
  method Send(p: Provider, x: Queued, ghost m: Message, ghost queue0: seq<Queued>, ghost delivered0: seq<Message>,
              ghost sent: seq<Queued>, ghost msgs: seq<Message>)
    requires p.Valid() && Handed(p, queue0, delivered0, p.Open(), sent, msgs)
    requires x.Post? ==> m == x.msg
    requires x.UpdateOf? ==> m == BufferUpdate(x.buffer.elems)
    modifies p
    ensures p.Valid() && p.hasView == old(p.hasView) && p.isReady == old(p.isReady)
    ensures Handed(p, queue0, delivered0, p.Open(), sent + [x], msgs + [m])
  {
    match x {
      case Post(msg) => p.PostMessage(msg);
      case UpdateOf(b) => p.Update(b);
    }
  }

  /** `postMessage(m)` after the messages `msgs`, all posted. */
  method PostTo(p: Provider, m: Message, ghost queue0: seq<Queued>, ghost delivered0: seq<Message>, ghost msgs: seq<Message>)
    requires p.Valid() && Handed(p, queue0, delivered0, p.Open(), Posts(msgs), msgs)
    modifies p
    ensures p.Valid() && p.hasView == old(p.hasView) && p.isReady == old(p.isReady)
    ensures Handed(p, queue0, delivered0, p.Open(), Posts(msgs + [m]), msgs + [m])
  {
    PostsAppend(msgs, m);
    Send(p, Post(m), m, queue0, delivered0, Posts(msgs), msgs);
  }

  // ---------------------------------------------------------------- the engine

  /** The effects a typed key started: each may be absent. */
  datatype TypeEffects = TypeEffects(glyph: Option<Animation.FrameAnimation>, corner: Option<Animation.FrameAnimation>,
                                     pulse: Option<Pulse.PulseAnimation>, arrowLine: Option<nat>)

  /** The effects a delete key started, and the document after its edit. */
  datatype DeleteEffects = DeleteEffects(glyph: Option<Animation.FrameAnimation>, corner: Option<Animation.FrameAnimation>,
                                         document: Document)

  const NoEffects := TypeEffects(None, None, None, None)

  /** `a` is a new floating glyph of `token` on `range`, moving in `direction`, not yet stepped. */
  ghost predicate GlyphOf(a: Animation.FrameAnimation, token: string, direction: Option<Decorations.Direction>, range: Range)
    reads a
  {
    && a.Valid() && a.kind == Animation.FloatingGlyph && a.range == range
    && a.State() == Animation.Initial(Animation.FloatingGlyph)
    && a.visual.GlyphVisual? && a.visual.text == token && a.visual.direction == direction
  }

  /** `a` is a new corner box in `color` on `range`, not yet stepped. */
  ghost predicate BoxOf(a: Animation.FrameAnimation, color: string, range: Range)
    reads a
  {
    && a.Valid() && a.kind == Animation.CornerBox && a.range == range
    && a.State() == Animation.Initial(Animation.CornerBox)
    && a.visual == Animation.BoxVisual(color)
  }

  /** `p` is a new pulse on `range` showing its first frame. */
  ghost predicate PulseOf(p: Pulse.PulseAnimation, range: Range)
    reads p
  {
    p.Valid() && p.range == range && p.State() == Pulse.Start()
  }

  /** The colour allocated for `token`'s glyph: a random special colour, or the next gradient colour. */
  ghost predicate Allocated(color: string, token: string, index0: nat, index: nat) {
    if Decorations.IsSpecial(token) then color in Decorations.SpecialColors() && index == index0
    else color == Decorations.GradientColorAt(index0) && index == index0 + 1
  }

  /** The module state of the coordinator: the recent keys, the pitch counter and its reset timer. */
  class TypingEngine {
    const allocator: Decorations.ColorAllocator
    const recent: StringArray
    const provider: Provider
    var pitchLevel: nat
    /** The reset timer still pending, by id; a cleared timer never fires. */
    var pitchResetTimer: Option<nat>
    var timersStarted: nat

    ghost predicate Valid()
      reads this, recent, provider
    {
      && provider.Valid()
      && |recent.elems| <= RecentCapacity
      && (pitchResetTimer.Some? ==> pitchResetTimer.value < timersStarted)
    }

    constructor (provider: Provider)
      requires provider.Valid()
      ensures Valid() && this.provider == provider && fresh(allocator) && fresh(recent)
      ensures recent.elems == [] && allocator.colorIndex == 0
      ensures pitchLevel == 0 && pitchResetTimer == None && timersStarted == 0
    {
      this.provider := provider;
      allocator := new Decorations.ColorAllocator();
      recent := new StringArray();
      pitchLevel := 0;
      pitchResetTimer := None;
      timersStarted := 0;
    }

    /** A typed key or tab: count it, clear the pending reset timer and start a new one; the pitch for this key. */
    method RegisterKeystroke() returns (pitch: int)
      requires Valid()
      modifies this
      ensures Valid()
      ensures pitchLevel == old(pitchLevel) + 1 && pitch == Pitch(pitchLevel)
      ensures pitchResetTimer == Some(old(timersStarted)) && timersStarted == old(timersStarted) + 1
    {
      pitchLevel := pitchLevel + 1;
      pitchResetTimer := Some(timersStarted);
      timersStarted := timersStarted + 1;
      pitch := Pitch(pitchLevel);
    }

    /** The pending reset timer fires: the burst is over and the count starts again. */
    method PitchResetFires(id: nat)
      requires Valid() && pitchResetTimer == Some(id)
      modifies this
      ensures Valid() && pitchLevel == 0 && pitchResetTimer == None && timersStarted == old(timersStarted)
    {
      pitchLevel := 0;
      pitchResetTimer := None;
    }

    /** Push a key onto the recent buffer, shifting the oldest off beyond capacity. */
    method PushRecent(text: string)
      requires Valid()
      modifies recent
      ensures Valid() && recent.elems == Pushed(old(recent.elems), text)
    {
      recent.Push(text);
      if |recent.elems| > RecentCapacity {
        var _ := recent.Shift();
      }
    }

    /**
     * Record a key in the recent buffer and hand the live buffer to the
     * provider, after the messages `msgs`, all posted.
     */
    method RecordKey(text: string, ghost queue0: seq<Queued>, ghost delivered0: seq<Message>, ghost msgs: seq<Message>)
      requires Valid() && Handed(provider, queue0, delivered0, provider.Open(), Posts(msgs), msgs)
      modifies recent, provider
      ensures Valid() && provider.hasView == old(provider.hasView) && provider.isReady == old(provider.isReady)
      ensures recent.elems == Pushed(old(recent.elems), text)
      ensures Handed(provider, queue0, delivered0, provider.Open(), WithUpdate(msgs, recent),
                     msgs + [BufferUpdate(recent.elems)])
    {
      PushRecent(text);
      Send(provider, UpdateOf(recent), BufferUpdate(recent.elems), queue0, delivered0, Posts(msgs), msgs);
    }

    /** The light shake and the key sound, with their pitch, that a typed key or tab sends first. */
    method Feedback(sound: SoundType, pitch: int)
      requires Valid()
      modifies provider
      ensures Valid() && provider.hasView == old(provider.hasView) && provider.isReady == old(provider.isReady)
      ensures Handed(provider, old(provider.queue), old(provider.delivered), old(provider.Open()),
                     Posts([Shake(Some(3)), PlaySound(sound, pitch)]), [Shake(Some(3)), PlaySound(sound, pitch)])
    {
      ghost var queue0, delivered0 := provider.queue, provider.delivered;
      PostTo(provider, Shake(Some(3)), queue0, delivered0, []);
      PostTo(provider, PlaySound(sound, pitch), queue0, delivered0, [Shake(Some(3))]);
    }

    /**
     * Start a floating glyph for `token` on `range`: its colour is allocated
     * once, for the first frame, and every later frame reuses it.
     */
    method FloatGlyph(token: string, direction: Option<Decorations.Direction>, range: Range)
      returns (a: Animation.FrameAnimation)
      modifies allocator
      ensures fresh(a) && GlyphOf(a, token, direction, range)
      ensures Allocated(a.visual.color, token, old(allocator.colorIndex), allocator.colorIndex)
    {
      var first := allocator.PixelTextDecoration(token, Animation.GlyphSize, 0.0, None, direction);
      a := new Animation.FrameAnimation.Glyph(first, range);
    }

    /**
     * The part of `type` that runs only for a truthy token: the glyph, the
     * light shake, the key sound and, for an eligible key, the corner box.
     */
    method TokenEffects(token: string, range: Range, pitch: int)
      returns (glyph: Option<Animation.FrameAnimation>, corner: Option<Animation.FrameAnimation>)
      requires Valid()
      modifies allocator, provider
      ensures Valid() && provider.hasView == old(provider.hasView) && provider.isReady == old(provider.isReady)
      ensures Handed(provider, old(provider.queue), old(provider.delivered), old(provider.Open()),
                     Posts(TokenMessages(token, pitch)), TokenMessages(token, pitch))
      ensures glyph.Some? <==> token != ""
      ensures glyph.Some? ==>
        && fresh(glyph.value) && GlyphOf(glyph.value, token, Some(GlyphDirection(token)), range)
        && Allocated(glyph.value.visual.color, token, old(allocator.colorIndex), allocator.colorIndex)
      ensures glyph.None? ==> allocator.colorIndex == old(allocator.colorIndex)
      ensures corner.Some? <==> token != "" && CornerEligible(token)
      ensures corner.Some? ==> fresh(corner.value) && BoxOf(corner.value, CornerColor(token), range)
    {
      glyph, corner := None, None;
      if token != "" {
        var a := FloatGlyph(token, Some(GlyphDirection(token)), range);
        glyph := Some(a);
        Feedback(SoundFor(token), pitch);
        if CornerEligible(token) {
          var b := new Animation.FrameAnimation.Box(CornerColor(token), range);
          corner := Some(b);
        }
      }
    }

    /**
     * The part of `type` that runs for every key once the highlight range
     * exists: the pulse, the arrow for Enter, the closing shake, the buffer.
     */
    method Conclude(range: Range, line: nat, text: string, ghost queue0: seq<Queued>, ghost delivered0: seq<Message>,
                    ghost head: seq<Message>)
      returns (pulse: Pulse.PulseAnimation, arrowLine: Option<nat>)
      requires Valid() && Handed(provider, queue0, delivered0, provider.Open(), Posts(head), head)
      modifies recent, provider
      ensures Valid() && provider.hasView == old(provider.hasView) && provider.isReady == old(provider.isReady)
      ensures fresh(pulse) && PulseOf(pulse, range)
      ensures arrowLine == (if Token(text) == "ENTER" then Some(line) else None)
      ensures recent.elems == Pushed(old(recent.elems), text)
      ensures Handed(provider, queue0, delivered0, provider.Open(), WithUpdate(head + [ClosingShake(Token(text))], recent),
                     head + [ClosingShake(Token(text)), BufferUpdate(recent.elems)])
    {
      var token := Token(text);
      pulse := new Pulse.PulseAnimation(range);
      arrowLine := None;
      if token == "ENTER" {
        arrowLine := Some(line);
      }
      PostTo(provider, ClosingShake(token), queue0, delivered0, head);
      RecordKey(text, queue0, delivered0, head + [ClosingShake(token)]);
      assert head + [ClosingShake(token)] + [BufferUpdate(recent.elems)]
          == head + [ClosingShake(token), BufferUpdate(recent.elems)];
    }

    /**
     * What `type` does once the highlight range `range` exists, for a cursor
     * on line `line`: the token effects, then the effects every key has.
     */
    method EffectsOn(range: Range, line: nat, text: string, pitch: int) returns (fx: TypeEffects)
      requires Valid()
      modifies allocator, recent, provider
      ensures Valid()
      ensures provider.hasView == old(provider.hasView) && provider.isReady == old(provider.isReady)
      ensures
        var token := Token(text);
        && fx.pulse.Some? && fresh(fx.pulse.value) && PulseOf(fx.pulse.value, range)
        && (fx.glyph.Some? <==> token != "")
        && (fx.glyph.Some? ==>
              && fresh(fx.glyph.value) && GlyphOf(fx.glyph.value, token, Some(GlyphDirection(token)), range)
              && Allocated(fx.glyph.value.visual.color, token, old(allocator.colorIndex), allocator.colorIndex))
        && (fx.glyph.None? ==> allocator.colorIndex == old(allocator.colorIndex))
        && (fx.corner.Some? <==> token != "" && CornerEligible(token))
        && (fx.corner.Some? ==> fresh(fx.corner.value) && BoxOf(fx.corner.value, CornerColor(token), range))
        && fx.arrowLine == (if token == "ENTER" then Some(line) else None)
        && recent.elems == Pushed(old(recent.elems), text)
        && Handed(provider, old(provider.queue), old(provider.delivered), old(provider.Open()),
                  TypeSends(token, pitch, recent),
                  TokenMessages(token, pitch) + [ClosingShake(token), BufferUpdate(recent.elems)])
    {
      var token := Token(text);
      ghost var queue0, delivered0 := provider.queue, provider.delivered;
      var glyph, corner := TokenEffects(token, range, pitch);
      var pulse, arrowLine := Conclude(range, line, text, queue0, delivered0, TokenMessages(token, pitch));
      fx := TypeEffects(glyph, corner, Some(pulse), arrowLine);
    }

    /**
     * The `type` command, for text the host has already inserted into the
     * editor `editor`. Without an editor nothing happens; when the highlight
     * range cannot be formed only the pitch counter has moved.
     */
    method OnType(editor: Option<EditorState>, text: string) returns (fx: TypeEffects)
      requires Valid() && (editor.Some? ==> editor.value.Valid())
      modifies this, allocator, recent, provider
      ensures Valid()
      ensures provider.hasView == old(provider.hasView) && provider.isReady == old(provider.isReady)
      ensures editor.None? ==>
        fx == NoEffects && unchanged(this, allocator, recent, provider)
      ensures editor.Some? ==>
        && pitchLevel == old(pitchLevel) + 1
        && pitchResetTimer == Some(old(timersStarted)) && timersStarted == old(timersStarted) + 1
      ensures editor.Some? && InsertRange(editor.value.document, editor.value.Cursor(), text).None? ==>
        fx == NoEffects && unchanged(allocator, recent, provider)
      ensures editor.Some? && InsertRange(editor.value.document, editor.value.Cursor(), text).Some? ==>
        var range, token := InsertRange(editor.value.document, editor.value.Cursor(), text).value, Token(text);
        && fx.pulse.Some? && fresh(fx.pulse.value) && PulseOf(fx.pulse.value, range)
        && (fx.glyph.Some? <==> token != "")
        && (fx.glyph.Some? ==>
              && fresh(fx.glyph.value) && GlyphOf(fx.glyph.value, token, Some(GlyphDirection(token)), range)
              && Allocated(fx.glyph.value.visual.color, token, old(allocator.colorIndex), allocator.colorIndex))
        && (fx.glyph.None? ==> allocator.colorIndex == old(allocator.colorIndex))
        && (fx.corner.Some? <==> token != "" && CornerEligible(token))
        && (fx.corner.Some? ==> fresh(fx.corner.value) && BoxOf(fx.corner.value, CornerColor(token), range))
        && fx.arrowLine == (if token == "ENTER" then Some(editor.value.Cursor().line) else None)
        && recent.elems == Pushed(old(recent.elems), text)
        && Handed(provider, old(provider.queue), old(provider.delivered), old(provider.Open()),
                  TypeSends(token, Pitch(pitchLevel), recent),
                  TokenMessages(token, Pitch(pitchLevel)) + [ClosingShake(token), BufferUpdate(recent.elems)])
    {
      if editor.None? {
        return NoEffects;
      }
      var pitch := RegisterKeystroke();
      var cursor := editor.value.Cursor();
      var charRange := InsertRange(editor.value.document, cursor, text);
      if charRange.None? {
        return NoEffects;
      }
      fx := EffectsOn(charRange.value, cursor.line, text, pitch);
    }

    /**
     * The `tab` command, once the host has inserted the tab: the glyph `TAB`
     * rising straight up from the character before the cursor, a light
     * shake, the normal key sound and the buffer. No corner box, no pulse.
     */
    method Tab(editor: Option<EditorState>) returns (glyph: Option<Animation.FrameAnimation>)
      requires Valid() && (editor.Some? ==> editor.value.Valid())
      modifies this, allocator, recent, provider
      ensures Valid()
      ensures provider.hasView == old(provider.hasView) && provider.isReady == old(provider.isReady)
      ensures editor.None? ==> glyph.None? && unchanged(this, allocator, recent, provider)
      ensures editor.Some? ==>
        var cursor := editor.value.Cursor();
        && pitchLevel == old(pitchLevel) + 1
        && pitchResetTimer == Some(old(timersStarted)) && timersStarted == old(timersStarted) + 1
        && glyph.Some? && fresh(glyph.value)
        && GlyphOf(glyph.value, "TAB", Some(Decorations.Middle), Range(Position(cursor.line, Max0(cursor.character - 1)), cursor))
        && glyph.value.visual.color in Decorations.SpecialColors()
        && allocator.colorIndex == old(allocator.colorIndex)
        && recent.elems == Pushed(old(recent.elems), "\t")
        && Handed(provider, old(provider.queue), old(provider.delivered), old(provider.Open()),
                  TabSends(Pitch(pitchLevel), recent),
                  [Shake(Some(3)), PlaySound(Normal, Pitch(pitchLevel)), BufferUpdate(recent.elems)])
    {
      if editor.None? {
        return None;
      }
      var pitch := RegisterKeystroke();
      var cursor := editor.value.Cursor();
      var charRange := Range(Position(cursor.line, Max0(cursor.character - 1)), cursor);
      assert Decorations.IsSpecial("TAB");
      var a := FloatGlyph("TAB", Some(Decorations.Middle), charRange);
      glyph := Some(a);
      ghost var queue0, delivered0 := provider.queue, provider.delivered;
      Feedback(Normal, pitch);
      RecordKey("\t", queue0, delivered0, [Shake(Some(3)), PlaySound(Normal, pitch)]);
    }

    /** The common end of both delete keys: pop the recent buffer, hand it over, shake at 0.5. */
    method ForgetKey()
      requires Valid()
      modifies recent, provider
      ensures Valid() && provider.hasView == old(provider.hasView) && provider.isReady == old(provider.isReady)
      ensures recent.elems == Popped(old(recent.elems))
      ensures Handed(provider, old(provider.queue), old(provider.delivered), old(provider.Open()),
                     DeleteSends(recent), [BufferUpdate(recent.elems), Shake(Some(5))])
    {
      ghost var queue0, delivered0 := provider.queue, provider.delivered;
      var _ := recent.Pop();
      Send(provider, UpdateOf(recent), BufferUpdate(recent.elems), queue0, delivered0, [], []);
      Send(provider, Post(Shake(Some(5))), Shake(Some(5)), queue0, delivered0, [UpdateOf(recent)], [BufferUpdate(recent.elems)]);
    }

    /**
     * The `deleteLeft` command: the glyph `BACKSPACE` drifting up and right
     * from the character before the cursor, if there is one; then the edit;
     * then the buffer and a shake, but no sound.
     */
    method DeleteLeft(editor: Option<EditorState>) returns (fx: Option<DeleteEffects>)
      requires Valid() && (editor.Some? ==> editor.value.Valid())
      modifies allocator, recent, provider
      ensures Valid()
      ensures provider.hasView == old(provider.hasView) && provider.isReady == old(provider.isReady)
      ensures editor.None? ==> fx.None? && unchanged(allocator, recent, provider)
      ensures editor.Some? ==>
        var doc, sel, cursor := editor.value.document, editor.value.selection, editor.value.Cursor();
        && fx.Some? && fx.value.corner.None?
        && fx.value.document == AfterDelete(doc, DeleteLeftRange(doc, sel))
        && (fx.value.glyph.Some? <==> cursor.character > 0)
        && (fx.value.glyph.Some? ==>
              && fresh(fx.value.glyph.value)
              && GlyphOf(fx.value.glyph.value, "BACKSPACE", Some(Decorations.Right),
                         Range(Position(cursor.line, cursor.character - 1), cursor))
              && fx.value.glyph.value.visual.color in Decorations.SpecialColors())
        && allocator.colorIndex == old(allocator.colorIndex)
        && recent.elems == Popped(old(recent.elems))
        && Handed(provider, old(provider.queue), old(provider.delivered), old(provider.Open()),
                  DeleteSends(recent), [BufferUpdate(recent.elems), Shake(Some(5))])
    {
      if editor.None? {
        return None;
      }
      var doc, sel, cursor := editor.value.document, editor.value.selection, editor.value.Cursor();
      var glyph: Option<Animation.FrameAnimation> := None;
      if cursor.character > 0 {
        assert Decorations.IsSpecial("BACKSPACE");
        var a := FloatGlyph("BACKSPACE", Some(Decorations.Right), Range(Position(cursor.line, cursor.character - 1), cursor));
        glyph := Some(a);
      }
      var after := AfterDelete(doc, DeleteLeftRange(doc, sel));
      ForgetKey();
      fx := Some(DeleteEffects(glyph, None, after));
    }

    /**
     * The `deleteRight` command: the glyph `DELETE` and a magenta corner box
     * on the character after the cursor, if there is one; then the edit;
     * then the buffer and a shake, but no sound.
     */
    method DeleteRight(editor: Option<EditorState>) returns (fx: Option<DeleteEffects>)
      requires Valid() && (editor.Some? ==> editor.value.Valid())
      modifies allocator, recent, provider
      ensures Valid()
      ensures provider.hasView == old(provider.hasView) && provider.isReady == old(provider.isReady)
      ensures editor.None? ==> fx.None? && unchanged(allocator, recent, provider)
      ensures editor.Some? ==>
        var doc, sel, cursor := editor.value.document, editor.value.selection, editor.value.Cursor();
        var charRange := Range(cursor, Position(cursor.line, cursor.character + 1));
        && fx.Some?
        && fx.value.document == AfterDelete(doc, DeleteRightRange(doc, sel))
        && (fx.value.glyph.Some? <==> cursor.character < |doc[cursor.line]|)
        && (fx.value.corner.Some? <==> fx.value.glyph.Some?)
        && (fx.value.glyph.Some? ==>
              && fresh(fx.value.glyph.value) && GlyphOf(fx.value.glyph.value, "DELETE", None, charRange)
              && fx.value.glyph.value.visual.color in Decorations.SpecialColors())
        && (fx.value.corner.Some? ==> fresh(fx.value.corner.value) && BoxOf(fx.value.corner.value, Magenta, charRange))
        && allocator.colorIndex == old(allocator.colorIndex)
        && recent.elems == Popped(old(recent.elems))
        && Handed(provider, old(provider.queue), old(provider.delivered), old(provider.Open()),
                  DeleteSends(recent), [BufferUpdate(recent.elems), Shake(Some(5))])
    {
      if editor.None? {
        return None;
      }
      var doc, sel, cursor := editor.value.document, editor.value.selection, editor.value.Cursor();
      var glyph: Option<Animation.FrameAnimation> := None;
      var corner: Option<Animation.FrameAnimation> := None;
      if cursor.character < |doc[cursor.line]| {
        var charRange := Range(cursor, Position(cursor.line, cursor.character + 1));
        assert Decorations.IsSpecial("DELETE");
        var a := FloatGlyph("DELETE", None, charRange);
        glyph := Some(a);
        var b := new Animation.FrameAnimation.Box(Magenta, charRange);
        corner := Some(b);
      }
      var after := AfterDelete(doc, DeleteRightRange(doc, sel));
      ForgetKey();
      fx := Some(DeleteEffects(glyph, corner, after));
    }
  }

  /** After a pause the first key is already one step up: the count is raised before the rate is read. */
  method PitchAfterPause() returns (first: int, second: int, afterPause: int)
    ensures first == 101 && second == 102 && afterPause == 101
  {
    var provider := new Provider();
    var engine := new TypingEngine(provider);
    first := engine.RegisterKeystroke();
    second := engine.RegisterKeystroke();
    engine.PitchResetFires(1);
    afterPause := engine.RegisterKeystroke();
  }

  /** Typing `a` as the first key of a run queues four entries, which drain to these messages. */
  lemma TypedAResolves(recent: StringArray)
    requires recent.elems == ["a"]
    ensures ResolveAll(TypeSends("a", 101, recent)) == [Shake(Some(3)), PlaySound(Normal, 101), Shake(Some(5)), BufferUpdate(["a"])]
  {
    assert Token("a") == "a" by {
      assert !IsUpperLetter('a');
    }
    assert TokenMessages("a", 101) == [Shake(Some(3)), PlaySound(Normal, 101)];
    assert ClosingShake("a") == Shake(Some(5));
  }

  /**
   * The first key of a run, `a`, typed before any panel is shown: every
   * message waits in the queue. This drives the panel's readiness gate on
   * its own; the extension itself starts the typing effect only once the
   * panel has reported `ready`, and the panel never becomes unready again.
   */
  method TypeIntoClosedPanel() returns (provider: Provider, recent: StringArray)
    ensures fresh(provider) && provider.Valid() && provider.delivered == []
    ensures !provider.hasView && !provider.isReady
    ensures recent.elems == ["a"] && provider.queue == TypeSends("a", 101, recent)
  {
    provider := new Provider();
    var engine := new TypingEngine(provider);
    var editor := EditorState(["a"], Selection(Position(0, 1), Position(0, 1)));
    assert InsertRange(editor.document, editor.Cursor(), "a").Some?;
    assert Token("a") == "a" by {
      assert !IsUpperLetter('a');
    }
    var fx := engine.OnType(Some(editor), "a");
    recent := engine.recent;
  }

  /**
   * A key typed before the panel is ready arrives, once the panel is ready,
   * in order, the update showing the buffer as it is then. Like
   * `TypeIntoClosedPanel`, this exercises the panel's gate in isolation.
   */
  method TypedBeforeReady() returns (delivered: seq<Message>)
    ensures delivered == [Shake(Some(3)), PlaySound(Normal, 101), Shake(Some(5)), BufferUpdate(["a"])]
  {
    var provider, recent := TypeIntoClosedPanel();
    TypedAResolves(recent);
    ghost var waiting := ResolveAll(provider.queue);
    provider.ResolveWebviewView();
    BuffersAreNotProvider(provider, provider.queue);
    assert ResolveAll(provider.queue) == waiting;
    provider.ReceiveMessage("ready", []);
    assert provider.delivered == [] + [] + waiting;
    delivered := provider.delivered;
  }
}
