# hypertype typing effects, modelled in Dafny

hypertype is a VS Code extension that turns every keystroke into a small
show. A floating pixel-font glyph names the key and drifts up. A corner box
expands around the character, and a three-frame pulse flashes on it. A side
panel (a webview) shakes and plays a key sound whose pitch rises during a
burst of typing. The panel also shows the last 50 keys.

This project models that per-keystroke engine. Every timer callback is an
explicit step, and the editor, the decorations and the webview are replaced
by plain values and objects. The modules follow the source files:

- `Typing` (`typing.dfy`, from `src/effects/typing.ts`) holds the pure rules:
  the token classifier, glyph direction, corner-box eligibility and colour,
  the key sound, the pitch, the bounded recent-keys buffer, the highlight
  range after an insert, and the delete-left and delete-right ranges. It
  also holds the class `TypingEngine`, which owns the module state
  (`recentBuffer`, `pitchLevel`, `pitchResetTimer`). Its methods are the four
  command handlers: `type`, `tab`, `deleteLeft` and `deleteRight`. Each
  states what it starts, what it sends to the panel and in which order, and
  the buffer afterwards.
- `Animation` (`animation.dfy`) holds the two frame sequences of
  `src/effects/typing.ts`:
  - the floating glyph: offset 0, a delay, ticks of +1.5 px up to 12, and a
    linger;
  - the corner box: ticks of +3 up to 30, and a linger.

  A pure state machine `Next` and its invariant come with lifetime lemmas,
  and the class `FrameAnimation` steps that machine in place. Handles are
  ids held in a `seq` that is shifted and pushed as in the source.
- `Decorations` (`decorations.dfy`, from `src/effects/decorations.ts`) holds
  the two palettes (stored as their 24-bit codes) and the gradient cursor
  `colorIndex` (class `ColorAllocator`). It also holds the random special
  colour, the colour choice and the placement offsets of
  `pixelTextDecoration`, the corner-box geometry, and the hex and RGB
  arithmetic of `interpolateColor`.
- `PixelView` (`pixel_view.dfy`, from `src/ui/pixelView.ts`) holds the
  readiness gate: the class `Provider` with the view and ready flags, the
  FIFO message queue, and the list of messages handed to the webview.
- `Pulse` (`pulse.dfy`, from `src/effects/pulse.ts`) holds the three-frame
  pulse.
- `LineBuffer` (`buffer.dfy`, from `src/state/buffer.ts`) holds the
  append-only `Buffer`.
- Support modules:
  - `Wrappers` is `Option`;
  - `Host` holds positions, ranges, selections and a document as a list of
    lines;
  - `JsArray` is a JavaScript `string[]` as an object, so that `push`,
    `shift` and `pop` are visible to every holder of the reference.

Units:
- Pitch is an integer in hundredths: `clamp(100 + pitchLevel, 95, 130)`.
- Shake intensity is in tenths. `None` stands for the webview's default.
- Glyph progress is in half pixels, and corner expansion in pixels.

Reference semantics are explicit. `update` queues the live `recentBuffer`
array (`UpdateOf(buffer)`), so a queued update shows the buffer as it is when
the queue drains. A message handed straight to the webview is a snapshot.

Some behaviour of the code that is easy to miss:
- The key after a typing pause plays at 1.01: the counter is raised before
  the pitch is read (`Typing.PitchAfterPause`).
- The buffer message is `{command: "update", buffer}`.
- The typing handler shakes twice for every key that has a token: 0.3 first,
  then 0.5, or the default strength for Enter.
- The BACKSPACE glyph (direction right) comes only from `deleteLeft`.

## Model

| member | source | states |
|---|---|---|
| Typing.Token | src/effects/typing.ts:55-63 | space, newline and tab give SPACE, ENTER and TAB, a single capital A–Z gives `SHIFT+` and the letter, and any other text is its own token |
| Typing.TokenFalsy | src/effects/typing.ts:55-65 | the token is empty exactly when the text is, which is when no glyph, corner box or sound starts |
| Typing.TokenSpecial | src/effects/typing.ts:55-63 | every named or shifted key's token takes its colour from the special palette |
| Typing.GlyphDirection | src/effects/typing.ts:67-70 | the glyph rises straight up (middle) exactly for ENTER and TAB, and a typed key never drifts right |
| Typing.CornerEligible | src/effects/typing.ts:118 | predicate, no contract of its own: ENTER, TAB and BACKSPACE get no corner box; which typed characters that excludes is `Typing.CharacterRules` |
| Typing.CornerColor | src/effects/typing.ts:121-122 | magenta exactly for SPACE, DELETE and SHIFT+ tokens, cyan otherwise |
| Typing.CharacterRules | src/effects/typing.ts:117-122 | for a typed character: no corner box exactly for newline and tab, magenta exactly for space and capitals, the special palette exactly for space, newline, tab and capitals, middle direction exactly for newline and tab |
| Typing.SoundFor | src/effects/typing.ts:114 | the enter sound exactly for ENTER, the normal one otherwise |
| Typing.Pitch | src/effects/typing.ts:27-29 | the rate is always between 95 and 130 hundredths, is 100 + level up to level 30, and is capped at 130 from then on |
| Typing.PitchRamp | src/effects/typing.ts:16-29 | within a burst each key is one hundredth higher than the last until the cap, and the pitch never falls |
| Typing.Pushed | src/effects/typing.ts:161-164 | the pushed key is last, the buffer grows by at most one, and a buffer within 50 stays within 50 |
| Typing.Popped | src/effects/typing.ts:324 | the last entry is removed, and popping an empty buffer leaves it empty |
| Typing.PushAllIsLastN | src/effects/typing.ts:161-164 | after any number of pushes the buffer is exactly the last 50 of everything pushed, in push order |
| Typing.InsertRange | src/effects/typing.ts:36-53 | newline gives the empty range at the end of the previous line, or at the cursor on line 0, wherever on its line the cursor is; tab gives the range from max(0, c-1) to the cursor; other text gives c-1 to the cursor; no range exactly when other text is at column 0 |
| Typing.InsertHighlightsLastCharacter | src/effects/typing.ts:52 | after typing text without a line break, the highlight covers exactly its last character |
| Typing.NewlineHighlightsBreak | src/effects/typing.ts:38-46 | after a line break, with any indentation on the new line and the cursor anywhere on it, the highlight is the empty range where the break went in |
| Typing.DeleteLeftRange | src/effects/typing.ts:301-321 | in priority order: a non-empty selection; else, past column 0, exactly the character before the cursor; else, below line 0, exactly the line break from the end of the previous line to the cursor; nothing only at the document start with an empty selection; every chosen range is non-empty and ends at the cursor |
| Typing.DeleteRightRange | src/effects/typing.ts:407-428 | in priority order: a non-empty selection; else, before the line end, exactly the character after the cursor; else, above the last line, exactly the line break from the cursor to the start of the next line; nothing only at the document end with an empty selection; every chosen range is non-empty and starts at the cursor |
| Typing.AfterDelete | src/effects/typing.ts:301-321 | the `editor.edit` of both delete handlers (also lines 407-428): no range leaves the document as it was; a range keeps the lines before and after it, joins the text before its start and after its end into one line, and removes the lines it spans |
| Typing.BackspaceUndoesTyping | src/effects/typing.ts:306-313 | backspace right after typing a character gives back the document from before |
| Typing.BackspaceUndoesLineBreak | src/effects/typing.ts:314-318 | backspace at the start of a line just split off joins the two halves back into the original document |
| Typing.DeleteUndoesTyping | src/effects/typing.ts:412-420 | delete in front of a character just put there gives back the document from before |
| Typing.DeleteUndoesLineBreak | src/effects/typing.ts:421-426 | delete at the end of a line just split joins the halves back into the original document |
| Typing.BackspaceRemovesOneCharacter | src/effects/typing.ts:306-313 | backspace at column c > 0 removes exactly the character before the cursor and leaves every other line as it was |
| Typing.TokenMessages | src/effects/typing.ts:109-115 | a truthy token sends a 0.3 shake, then its sound at the pitch; an empty token sends nothing |
| Typing.ClosingShake | src/effects/typing.ts:147-159 | Enter shakes at the default strength and every other key at 0.5 |
| Typing.TypeSends | src/effects/typing.ts:109-165 | a typed key queues 4 entries (2 for an empty token) ending with the live buffer, and they drain to shake 0.3, sound, closing shake, buffer |
| Typing.TabSends | src/effects/typing.ts:237-247 | tab queues 3 entries; they drain to shake 0.3, the normal sound at the pitch, the buffer |
| Typing.DeleteSends | src/effects/typing.ts:323-328 | a delete queues the live buffer and then a 0.5 shake, and no sound |
| Typing.TypingEngine.constructor | src/effects/typing.ts:6-8 | an empty buffer, level 0, and no timer pending |
| Typing.TypingEngine.RegisterKeystroke | src/effects/typing.ts:16-29 | the level rises by one before the pitch is read, the old reset timer is replaced by a new one, and the result is Pitch of the new level |
| Typing.TypingEngine.PitchResetFires | src/effects/typing.ts:23-25 | only the one pending timer can fire, and it sets the level to 0 and leaves no timer pending |
| Typing.TypingEngine.PushRecent | src/effects/typing.ts:161-164 | the shared buffer array becomes Pushed of its old contents and stays within 50 |
| Typing.TypingEngine.RecordKey | src/effects/typing.ts:161-165 | the buffer is pushed, then the live buffer is handed to the provider after the messages already sent |
| Typing.TypingEngine.Feedback | src/effects/typing.ts:109-115 | the provider receives a 0.3 shake, then the sound at the pitch: delivered if open, queued otherwise |
| Typing.TypingEngine.FloatGlyph | src/effects/typing.ts:72-82 | a new glyph whose first frame is shown on the range, with its colour allocated once: special tokens draw a random special colour and leave the cursor, others take the gradient colour at the cursor and advance it by one |
| Typing.TypingEngine.TokenEffects | src/effects/typing.ts:65-143 | a glyph exactly for a truthy token; a corner box in CornerColor exactly for an eligible truthy token; the shake and sound sent; the cursor unmoved when no glyph starts |
| Typing.TypingEngine.Conclude | src/effects/typing.ts:145-165 | a pulse on the range, the arrow line for ENTER only, the closing shake and the pushed buffer sent in that order |
| Typing.TypingEngine.EffectsOn | src/effects/typing.ts:55-165 | every effect of a typed key once its range exists, and the provider receives exactly TypeSends, as messages if open or as queue entries otherwise; the panel's view and ready flags are unchanged |
| Typing.TypingEngine.OnType | src/effects/typing.ts:10-166 | no editor: nothing changes; no range (column 0): only the pitch counter moved; otherwise the glyph, box, pulse and arrow as the rules say, the buffer pushed, and TypeSends handed to the provider in order; the panel's view and ready flags are unchanged |
| Typing.TypingEngine.Tab | src/effects/typing.ts:175-248 | the pitch counter moves; a special-coloured TAB glyph rises straight up from the character before the cursor; no corner box, no pulse; the buffer gets a tab; TabSends is handed over in order; the panel's view and ready flags are unchanged |
| Typing.TypingEngine.ForgetKey | src/effects/typing.ts:323-328 | the buffer is popped, then the live buffer and a 0.5 shake are handed over in that order |
| Typing.TypingEngine.DeleteLeft | src/effects/typing.ts:250-331 | a BACKSPACE glyph drifting right exactly when the cursor is past column 0, on the character before it, never a corner box; the document afterwards is DeleteLeftRange removed; the buffer is popped; DeleteSends is handed over; the gradient cursor does not move; the panel's view and ready flags are unchanged |
| Typing.TypingEngine.DeleteRight | src/effects/typing.ts:333-438 | a DELETE glyph with no direction and a magenta corner box exactly when a character follows the cursor; the document afterwards is DeleteRightRange removed; the buffer is popped; DeleteSends is handed over; the gradient cursor does not move; the panel's view and ready flags are unchanged |
| Typing.PitchAfterPause | src/effects/typing.ts:16-29 | a burst plays 1.01, 1.02, and the first key after the reset timer fires plays 1.01 |
| Typing.TypedAResolves | src/effects/typing.ts:109-165 | typing `a` at the start of a burst drains to shake 0.3, normal sound at 1.01, shake 0.5, buffer `["a"]` |
| Typing.TypeIntoClosedPanel | src/effects/typing.ts:10-166 | a key typed with no panel shown sends nothing to the webview, leaves TypeSends in the queue and the panel neither shown nor ready |
| Typing.TypedBeforeReady | src/ui/pixelView.ts:40-74 | that key's messages reach the webview in order once the panel reports ready, and the update carries the buffer |
| Decorations.PaletteColor | src/effects/decorations.ts:4-90 | every palette entry is `#` and six lower-case hex digits |
| Decorations.GradientColors | src/effects/decorations.ts:4-78 | the gradient palette, in order, every entry a canonical colour |
| Decorations.SpecialColors | src/effects/decorations.ts:80-90 | the special palette, in order, every entry a canonical colour |
| Decorations.PaletteSizes | src/effects/decorations.ts:4-90 | 73 gradient and 9 special colours |
| Decorations.GradientColorAt | src/effects/decorations.ts:95 | the colour at a cursor value is the gradient entry at that value modulo 73 |
| Decorations.ColorAtCycle | src/effects/decorations.ts:95 | cursor values 73 apart give the same colour |
| Decorations.GradientRunRepeats | src/effects/decorations.ts:92-98 | 73 + n consecutive allocations are a full cycle followed by the first n again, and a run shifted by 73 is the same run |
| Decorations.RandomSpecialColor | src/effects/decorations.ts:100-102 | some element of the special palette |
| Decorations.ColorAllocator.constructor | src/effects/decorations.ts:92 | the gradient cursor starts at 0 |
| Decorations.IsSpecial | src/effects/decorations.ts:227 | predicate, no contract of its own: the five named keys and any SHIFT+ text are special; which typed keys those are is `Typing.CharacterRules` and `Typing.TokenSpecial` |
| Decorations.ColorAllocator.NextGradientColor | src/effects/decorations.ts:94-98 | the gradient colour at the cursor, and the cursor advances by exactly one |
| Decorations.ColorAllocator.PixelTextDecoration | src/effects/decorations.ts:226-235 | with a truthy base colour the glyph takes it and the cursor stays; without one, special text takes a special colour and the cursor stays, and other text takes the gradient colour at the cursor and advances it by one |
| Decorations.DriftShape | src/effects/decorations.ts:240-255 | every direction lifts by size + 14 + offset; middle stays at -4; right and left move by half the offset, mirror images about -4; no direction moves like left |
| Decorations.DriftMonotone | src/effects/decorations.ts:243-255 | a larger offset lifts the glyph further and moves right further right and left further left |
| Decorations.TextGlyph.VerticalOffset | src/effects/decorations.ts:243-255 | no contract of its own: the lift, the same for every direction, is stated by `Decorations.DriftShape` and its growth by `Decorations.DriftMonotone` |
| Decorations.TextGlyph.HorizontalOffset | src/effects/decorations.ts:243-255 | no contract of its own: the sideways drift per direction is stated by `Decorations.DriftShape` and `Decorations.DriftMonotone` |
| Decorations.TextGlyph.CanvasWidth | src/effects/decorations.ts:137-138 | at least the 16 px margin, and exactly the margin only for empty text; measured in UTF-16 code units |
| Decorations.TextGlyph.CanvasHeight | src/effects/decorations.ts:139 | at least 20 px, whatever the text |
| Decorations.Utf16Units | src/effects/decorations.ts:138 | a character takes one UTF-16 code unit, or two exactly above the Basic Multilingual Plane |
| Decorations.Utf16Length | src/effects/decorations.ts:138 | the length in UTF-16 code units is between the number of characters and twice that, and 0 only for the empty string |
| Decorations.CanvasGrowsPerCharacter | src/effects/decorations.ts:137-139 | the canvas is 0.7 × size wider per UTF-16 code unit of an appended character (one for characters in the Basic Multilingual Plane, two beyond it) with a 16 px base, and exactly size + 20 high whatever the text |
| Decorations.CornerBox.Width | src/effects/decorations.ts:168-170 | no contract of its own: 14 at rest, growing by 1.5 × the expansion, is stated by `Decorations.CornerBoxCentred` |
| Decorations.CornerBox.Height | src/effects/decorations.ts:169-171 | no contract of its own: 16 at rest, always 2 more than the width, is stated by `Decorations.CornerBoxCentred` |
| Decorations.CornerBox.CornerSize | src/effects/decorations.ts:172 | the bracket arms are 4 px at rest and lengthen by half the expansion |
| Decorations.CornerBox.Opacity | src/effects/decorations.ts:174 | the opacity is never negative, at most 1 for a non-negative expansion, and 0 exactly from expansion 15 on |
| Decorations.CornerBox.OriginX | src/effects/decorations.ts:209-212 | no contract of its own: pulled back by half the growth so the centre stays at x = 7, as stated by `Decorations.CornerBoxCentred` |
| Decorations.CornerBox.OriginY | src/effects/decorations.ts:209-213 | no contract of its own: pulled back by half the growth so the centre stays at y = 8, as stated by `Decorations.CornerBoxCentred` |
| Decorations.CornerOpacity | src/effects/decorations.ts:174 | the opacity is in [0, 1], never rises with the expansion, is 1 - e/15 below 15 and 0 from 15 on |
| Decorations.CornerBoxCentred | src/effects/decorations.ts:168-213 | the box is 14 by 16 at rest and grows by 1.5 × the expansion on both axes, so it is always 2 higher than wide; its centre stays at (7, 8) as it grows, the origin moves back by half the growth, and the four corner brackets never overlap horizontally or vertically |
| Decorations.HexValue | src/effects/decorations.ts:106-107 | parsing w hex digits gives a value below 16^w |
| Decorations.ToHex | src/effects/decorations.ts:121 | printing gives exactly `width` lower-case hex digits |
| Decorations.HexRoundTrip | src/effects/decorations.ts:106-121 | parsing what was printed gives the value back |
| Decorations.HexCanonical | src/effects/decorations.ts:106-121 | printing what was parsed from lower-case digits gives the digits back |
| Decorations.ColorValue | src/effects/decorations.ts:106-107 | a `#rrggbb` colour parses to a 24-bit value |
| Decorations.Red | src/effects/decorations.ts:109 | no contract of its own: `(v >> 16) & 0xff`; that it recovers the red byte of a packed colour is `Decorations.PackUnpack` |
| Decorations.Green | src/effects/decorations.ts:110 | no contract of its own: `(v >> 8) & 0xff`; that it recovers the green byte is `Decorations.PackUnpack` |
| Decorations.Blue | src/effects/decorations.ts:111 | no contract of its own: `v & 0xff`; that it recovers the blue byte is `Decorations.PackUnpack` |
| Decorations.Pack | src/effects/decorations.ts:121 | three bytes pack into a 24-bit value; that the channels come back out is `Decorations.PackUnpack` |
| Decorations.PackUnpack | src/effects/decorations.ts:109-121 | unpacking the channels and repacking gives the value back, and packing bytes and unpacking gives the bytes back |
| Decorations.Round | src/effects/decorations.ts:117-119 | `Math.round`: the result is within half of the input, halves going up |
| Decorations.Lerp | src/effects/decorations.ts:117-119 | the channel is the integer nearest to the point `factor` of the way from the first input to the second, halves going up |
| Decorations.LerpBetween | src/effects/decorations.ts:117-119 | for a factor in [0, 1] the rounded channel lies between the two inputs, factor 0 and 1 give the ends, and equal inputs give that value |
| Decorations.InterpolateColor | src/effects/decorations.ts:105-122 | the result is `#` and six lower-case hex digits |
| Decorations.InterpolatedChannels | src/effects/decorations.ts:105-122 | each channel of the result's value is the rounded interpolation of the inputs' channels |
| Decorations.InterpolateBetween | src/effects/decorations.ts:117-119 | every channel of the result lies between the corresponding channels of the inputs |
| Decorations.CanonicalPrint | src/effects/decorations.ts:121 | a lower-case colour is what printing its own value gives |
| Decorations.InterpolateEnds | src/effects/decorations.ts:105-122 | factor 0 gives the first colour and factor 1 the second |
| Decorations.InterpolateSame | src/effects/decorations.ts:105-122 | interpolating a colour with itself gives it back for any factor |
| Animation.InitialInv | src/effects/typing.ts:76-82 | the glyph starts with its offset-0 frame live and the corner box with none, both satisfying the invariant |
| Animation.Initial | src/effects/typing.ts:76-82 | no contract of its own: the starting schedules (the glyph's offset-0 frame shown and its interval delayed; the box ticking with no frame) are stated by `Animation.InitialInv` and the lifetime lemmas |
| Animation.Limit | src/effects/typing.ts:99 | no contract of its own: the `offset >= maxOffset` (12 px, 24 half pixels) and `expansion >= 30` tests; where each instance stops is stated by `Animation.GlyphLifetime` and `Animation.CornerLifetime` |
| Animation.ShiftDispose | src/effects/typing.ts:88-90 | the phase, progress and frames are kept, nothing disposed is forgotten, a non-empty list loses one handle, and every handle that was listed is still listed or disposed of |
| Animation.PushFrame | src/effects/typing.ts:92-100 | progress rises by one step, a new frame is drawn at the new progress under the next handle id, earlier frames are kept, the listed handle last is the one drawing the newest frame, nothing is disposed, and the interval stops exactly when the limit is reached |
| Animation.Next | src/effects/typing.ts:85-106 | a callback never forgets a disposal, never lowers the progress and only appends frames; a finished instance stays as it is; the linger disposes of every listed handle and finishes; a tick draws exactly one frame |
| Animation.NextInv | src/effects/typing.ts:85-106 | every timer callback keeps the invariant: at most one handle listed, the live handles are the listed ones, none once finished, frames at consecutive steps |
| Animation.TickInv | src/effects/typing.ts:86-98 | a tick replaces the listed handle by a new one drawn one step further |
| Animation.DisposeBeforeCreate | src/effects/typing.ts:88-97 | within a tick the old handle is disposed of before the new one is created, so nothing is live in between, and afterwards exactly the new handle is |
| Animation.AtMostOneLive | src/effects/typing.ts:86-97 | under the invariant at most one handle is live |
| Animation.ReachableInv | src/effects/typing.ts:76-107 | every state reached from the start keeps the invariant and has at most one live handle |
| Animation.TicksToLimit | src/effects/typing.ts:86-100 | a running instance ticks exactly as many times as it needs to reach its limit, drawing consecutive steps, and then lingers |
| Animation.RunningBeforeLimit | src/effects/typing.ts:99-100 | before the limit is reached the interval keeps running |
| Animation.FinishedStays | src/effects/typing.ts:102-104 | once everything is disposed of, further callbacks change nothing |
| Animation.FinishesAfter | src/effects/typing.ts:86-106 | an instance needing t more ticks is finished exactly after t + 1 callbacks, having drawn exactly those t frames |
| Animation.GlyphLifetime | src/effects/typing.ts:76-107 | the glyph finishes exactly at the 10th callback, having drawn 9 frames at 0, 1.5, ..., 12 px, and then none is live |
| Animation.CornerLifetime | src/effects/typing.ts:119-141 | the box finishes exactly at the 11th callback, having drawn 10 frames at 3, 6, ..., 30, and then none is live |
| Animation.FrameAnimation.Glyph | src/effects/typing.ts:73-82 | a glyph instance in its initial state whose frame 0 is the given first glyph |
| Animation.FrameAnimation.Box | src/effects/typing.ts:119-124 | a box instance in its initial state, in the given colour |
| Animation.FrameAnimation.Frame | src/effects/typing.ts:94 | a glyph instance draws text frames and a box instance box frames, every one in the instance's single colour |
| Animation.FrameAnimation.OneColourThroughout | src/effects/typing.ts:73-94 | the colour is chosen once: frame id of a glyph is its offset-0 first frame moved to 1.5 × id px, same text, colour, size and direction; frame id of a box is its first frame (expansion 3) at expansion 3 × (id + 1), same colour |
| Animation.FrameAnimation.Step | src/effects/typing.ts:85-106 | the in-place callback is exactly Next on the state and keeps it valid |
| Pulse.StyleOf | src/effects/pulse.ts:15-19 | frame i has border i of the three, a 4 px radius and the same 0.07 background |
| Pulse.PulseShape | src/effects/pulse.ts:4-8 | three frames; the outer two are equal and thinner and fainter than the middle one |
| Pulse.Show | src/effects/pulse.ts:11-20 | the current frame is drawn as the next handle with its timeout pending, or nothing changes once every frame was shown |
| Pulse.Start | src/effects/pulse.ts:10-30 | the pulse begins with frame 0 drawn, its timeout pending and nothing disposed of |
| Pulse.Fire | src/effects/pulse.ts:22-28 | a timeout disposes of the newest handle and moves to the next index; another timeout is pending exactly when a frame remains, and then that frame is drawn |
| Pulse.StartInv | src/effects/pulse.ts:10-30 | the pulse starts by creating frame 0, with its timeout pending |
| Pulse.FireInv | src/effects/pulse.ts:22-28 | a timeout disposes of the current frame and moves to the next index, keeping the invariant |
| Pulse.LiveFrames | src/effects/pulse.ts:22-28 | only the current frame is live while a timeout is pending, and none afterwards |
| Pulse.RunInv | src/effects/pulse.ts:11-29 | after n timeouts the index is min(n, 3) and the invariant holds |
| Pulse.PulseLifetime | src/effects/pulse.ts:10-30 | frame j is the only live one after j timeouts; after the third, frames 0, 1 and 2 were created in that order, all were disposed of, and nothing remains |
| Pulse.PulseAnimation.Style | src/effects/pulse.ts:15-20 | every handle is drawn in its frame's style |
| Pulse.PulseAnimation.constructor | src/effects/pulse.ts:10-30 | a new pulse on the range, showing its first frame |
| Pulse.PulseAnimation.TimeoutFires | src/effects/pulse.ts:22-28 | the in-place timeout is exactly Fire on the state and keeps it valid |
| PixelView.Resolve | src/ui/pixelView.ts:67-72 | a queued message comes out as itself, and a queued update as the buffer's contents at that moment |
| PixelView.ResolveAll | src/ui/pixelView.ts:67-73 | draining gives one message per entry |
| PixelView.ResolveAllAt | src/ui/pixelView.ts:69-72 | the i-th message drained is the i-th entry resolved |
| PixelView.ResolveAllAppend | src/ui/pixelView.ts:69-72 | the front of the queue drains first, each entry exactly once |
| PixelView.Provider.constructor | src/ui/pixelView.ts:9-11 | no view, not ready, an empty queue, nothing delivered |
| PixelView.Provider.ResolveWebviewView | src/ui/pixelView.ts:18-24 | a view is attached; the flag, queue and deliveries are unchanged |
| PixelView.Provider.Update | src/ui/pixelView.ts:51-57 | when ready with a view, a snapshot of the buffer is delivered and the queue is unchanged; otherwise the live buffer is appended to the queue and nothing is delivered |
| PixelView.Provider.PostMessage | src/ui/pixelView.ts:59-65 | when ready with a view the message is delivered and the queue is unchanged; otherwise it is appended to the queue and nothing is delivered |
| PixelView.Provider.ProcessMessageQueue | src/ui/pixelView.ts:67-74 | with a view the whole queue is delivered in FIFO order and left empty; without one nothing changes |
| PixelView.Provider.ReceiveMessage | src/ui/pixelView.ts:40-48 | `ready` sets the flag and delivers the listeners' messages first and then the drained queue; any other command changes nothing; the flag never goes back to false |
| PixelView.QueuedUpdateSeesLaterPush | src/ui/pixelView.ts:51-57 | a queued update shows a push made after it was queued, and a ready listener's message overtakes it |
| LineBuffer.Buffer.constructor | src/state/buffer.ts:2 | a new buffer has no lines |
| LineBuffer.Buffer.AddLine | src/state/buffer.ts:4-6 | the line is appended at the end and the earlier lines are unchanged |
| LineBuffer.Buffer.GetLines | src/state/buffer.ts:8-10 | the buffer's own array, with its lines in insertion order |
| LineBuffer.AddedLinesShowThroughEarlierReference | src/state/buffer.ts:8-10 | lines come back in insertion order, and a reference handed out earlier sees a later line |
| JsArray.StringArray.Push | src/effects/typing.ts:161 | `push` appends at the end |
| JsArray.StringArray.Shift | src/effects/typing.ts:163 | `shift` removes and returns the first element, and on an empty array returns nothing and changes nothing |
| JsArray.StringArray.Pop | src/effects/typing.ts:324 | `pop` removes and returns the last element, and on an empty array returns nothing and changes nothing |
| Host.MakeRange | src/effects/typing.ts:42 | a range from two positions in either order is ordered and has those two ends |
| Host.LineEnd | src/effects/typing.ts:316 | the end of a line is on it and after every position on it |
| Host.Delete | src/effects/typing.ts:304 | removing a range keeps the lines before it and after it, joins the text before its start and after its end into one line, and removes the lines it spans |

## Left out

- Host text insertion (`default:type`) is not modelled. The typing handlers take the editor after the insertion, and the delete handlers return the document after their edit. The helpers `InsertText` and `SplitLine` give the insertion only in the undo lemmas.
- The VS Code decoration API (`createTextEditorDecorationType`, `setDecorations`, `dispose`, `Uri.parse`) and the SVG strings, base64 and font are not modelled. A decoration is a handle id, with the numbers that go into it.
- Timers and durations are not modelled: the 150, 25, 16, 50, 55, 300 and 1500 ms delays. Each callback is an explicit `Step`, `TimeoutFires` or `PitchResetFires` call. Nothing orders callbacks of different animations against each other.
- The awaits in the handlers are not modelled: each handler runs as one uninterrupted step, so nothing interleaves with it.
- Typing.TypingEngine.OnType: stops after the pitch bump when other text is at column 0; there `Position.translate(0, -1)` throws in the editor, and the exception is modelled as no effects.
- The Enter gutter arrow (`createArrowGutterDecoration`, `createArrowSvg`) is reduced to the line number it is drawn on (`arrowLine`); its 1500 ms dispose is not modelled.
- `enterGutterDecoration` and `applyDecorations` are not modelled: one is unused and the other does nothing.
- `getTransitionColor` is not modelled: nothing calls it.
- Decorations.InterpolateColor: requires two `#rrggbb` colours and a factor in [0, 1]. Outside that range the channels leave 0..255 and the source's shifts and ORs overlap, which is not modelled. Rounding models `Math.round` on exact reals, not on floating point.
- Typing.Pitch: an exact integer in hundredths, not the floating-point `1.0 + level * 0.01`.
- Decorations.RandomSpecialColor: `Math.random` is a nondeterministic choice of index, so nothing is said about uniformity.
- `_getHtmlForWebview` and the webview options are not modelled: file I/O and URI rewriting. The `onReady` emitter is reduced to the list of messages its listeners post.
- `src/extension.ts` is not modelled. That covers activation, command registration, the sound toggle and the view auto-open. The listener message it posts appears only as the `ToggleSound` in the scenario.
- Host.Position: a column counts characters (Unicode scalar values), not the editor's UTF-16 code units, so a character beyond the Basic Multilingual Plane is one column here and two in the editor.
- Typing.InsertRange: its one-character step back from the cursor is one scalar value; in the editor it is one UTF-16 code unit, half of a character beyond the Basic Multilingual Plane.
- Typing.InsertHighlightsLastCharacter: the highlighted last character is one scalar value, where the editor's range covers one UTF-16 code unit.
- Typing.DeleteLeftRange: the character before the cursor is one scalar value, not one UTF-16 code unit.
- Typing.DeleteRightRange: the character after the cursor is one scalar value, not one UTF-16 code unit.
