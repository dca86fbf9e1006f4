# Drawing surface: history, strokes and recognition

A model of the state behind the sketching page in `app.js`: the snapshot
undo/redo history with its cursor and the two buttons' `disabled` flags, the
stroke state machine (idle, drawing, idle) with the stroke's bounding box, the
per-mode stroke style, the crop rectangle sent to the text recognizer, the
annotation made from the recognizer's outcome, the logical surface size and the
keyboard shortcuts.

The page keeps this state in module-level variables that its handlers update in
place. Here it is the class `App.Board` (board.dfy), whose methods do the same
updates. Each method's `ensures` ties the new state to a value-level function:

- `History` (history.dfy): `HistoryState` holds the entries, the cursor and the
  button flags. `Push`, `Undo`, `Redo`, `PressUndo` and `PressRedo` are functions
  on it, and the undo/redo laws are proved about them.
- `Stroke` (stroke.dfy): points, the box and its `Bounds` over the samples, and
  `ResolveStyle`.
- `Recognition` (recognition.dfy): `String.prototype.trim`, the outcome-to-text
  choice, the annotation, and the crop rectangle.
- `Sizing` (sizing.dfy): the logical size clamp of `setCanvasSize`.
- `Keys` (keys.dfy): which buttons one keydown presses, and what pressing them does.

Snapshots are opaque values (`Snapshot(id)`). Capturing the surface can throw,
so each capture is a parameter `Option<Snapshot>`, where `None` means the
capture threw. The recognizer is an `Outcome`. `Replied(text)` means the
response body was read as JSON, and `text` is its `text` member or `None`.
`Threw` means an exception was raised anywhere on the way. Points and opacities
are exact reals; widths and container sizes are integers.

Observations the proofs make precise:

- A capture that throws in `pushHistory` still truncates the entries after the
  cursor. The cursor stays where it was and `updateUndoRedoUI` is skipped. So a
  redo button that was enabled stays enabled while there is nothing left to
  redo, and pressing it does nothing (`History.FailedCaptureLeavesRedoEnabled`).
- Ctrl+Shift+Z satisfies both tests of the keydown handler. With the buttons in
  step and something to undo, it undoes, then redoes. The cursor ends where it
  started, and the surface is repainted twice (`Keys.CtrlShiftZUndoesThenRedoes`).
  At the first entry it is a plain redo.
- Keyboard shortcuts click the buttons, and a disabled button fires no click.
  So a shortcut acts only when the button's flag allows it, and then only when
  the handler's own guard allows it.
- The crop's right and bottom edges can fall short of the margin by less than
  one unit. The corner is rounded down but the size is rounded up from the
  unrounded extent. When the corner is clamped to 0, they can instead reach well
  past the margin. With the 18-unit margin, the whole stroke is still inside the
  crop for a stroke that stays on the surface (`Recognition.CropCoversStroke`).
  A touch stroke can leave the surface, and then the crop is cut at the
  surface's edge.
- A container of 40 units or less falls back to 800 by 600, but one of 41 units
  gives a surface 1 unit wide (`Sizing.FallbackIsDiscontinuous`).

Three behaviours of the code a reader might not expect:

- A reply from the recognizer is not checked for an HTTP error status. The
  server's `{error: ...}` reply has no `text`, so the annotation reads
  "(sin texto)", not "(error OCR)". Only an exception gives "(error OCR)".
- Recognition also runs for a stroke whose box is a single point, as nothing
  checks the box's size.
- Restores are not serialized, and the resize handler's second entry is taken
  before the asynchronous repaint.

## Model

| member | source | states |
|---|---|---|
| History.Empty | app.js:29-30 | the page starts with no entries and the cursor at -1, which satisfies the cursor invariant |
| History.HistoryState.Synced | app.js:40-43 | undo is disabled iff the cursor is at most 0; redo is disabled iff the cursor is at the last entry or beyond; entries and cursor are untouched |
| History.HistoryState.Truncated | app.js:33 | keeps exactly the entries up to and including the cursor, so nothing is left to redo |
| History.HistoryState.Push | app.js:32-39 | a successful capture leaves old cursor + 2 entries, with the new snapshot last and the cursor on it, the earlier entries kept and the buttons in step; a failed capture leaves old cursor + 1 entries, with the cursor and flags unchanged; in both cases the invariant holds and there is nothing to redo |
| History.HistoryState.Undo | app.js:203-209 | when the cursor is above 0, it moves back by exactly one, hands the entry now under the cursor to the repaint and syncs the buttons; otherwise nothing changes; the entries are never modified |
| History.HistoryState.Redo | app.js:210-216 | when the cursor is below the last entry, it moves forward by exactly one and hands that entry to the repaint; otherwise nothing changes; the entries are never modified |
| History.HistoryState.PressUndo | app.js:261 | clicking the undo button runs the handler only when the button is enabled; with the flags in step, a click is exactly the handler, so the flag matters only when it is stale |
| History.HistoryState.PressRedo | app.js:262 | clicking the redo button runs the handler only when the button is enabled; with the flags in step, a click is exactly the handler, so the flag matters only when it is stale |
| History.UndoTimes | app.js:203-209 | repeated undos keep the invariant and never change the entries |
| History.RedoTimes | app.js:210-216 | repeated redos keep the invariant and never change the entries |
| History.UndoTimesMovesCursor | app.js:204-205 | k undos with k at most the cursor move the cursor back by exactly k |
| History.RedoTimesMovesCursor | app.js:211-212 | k redos that stay within the entries move the cursor forward by exactly k |
| History.UndoRedoRoundTrip | app.js:203-216 | k effective undos followed by k redos give back the same entries and cursor, with the buttons in step |
| History.UndoThenRedo | app.js:203-216 | after an effective undo, redo is possible and restores the cursor and the entry it was on |
| History.ButtonsMatchHandlers | app.js:40-43 | when the buttons are in step, each is disabled exactly when its handler would be a no-op |
| History.PushLeavesNothingToRedo | app.js:32-38 | after any push, successful or not, redo is a no-op |
| History.UndoAfterPush | app.js:32-37 | undo right after a successful push repaints the entry that was current before the push |
| History.BranchDiscard | app.js:33 | entries [A, B, C] at cursor 2, then two undos and a push of D, give [A, D] at cursor 1 |
| History.FailedCaptureLeavesRedoEnabled | app.js:33-38 | a failed capture with something to redo leaves the redo button enabled while redo does nothing |
| Stroke.BoxAt | app.js:84 | the pointer-down box holds the down point and lies within every box that holds it |
| Stroke.Extend | app.js:92-95 | a move sample widens the box to the least box holding both the old box and the sample |
| Stroke.Bounds | app.js:79-95 | the box after pointer-down and move samples is well formed (minX <= maxX, minY <= maxY) and holds every sample |
| Stroke.BoundsIsLeast | app.js:92-95 | every box holding all the samples contains the stroke's box |
| Stroke.BoundsAttained | app.js:92-95 | each edge of the stroke's box is the coordinate of some sample, so the box is the componentwise min/max |
| Stroke.BoundsSnoc | app.js:92-95 | one more sample changes the box exactly as one `draw` step does |
| Stroke.ResolveStyle | app.js:100-111 | erase gives #ffffff at opacity 1 whatever the inputs; highlighter caps opacity at 0.4 and raises width to at least 16, keeping inputs that already comply; any other mode passes the inputs through |
| Stroke.HighlighterClampsSliders | app.js:108-111 | highlighter with opacity 1.0 and width 2 strokes at 0.4 and 16 |
| Stroke.ResolveStyleIdempotent | app.js:105-111 | resolving a resolved style again under the same mode changes nothing |
| Recognition.TrimStart | app.js:139 | the result is the suffix of the input after its leading white space, and it starts with a non-space |
| Recognition.TrimEnd | app.js:139 | the result is the prefix of the input before its trailing white space, and it ends with a non-space |
| Recognition.TrimIsCore | app.js:139 | the trimmed reply is a slice of the reply with only white space around it, and it starts and ends with a non-space |
| Recognition.TrimEmptyIffBlank | app.js:139-141 | the reply trims to empty iff every character is white space |
| Recognition.Trim | app.js:139 | the trimmed text is no longer than the reply and is empty or starts and ends with a non-space; that it is the reply's middle with only white space around it is `TrimIsCore` |
| Recognition.TrimIdempotent | app.js:139 | trimming twice is the same as trimming once |
| Recognition.OutcomeText | app.js:133-150 | an exception gives "(error OCR)"; a reply with non-blank text gives the trimmed text; a missing or blank reply gives "(sin texto)" |
| Recognition.ReplyText | app.js:139-145 | a reply with a visible character is shown trimmed; an all-blank reply shows "(sin texto)" |
| Recognition.Recognize | app.js:127-151 | demo and azure modes each make exactly one non-empty annotation at (minX, maxY + 10); demo shows "Texto detectado…", azure shows the outcome's text; any other mode makes none |
| Recognition.Ceil | app.js:159-160 | `Math.ceil`: the result is the least integer not below its argument |
| Recognition.CropBox | app.js:156-160 | the crop starts at non-negative coordinates and ends inside the surface; its corner is the margin corner clamped to 0 and rounded down; its size is the rounded-up extent plus two margins (20 more units in height) unless the surface edge cuts it; so its far edges fall at most one unit short of the margin |
| Recognition.CropCoversStroke | app.js:156-160 | for a stroke on the surface and a margin of at least 1, the crop contains the whole box and has non-negative size |
| Sizing.LogicalSize | app.js:50-55 | the logical size is positive and at most 1200 by 800; it is the container less 40 when that fits, the cap when the container is larger, and 800 by 600 when the container leaves no room |
| Sizing.LogicalSizeMonotone | app.js:52-55 | when both containers leave room (more than 40 units each way), a larger container never gives a smaller surface |
| Sizing.FallbackIsDiscontinuous | app.js:52-55 | a 40-unit container falls back to 800 wide (600 high), while a 41-unit one gives a surface of 1 unit |
| Keys.Commands | app.js:260-263 | Ctrl+Z (either case) presses undo; Ctrl+Y, or Ctrl+Shift+Z, presses redo; undo comes first when both are pressed |
| Keys.LowerIsLetter | app.js:261-262 | `e.key.toLowerCase()` equals a one-letter name exactly when the key is that letter in lower or upper case |
| Keys.Perform | app.js:260-263 | pressing buttons keeps the invariant, never changes the entries and repaints at most once per press |
| Keys.PerformTests | app.js:261-262 | one keydown presses the undo button exactly when the first test holds and then the redo button exactly when the second does, on the state the first press left |
| Keys.CtrlShiftZUndoesThenRedoes | app.js:261-262 | Ctrl+Shift+Z with the buttons in step and something to undo leaves the store unchanged, after repainting the previous entry and then the current one |
| Keys.CtrlShiftZAtFirstEntryRedoes | app.js:261-262 | with the buttons in step and nothing to undo, Ctrl+Shift+Z acts as a plain redo |
| App.Board.constructor | app.js:282-294 | init sets the logical size and records the first entry through a push on an empty history, with no stroke and no annotations |
| App.Board.UpdateUndoRedoUI | app.js:40-43 | sets the flags to the synced state of the store |
| App.Board.PushHistory | app.js:32-39 | the in-place splice and push leave exactly the store `Push` describes; the box invariant is kept |
| App.Board.Undo | app.js:203-209 | the in-place handler agrees with `Undo`, including the entry handed to the repaint |
| App.Board.Redo | app.js:210-216 | the in-place handler agrees with `Redo`, including the entry handed to the repaint |
| App.Board.PressUndoButton | app.js:261 | a click on the undo button agrees with `PressUndo` |
| App.Board.PressRedoButton | app.js:262 | a click on the redo button agrees with `PressRedo` |
| App.Board.Start | app.js:79-87 | pointer-down starts drawing with the box at the single down point |
| App.Board.Draw | app.js:88-120 | outside a stroke nothing changes; inside one the box becomes `Bounds` of the samples so far, and one segment is stroked from the path's current point to the sample with the resolved style |
| App.Board.End | app.js:121-152 | outside a stroke nothing changes; otherwise drawing stops, exactly one push happens, and the annotation, crop and busy flag are those of the recognition flow for the frozen box |
| App.Board.RecognizeStroke | app.js:127-151 | appends the annotation `Recognize` chooses; crops only in azure mode; the busy indicator ends hidden on every path of demo and azure mode |
| App.Board.MouseUpThenLeave | app.js:181-182 | `mouseup` then `mouseleave` record one entry and at most one annotation, not two |
| App.Board.Clear | app.js:191-201 | clear empties the overlay and pushes one entry |
| App.Board.SetCanvasSize | app.js:50-65 | sets the logical size to `LogicalSize` and pushes one entry |
| App.Board.Resize | app.js:288-293 | a failed first capture stops the handler with nothing changed; otherwise it resizes and pushes twice, and the captured snapshot goes to the repaint |
| App.Board.KeyDown | app.js:260-263 | the handler's two guarded clicks agree with `Perform` of `Commands` |

## Left out

- recognize.js is not part of this model. It is the remote recognizer: it reads credentials, runs the request and its polling loop, and builds the responses. Only its result reaches the page, as an `Outcome`.
- Pixel work is not modelled: the canvas path and stroke calls, `clearRect`/`fillRect`, the white fill of clear and resize, and the pixel copy in `cropBox`. `Draw` returns the segment it strokes, and `End` returns the crop rectangle.
- Snapshot encoding (`toDataURL`, `toBlob`) is not modelled, and neither is the asynchronous decode and repaint in `restoreFrom`. Handlers return the snapshot they would repaint, and the repaint changes no modelled state.
- `devicePixelRatio` scaling and the `Math.round` of backing-store sizes are not modelled, because they depend on floating point and the device.
- Recognition.CropBox: the surface bounds are the logical size. In the page they are `canvas.width/scale` and `canvas.height/scale`, which can differ from it by rounding.
- `getPos` is not modelled. It turns touch and mouse events into surface coordinates through the DOM, so the methods take the resolved point.
- DOM plumbing is not modelled: element lookup, listener registration, `preventDefault`, slider labels, background classes, and the focus and selection in `createTextBox`. Export to PNG and to a print window (app.js:219-250) depends on element layout and new windows, so it is left out too.
- Timing and races are not modelled. The 350 ms demo wait and the awaits of the remote call collapse into one step, so concurrent recognitions and a new stroke started while one is in flight are out of scope. The page's `end` reads `box` after its awaits.
- App.Board.RecognizeStroke: the busy indicator's "shown" moment is only an intermediate assignment. The contract states its final value, not the on/off sequence.
- App.Board.Resize: the second push really captures the surface before the asynchronous repaint finishes. Snapshots are opaque, so the model does not show which raster is recorded.
- Keys.Lower: only ASCII letters are lower-cased. No other character lower-cases to "y" or "z", so the dispatch is unaffected.
- Stroke.ResolveStyle: the slider values are already numbers. The `NaN` results of `parseFloat`/`parseInt` on malformed input are not modelled.
- App.Board.Draw: a resize in the middle of a stroke resets the canvas context and empties its path, so the page's next `draw` strokes nothing. `Board.Resize` keeps `drawing` and `last`, and `Draw` still returns the segment from `last`; the returned segment is what would be stroked with an intact path.
