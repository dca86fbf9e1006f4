/**
 * The drawing surface's page state, updated in place as the script does: the
 * history array and its cursor, the buttons' flags, the stroke in progress and
 * its box, the overlay's annotations, the busy indicator and the logical size.
 * Every method is tied to the value-level functions of History, Stroke,
 * Recognition, Sizing and Keys, where the properties are proved.
 */
module App {
  import opened Common
  import opened History
  import opened Stroke
  import opened Recognition
  import opened Sizing
  import opened Keys

  class Board {
    var history: seq<Snapshot>
    var historyIndex: int
    var undoDisabled: bool
    var redoDisabled: bool

    var drawing: bool
    /** The current point of the canvas path: the last sample stroked to. */
    var last: Point
    /** `null` until the first pointer-down, then the box of the latest stroke. */
    var box: Option<Box>
    /** The samples of the latest stroke, pointer-down first. */
    ghost var samples: seq<Point>

    /** The text boxes of the overlay layer, oldest first. */
    var annotations: seq<Annotation>
    /** The busy indicator's `hidden` flag. */
    var overlayHidden: bool

    /** The surface's logical size. */
    var width: int
    var height: int

    /** The undo/redo store as a value. */
    function Store(): HistoryState
      reads this
    {
      HistoryState(history, historyIndex, undoDisabled, redoDisabled)
    }

    ghost predicate Valid()
      reads this
    {
      Store().Valid() &&
      (samples == [] <==> box.None?) &&
      (samples != [] ==> box == Some(Bounds(samples))) &&
      (drawing ==> box.Some?)
    }

    /**
     * The page's `init`: an empty history, no stroke, then `setCanvasSize`, which
     * records the first entry. The buttons' and the indicator's initial flags come
     * from the markup.
     */
    constructor (clientWidth: int, clientHeight: int, captured: Option<Snapshot>,
                 undoDisabled0: bool, redoDisabled0: bool, overlayHidden0: bool)
      ensures Valid()
      ensures Store() == Empty(undoDisabled0, redoDisabled0).Push(captured)
      ensures Size(width, height) == LogicalSize(clientWidth, clientHeight)
      ensures !drawing && box.None? && annotations == [] && overlayHidden == overlayHidden0
    {
      history := [];
      historyIndex := -1;
      undoDisabled := undoDisabled0;
      redoDisabled := redoDisabled0;
      drawing := false;
      last := Point(0.0, 0.0);
      box := None;
      samples := [];
      annotations := [];
      overlayHidden := overlayHidden0;
      width := 0;
      height := 0;
      new;
      SetCanvasSize(clientWidth, clientHeight, captured);
    }

    /** `updateUndoRedoUI`. */
    method UpdateUndoRedoUI()
      modifies this`undoDisabled, this`redoDisabled
      ensures Store() == old(Store()).Synced()
    {
      undoDisabled := historyIndex <= 0;
      redoDisabled := historyIndex >= |history| - 1;
    }

    /** `pushHistory`, with the outcome of capturing the raster (`None`: the capture threw). */
    method PushHistory(captured: Option<Snapshot>)
      requires Valid()
      modifies this`history, this`historyIndex, this`undoDisabled, this`redoDisabled
      ensures Valid()
      ensures Store() == old(Store()).Push(captured)
    {
      if historyIndex < |history| - 1 {
        history := history[..historyIndex + 1];
      }
      match captured {
        case None =>
        case Some(s) =>
          history := history + [s];
          historyIndex := |history| - 1;
          UpdateUndoRedoUI();
      }
    }

    /** The undo button's handler; `restored` is the entry handed to `restoreFrom`. */
    method Undo() returns (restored: Option<Snapshot>)
      requires Valid()
      modifies this`historyIndex, this`undoDisabled, this`redoDisabled
      ensures Valid()
      ensures Step(Store(), restored) == old(Store()).Undo()
    {
      restored := None;
      if historyIndex > 0 {
        historyIndex := historyIndex - 1;
        restored := Some(history[historyIndex]);
        UpdateUndoRedoUI();
      }
    }

    /** The redo button's handler; `restored` is the entry handed to `restoreFrom`. */
    method Redo() returns (restored: Option<Snapshot>)
      requires Valid()
      modifies this`historyIndex, this`undoDisabled, this`redoDisabled
      ensures Valid()
      ensures Step(Store(), restored) == old(Store()).Redo()
    {
      restored := None;
      if historyIndex < |history| - 1 {
        historyIndex := historyIndex + 1;
        restored := Some(history[historyIndex]);
        UpdateUndoRedoUI();
      }
    }

    /** Pointer-down at `p`: a new stroke whose box is the single point `p`. */
    method Start(p: Point)
      requires Valid()
      modifies this`drawing, this`last, this`box, this`samples
      ensures Valid()
      ensures drawing && last == p && box == Some(BoxAt(p)) && samples == [p]
    {
      drawing := true;
      last := p;
      box := Some(BoxAt(p));
      samples := [p];
    }

    /**
     * A pointer-move sample at `p` with the controls' mode, colour, opacity and
     * width: widens the box and strokes one segment with the resolved style. Does
     * nothing outside a stroke.
     */
    method Draw(p: Point, mode: string, color: string, alpha: real, lineWidth: int) returns (segment: Option<Segment>)
      requires Valid()
      modifies this`last, this`box, this`samples
      ensures Valid()
      ensures !old(drawing) ==> segment.None? && unchanged(this)
      ensures old(drawing) ==>
                box == Some(Extend(old(box).value, p)) && samples == old(samples) + [p] &&
                segment == Some(Segment(old(last), p, ResolveStyle(mode, color, alpha, lineWidth))) &&
                last == p
    {
      if !drawing {
        return None;
      }
      var b := box.value;
      box := Some(Box(Min(b.minX, p.x), Min(b.minY, p.y), Max(b.maxX, p.x), Max(b.maxY, p.y)));
      BoundsSnoc(samples, p);
      samples := samples + [p];
      var style := ResolveStyle(mode, color, alpha, lineWidth);
      segment := Some(Segment(last, p, style));
      last := p;
    }

    /**
     * Pointer-up or pointer-leave: closes the stroke, records one history entry and
     * runs the recognition flow of mode `autotext` with the recognizer's `outcome`.
     * `crop` is the rectangle sent to the recognizer. Does nothing outside a stroke.
     */
    method End(captured: Option<Snapshot>, autotext: string, outcome: Outcome) returns (crop: Option<CropRect>)
      requires Valid()
      modifies this`drawing, this`history, this`historyIndex, this`undoDisabled, this`redoDisabled
      modifies this`annotations, this`overlayHidden
      ensures Valid()
      ensures !old(drawing) ==> crop.None? && unchanged(this)
      ensures old(drawing) ==> !drawing && box == old(box)
      ensures old(drawing) ==> Store() == old(Store()).Push(captured)
      ensures old(drawing) ==> annotations == old(annotations) + Elements(Recognize(autotext, box.value, outcome))
      ensures old(drawing) ==>
                crop == (if autotext == "azure"
                         then Some(CropBox(box.value, CropMargin, width as real, height as real))
                         else None)
      ensures old(drawing) ==>
                overlayHidden == (if autotext == "demo" || autotext == "azure" then true else old(overlayHidden))
    {
      crop := None;
      if !drawing {
        return;
      }
      drawing := false;
      PushHistory(captured);
      crop := RecognizeStroke(autotext, outcome);
    }

    /**
     * The recognition flow at the end of a stroke, over the stroke's box: show the
     * busy indicator, obtain the text (fabricated in `demo` mode, from the
     * recognizer's `outcome` for a crop of the surface in `azure` mode), hide the
     * indicator on every path and add the annotation.
     */
    method RecognizeStroke(autotext: string, outcome: Outcome) returns (crop: Option<CropRect>)
      requires box.Some?
      modifies this`annotations, this`overlayHidden
      ensures annotations == old(annotations) + Elements(Recognize(autotext, box.value, outcome))
      ensures crop == (if autotext == "azure"
                       then Some(CropBox(box.value, CropMargin, width as real, height as real))
                       else None)
      ensures overlayHidden == (if autotext == "demo" || autotext == "azure" then true else old(overlayHidden))
    {
      crop := None;
      var b := box.value;
      if autotext == "demo" {
        overlayHidden := false;
        overlayHidden := true;
        annotations := annotations + [Annotation(b.minX, b.maxY + AnnotationOffset, DemoText)];
      } else if autotext == "azure" {
        overlayHidden := false;
        crop := Some(CropBox(b, CropMargin, width as real, height as real));
        overlayHidden := true;
        annotations := annotations + [Annotation(b.minX, b.maxY + AnnotationOffset, OutcomeText(outcome))];
      }
    }

    /** `mouseup` followed by `mouseleave`: both run `End`, and only the first records an entry. */
    method MouseUpThenLeave(captured1: Option<Snapshot>, captured2: Option<Snapshot>, autotext: string,
                            outcome1: Outcome, outcome2: Outcome)
      requires Valid()
      modifies this`drawing, this`history, this`historyIndex, this`undoDisabled, this`redoDisabled
      modifies this`annotations, this`overlayHidden
      ensures Valid() && !drawing
      ensures old(drawing) ==> Store() == old(Store()).Push(captured1)
      ensures old(drawing) ==> annotations == old(annotations) + Elements(Recognize(autotext, box.value, outcome1))
      ensures !old(drawing) ==> unchanged(this)
    {
      var c1 := End(captured1, autotext, outcome1);
      var c2 := End(captured2, autotext, outcome2);
    }

    /** The clear button: empties the overlay and records an entry (the repaint in white is not modelled). */
    method Clear(captured: Option<Snapshot>)
      requires Valid()
      modifies this`annotations, this`history, this`historyIndex, this`undoDisabled, this`redoDisabled
      ensures Valid()
      ensures annotations == [] && Store() == old(Store()).Push(captured)
    {
      annotations := [];
      PushHistory(captured);
    }

    /** `setCanvasSize` for a container of the given size; the reset surface is recorded. */
    method SetCanvasSize(clientWidth: int, clientHeight: int, captured: Option<Snapshot>)
      requires Valid()
      modifies this`width, this`height, this`history, this`historyIndex, this`undoDisabled, this`redoDisabled
      ensures Valid()
      ensures Size(width, height) == LogicalSize(clientWidth, clientHeight)
      ensures Store() == old(Store()).Push(captured)
    {
      var s := LogicalSize(clientWidth, clientHeight);
      width := s.width;
      height := s.height;
      PushHistory(captured);
    }

    /**
     * The window's resize handler: capture the surface (`before`), resize it (which
     * records an entry), repaint `before` and record another entry. The first
     * capture is not guarded: when it throws, the handler stops at once.
     */
    method Resize(before: Option<Snapshot>, clientWidth: int, clientHeight: int,
                  captured1: Option<Snapshot>, captured2: Option<Snapshot>) returns (restored: Option<Snapshot>)
      requires Valid()
      modifies this`width, this`height, this`history, this`historyIndex, this`undoDisabled, this`redoDisabled
      ensures Valid()
      ensures restored == before
      ensures before.None? ==> unchanged(this)
      ensures before.Some? ==>
                Size(width, height) == LogicalSize(clientWidth, clientHeight) &&
                Store() == old(Store()).Push(captured1).Push(captured2)
    {
      restored := before;
      if before.None? {
        return;
      }
      SetCanvasSize(clientWidth, clientHeight, captured1);
      PushHistory(captured2);
    }

    /** `undoBtn.click()`: the handler runs only when the button is enabled. */
    method PressUndoButton() returns (restored: Option<Snapshot>)
      requires Valid()
      modifies this`historyIndex, this`undoDisabled, this`redoDisabled
      ensures Valid()
      ensures Step(Store(), restored) == old(Store()).PressUndo()
    {
      restored := None;
      if !undoDisabled {
        restored := Undo();
      }
    }

    /** `redoBtn.click()`: the handler runs only when the button is enabled. */
    method PressRedoButton() returns (restored: Option<Snapshot>)
      requires Valid()
      modifies this`historyIndex, this`undoDisabled, this`redoDisabled
      ensures Valid()
      ensures Step(Store(), restored) == old(Store()).PressRedo()
    {
      restored := None;
      if !redoDisabled {
        restored := Redo();
      }
    }

    /** The keydown handler: Ctrl+Z clicks undo, then Ctrl+Y or Ctrl+Shift+Z clicks redo. */
    method KeyDown(ctrl: bool, shift: bool, key: string) returns (restored: seq<Snapshot>)
      requires Valid()
      modifies this`historyIndex, this`undoDisabled, this`redoDisabled
      ensures Valid()
      ensures Replay(Store(), restored) == Perform(old(Store()), Commands(ctrl, shift, key))
    {
      PerformTests(Store(), ctrl, shift, key);
      var first: Option<Snapshot> := None;
      var second: Option<Snapshot> := None;
      if ctrl && Lower(key) == "z" {
        first := PressUndoButton();
      }
      if ctrl && (Lower(key) == "y" || (shift && Lower(key) == "z")) {
        second := PressRedoButton();
      }
      restored := Elements(first) + Elements(second);
    }
  }
}
