/**
 * The snapshot undo/redo store of the drawing surface, as values: the list of
 * captured rasters, the cursor into it and the `disabled` flags of the undo and
 * redo buttons. The class in board.dfy updates the same state in place and is
 * proved to follow these functions step by step.
 */
module History {
  import opened Common

  /** An opaque raster snapshot (a PNG data URL in the page); only identity matters. */
  datatype Snapshot = Snapshot(id: nat)

  /** The result of a button handler: the new store and the snapshot handed to the repaint, if any. */
  datatype Step = Step(state: HistoryState, restored: Option<Snapshot>)

  datatype HistoryState = HistoryState(entries: seq<Snapshot>, cursor: int, undoDisabled: bool, redoDisabled: bool)
  {
    /** The cursor is -1 (nothing recorded) or the index of an entry. */
    predicate Valid()
    {
      -1 <= cursor <= |entries| - 1
    }

    /** The undo handler's guard. */
    predicate CanUndo()
    {
      cursor > 0
    }

    /** The redo handler's guard. */
    predicate CanRedo()
    {
      cursor < |entries| - 1
    }

    /** The buttons show exactly what the handlers would do. */
    predicate InSync()
    {
      undoDisabled == !CanUndo() && redoDisabled == !CanRedo()
    }

    /** `updateUndoRedoUI`: recompute both flags from the cursor, touching nothing else. */
    function Synced(): (r: HistoryState)
      ensures r.entries == entries && r.cursor == cursor
      ensures r.InSync()
    {
      this.(undoDisabled := cursor <= 0, redoDisabled := cursor >= |entries| - 1)
    }

    /** The `splice(historyIndex + 1)` at the head of `pushHistory`: drop every entry after the cursor. */
    function Truncated(): (r: HistoryState)
      requires Valid()
      ensures r.Valid() && !r.CanRedo()
      ensures r.cursor == cursor && r.undoDisabled == undoDisabled && r.redoDisabled == redoDisabled
      ensures |r.entries| == cursor + 1
      ensures forall i :: 0 <= i <= cursor ==> r.entries[i] == entries[i]
    {
      if cursor < |entries| - 1 then this.(entries := entries[..cursor + 1]) else this
    }

    /**
     * `pushHistory`: truncate, then append the captured snapshot and move the
     * cursor onto it. A capture that threw (`None`) is caught: the truncation has
     * already happened, the cursor stays and the buttons are not refreshed.
     */
    function Push(captured: Option<Snapshot>): (r: HistoryState)
      requires Valid()
      ensures r.Valid() && !r.CanRedo()
      ensures |r.entries| == cursor + (if captured.Some? then 2 else 1)
      ensures forall i :: 0 <= i <= cursor ==> r.entries[i] == entries[i]
      ensures captured.Some? ==>
                r.cursor == cursor + 1 &&
                r.entries[r.cursor] == captured.value && r.InSync()
      ensures captured.None? ==>
                r.cursor == cursor &&
                r.undoDisabled == undoDisabled && r.redoDisabled == redoDisabled
    {
      var t := Truncated();
      match captured
      case None => t
      case Some(s) => t.(entries := t.entries + [s], cursor := |t.entries|).Synced()
    }

    /** The undo button's click handler. */
    function Undo(): (r: Step)
      requires Valid()
      ensures r.state.Valid() && r.state.entries == entries
      ensures CanUndo() ==>
                r.state.cursor == cursor - 1 && r.state.InSync() &&
                r.restored == Some(entries[cursor - 1])
      ensures !CanUndo() ==> r == Step(this, None)
    {
      if cursor > 0 then
        var s := this.(cursor := cursor - 1).Synced();
        Step(s, Some(entries[s.cursor]))
      else
        Step(this, None)
    }

    /** The redo button's click handler. */
    function Redo(): (r: Step)
      requires Valid()
      ensures r.state.Valid() && r.state.entries == entries
      ensures CanRedo() ==>
                r.state.cursor == cursor + 1 && r.state.InSync() &&
                r.restored == Some(entries[cursor + 1])
      ensures !CanRedo() ==> r == Step(this, None)
    {
      if cursor < |entries| - 1 then
        var s := this.(cursor := cursor + 1).Synced();
        Step(s, Some(entries[s.cursor]))
      else
        Step(this, None)
    }

    /** `undoBtn.click()`: a disabled button fires no click event. */
    function PressUndo(): (r: Step)
      requires Valid()
      ensures r.state.Valid() && r.state.entries == entries
      ensures r == if undoDisabled then Step(this, None) else Undo()
      ensures InSync() ==> r == Undo()
    {
      if undoDisabled then Step(this, None) else Undo()
    }

    /** `redoBtn.click()`: a disabled button fires no click event. */
    function PressRedo(): (r: Step)
      requires Valid()
      ensures r.state.Valid() && r.state.entries == entries
      ensures r == if redoDisabled then Step(this, None) else Redo()
      ensures InSync() ==> r == Redo()
    {
      if redoDisabled then Step(this, None) else Redo()
    }
  }

  /** The store as the page starts it: nothing recorded. */
  function Empty(undoDisabled: bool, redoDisabled: bool): (h: HistoryState)
    ensures h.Valid() && h.entries == [] && h.cursor == -1
  {
    HistoryState([], -1, undoDisabled, redoDisabled)
  }

  /** The undo handler applied `k` times. */
  function UndoTimes(h: HistoryState, k: nat): (r: HistoryState)
    requires h.Valid()
    ensures r.Valid() && r.entries == h.entries
    decreases k
  {
    if k == 0 then h else UndoTimes(h.Undo().state, k - 1)
  }

  /** The redo handler applied `k` times. */
  function RedoTimes(h: HistoryState, k: nat): (r: HistoryState)
    requires h.Valid()
    ensures r.Valid() && r.entries == h.entries
    decreases k
  {
    if k == 0 then h else RedoTimes(h.Redo().state, k - 1)
  }

  /** Undo moves the cursor back one step at a time, as far as entry 0. */
  lemma {:induction false} UndoTimesMovesCursor(h: HistoryState, k: nat)
    requires h.Valid() && k <= h.cursor
    ensures UndoTimes(h, k).cursor == h.cursor - k
    ensures k > 0 ==> UndoTimes(h, k).InSync()
    decreases k
  {
    if k > 0 {
      UndoTimesMovesCursor(h.Undo().state, k - 1);
    }
  }

  /** Redo moves the cursor forward one step at a time, as far as the last entry. */
  lemma {:induction false} RedoTimesMovesCursor(h: HistoryState, k: nat)
    requires h.Valid() && h.cursor + k <= |h.entries| - 1
    ensures RedoTimes(h, k).cursor == h.cursor + k
    ensures k > 0 ==> RedoTimes(h, k).InSync()
    decreases k
  {
    if k > 0 {
      RedoTimesMovesCursor(h.Redo().state, k - 1);
    }
  }

  /**
   * Round trip: `k` undos (each one effective) followed by `k` redos bring the
   * store back to where it was, with the buttons showing that state.
   */
  lemma UndoRedoRoundTrip(h: HistoryState, k: nat)
    requires h.Valid() && 0 < k <= h.cursor
    ensures RedoTimes(UndoTimes(h, k), k) == h.Synced()
  {
    UndoTimesMovesCursor(h, k);
    RedoTimesMovesCursor(UndoTimes(h, k), k);
  }

  /** One effective undo followed by one redo restores the cursor and repaints the entry it was on. */
  lemma UndoThenRedo(h: HistoryState)
    requires h.Valid() && h.CanUndo()
    ensures h.Undo().state.CanRedo()
    ensures h.Undo().state.Redo() == Step(h.Synced(), Some(h.entries[h.cursor]))
  {
  }

  /** The buttons are disabled exactly when their handlers would do nothing. */
  lemma ButtonsMatchHandlers(h: HistoryState)
    requires h.Valid() && h.InSync()
    ensures h.undoDisabled <==> h.Undo() == Step(h, None)
    ensures h.redoDisabled <==> h.Redo() == Step(h, None)
  {
    if h.CanUndo() {
      assert h.Undo().state.cursor != h.cursor;
    }
    if h.CanRedo() {
      assert h.Redo().state.cursor != h.cursor;
    }
  }

  /** A new entry is never followed by anything to redo, whether or not the capture succeeded. */
  lemma PushLeavesNothingToRedo(h: HistoryState, captured: Option<Snapshot>)
    requires h.Valid()
    ensures h.Push(captured).Redo() == Step(h.Push(captured), None)
  {
  }

  /** Undo right after a successful push repaints the entry that was current before it. */
  lemma UndoAfterPush(h: HistoryState, s: Snapshot)
    requires h.Valid() && h.cursor >= 0
    ensures h.Push(Some(s)).Undo().restored == Some(h.entries[h.cursor])
    ensures h.Push(Some(s)).Undo().state.cursor == h.cursor
  {
  }

  /**
   * Branch discard: with entries [A, B, C] at cursor 2, two undos and a push of D
   * leave [A, D] at cursor 1; B and C are gone.
   */
  lemma BranchDiscard(a: Snapshot, b: Snapshot, c: Snapshot, d: Snapshot, u: bool, v: bool)
    ensures UndoTimes(HistoryState([a, b, c], 2, u, v), 2).Push(Some(d)).entries == [a, d]
    ensures UndoTimes(HistoryState([a, b, c], 2, u, v), 2).Push(Some(d)).cursor == 1
  {
    var h := HistoryState([a, b, c], 2, u, v);
    UndoTimesMovesCursor(h, 2);
    var p := UndoTimes(h, 2).Push(Some(d));
    assert p.entries == [p.entries[0], p.entries[1]];
  }

  /**
   * A capture that throws after the truncation leaves the redo button enabled
   * although there is nothing left to redo: `updateUndoRedoUI` is skipped on that
   * path, so the flag is stale (pressing the button is harmless, the handler's
   * guard makes it a no-op).
   */
  lemma FailedCaptureLeavesRedoEnabled(h: HistoryState)
    requires h.Valid() && h.InSync() && h.CanRedo()
    ensures !h.Push(None).redoDisabled
    ensures h.Push(None).PressRedo() == Step(h.Push(None), None)
  {
  }
}
