/** The keyboard shortcuts: Ctrl+Z presses undo; Ctrl+Y and Ctrl+Shift+Z press redo. */
module Keys {
  import opened Common
  import opened History

  datatype Command = UndoCommand | RedoCommand

  /** `toLowerCase` on one character, for the ASCII letters. */
  function LowerChar(c: char): char
  {
    if 'A' <= c <= 'Z' then (c as int + 32) as char else c
  }

  /** `toLowerCase` on a key name, for the ASCII letters. */
  function Lower(s: string): (r: string)
    ensures |r| == |s| && forall i :: 0 <= i < |s| ==> r[i] == LowerChar(s[i])
  {
    seq(|s|, i requires 0 <= i < |s| => LowerChar(s[i]))
  }

  /** A key name lower-cases to a one-letter name exactly when it is that letter in either case. */
  lemma LowerIsLetter(key: string, lower: char, upper: char)
    requires 'a' <= lower <= 'z' && upper as int == lower as int - 32
    ensures Lower(key) == [lower] <==> key == [lower] || key == [upper]
  {
    if Lower(key) == [lower] {
      assert LowerChar(key[0]) == lower;
    }
  }

  /** The buttons one keydown presses, in order: the two `if`s of the handler. */
  function Commands(ctrl: bool, shift: bool, key: string): (cs: seq<Command>)
    ensures |cs| <= 2
    ensures UndoCommand in cs <==> ctrl && (key == "z" || key == "Z")
    ensures RedoCommand in cs <==> ctrl && (key == "y" || key == "Y" || (shift && (key == "z" || key == "Z")))
    ensures |cs| == 2 ==> cs == [UndoCommand, RedoCommand]
  {
    LowerIsLetter(key, 'z', 'Z');
    LowerIsLetter(key, 'y', 'Y');
    var k := Lower(key);
    (if ctrl && k == "z" then [UndoCommand] else []) +
    (if ctrl && (k == "y" || (shift && k == "z")) then [RedoCommand] else [])
  }

  /** The store after a run of button presses, and the snapshots handed to the repaint. */
  datatype Replay = Replay(state: HistoryState, restored: seq<Snapshot>)

  /** Pressing the buttons `cs` in order. */
  function Perform(h: HistoryState, cs: seq<Command>): (r: Replay)
    requires h.Valid()
    ensures r.state.Valid() && r.state.entries == h.entries
    ensures |r.restored| <= |cs|
    decreases |cs|
  {
    if cs == [] then
      Replay(h, [])
    else
      var step := match cs[0]
                  case UndoCommand => h.PressUndo()
                  case RedoCommand => h.PressRedo();
      var rest := Perform(step.state, cs[1..]);
      Replay(rest.state, Elements(step.restored) + rest.restored)
  }

  /** A keydown's presses: the undo button when the first test holds, then the redo button when the second does. */
  lemma {:induction false} PerformTests(h: HistoryState, ctrl: bool, shift: bool, key: string)
    requires h.Valid()
    ensures var first := ctrl && Lower(key) == "z";
            var second := ctrl && (Lower(key) == "y" || (shift && Lower(key) == "z"));
            var s1 := if first then h.PressUndo() else Step(h, None);
            var s2 := if second then s1.state.PressRedo() else Step(s1.state, None);
            Perform(h, Commands(ctrl, shift, key)) == Replay(s2.state, Elements(s1.restored) + Elements(s2.restored))
  {
    var cs := Commands(ctrl, shift, key);
    if |cs| == 2 {
      assert cs[1..] == [RedoCommand];
      assert [RedoCommand][1..] == [];
    } else if |cs| == 1 {
      assert cs[1..] == [];
    }
  }

  /**
   * Ctrl+Shift+Z matches both lines of the handler: with the buttons in step and
   * something to undo, it undoes and then redoes, leaving the cursor where it was
   * and repainting twice.
   */
  lemma {:induction false} CtrlShiftZUndoesThenRedoes(h: HistoryState)
    requires h.Valid() && h.InSync() && h.CanUndo()
    ensures Commands(true, true, "Z") == [UndoCommand, RedoCommand]
    ensures Perform(h, Commands(true, true, "Z")) ==
              Replay(h, [h.entries[h.cursor - 1], h.entries[h.cursor]])
  {
    assert Lower("Z") == "z";
    PerformTests(h, true, true, "Z");
    var s1 := h.PressUndo();
    assert s1 == h.Undo();
    UndoThenRedo(h);
    assert s1.state.PressRedo() == Step(h, Some(h.entries[h.cursor]));
  }

  /** With nothing to undo, Ctrl+Shift+Z is a plain redo. */
  lemma {:induction false} CtrlShiftZAtFirstEntryRedoes(h: HistoryState)
    requires h.Valid() && h.InSync() && !h.CanUndo()
    ensures Perform(h, Commands(true, true, "Z")).state == h.Redo().state
  {
    assert Lower("Z") == "z";
    PerformTests(h, true, true, "Z");
    assert h.PressUndo() == Step(h, None);
  }
}
