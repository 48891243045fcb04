// The undo/redo history of frontend/src/utils/historyUtils.js.  A snapshot
// is a list of walls; the JSON deep copy makes every snapshot a value, so
// the history never shares state with the drawing.
module History {
  import opened Wrappers

  // { history, currentIndex } as addToHistory returns it.
  datatype Stack<W> = Stack(history: seq<seq<W>>, currentIndex: int)

  // { walls, history, currentIndex, canUndo, canRedo } of undo and redo;
  // walls is None where the code reads past the end of the history
  // (undefined).
  datatype Step<W> = Step(walls: Option<seq<W>>, history: seq<seq<W>>, currentIndex: int,
                          canUndo: bool, canRedo: bool)

  // { history, currentIndex, canUndo, canRedo } of initHistory.
  datatype Initial<W> = Initial(history: seq<seq<W>>, currentIndex: int, canUndo: bool, canRedo: bool)

  // The end position Array.prototype.slice(0, end) stops at: a negative end
  // counts from the back, and both are clamped into the array.
  function SliceEnd(len: nat, end: int): (r: nat)
    ensures r <= len
    ensures 0 <= end <= len ==> r == end
    ensures end > len ==> r == len
    ensures end < 0 ==> r == if len + end < 0 then 0 else len + end
  {
    if end < 0 then (if len + end < 0 then 0 else len + end)
    else if end > len then len
    else end
  }

  // currentHistory[i], undefined outside the array.
  function At<W>(h: seq<seq<W>>, i: int): (r: Option<seq<W>>)
    ensures r.Some? <==> 0 <= i < |h|
    ensures r.Some? ==> r.value == h[i]
  {
    if 0 <= i < |h| then Some(h[i]) else None
  }

  // currentHistory[i] || []
  function AtOrEmpty<W>(h: seq<seq<W>>, i: int): (r: seq<W>)
    ensures 0 <= i < |h| ==> r == h[i]
    ensures !(0 <= i < |h|) ==> r == []
  {
    if 0 <= i < |h| then h[i] else []
  }

  function InitHistory<W>(initialWalls: seq<W>): (r: Initial<W>)
    ensures r.history == [initialWalls] && r.currentIndex == 0 && !r.canUndo && !r.canRedo
  {
    Initial([initialWalls], 0, false, false)
  }

  // Everything after the current position is dropped and the walls are
  // appended; the new position is the last one.
  function AddToHistory<W>(h: seq<seq<W>>, i: int, walls: seq<W>): (r: Stack<W>)
    ensures |r.history| == SliceEnd(|h|, i + 1) + 1
    ensures r.currentIndex == |r.history| - 1 && r.history[r.currentIndex] == walls
    ensures r.history[..r.currentIndex] == h[..SliceEnd(|h|, i + 1)]
    ensures 0 <= i < |h| ==> r.history == h[..i + 1] + [walls] && r.currentIndex == i + 1
  {
    var kept := h[..SliceEnd(|h|, i + 1)];
    assert (kept + [walls])[..|kept|] == kept;
    Stack(kept + [walls], |kept|)
  }

  function Undo<W>(h: seq<seq<W>>, i: int): (r: Step<W>)
    ensures r.history == h
    ensures i <= 0 ==> r.currentIndex == 0 && !r.canUndo && r.walls == Some(AtOrEmpty(h, 0)) &&
                       (r.canRedo <==> i < |h| - 1)
    ensures i > 0 ==> r.currentIndex == i - 1 && r.canRedo && (r.canUndo <==> i - 1 > 0) &&
                      r.walls == At(h, i - 1)
  {
    if i <= 0 then Step(Some(AtOrEmpty(h, 0)), h, 0, false, i < |h| - 1)
    else Step(At(h, i - 1), h, i - 1, i - 1 > 0, true)
  }

  function Redo<W>(h: seq<seq<W>>, i: int): (r: Step<W>)
    ensures r.history == h
    ensures i >= |h| - 1 ==> r.currentIndex == i && !r.canRedo && r.walls == Some(AtOrEmpty(h, i)) &&
                             (r.canUndo <==> i > 0)
    ensures i < |h| - 1 ==> r.currentIndex == i + 1 && r.canUndo && (r.canRedo <==> i + 1 < |h| - 1) &&
                            r.walls == At(h, i + 1)
  {
    if i >= |h| - 1 then Step(Some(AtOrEmpty(h, i)), h, i, i > 0, false)
    else Step(At(h, i + 1), h, i + 1, true, i + 1 < |h| - 1)
  }

  // A position inside the history.
  predicate Valid<W>(h: seq<seq<W>>, i: int) {
    0 <= i < |h|
  }

  // Every operation keeps the position inside the history.
  lemma OperationsKeepValid<W>(h: seq<seq<W>>, i: int, walls: seq<W>)
    requires Valid(h, i)
    ensures Valid(InitHistory(walls).history, InitHistory(walls).currentIndex)
    ensures Valid(AddToHistory(h, i, walls).history, AddToHistory(h, i, walls).currentIndex)
    ensures Valid(h, Undo(h, i).currentIndex) && Valid(h, Redo(h, i).currentIndex)
    ensures Undo(h, i).walls == Some(h[Undo(h, i).currentIndex])
    ensures Redo(h, i).walls == Some(h[Redo(h, i).currentIndex])
  {
  }

  // Undo then redo comes back to the same position and snapshot.
  lemma UndoThenRedo<W>(h: seq<seq<W>>, i: int)
    requires 0 < i < |h|
    ensures var u := Undo(h, i);
      var r := Redo(u.history, u.currentIndex);
      r.currentIndex == i && r.walls == Some(h[i]) && r.canUndo && r.history == h
  {
  }

  // Redo then undo does too.
  lemma RedoThenUndo<W>(h: seq<seq<W>>, i: int)
    requires 0 <= i < |h| - 1
    ensures var r := Redo(h, i);
      var u := Undo(r.history, r.currentIndex);
      u.currentIndex == i && u.walls == Some(h[i]) && u.canRedo && u.history == h
  {
  }

  // Right after an edit there is nothing to redo, and undo goes back to the
  // snapshot the edit was made on.
  lemma AfterAdd<W>(h: seq<seq<W>>, i: int, walls: seq<W>)
    requires Valid(h, i)
    ensures var s := AddToHistory(h, i, walls);
      var r := Redo(s.history, s.currentIndex);
      var u := Undo(s.history, s.currentIndex);
      r.currentIndex == s.currentIndex && !r.canRedo && r.walls == Some(walls) &&
      u.currentIndex == i && u.walls == Some(h[i]) && u.canRedo
  {
    var s := AddToHistory(h, i, walls);
    assert s.history[i] == h[i];
  }

  // A fresh history can neither undo nor redo.
  lemma FreshHistoryIsStuck<W>(walls: seq<W>)
    ensures var s := InitHistory(walls);
      Undo(s.history, s.currentIndex) == Step(Some(walls), [walls], 0, false, false) &&
      Redo(s.history, s.currentIndex) == Step(Some(walls), [walls], 0, false, false)
  {
  }
}
