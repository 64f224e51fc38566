/** The linear undo history of the canvas (App.tsx:27-28, 40-41, 59-84): a list of snapshots and
    the index of the one the canvas shows. Recording cuts off everything after the index, so a
    new change forgets the redo tail. */
module History {

  datatype Log<T> = Log(snapshots: seq<T>, index: int) {
    predicate Valid() {
      0 <= index < |snapshots|
    }

    /** `canUndo`. */
    predicate CanUndo() {
      index > 0
    }

    /** `canRedo`. */
    predicate CanRedo() {
      index < |snapshots| - 1
    }

    function Present(): T
      requires Valid()
    {
      snapshots[index]
    }
  }

  /** `history.slice(0, historyIndex + 1)` with `x` appended and the index pointing at it. */
  function Record<T>(h: Log<T>, x: T): (r: Log<T>)
    requires h.Valid()
    ensures r.Valid() && r.Present() == x
    ensures !r.CanRedo() && r.CanUndo()
    ensures r.snapshots[..r.index] == h.snapshots[..h.index + 1]
  {
    Log(h.snapshots[..h.index + 1] + [x], h.index + 1)
  }

  /** Step back when there is something to step back to; otherwise nothing happens. */
  function Undo<T>(h: Log<T>): (r: Log<T>)
    requires h.Valid()
    ensures r.Valid() && r.snapshots == h.snapshots
    ensures r.index == if h.CanUndo() then h.index - 1 else h.index
  {
    if h.CanUndo() then Log(h.snapshots, h.index - 1) else h
  }

  /** Step forward when there is something to step forward to; otherwise nothing happens. */
  function Redo<T>(h: Log<T>): (r: Log<T>)
    requires h.Valid()
    ensures r.Valid() && r.snapshots == h.snapshots
    ensures r.index == if h.CanRedo() then h.index + 1 else h.index
  {
    if h.CanRedo() then Log(h.snapshots, h.index + 1) else h
  }

  /** Undo and redo undo each other whenever the first of them acts. */
  lemma UndoRedoInverse<T>(h: Log<T>)
    requires h.Valid()
    ensures h.CanUndo() ==> Redo(Undo(h)) == h
    ensures h.CanRedo() ==> Undo(Redo(h)) == h
  {
  }

  /** After recording `x`, undo shows what was shown before, and redo brings `x` back. */
  lemma UndoAfterRecord<T>(h: Log<T>, x: T)
    requires h.Valid()
    ensures Undo(Record(h, x)).Present() == h.Present()
    ensures Redo(Undo(Record(h, x))) == Record(h, x)
  {
    var r := Record(h, x);
    assert r.snapshots[h.index] == r.snapshots[..r.index][h.index];
  }

  /** Snapshots at or before the index survive a recording; those after it are gone. */
  lemma RecordKeepsPast<T>(h: Log<T>, x: T, i: int)
    requires h.Valid() && 0 <= i <= h.index
    ensures Record(h, x).snapshots[i] == h.snapshots[i]
    ensures |Record(h, x).snapshots| == h.index + 2
  {
    assert Record(h, x).snapshots[..h.index + 1][i] == h.snapshots[..h.index + 1][i];
  }
}
