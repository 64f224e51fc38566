/** The drag gesture of one canvas instance (components/DraggableElement.tsx): press, moves and
    release. The move and release callbacks are created at the press, so they work with the render
    of that moment (`r0`): its canvas, its selection and the callbacks bound to it. Client
    rectangles and pointer coordinates are parameters. */
module Drag {
  import opened Types
  import Ordered
  import Ids
  import History
  import Geometry
  import Game

  /** A press turns into a drag once the pointer is more than 5 pixels away along either axis. */
  function Promotes(dx: real, dy: real): (b: bool)
    ensures b <==> dx > 5.0 || dx < -5.0 || dy > 5.0 || dy < -5.0
  {
    Abs(dx) > 5.0 || Abs(dy) > 5.0
  }

  function Abs(x: real): real {
    if x < 0.0 then -x else x
  }

  /** The overlap area an instance must exceed to become the merge target. */
  const MinOverlap: real := 2500.0

  /** The ids a gesture acts on: the selection when it holds the pressed instance, otherwise just
      that instance. */
  function Affected(selection: Ordered.Set<string>, id: string): (r: Ordered.Set<string>)
    ensures id in r && |r| > 0
    ensures forall x :: x in r <==> x == id || (id in selection && x in selection)
  {
    if id in selection then selection else [id]
  }

  /** Shift-click: the instance leaves the selection when it is in it and joins it otherwise. */
  function Toggle(selection: Ordered.Set<string>, id: string): (r: Ordered.Set<string>)
    ensures forall x :: x in r <==> (if x == id then x !in selection else x in selection)
  {
    if id in selection then Ordered.Delete(selection, id) else Ordered.Add(selection, id)
  }

  /** Two Shift-clicks leave the same members selected (a re-added id moves to the end). */
  lemma ToggleTwice(selection: Ordered.Set<string>, id: string)
    ensures forall x :: x in Toggle(Toggle(selection, id), id) <==> x in selection
    ensures id in selection && selection[|selection| - 1] != id ==> Toggle(Toggle(selection, id), id) != selection
  {
    if id in selection && selection[|selection| - 1] != id {
      var r := Toggle(Toggle(selection, id), id);
      assert r[|r| - 1] == id;
    }
  }

  /** `r` holds start positions for canvas `m`: a position for the id of every instance whose id is
      in `selection`, taken from such an instance, and nothing else. */
  ghost predicate Recorded(r: Ordered.Map<string, Position>, m: Game.Canvas, selection: Ordered.Set<string>) {
    && (forall id :: id in r.at ==> id in selection)
    && (forall k | k in m.at && m.at[k].id in selection :: m.at[k].id in r.at)
    && (forall id | id in r.at :: exists k :: k in m.at && m.at[k].id == id && m.at[k].position == r.at[id])
  }

  /** The start positions recorded when a drag begins: the instances of the canvas whose id is in
      `selection`, in canvas order, keyed by their ids. */
  method StartPositions(m: Game.Canvas, selection: Ordered.Set<string>) returns (r: Ordered.Map<string, Position>)
    ensures Recorded(r, m, selection)
  {
    r := Ordered.Empty();
    for i := 0 to |m.order|
      invariant forall id :: id in r.at ==> id in selection
      invariant forall j | 0 <= j < i && m.at[m.order[j]].id in selection :: m.at[m.order[j]].id in r.at
      invariant forall id | id in r.at :: exists k :: k in m.at && m.at[k].id == id && m.at[k].position == r.at[id]
    {
      var e := m.at[m.order[i]];
      if e.id in selection {
        r := Ordered.Put(r, e.id, e.position);
      }
    }
    forall k | k in m.at && m.at[k].id in selection
      ensures m.at[k].id in r.at
    {
      var j :| 0 <= j < |m.order| && m.order[j] == k;
    }
  }

  /** On a canvas whose keys are the instances' ids, the recorded ids are exactly the selected
      ids on the canvas, each with its own position. */
  lemma StartPositionsOnCanvas(m: Game.Canvas, selection: Ordered.Set<string>, r: Ordered.Map<string, Position>)
    requires Ids.KeysAreIds(m) && Recorded(r, m, selection)
    ensures forall id :: id in r.at <==> id in m.at && id in selection
    ensures forall id | id in r.at :: r.at[id] == m.at[id].position
  {
    forall id | id in r.at
      ensures id in m.at && r.at[id] == m.at[id].position
    {
      var k :| k in m.at && m.at[k].id == id && m.at[k].position == r.at[id];
      assert k == id;
    }
    forall id | id in m.at && id in selection
      ensures id in r.at
    {
      assert m.at[id].id == id;
    }
  }

  /** The multi-drag update: every recorded instance goes to its start position plus the pointer's
      screen offset divided by the zoom. */
  method MoveAll(starts: Ordered.Map<string, Position>, dx: real, dy: real, zoom: real) returns (r: Ordered.Map<string, Position>)
    requires zoom != 0.0
    ensures r.order == starts.order && r.at.Keys == starts.at.Keys
    ensures forall id | id in r.at :: r.at[id] == Position(starts.at[id].x + dx / zoom, starts.at[id].y + dy / zoom)
  {
    r := Ordered.Empty();
    for i := 0 to |starts.order|
      invariant r.order == starts.order[..i]
      invariant forall id | id in r.at :: r.at[id] == Position(starts.at[id].x + dx / zoom, starts.at[id].y + dy / zoom)
    {
      var id := starts.order[i];
      var p := starts.at[id];
      assert id !in r.at by {
        assert id !in starts.order[..i];
      }
      r := Ordered.Put(r, id, Position(p.x + dx / zoom, p.y + dy / zoom));
      assert r.order == starts.order[..i + 1] by {
        assert starts.order[..i + 1] == starts.order[..i] + [id];
      }
    }
    assert starts.order[..|starts.order|] == starts.order;
  }

  /** Canvas `c` is canvas `m` with every instance listed in `starts` moved by (dx, dy) screen
      pixels at zoom `zoom`: same keys in the same order, nothing else changed. */
  predicate Dragged(c: Game.Canvas, m: Game.Canvas, starts: Ordered.Map<string, Position>, dx: real, dy: real, zoom: real)
    requires zoom != 0.0
  {
    && c.order == m.order && c.at.Keys == m.at.Keys
    && (forall k | k in c.at ::
          c.at[k] == if k in starts.at
            then m.at[k].(position := Position(starts.at[k].x + dx / zoom, starts.at[k].y + dy / zoom))
            else m.at[k])
  }

  /** A dragged instance is drawn exactly as far from where it started as the pointer has moved,
      whatever the pan and zoom. */
  lemma FollowsPointer(v: Geometry.View, start: Position, dx: real, dy: real)
    requires v.zoom != 0.0
    ensures var moved := Position(start.x + dx / v.zoom, start.y + dy / v.zoom);
      Geometry.ToScreen(v, moved) == Position(Geometry.ToScreen(v, start).x + dx, Geometry.ToScreen(v, start).y + dy)
  {
    var moved := Position(start.x + dx / v.zoom, start.y + dy / v.zoom);
    var qx, qy := dx / v.zoom, dy / v.zoom;
    assert v.zoom * qx == dx && v.zoom * qy == dy;
    assert v.zoom * moved.x == v.zoom * start.x + v.zoom * qx;
    assert v.zoom * moved.y == v.zoom * start.y + v.zoom * qy;
    assert Geometry.ToScreen(v, moved).x == Geometry.ToScreen(v, start).x + dx;
    assert Geometry.ToScreen(v, moved).y == Geometry.ToScreen(v, start).y + dy;
  }

  // ---------------------------------------------------------------- merge target

  /** Another instance (by its `data-id`, "" when missing) that overlaps the dragged one by more
      than the minimum. */
  predicate Candidate(self: string, mine: Geometry.Rect, other: (string, Geometry.Rect)) {
    other.0 != self && other.0 != "" && Geometry.OverlapArea(mine, other.1) > MinOverlap
  }

  /** `others[j]` is the target among the first `n` instances: a candidate whose overlap no
      candidate exceeds and no earlier candidate equals. */
  predicate BestAmong(self: string, mine: Geometry.Rect, others: seq<(string, Geometry.Rect)>, n: int, j: int)
    requires 0 <= n <= |others|
  {
    0 <= j < n && Candidate(self, mine, others[j])
    && (forall i | 0 <= i < n && Candidate(self, mine, others[i]) ::
          Geometry.OverlapArea(mine, others[i].1) <= Geometry.OverlapArea(mine, others[j].1))
    && (forall i | 0 <= i < j && Candidate(self, mine, others[i]) ::
          Geometry.OverlapArea(mine, others[i].1) < Geometry.OverlapArea(mine, others[j].1))
  }

  /** `target` is what the scan must find: nothing when no instance is a candidate, otherwise the
      id of the best one. */
  predicate Aimed(self: string, mine: Geometry.Rect, others: seq<(string, Geometry.Rect)>, target: Option<string>) {
    && (target.None? <==> forall i | 0 <= i < |others| :: !Candidate(self, mine, others[i]))
    && (target.Some? ==> exists j | 0 <= j < |others| :: BestAmong(self, mine, others, |others|, j) && others[j].0 == target.value)
  }

  /** The scan over the rendered instances, in document order. */
  method BestTarget(self: string, mine: Geometry.Rect, others: seq<(string, Geometry.Rect)>) returns (best: Option<string>)
    ensures Aimed(self, mine, others, best)
    ensures best.Some? ==> best.value != self && best.value != ""
  {
    best := None;
    var maxOverlap := 0.0;
    ghost var at := -1;
    for i := 0 to |others|
      invariant best.None? <==> forall k | 0 <= k < i :: !Candidate(self, mine, others[k])
      invariant best.None? ==> maxOverlap == 0.0
      invariant best.Some? ==>
        BestAmong(self, mine, others, i, at) && best.value == others[at].0
        && maxOverlap == Geometry.OverlapArea(mine, others[at].1)
    {
      var (id, rect) := others[i];
      if id == self || id == "" {
        continue;
      }
      var overlap := Geometry.OverlapArea(mine, rect);
      if overlap > MinOverlap && overlap > maxOverlap {
        maxOverlap := overlap;
        best := Some(id);
        at := i;
      }
    }
  }

  /** At most one instance is the target, so the scan's answer is determined. */
  lemma BestIsUnique(self: string, mine: Geometry.Rect, others: seq<(string, Geometry.Rect)>, j1: int, j2: int)
    requires BestAmong(self, mine, others, |others|, j1) && BestAmong(self, mine, others, |others|, j2)
    ensures j1 == j2
  {
  }

  // ---------------------------------------------------------------- the gesture

  class Gesture {
    const app: Game.App
    /** The render the press happened in. */
    const r0: Game.Render
    /** The pressed instance as `r0` shows it. */
    const element: CanvasElement
    const startX: real
    const startY: real
    /** The zoom of the view `r0` was drawn with. */
    const zoom: real
    var dragStarted: bool
    var starts: Ordered.Map<string, Position>
    var target: Option<string>

    predicate Valid()
      reads this
    {
      r0.Valid() && zoom != 0.0
    }

    constructor (app: Game.App, r0: Game.Render, element: CanvasElement, startX: real, startY: real, zoom: real)
      requires r0.Valid() && zoom != 0.0
      ensures Valid()
      ensures this.app == app && this.r0 == r0 && this.element == element
      ensures this.startX == startX && this.startY == startY && this.zoom == zoom
      ensures !dragStarted && starts == Ordered.Empty() && target == None
    {
      this.app, this.r0, this.element := app, r0, element;
      this.startX, this.startY, this.zoom := startX, startY, zoom;
      dragStarted, starts, target := false, Ordered.Empty(), None;
    }

    /** The part of a move that decides whether the drag has begun: on promotion, an unselected
        pressed instance becomes the only selected one and the start positions of the dragged
        instances are recorded from `r0`'s canvas. */
    method Promote(dx: real, dy: real)
      requires Valid()
      modifies this`dragStarted, this`starts, app`selection
      ensures dragStarted == (old(dragStarted) || Promotes(dx, dy))
      ensures !old(dragStarted) && Promotes(dx, dy) ==>
        && app.selection == (if element.id in r0.selection then old(app.selection) else [element.id])
        && Recorded(starts, r0.canvas.entries, Affected(r0.selection, element.id))
      ensures old(dragStarted) || !Promotes(dx, dy) ==> starts == old(starts) && app.selection == old(app.selection)
      ensures target == old(target)
      ensures app.canvas == old(app.canvas) && app.history == old(app.history) && app.index == old(app.index)
      ensures app.KeepsStores() && app.KeepsIds() && app.KeepsEvents()
      ensures app.trashActive == old(app.trashActive) && app.highlighted == old(app.highlighted)
    {
      if !dragStarted && Promotes(dx, dy) {
        dragStarted := true;
        var dragged := Affected(r0.selection, element.id);
        if element.id !in r0.selection {
          app.selection := [element.id];
        }
        starts := StartPositions(r0.canvas.entries, dragged);
      }
    }

    /** The part of a move after promotion that drags: every recorded instance of `r0`'s canvas is
        placed at its start plus the pointer offset divided by the zoom, without a history entry. */
    method Follow(dx: real, dy: real)
      requires Valid()
      modifies app`canvas
      ensures fresh(app.canvas) && Dragged(app.canvas.entries, r0.canvas.entries, starts, dx, dy, zoom)
      ensures app.history == old(app.history) && app.index == old(app.index)
      ensures app.KeepsStores() && app.KeepsIds() && app.KeepsEvents() && app.KeepsPointer()
    {
      var moves := MoveAll(starts, dx, dy, zoom);
      app.UpdateMultiplePositions(r0, moves);
    }

    /** The part of a move that checks the sidebar: over it, the trash flag goes up and the target
        and highlight are dropped. */
    method Hover(mx: real, sidebarLeft: Option<real>)
      modifies this`target, app`trashActive, app`highlighted
      ensures app.trashActive == if sidebarLeft.Some? then mx >= sidebarLeft.value else old(app.trashActive)
      ensures if sidebarLeft.Some? && mx >= sidebarLeft.value then target == None && app.highlighted == None
        else target == old(target) && app.highlighted == old(app.highlighted)
    {
      if sidebarLeft.Some? {
        var over := mx >= sidebarLeft.value;
        app.trashActive := over;
        if over {
          target := None;
          app.highlighted := None;
        }
      }
    }

    /** The part of a move that looks for a merge target, when the dragged instance is mounted; the
        highlight follows the target. */
    method Aim(mine: Option<Geometry.Rect>, others: seq<(string, Geometry.Rect)>)
      modifies this`target, app`highlighted
      ensures mine.None? ==> target == old(target) && app.highlighted == old(app.highlighted)
      ensures mine.Some? ==> app.highlighted == target && Aimed(element.id, mine.value, others, target)
    {
      if mine.Some? {
        var best := BestTarget(element.id, mine.value, others);
        target := best;
        app.highlighted := best;
      }
    }

    /** The part of a move once the drag has begun, by offset (dx, dy) at client x `mx`: the sidebar
        check, the drag of the recorded instances and the scan for a merge target. */
    method Track(mx: real, dx: real, dy: real, sidebarLeft: Option<real>, mine: Option<Geometry.Rect>,
                 others: seq<(string, Geometry.Rect)>)
      requires Valid()
      modifies this`target, app
      ensures app.trashActive == (if sidebarLeft.Some? then mx >= sidebarLeft.value else old(app.trashActive))
      ensures mine.None? ==>
        if sidebarLeft.Some? && mx >= sidebarLeft.value then target == None && app.highlighted == None
        else target == old(target) && app.highlighted == old(app.highlighted)
      ensures mine.Some? ==> app.highlighted == target && Aimed(element.id, mine.value, others, target)
      ensures fresh(app.canvas) && Dragged(app.canvas.entries, r0.canvas.entries, starts, dx, dy, zoom)
      ensures app.history == old(app.history) && app.index == old(app.index) && app.selection == old(app.selection)
      ensures app.KeepsStores() && app.KeepsIds() && app.KeepsEvents()
    {
      Hover(mx, sidebarLeft);
      Follow(dx, dy);
      ghost var moved := app.canvas;
      Aim(mine, others);
      assert app.canvas == moved;
    }

    /** A pointer move to client point (mx, my). `sidebarLeft` is the sidebar's left edge when the
        sidebar exists, `mine` the dragged instance's client rectangle when it is mounted, and
        `others` the rendered instances in document order. Past the sidebar's edge the trash flag
        goes up and the target is dropped, though the scan that follows may pick one again. */
    method Move(mx: real, my: real, sidebarLeft: Option<real>, mine: Option<Geometry.Rect>,
                others: seq<(string, Geometry.Rect)>)
      requires Valid()
      modifies this, app
      ensures dragStarted == (old(dragStarted) || Promotes(mx - startX, my - startY))
      ensures !old(dragStarted) && dragStarted ==>
        && app.selection == (if element.id in r0.selection then old(app.selection) else [element.id])
        && Recorded(starts, r0.canvas.entries, Affected(r0.selection, element.id))
      ensures old(dragStarted) ==> starts == old(starts) && app.selection == old(app.selection)
      ensures !dragStarted ==> starts == old(starts) && target == old(target) && app.KeepsBoard() && app.KeepsPointer()
      ensures dragStarted ==>
        && app.trashActive == (if sidebarLeft.Some? then mx >= sidebarLeft.value else old(app.trashActive))
        && (mine.None? ==>
              if sidebarLeft.Some? && mx >= sidebarLeft.value then target == None && app.highlighted == None
              else target == old(target) && app.highlighted == old(app.highlighted))
        && (mine.Some? ==> app.highlighted == target && Aimed(element.id, mine.value, others, target))
        && fresh(app.canvas) && Dragged(app.canvas.entries, r0.canvas.entries, starts, mx - startX, my - startY, zoom)
        && app.history == old(app.history) && app.index == old(app.index)
      ensures app.KeepsStores() && app.KeepsIds() && app.KeepsEvents()
    {
      var dx, dy := mx - startX, my - startY;
      Promote(dx, dy);
      if dragStarted {
        Track(mx, dx, dy, sidebarLeft, mine, others);
      }
    }

    /** `idsToRemove.forEach(removeElement)`: each removal starts from `r0`'s canvas, so only the last
        one survives. */
    method Trash(ids: Ordered.Set<string>)
      requires Valid() && |ids| > 0
      modifies app
      ensures fresh(app.canvas) && app.canvas.entries == Ordered.Remove(r0.canvas.entries, ids[|ids| - 1])
      ensures app.Log() == History.Record(r0.Log(), app.canvas) && app.Valid()
      ensures app.KeepsStores() && app.KeepsIds() && app.KeepsEvents() && app.KeepsPointer()
    {
      app.RemoveElement(r0, ids[0]);
      for i := 1 to |ids|
        invariant fresh(app.canvas) && app.canvas.entries == Ordered.Remove(r0.canvas.entries, ids[i - 1])
        invariant app.Log() == History.Record(r0.Log(), app.canvas) && app.Valid()
        invariant app.KeepsStores() && app.KeepsIds() && app.KeepsEvents() && app.KeepsPointer()
      {
        app.RemoveElement(r0, ids[i]);
      }
    }

    /** The selection change of a release: none after a drag, a toggle with Shift, otherwise the
        pressed instance alone. */
    method Click(shift: bool)
      modifies app
      ensures app.selection == if dragStarted then old(app.selection)
        else if shift then Toggle(old(app.selection), element.id) else [element.id]
      ensures app.canvas == old(app.canvas) && app.history == old(app.history) && app.index == old(app.index)
      ensures app.KeepsStores() && app.KeepsIds() && app.KeepsEvents()
      ensures app.trashActive == old(app.trashActive) && app.highlighted == old(app.highlighted)
    {
      if !dragStarted {
        if shift {
          app.selection := Toggle(app.selection, element.id);
        } else {
          app.selection := [element.id];
        }
      }
    }

    /** The first step of a release: a finished drag saves `r0`'s canvas (the one from before the
        drag) to the history, unless `r0`'s history already shows it; a click changes the selection. */
    method Settle(shift: bool)
      requires Valid()
      modifies app
      ensures app.selection == if dragStarted then old(app.selection)
        else if shift then Toggle(old(app.selection), element.id) else [element.id]
      ensures app.canvas == old(app.canvas)
      ensures app.Log() == if dragStarted && r0.history[r0.index] != r0.canvas
        then History.Record(r0.Log(), r0.canvas) else old(app.Log())
      ensures app.KeepsStores() && app.KeepsIds() && app.KeepsEvents()
      ensures app.trashActive == old(app.trashActive) && app.highlighted == old(app.highlighted)
    {
      Click(shift);
      if dragStarted {
        app.SavePositionToHistory(r0);
      }
    }

    /** The trash step of a release at client x `mx`: past the sidebar's left edge the affected
        instances of `r0` are removed, of which only the last removal survives. */
    method Discard(mx: real, sidebarLeft: Option<real>)
      requires Valid()
      modifies app
      ensures sidebarLeft.Some? && mx >= sidebarLeft.value ==>
        app.canvas.entries == Ordered.Remove(r0.canvas.entries, Last(Affected(r0.selection, element.id)))
        && app.Log() == History.Record(r0.Log(), app.canvas)
      ensures !(sidebarLeft.Some? && mx >= sidebarLeft.value) ==> app.canvas == old(app.canvas) && app.Log() == old(app.Log())
      ensures app.KeepsStores() && app.KeepsIds() && app.KeepsEvents() && app.KeepsPointer()
    {
      if sidebarLeft.Some? && mx >= sidebarLeft.value {
        Trash(Affected(r0.selection, element.id));
      }
    }

    /** The release at client x `mx`: a finished drag saves `r0`'s canvas to the history, a click
        selects; a release past the sidebar's left edge trashes the affected instances of `r0`;
        a highlighted target on `r0`'s canvas is combined with the pressed instance as `r0` shows
        them; the trash and highlight flags are cleared. */
    method Release(mx: real, shift: bool, sidebarLeft: Option<real>, now: int, descriptions: map<string, string>)
      requires Valid()
      modifies this, app
      ensures app.selection == if dragStarted then old(app.selection)
        else if shift then Toggle(old(app.selection), element.id) else [element.id]
      ensures !app.trashActive && app.highlighted == None && target == None
      ensures dragStarted == old(dragStarted) && starts == old(starts)
      ensures var combined := Combining(old(target), Ids.Issue(old(app.nextId)).0, now);
        var trashed := sidebarLeft.Some? && mx >= sidebarLeft.value;
        && (combined.None? && trashed ==>
              app.canvas.entries == Ordered.Remove(r0.canvas.entries, Last(Affected(r0.selection, element.id)))
              && app.Log() == History.Record(r0.Log(), app.canvas))
        && (combined.None? && !trashed ==>
              app.canvas == old(app.canvas)
              && app.Log() == if dragStarted && r0.history[r0.index] != r0.canvas
                then History.Record(r0.Log(), r0.canvas) else old(app.Log()))
        && (combined.None? ==> app.Tally() == old(app.Tally()))
      ensures Aiming(old(target)) ==>
        Game.Combines(r0, element, r0.canvas.entries.at[old(target).value], now, descriptions,
          old(app.Tally()), app.Tally(), app.canvas, app.Log())
    {
      Land(mx, shift, sidebarLeft);
      Finish(now, descriptions);
    }

    /** The steps of a release from the combine on: the combine with the target, then the flags
        are cleared. */
    method Finish(now: int, descriptions: map<string, string>)
      requires Valid()
      modifies this`target, app
      ensures !app.trashActive && app.highlighted == None && target == None
      ensures var combined := Combining(old(target), Ids.Issue(old(app.nextId)).0, now);
        combined.None? ==>
          app.canvas == old(app.canvas) && app.Log() == old(app.Log()) && app.Tally() == old(app.Tally())
      ensures Aiming(old(target)) ==>
        Game.Combines(r0, element, r0.canvas.entries.at[old(target).value], now, descriptions,
          old(app.Tally()), app.Tally(), app.canvas, app.Log())
      ensures app.selection == old(app.selection)
    {
      Merge(now, descriptions);
      ClearFlags();
    }

    /** The steps of a release before the combine: the selection change or the history entry of a
        finished drag, then the trash past the sidebar's edge. */
    method Land(mx: real, shift: bool, sidebarLeft: Option<real>)
      requires Valid()
      modifies app
      ensures app.selection == if dragStarted then old(app.selection)
        else if shift then Toggle(old(app.selection), element.id) else [element.id]
      ensures sidebarLeft.Some? && mx >= sidebarLeft.value ==>
        app.canvas.entries == Ordered.Remove(r0.canvas.entries, Last(Affected(r0.selection, element.id)))
        && app.Log() == History.Record(r0.Log(), app.canvas)
      ensures !(sidebarLeft.Some? && mx >= sidebarLeft.value) ==>
        app.canvas == old(app.canvas)
        && app.Log() == if dragStarted && r0.history[r0.index] != r0.canvas
          then History.Record(r0.Log(), r0.canvas) else old(app.Log())
      ensures app.Tally() == old(app.Tally())
      ensures app.trashActive == old(app.trashActive) && app.highlighted == old(app.highlighted)
    {
      Settle(shift);
      Discard(mx, sidebarLeft);
    }

    /** The end of every release: no trash flag, no highlight, no target. */
    method ClearFlags()
      modifies this`target, app`trashActive, app`highlighted
      ensures !app.trashActive && app.highlighted == None && target == None
    {
      app.trashActive := false;
      app.highlighted := None;
      target := None;
    }

    /** The combine of a release: a target that is on `r0`'s canvas is combined with the pressed
        instance, both as `r0` shows them. */
    method Merge(now: int, descriptions: map<string, string>)
      requires Valid()
      modifies app
      ensures var combined := Combining(target, Ids.Issue(old(app.nextId)).0, now);
        && (combined.Some? ==> app.canvas.entries == combined.value && app.Log() == History.Record(r0.Log(), app.canvas))
        && (combined.None? ==>
              app.canvas == old(app.canvas) && app.Log() == old(app.Log())
              && app.KeepsStores() && app.KeepsIds() && app.KeepsEvents())
      ensures Aiming(target) ==> Game.Combines(r0, element, r0.canvas.entries.at[target.value], now, descriptions,
          old(app.Tally()), app.Tally(), app.canvas, app.Log())
      ensures app.KeepsPointer()
    {
      if Aiming(target) {
        app.Combine(r0, element, r0.canvas.entries.at[target.value], now, descriptions);
      }
    }

    /** `target` names an instance of `r0`'s canvas. */
    predicate Aiming(target: Option<string>) {
      target.Some? && target.value != "" && target.value in r0.canvas.entries.at
    }

    /** The canvas a release leaves behind through a combine with `target`, when it has one. */
    function Combining(target: Option<string>, id: string, now: int): Option<Game.Canvas> {
      if Aiming(target) then
        Game.Combined(r0, element, r0.canvas.entries.at[target.value], id, now)
      else None
    }
  }

  function Last<T>(s: seq<T>): T
    requires |s| > 0
  {
    s[|s| - 1]
  }

  /** Trashing a selection of two or more removes only its last id: the others stay on the canvas. */
  lemma TrashKeepsAllButLast(m: Game.Canvas, ids: Ordered.Set<string>, i: int)
    requires 0 <= i < |ids| - 1 && ids[i] in m.at
    ensures ids[i] in Ordered.Remove(m, Last(ids)).at
    ensures Last(ids) !in Ordered.Remove(m, Last(ids)).at
  {
    assert ids[i] != ids[|ids| - 1];
  }

  /** A left press on an instance starts a gesture bound to the current render; any other button
      starts nothing. */
  method Press(app: Game.App, element: CanvasElement, button: int, x: real, y: real, zoom: real) returns (g: Gesture?)
    requires app.Valid() && zoom != 0.0
    ensures button != 0 <==> g == null
    ensures g != null ==>
      fresh(g) && g.Valid() && g.app == app && g.r0 == app.Now() && g.element == element
      && g.startX == x && g.startY == y && g.zoom == zoom && !g.dragStarted && g.target == None
  {
    if button != 0 {
      return null;
    }
    g := new Gesture(app, app.Now(), element, x, y, zoom);
  }

  /** The context menu on an instance removes it from the current canvas. */
  method ContextMenu(app: Game.App, element: CanvasElement)
    requires app.Valid()
    modifies app
    ensures fresh(app.canvas) && app.canvas.entries == Ordered.Remove(old(app.canvas.entries), element.id)
    ensures app.Log() == History.Record(old(app.Log()), app.canvas) && app.Valid()
    ensures app.KeepsStores() && app.KeepsIds() && app.KeepsEvents() && app.KeepsPointer()
  {
    app.RemoveElement(app.Now(), element.id);
  }

  /** A double click duplicates the instance on the current canvas. */
  method DoubleClick(app: Game.App, element: CanvasElement, innerWidth: real, innerHeight: real)
    requires app.Valid()
    modifies app
    ensures element.id in old(app.canvas.entries.at) ==>
      app.canvas.entries == Game.Duplicated(old(app.canvas.entries), element.id, Ids.Issue(old(app.nextId)).0)
      && app.Log() == History.Record(old(app.Log()), app.canvas)
      && fresh(app.canvas) && app.selection == [] && app.nextId == Ids.Issue(old(app.nextId)).1
      && app.IssuedFresh(old(app.Now()))
    ensures element.id !in old(app.canvas.entries.at) ==> unchanged(app)
    ensures app.Valid() && app.KeepsStores() && app.KeepsEvents()
    ensures app.counted == old(app.counted) && app.trashActive == old(app.trashActive)
      && app.highlighted == old(app.highlighted)
  {
    app.Duplicate(app.Now(), element.id, innerWidth, innerHeight);
  }
}
