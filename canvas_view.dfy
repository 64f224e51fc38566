/** The canvas surface (components/Canvas.tsx): panning with the middle or right button, box
    selection on the background, wheel zoom about the pointer and dropping a palette element. The
    DOM queries become parameters: the canvas's client origin, the rendered instances' client
    rectangles and whether a press hit the background itself. */
module CanvasView {
  import opened Types
  import Ordered
  import Geometry
  import Game
  import Ids
  import History

  /** The ids the box catches: every rendered instance with an id whose rectangle touches the box,
      each once, in document order of first appearance. */
  method BoxSelect(box: Geometry.Rect, rendered: seq<(string, Geometry.Rect)>) returns (s: Ordered.Set<string>)
    ensures forall id :: id in s <==> id != "" && exists i | 0 <= i < |rendered| :: rendered[i].0 == id && Geometry.Touches(rendered[i].1, box)
  {
    s := [];
    for i := 0 to |rendered|
      invariant forall id :: id in s <==> id != "" && exists j | 0 <= j < i :: rendered[j].0 == id && Geometry.Touches(rendered[j].1, box)
    {
      var (id, rect) := rendered[i];
      if id == "" {
        continue;
      }
      if Geometry.Touches(rect, box) {
        s := Ordered.Add(s, id);
      }
    }
  }

  class Surface {
    const app: Game.App
    var view: Geometry.View
    var panning: bool
    /** The selection box as its two client corners, while one is being drawn. */
    var box: Option<(Position, Position)>
    /** `lastMousePosition`. */
    var last: Position
    /** `selectionStartPos`. */
    var boxStart: Option<Position>

    /** The zoom stays in range, and a box exists exactly while it has a start, which is its first
        corner. */
    predicate Valid()
      reads this
    {
      && Geometry.MinZoom <= view.zoom <= Geometry.MaxZoom
      && (box.Some? <==> boxStart.Some?)
      && (box.Some? ==> box.value.0 == boxStart.value)
    }

    constructor (app: Game.App)
      ensures Valid() && this.app == app
      ensures view == Geometry.View(0.0, 0.0, 1.0) && !panning && box == None && boxStart == None
    {
      this.app := app;
      view := Geometry.View(0.0, 0.0, 1.0);
      panning, box, last, boxStart := false, None, Position(0.0, 0.0), None;
    }

    /** A press that reaches the canvas: the middle or right button starts panning and does nothing
        else; a left press on the background clears the selection and starts a box of no size. */
    method MouseDown(button: int, cx: real, cy: real, onBackground: bool)
      requires Valid()
      modifies this, app`selection
      ensures Valid() && view == old(view)
      ensures button == 1 || button == 2 ==>
        panning && last == Position(cx, cy) && box == old(box) && boxStart == old(boxStart)
        && app.selection == old(app.selection)
      ensures button != 1 && button != 2 && onBackground && button == 0 ==>
        panning == old(panning) && last == old(last)
        && app.selection == [] && boxStart == Some(Position(cx, cy)) && box == Some((Position(cx, cy), Position(cx, cy)))
      ensures button != 1 && button != 2 && !(onBackground && button == 0) ==>
        panning == old(panning) && last == old(last) && box == old(box) && boxStart == old(boxStart)
        && app.selection == old(app.selection)
    {
      if button == 1 || button == 2 {
        panning := true;
        last := Position(cx, cy);
        return;
      }
      if onBackground && button == 0 {
        app.selection := [];
        var p := Position(cx, cy);
        boxStart := Some(p);
        box := Some((p, p));
      }
    }

    /** A pointer move: while panning the view moves by the raw screen delta since the last move;
        otherwise a box being drawn gets the pointer as its second corner. */
    method MouseMove(cx: real, cy: real)
      requires Valid()
      modifies this
      ensures Valid() && panning == old(panning) && boxStart == old(boxStart)
      ensures old(panning) ==>
        && view == Geometry.Pan(old(view), cx - old(last).x, cy - old(last).y)
        && last == Position(cx, cy) && box == old(box)
      ensures !old(panning) ==>
        && view == old(view) && last == old(last)
        && box == if boxStart.Some? then Some((boxStart.value, Position(cx, cy))) else old(box)
    {
      if panning {
        view := Geometry.Pan(view, cx - last.x, cy - last.y);
        last := Position(cx, cy);
      } else if boxStart.Some? {
        box := Some((boxStart.value, Position(cx, cy)));
      }
    }

    /** Mouse-up or mouse-leave: panning stops; a box being drawn selects exactly the rendered
        instances it touches (edges included); the box and its start are always cleared. */
    method MouseUp(rendered: seq<(string, Geometry.Rect)>)
      requires Valid()
      modifies this, app`selection
      ensures Valid() && !panning && box == None && boxStart == None
      ensures view == old(view) && last == old(last)
      ensures old(box).Some? ==>
        var area := Geometry.Normalise(old(box).value.0, old(box).value.1);
        forall id :: id in app.selection <==>
          id != "" && exists i | 0 <= i < |rendered| :: rendered[i].0 == id && Geometry.Touches(rendered[i].1, area)
      ensures old(box).None? ==> app.selection == old(app.selection)
    {
      panning := false;
      if boxStart.Some? && box.Some? {
        var (start, end) := box.value;
        var chosen := BoxSelect(Geometry.Normalise(start, end), rendered);
        app.selection := chosen;
      }
      boxStart := None;
      box := None;
    }

    /** A wheel event at client point (cx, cy) on a canvas whose client rectangle starts at `origin`
        (absent when the canvas is not mounted, in which case nothing happens): the zoom follows the
        wheel within [0.2, 3] and the world point under the pointer stays under it. */
    method Wheel(deltaY: real, cx: real, cy: real, origin: Option<Position>)
      requires Valid()
      modifies this`view
      ensures Valid()
      ensures origin.None? ==> view == old(view)
      ensures origin.Some? ==>
        var (mx, my) := (cx - origin.value.x, cy - origin.value.y);
        && view == Geometry.ZoomAbout(old(view), mx, my, Geometry.WheelZoom(old(view).zoom, deltaY))
        && Geometry.ToWorld(view, mx, my) == Geometry.ToWorld(old(view), mx, my)
    {
      var newZoom := Geometry.WheelZoom(view.zoom, deltaY);
      if origin.None? {
        return;
      }
      var mx, my := cx - origin.value.x, cy - origin.value.y;
      Geometry.ZoomKeepsPointUnderPointer(view, mx, my, newZoom);
      view := Geometry.ZoomAbout(view, mx, my, newZoom);
    }

    /** A drop at client point (cx, cy): with a payload and a mounted canvas, the element is added at
        the world point under the drop; otherwise nothing happens. */
    method Drop(payload: Option<ElementData>, cx: real, cy: real, origin: Option<Position>,
                innerWidth: real, innerHeight: real)
      requires Valid() && app.Valid()
      modifies app
      ensures payload.None? || origin.None? ==> unchanged(app)
      ensures payload.Some? && origin.Some? ==>
        var at := Geometry.DropPoint(view, origin.value.x, origin.value.y, cx, cy);
        var id := Ids.Issue(old(app.nextId)).0;
        && Geometry.ToScreen(view, at) == Position(cx - origin.value.x, cy - origin.value.y)
        && app.canvas.entries == Ordered.Put(old(app.canvas.entries), id, Game.Instance(id, payload.value, at, false))
        && app.Log() == History.Record(old(app.Log()), app.canvas) && app.Valid()
        && app.selection == []
        && app.nextId == Ids.Issue(old(app.nextId)).1
        && Game.FreshOn(old(app.canvas.entries), old(app.nextId), app.canvas.entries)
        && app.counted == old(app.counted) && app.KeepsStores() && app.KeepsEvents()
        && app.trashActive == old(app.trashActive) && app.highlighted == old(app.highlighted)
      ensures payload.Some? && origin.Some? && Ids.KeysAreIds(old(app.canvas.entries))
              && old(app.nextId) == Ids.NextCounter(old(app.canvas.entries)) && old(app.nextId).Num? ==>
        app.nextId == Ids.NextCounter(app.canvas.entries)
    {
      if payload.Some? && origin.Some? {
        var at := Geometry.DropPoint(view, origin.value.x, origin.value.y, cx, cy);
        app.AddElement(app.Now(), payload.value, Some(at), innerWidth, innerHeight);
      }
    }
  }
}
