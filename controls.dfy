/** The control buttons (components/Controls.tsx): undo and redo, enabled only when there is
    something to undo or redo, and the clear button, which needs a second click within 3 seconds. */
module Controls {
  import History
  import Ordered
  import Game

  /** How long the clear button stays armed, in milliseconds. */
  const ArmedFor: int := 3000

  class ClearButton {
    const app: Game.App
    /** `isConfirmingClear`. */
    var armed: bool
    /** When the button was armed; its timer fires `ArmedFor` later. */
    var armedAt: int

    constructor (app: Game.App)
      ensures this.app == app && !armed
    {
      this.app := app;
      armed, armedAt := false, 0;
    }

    /** `handleClearClick` at time `now`: an armed button clears the canvas and disarms; otherwise
        the click only arms it. */
    method Click(now: int)
      requires app.Valid()
      modifies this, app
      ensures !armed <==> old(armed)
      ensures old(armed) ==> app.canvas.entries == Ordered.Empty() && app.Log() == History.Record(old(app.Log()), app.canvas)
      ensures old(armed) ==> && app.Valid() && app.KeepsStores() && app.KeepsIds() && app.KeepsEvents() && app.KeepsPointer()
                             && armedAt == old(armedAt)
      ensures !old(armed) ==> armedAt == now && unchanged(app)
    {
      if armed {
        app.ResetCanvas(app.Now());
        armed := false;
      } else {
        armed := true;
        armedAt := now;
      }
    }

    /** The pointer leaving the button disarms it. */
    method Leave()
      modifies this`armed
      ensures !armed
    {
      if armed {
        armed := false;
      }
    }

    /** Time passing: the timer of an armed button fires 3000 ms after it was armed, and disarms it. */
    method Tick(now: int)
      modifies this`armed
      ensures armed <==> old(armed) && now < armedAt + ArmedFor
    {
      if armed && now >= armedAt + ArmedFor {
        armed := false;
      }
    }
  }

  /** A click on the undo button: it is disabled, and the click does nothing, exactly when there is
      nothing to undo. */
  method PressUndo(app: Game.App)
    requires app.Valid()
    modifies app
    ensures !old(app.CanUndo()) ==> unchanged(app)
    ensures old(app.CanUndo()) ==>
      app.index == old(app.index) - 1 && app.history == old(app.history) && app.canvas == app.history[app.index]
    ensures app.Valid() && app.KeepsStores() && app.KeepsIds() && app.KeepsEvents() && app.KeepsPointer()
  {
    if app.CanUndo() {
      app.Undo();
    }
  }

  /** A click on the redo button: it is disabled, and the click does nothing, exactly when there is
      nothing to redo. */
  method PressRedo(app: Game.App)
    requires app.Valid()
    modifies app
    ensures !old(app.CanRedo()) ==> unchanged(app)
    ensures old(app.CanRedo()) ==>
      app.index == old(app.index) + 1 && app.history == old(app.history) && app.canvas == app.history[app.index]
    ensures app.Valid() && app.KeepsStores() && app.KeepsIds() && app.KeepsEvents() && app.KeepsPointer()
  {
    if app.CanRedo() {
      app.Redo();
    }
  }

  /** Disabling the buttons hides nothing: undo and redo change nothing exactly when their button is
      disabled. */
  lemma DisabledMeansNoOp(h: History.Log<Game.CanvasMap>)
    requires h.Valid()
    ensures History.Undo(h) == h <==> !h.CanUndo()
    ensures History.Redo(h) == h <==> !h.CanRedo()
  {
  }
}
