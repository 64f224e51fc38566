/** The game's records (types.ts) and the seed discoveries (constants.ts). */
module Types {

  datatype Option<+T> = None | Some(value: T) {
    function GetOr(default: T): T {
      match this
      case Some(v) => v
      case None => default
    }
  }

  /** A point; world space for canvas instances, screen space for pointer events. */
  datatype Position = Position(x: real, y: real)

  /** An element definition: its name (`text`), its glyph and, once discovered, the time it was. */
  datatype ElementData = ElementData(text: string, emoji: string, discoveredAt: Option<int>)

  /** One placed instance on the canvas. `isProcessing` only ever becomes true in the
      variant that asks a generative service (src/App.tsx); elsewhere it stays false. */
  datatype CanvasElement = CanvasElement(
    id: string,
    text: string,
    emoji: string,
    discoveredAt: Option<int>,
    position: Position,
    isFirstDiscovery: bool,
    isProcessing: bool)
  {
    function Data(): ElementData {
      ElementData(text, emoji, discoveredAt)
    }
  }

  /** A recipe's outcome: an explosion marker or an element template. */
  datatype RecipeResult = Explode | Produce(element: ElementData)

  datatype ExplosionData = ExplosionData(id: nat, position: Position)

  datatype NotificationData = NotificationData(id: nat, title: string, message: string, emoji: string)

  datatype SortType = Time | Name | Emoji
  datatype SortDirection = Asc | Desc

  /** INITIAL_ELEMENTS, in their declared order. */
  const InitialElements: seq<ElementData> := [
    ElementData("Hidrogênio", "⚛️", Some(1)),
    ElementData("Gravidade", "⚫", Some(2)),
    ElementData("Tempo", "⏳", Some(3))
  ]
}
