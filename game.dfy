/** The game's state machine (App.tsx, and the variant with a recipe cache in src/App.tsx).

    React state is modelled explicitly. The fields of `App` are the committed state. A handler works
    on the `Render` it was created in: the values it reads are that render's, and the setters of the
    persisted slots (canvas, discovered, recipe cache) apply a function update to that render's
    value, not to a value written earlier in the same handler. Plain setter calls overwrite, so the
    last write to a slot wins. The id counter and the explosion and notification counters are refs:
    they change at once and every closure sees the change. */
module Game {
  import opened Types
  import Ordered
  import Ids
  import Text
  import Recipes
  import History

  type Canvas = Ordered.Map<string, CanvasElement>
  type Discovered = Ordered.Map<string, ElementData>

  /** A canvas Map object. Every update builds a new one and none is changed after it is handed out,
      so `!==` between two of them asks whether they are the same object, not the same contents. */
  class CanvasMap {
    const entries: Canvas

    constructor (entries: Canvas)
      ensures this.entries == entries
    {
      this.entries := entries;
    }
  }

  /** The state one render saw; the handlers created in that render keep it. */
  datatype Render = Render(
    canvas: CanvasMap,
    history: seq<CanvasMap>,
    index: int,
    discovered: Discovered,
    selection: Ordered.Set<string>,
    cache: map<string, ElementData>)
  {
    predicate Valid() {
      0 <= index < |history|
    }

    function Log(): History.Log<CanvasMap> {
      History.Log(history, index)
    }
  }

  // ---------------------------------------------------------------- pure pieces

  /** `new Map(list.map(el => [el.text, el]))`: a later element with the same name overwrites the
      value and keeps the first one's place. */
  function ByName(els: seq<ElementData>): Discovered {
    if els == [] then Ordered.Empty()
    else Ordered.Put(ByName(els[..|els| - 1]), els[|els| - 1].text, els[|els| - 1])
  }

  /** Every element's name is a key, every key is some element's name, and each is stored under its
      own name. */
  lemma {:induction false} ByNameKeys(els: seq<ElementData>)
    ensures forall k :: k in ByName(els).at <==> exists i | 0 <= i < |els| :: els[i].text == k
    ensures forall k | k in ByName(els).at :: ByName(els).at[k].text == k
  {
    if els != [] {
      var init := els[..|els| - 1];
      ByNameKeys(init);
      assert forall i | 0 <= i < |init| :: init[i] == els[i];
    }
  }

  /** The discovered map a new player starts with: the three initial elements under their names. */
  const Seeds: Discovered := Ordered.Raw(
    [InitialElements[0].text, InitialElements[1].text, InitialElements[2].text],
    map[InitialElements[0].text := InitialElements[0], InitialElements[1].text := InitialElements[1],
        InitialElements[2].text := InitialElements[2]])

  lemma ByNameFirstOne()
    ensures ByName(InitialElements[..1]) ==
      Ordered.Raw([InitialElements[0].text], map[InitialElements[0].text := InitialElements[0]])
  {
    assert InitialElements[..1][..0] == [];
  }

  lemma ByNameFirstTwo()
    ensures ByName(InitialElements[..2]) ==
      Ordered.Raw([InitialElements[0].text, InitialElements[1].text],
        map[InitialElements[0].text := InitialElements[0], InitialElements[1].text := InitialElements[1]])
  {
    var e := InitialElements;
    ByNameFirstOne();
    assert e[..2][..1] == e[..1];
    assert e[0].text[0] != e[1].text[0];
  }

  /** The seeds are the initial elements put into a Map by name, in their declared order. */
  lemma SeedsByName()
    ensures Seeds == ByName(InitialElements)
  {
    var e := InitialElements;
    ByNameFirstTwo();
    assert e[..2] == e[..|e| - 1];
    assert e[0].text[0] != e[2].text[0] && e[1].text[0] != e[2].text[0];
  }

  /** The point halfway between two instances, where a merge result or an explosion appears. */
  function Midpoint(a: Position, b: Position): (m: Position)
    ensures m.x - a.x == b.x - m.x && m.y - a.y == b.y - m.y
  {
    Position((a.x + b.x) / 2.0, (a.y + b.y) / 2.0)
  }

  /** A canvas with two instances deleted. */
  function Removed(m: Canvas, id1: string, id2: string): (r: Canvas)
    ensures r.at.Keys == m.at.Keys - {id1, id2}
    ensures forall k | k in r.at :: r.at[k] == m.at[k]
  {
    Ordered.Remove(Ordered.Remove(m, id1), id2)
  }

  /** A canvas with two instances deleted and `e` put in under its id. */
  function Merge(m: Canvas, id1: string, id2: string, e: CanvasElement): (r: Canvas)
    ensures r.at.Keys == m.at.Keys - {id1, id2} + {e.id}
    ensures r.at[e.id] == e
    ensures forall k | k in r.at && k != e.id :: r.at[k] == m.at[k]
    ensures e.id !in m.at ==> r.order == Removed(m, id1, id2).order + [e.id]
  {
    Ordered.Put(Removed(m, id1, id2), e.id, e)
  }

  /** A new instance made from element data; it is never marked as being processed. */
  function Instance(id: string, d: ElementData, at: Position, first: bool): (e: CanvasElement)
    ensures e.id == id && e.Data() == d && e.position == at
    ensures e.isFirstDiscovery == first && !e.isProcessing
  {
    CanvasElement(id, d.text, d.emoji, d.discoveredAt, at, first, false)
  }

  /** The first-discovery bookkeeping of the static combine: a name not yet discovered is stamped
      with `now` and reported as a first discovery; a known name keeps the time of its first
      discovery. */
  function Discover(d: Discovered, t: ElementData, now: int): (r: (ElementData, bool))
    ensures r.1 <==> t.text !in d.at
    ensures r.0.text == t.text && r.0.emoji == t.emoji
    ensures r.0.discoveredAt == if r.1 then Some(now) else d.at[t.text].discoveredAt
  {
    if t.text !in d.at then (t.(discoveredAt := Some(now)), true)
    else (t.(discoveredAt := d.at[t.text].discoveredAt), false)
  }

  /** Once a first discovery is recorded, producing the same template again, at any later time, is
      not a first discovery and yields the very same element data. */
  lemma DiscoverOnce(d: Discovered, t: ElementData, now: int, later: int)
    requires t.text !in d.at
    ensures Discover(d, t, now).1
    ensures var e := Discover(d, t, now).0;
      Discover(Ordered.Put(d, t.text, e), t, later) == (e, false)
  {
  }

  /** The recipe description for a key, when there is a non-empty one. */
  function Description(descriptions: map<string, string>, key: string): (r: Option<string>)
    ensures r.Some? <==> key in descriptions && descriptions[key] != ""
    ensures r.Some? ==> r.value == descriptions[key]
  {
    if key in descriptions && descriptions[key] != "" then Some(descriptions[key]) else None
  }

  /** What the generative service's answer turns into: with a non-empty name and glyph, the name
      with its first character upper-cased, the glyph and the time of the answer; otherwise none. */
  function Generated(answer: Option<(string, string)>, upper: string -> string, now: int): (r: Option<ElementData>)
    ensures r.Some? <==> answer.Some? && answer.value.0 != [] && answer.value.1 != []
    ensures r.Some? ==> r.value == ElementData(Text.Capitalise(answer.value.0, upper), answer.value.1, Some(now))
  {
    match answer
    case Some((text, emoji)) =>
      if text != [] && emoji != [] then Some(ElementData(Text.Capitalise(text, upper), emoji, Some(now)))
      else None
    case None => None
  }

  /** What the cached combine settles on: the element, if any, and whether it is a first discovery.
      A cache hit is never a first discovery; an answer is one exactly when its name is new. */
  function CacheOutcome(cache: map<string, ElementData>, d: Discovered, key: string,
                        answer: Option<(string, string)>, upper: string -> string, now: int)
    : (o: (Option<ElementData>, bool))
    ensures key in cache ==> o == (Some(cache[key]), false)
    ensures key !in cache ==> o.0 == Generated(answer, upper, now)
    ensures o.1 <==> key !in cache && o.0.Some? && o.0.value.text !in d.at
  {
    if key in cache then (Some(cache[key]), false)
    else
      var g := Generated(answer, upper, now);
      (g, g.Some? && g.value.text !in d.at)
  }

  /** The canvas a static combine of render `r` leaves behind when the pair has a recipe; `id` is the
      id a produced instance gets. */
  function Combined(r: Render, el1: CanvasElement, el2: CanvasElement, id: string, now: int): Option<Canvas> {
    match Recipes.Lookup(el1.text, el2.text)
    case None => None
    case Some(Explode) => Some(Removed(r.canvas.entries, el1.id, el2.id))
    case Some(Produce(t)) =>
      var (e, first) := Discover(r.discovered, t, now);
      Some(Merge(r.canvas.entries, el1.id, el2.id, Instance(id, e, Midpoint(el1.position, el2.position), first)))
  }

  /** Which instance is dragged onto which does not matter: the same recipe applies, the same
      instances disappear, and a produced instance is the same and sits at the same point. An
      explosion leaves no instance behind; a produced one is the only new key. */
  lemma CombineSymmetric(r: Render, el1: CanvasElement, el2: CanvasElement, id: string, now: int)
    ensures Combined(r, el1, el2, id, now) == Combined(r, el2, el1, id, now)
    ensures Combined(r, el1, el2, id, now).Some? ==>
      var keys := Combined(r, el1, el2, id, now).value.at.Keys;
      var before := r.canvas.entries.at.Keys - {el1.id, el2.id};
      keys == if Recipes.Lookup(el1.text, el2.text) == Some(Explode) then before else before + {id}
  {
    Recipes.LookupSymmetric(el1.text, el2.text);
    var m := r.canvas.entries;
    assert Midpoint(el1.position, el2.position) == Midpoint(el2.position, el1.position);
    assert Removed(m, el1.id, el2.id).at == Removed(m, el2.id, el1.id).at;
    assert Removed(m, el1.id, el2.id).order == Removed(m, el2.id, el1.id).order by {
      WithoutCommutes(m.order, el1.id, el2.id);
    }
  }

  /** Dropping two values from a sequence in either order gives the same sequence. */
  lemma {:induction false} WithoutCommutes<K(!new)>(s: seq<K>, a: K, b: K)
    ensures Ordered.Without(Ordered.Without(s, a), b) == Ordered.Without(Ordered.Without(s, b), a)
  {
    if s != [] {
      WithoutCommutes(s[1..], a, b);
    }
  }

  /** The canvas after `duplicateElement`: a copy of instance `id`'s data, 20 to the right and 20
      down, put in under `newId`. */
  function Duplicated(m: Canvas, id: string, newId: string): Canvas
    requires id in m.at
  {
    var e := m.at[id];
    Ordered.Put(m, newId, Instance(newId, e.Data(), Position(e.position.x + 20.0, e.position.y + 20.0), false))
  }

  /** Going from canvas `m` to canvas `n` with counter `c` issued no live id: when `m` keeps every
      instance under its own id and `c` is the counter computed from `m`, the id `c` issues is on no
      instance of `m`, and `n` keeps every instance under its own id. */
  ghost predicate FreshOn(m: Canvas, c: Ids.Counter, n: Canvas) {
    Ids.KeysAreIds(m) && c == Ids.NextCounter(m) && c.Num? ==> Ids.Issue(c).0 !in m.at && Ids.KeysAreIds(n)
  }

  /** Placing an instance under the id just issued issues no live id, and the counter then moves on
      exactly as the effect would recompute it. */
  lemma FreshPut(m: Canvas, c: Ids.Counter, e: CanvasElement)
    requires e.id == Ids.Issue(c).0
    ensures FreshOn(m, c, Ordered.Put(m, e.id, e))
    ensures Ids.KeysAreIds(m) && c == Ids.NextCounter(m) && c.Num? ==>
      Ids.NextCounter(Ordered.Put(m, e.id, e)) == Ids.Issue(c).1
  {
    if Ids.KeysAreIds(m) && c == Ids.NextCounter(m) && c.Num? {
      Ids.IssuedIdIsFresh(m);
      Ids.CounterAfterPlacing(m, e);
    }
  }

  /** A merge result placed under the id just issued issues no live id. */
  lemma FreshMerge(m: Canvas, c: Ids.Counter, id1: string, id2: string, e: CanvasElement)
    requires e.id == Ids.Issue(c).0
    ensures FreshOn(m, c, Merge(m, id1, id2, e))
  {
    if Ids.KeysAreIds(m) && c == Ids.NextCounter(m) && c.Num? {
      Ids.IssuedIdIsFresh(m);
    }
  }

  /** An instance marked as being processed, when it is on the canvas. */
  function Flag(m: Canvas, id: string): (r: Canvas)
    ensures r.order == m.order && r.at.Keys == m.at.Keys
    ensures forall k | k in r.at :: r.at[k] == if k == id then m.at[k].(isProcessing := true) else m.at[k]
  {
    if id in m.at then Ordered.Put(m, id, m.at[id].(isProcessing := true)) else m
  }

  /** `updateMultiplePositions`' loop: every listed id that is on the canvas moves to its new
      position; other instances, unknown ids and the order of the map are left alone. */
  method Reposition(m: Canvas, moves: Ordered.Map<string, Position>) returns (r: Canvas)
    ensures r.order == m.order && r.at.Keys == m.at.Keys
    ensures forall k | k in r.at ::
      r.at[k] == if k in moves.at then m.at[k].(position := moves.at[k]) else m.at[k]
  {
    r := m;
    var i := 0;
    while i < |moves.order|
      invariant 0 <= i <= |moves.order|
      invariant r.order == m.order && r.at.Keys == m.at.Keys
      invariant forall k | k in r.at ::
        r.at[k] == if k in moves.order[..i] then m.at[k].(position := moves.at[k]) else m.at[k]
    {
      var id := moves.order[i];
      assert id !in moves.order[..i];
      if id in r.at {
        r := Ordered.Put(r, id, r.at[id].(position := moves.at[id]));
      }
      assert moves.order[..i + 1] == moves.order[..i] + [id];
      i := i + 1;
    }
    assert moves.order[..i] == moves.order;
  }

  // ---------------------------------------------------------------- keyboard

  datatype Command = NoCommand | UndoCommand | RedoCommand

  /** The keyboard mapping: with Ctrl or Cmd, 'z' undoes, Shift+'z' and 'y' redo. */
  function KeyCommand(ctrl: bool, meta: bool, shift: bool, key: string): (c: Command)
    ensures c != NoCommand <==> (ctrl || meta) && (key == "z" || key == "y")
    ensures c == RedoCommand <==> (ctrl || meta) && (key == "y" || (key == "z" && shift))
  {
    if ctrl || meta then
      if key == "z" then (if shift then RedoCommand else UndoCommand)
      else if key == "y" then RedoCommand
      else NoCommand
    else NoCommand
  }

  // ---------------------------------------------------------------- the app

  /** The bookkeeping of the app besides the canvas and its history: the discovered map, the recipe
      cache, the id counter and the canvas it was computed for, and the explosions and
      notifications with their counters. */
  datatype Tallies = Tallies(
    discovered: Discovered,
    cache: map<string, ElementData>,
    nextId: Ids.Counter,
    counted: CanvasMap,
    explosions: seq<ExplosionData>,
    nextExplosionId: nat,
    notifications: seq<NotificationData>,
    nextNotificationId: nat)

  /** An explosion result of render `r`, the bookkeeping going from `before` to `after`, with
      `shown` and `log` the canvas and the history afterwards: both sources are deleted from `r`'s
      canvas with one history entry, the explosion appears at their midpoint and the description,
      if any, is announced. Nothing else in the bookkeeping changes. */
  ghost predicate Explodes(r: Render, el1: CanvasElement, el2: CanvasElement, described: Option<string>,
                           before: Tallies, after: Tallies, shown: CanvasMap, log: History.Log<CanvasMap>)
    requires r.Valid()
  {
    var news := if described.None? then [] else
      [NotificationData(before.nextNotificationId, el1.text + " + " + el2.text + " = 💥", described.value, "💥")];
    && shown.entries == Removed(r.canvas.entries, el1.id, el2.id)
    && log == History.Record(r.Log(), shown)
    && after == before.(
         explosions := before.explosions + [ExplosionData(before.nextExplosionId, Midpoint(el1.position, el2.position))],
         nextExplosionId := before.nextExplosionId + 1,
         notifications := before.notifications + news,
         nextNotificationId := before.nextNotificationId + |news|)
  }

  /** A template result `t` of render `r`, in the same terms: the first-discovery bookkeeping runs
      against `r`'s discovered map, and a first discovery is added to it and, with a description,
      announced; both sources are deleted from `r`'s canvas and the new instance appears at their
      midpoint under the issued id, which is fresh, with one history entry. Nothing else in the
      bookkeeping changes. */
  ghost predicate Materialises(r: Render, el1: CanvasElement, el2: CanvasElement, t: ElementData, now: int,
                               described: Option<string>,
                               before: Tallies, after: Tallies, shown: CanvasMap, log: History.Log<CanvasMap>)
    requires r.Valid()
  {
    var (e, first) := Discover(r.discovered, t, now);
    var (id, next) := Ids.Issue(before.nextId);
    var news := if first && described.Some? then
      [NotificationData(before.nextNotificationId, "New Discovery: " + e.text, described.value, e.emoji)] else [];
    && shown.entries == Merge(r.canvas.entries, el1.id, el2.id, Instance(id, e, Midpoint(el1.position, el2.position), first))
    && log == History.Record(r.Log(), shown)
    && FreshOn(r.canvas.entries, before.nextId, shown.entries)
    && after == before.(
         discovered := if first then Ordered.Put(r.discovered, e.text, e) else before.discovered,
         nextId := next,
         notifications := before.notifications + news,
         nextNotificationId := before.nextNotificationId + |news|)
  }

  /** What a static combine of render `r` does: the two names are looked up under their sorted key;
      without a recipe nothing changes, otherwise the explosion or the template result, with the
      description of the key. */
  ghost predicate Combines(r: Render, el1: CanvasElement, el2: CanvasElement, now: int,
                           descriptions: map<string, string>,
                           before: Tallies, after: Tallies, shown: CanvasMap, log: History.Log<CanvasMap>)
    requires r.Valid()
  {
    var described := Description(descriptions, Text.RecipeKey(el1.text, el2.text));
    match Recipes.Lookup(el1.text, el2.text)
    case None => after == before
    case Some(Explode) => Explodes(r, el1, el2, described, before, after, shown, log)
    case Some(Produce(t)) => Materialises(r, el1, el2, t, now, described, before, after, shown, log)
  }

  class App {
    var canvas: CanvasMap
    var discovered: Discovered
    /** The recipe cache of src/App.tsx; the static variant never touches it. */
    var cache: map<string, ElementData>
    var history: seq<CanvasMap>
    var index: int
    var nextId: Ids.Counter
    /** The canvas the id-counter effect last ran for. */
    var counted: CanvasMap
    var selection: Ordered.Set<string>
    var explosions: seq<ExplosionData>
    var nextExplosionId: nat
    var notifications: seq<NotificationData>
    var nextNotificationId: nat
    var trashActive: bool
    var highlighted: Option<string>

    predicate Valid()
      reads this
    {
      0 <= index < |history|
    }

    function Log(): History.Log<CanvasMap>
      reads this`history, this`index
    {
      History.Log(history, index)
    }

    function Tally(): Tallies
      reads this`discovered, this`cache, this`nextId, this`counted
      reads this`explosions, this`nextExplosionId, this`notifications, this`nextNotificationId
    {
      Tallies(discovered, cache, nextId, counted, explosions, nextExplosionId, notifications, nextNotificationId)
    }

    /** `canUndo`. */
    predicate CanUndo()
      reads this
    {
      index > 0
    }

    /** `canRedo`. */
    predicate CanRedo()
      reads this
    {
      index < |history| - 1
    }

    /** The render a handler created now would see. */
    function Now(): (r: Render)
      reads this
      ensures Valid() ==> r.Valid()
    {
      Render(canvas, history, index, discovered, selection, cache)
    }

    twostate predicate KeepsBoard()
      reads this
    {
      canvas == old(canvas) && history == old(history) && index == old(index)
    }

    twostate predicate KeepsStores()
      reads this
    {
      discovered == old(discovered) && cache == old(cache)
    }

    twostate predicate KeepsIds()
      reads this
    {
      nextId == old(nextId) && counted == old(counted)
    }

    twostate predicate KeepsEvents()
      reads this
    {
      explosions == old(explosions) && nextExplosionId == old(nextExplosionId)
      && notifications == old(notifications) && nextNotificationId == old(nextNotificationId)
    }

    twostate predicate KeepsPointer()
      reads this
    {
      selection == old(selection) && trashActive == old(trashActive) && highlighted == old(highlighted)
    }

    /** What issuing an id for render `r` promises: when `r`'s canvas keeps every instance under its
        own id and the counter is the one the effect computed from that canvas, the id issued was
        on no instance of it, and the new canvas keeps every instance under its own id too. */
    twostate predicate IssuedFresh(r: Render)
      reads this
    {
      FreshOn(r.canvas.entries, old(nextId), canvas.entries)
    }

    /** The first render and its effects: the persisted canvas, discovered map and recipe cache are
        loaded, the history starts as just that canvas, and the id counter is computed from it. */
    constructor (stored: Canvas, storedDiscovered: Discovered, storedCache: map<string, ElementData>)
      ensures Valid() && history == [canvas] && index == 0
      ensures canvas.entries == stored && discovered == storedDiscovered && cache == storedCache
      ensures nextId == Ids.NextCounter(stored) && counted == canvas
      ensures selection == [] && explosions == [] && notifications == []
      ensures !trashActive && highlighted == None
    {
      var c := new CanvasMap(stored);
      canvas, history, index := c, [c], 0;
      discovered, cache := storedDiscovered, storedCache;
      nextId, counted := Ids.NextCounter(stored), c;
      selection, explosions, nextExplosionId := [], [], 0;
      notifications, nextNotificationId := [], 0;
      trashActive, highlighted := false, None;
    }

    /** The id-counter effect, run after a render whose canvas is a different object from the one it
        last ran for: the counter becomes one past the largest id number on the canvas. */
    method Commit()
      modifies this
      ensures counted == canvas
      ensures nextId == if canvas != old(counted) then Ids.NextCounter(canvas.entries) else old(nextId)
      ensures KeepsBoard() && KeepsStores() && KeepsEvents() && KeepsPointer()
    {
      if canvas != counted {
        nextId := Ids.NextCounter(canvas.entries);
        counted := canvas;
      }
    }

    /** `getNewId`: the id for the current counter, which then moves on. */
    method IssueId() returns (id: string)
      modifies this`nextId
      ensures (id, nextId) == Ids.Issue(old(nextId))
      ensures counted == old(counted)
      ensures KeepsBoard() && KeepsStores() && KeepsEvents() && KeepsPointer()
    {
      var issued := Ids.Issue(nextId);
      id, nextId := issued.0, issued.1;
    }

    /** `updateCanvas` of render `r`: the new canvas becomes live and is recorded after `r`'s
        present snapshot, cutting off `r`'s redo tail. */
    method UpdateCanvas(r: Render, entries: Canvas)
      requires r.Valid()
      modifies this`canvas, this`history, this`index
      ensures fresh(canvas) && canvas.entries == entries
      ensures Log() == History.Record(r.Log(), canvas) && Valid()
      ensures KeepsStores() && KeepsIds() && KeepsEvents() && KeepsPointer()
    {
      var c := new CanvasMap(entries);
      var h := History.Record(r.Log(), c);
      canvas, history, index := c, h.snapshots, h.index;
    }

    /** `undo`: with something to undo, step back and show that snapshot. */
    method Undo()
      requires Valid()
      modifies this
      ensures Log() == History.Undo(old(Log())) && Valid()
      ensures canvas == if old(CanUndo()) then history[index] else old(canvas)
      ensures KeepsStores() && KeepsIds() && KeepsEvents() && KeepsPointer()
    {
      if CanUndo() {
        index := index - 1;
        canvas := history[index];
      }
    }

    /** `redo`: with something to redo, step forward and show that snapshot. */
    method Redo()
      requires Valid()
      modifies this
      ensures Log() == History.Redo(old(Log())) && Valid()
      ensures canvas == if old(CanRedo()) then history[index] else old(canvas)
      ensures KeepsStores() && KeepsIds() && KeepsEvents() && KeepsPointer()
    {
      if CanRedo() {
        index := index + 1;
        canvas := history[index];
      }
    }

    /** The keydown listener. */
    method KeyDown(ctrl: bool, meta: bool, shift: bool, key: string)
      requires Valid()
      modifies this
      ensures KeyCommand(ctrl, meta, shift, key) == NoCommand ==> unchanged(this)
      ensures KeyCommand(ctrl, meta, shift, key) == UndoCommand ==> Log() == History.Undo(old(Log()))
      ensures KeyCommand(ctrl, meta, shift, key) == RedoCommand ==> Log() == History.Redo(old(Log()))
      ensures Valid() && canvas == if index == old(index) then old(canvas) else history[index]
      ensures KeepsStores() && KeepsIds() && KeepsEvents() && KeepsPointer()
    {
      match KeyCommand(ctrl, meta, shift, key)
      case UndoCommand => Undo();
      case RedoCommand => Redo();
      case NoCommand =>
    }

    /** `savePositionToHistory` of render `r`: record `r`'s canvas unless it is the very object
        `r`'s history shows. The live canvas is not touched. */
    method SavePositionToHistory(r: Render)
      requires r.Valid()
      modifies this
      ensures r.history[r.index] != r.canvas ==> Log() == History.Record(r.Log(), r.canvas)
      ensures r.history[r.index] == r.canvas ==> Log() == old(Log())
      ensures canvas == old(canvas)
      ensures KeepsStores() && KeepsIds() && KeepsEvents() && KeepsPointer()
    {
      if r.history[r.index] != r.canvas {
        var h := History.Record(r.Log(), r.canvas);
        history, index := h.snapshots, h.index;
      }
    }

    /** `addElementToCanvas` of render `r`: clear the selection and place a new instance under a
        fresh id, at the given position or a third of the way into the window. */
    method AddElement(r: Render, d: ElementData, at: Option<Position>, innerWidth: real, innerHeight: real)
      requires r.Valid()
      modifies this
      ensures selection == []
      ensures var (id, next) := Ids.Issue(old(nextId));
        nextId == next
        && canvas.entries == Ordered.Put(r.canvas.entries, id,
             Instance(id, d, at.GetOr(Position(innerWidth / 3.0, innerHeight / 3.0)), false))
      ensures fresh(canvas) && Log() == History.Record(r.Log(), canvas) && Valid()
      ensures counted == old(counted) && KeepsStores() && KeepsEvents()
      ensures trashActive == old(trashActive) && highlighted == old(highlighted)
      ensures IssuedFresh(r)
      ensures Ids.KeysAreIds(r.canvas.entries) && old(nextId) == Ids.NextCounter(r.canvas.entries) && old(nextId).Num? ==>
        nextId == Ids.NextCounter(canvas.entries)
    {
      selection := [];
      ghost var before := nextId;
      var id := IssueId();
      var pos := at.GetOr(Position(innerWidth / 3.0, innerHeight / 3.0));
      UpdateCanvas(r, Ordered.Put(r.canvas.entries, id, Instance(id, d, pos, false)));
      FreshPut(r.canvas.entries, before, Instance(id, d, pos, false));
    }

    /** `duplicateElement` of render `r`: a copy of the instance's data, 20 to the right and 20 down;
        nothing happens for an id not on `r`'s canvas. */
    method Duplicate(r: Render, id: string, innerWidth: real, innerHeight: real)
      requires Valid() && r.Valid()
      modifies this
      ensures id !in r.canvas.entries.at ==> unchanged(this)
      ensures id in r.canvas.entries.at ==>
        nextId == Ids.Issue(old(nextId)).1 && selection == [] && fresh(canvas)
        && canvas.entries == Duplicated(r.canvas.entries, id, Ids.Issue(old(nextId)).0)
        && Log() == History.Record(r.Log(), canvas) && IssuedFresh(r)
      ensures Valid() && KeepsStores() && KeepsEvents()
      ensures counted == old(counted) && trashActive == old(trashActive) && highlighted == old(highlighted)
    {
      if id in r.canvas.entries.at {
        var e := r.canvas.entries.at[id];
        var at := Position(e.position.x + 20.0, e.position.y + 20.0);
        ghost var newId := Ids.Issue(nextId).0;
        AddElement(r, e.Data(), Some(at), innerWidth, innerHeight);
        assert canvas.entries == Duplicated(r.canvas.entries, id, newId);
      }
    }

    /** `updateMultiplePositions` of render `r`: move instances of `r`'s canvas, without a history
        entry. */
    method UpdateMultiplePositions(r: Render, moves: Ordered.Map<string, Position>)
      modifies this`canvas
      ensures fresh(canvas) && canvas.entries.order == r.canvas.entries.order
      ensures canvas.entries.at.Keys == r.canvas.entries.at.Keys
      ensures forall k | k in canvas.entries.at ::
        canvas.entries.at[k] == (if k in moves.at then r.canvas.entries.at[k].(position := moves.at[k]) else r.canvas.entries.at[k])
      ensures history == old(history) && index == old(index)
      ensures KeepsStores() && KeepsIds() && KeepsEvents() && KeepsPointer()
    {
      var m := Reposition(r.canvas.entries, moves);
      canvas := new CanvasMap(m);
    }

    /** `removeElementFromCanvas` of render `r`. */
    method RemoveElement(r: Render, id: string)
      requires r.Valid()
      modifies this
      ensures fresh(canvas) && canvas.entries == Ordered.Remove(r.canvas.entries, id)
      ensures Log() == History.Record(r.Log(), canvas) && Valid()
      ensures KeepsStores() && KeepsIds() && KeepsEvents() && KeepsPointer()
    {
      UpdateCanvas(r, Ordered.Remove(r.canvas.entries, id));
    }

    /** `resetCanvas` of render `r`: an empty canvas, recorded. */
    method ResetCanvas(r: Render)
      requires r.Valid()
      modifies this
      ensures fresh(canvas) && canvas.entries == Ordered.Empty()
      ensures Log() == History.Record(r.Log(), canvas) && Valid()
      ensures KeepsStores() && KeepsIds() && KeepsEvents() && KeepsPointer()
    {
      UpdateCanvas(r, Ordered.Empty());
    }

    /** `resetAll` of render `r` (App.tsx): an empty canvas, recorded, and the seed discoveries. */
    method ResetAll(r: Render)
      requires r.Valid()
      modifies this
      ensures fresh(canvas) && canvas.entries == Ordered.Empty()
      ensures Log() == History.Record(r.Log(), canvas) && Valid()
      ensures discovered == Seeds && cache == old(cache)
      ensures KeepsIds() && KeepsEvents() && KeepsPointer()
    {
      UpdateCanvas(r, Ordered.Empty());
      discovered := Seeds;
    }

    /** `resetAll` of render `r` (src/App.tsx): as above, and the recipe cache is emptied. */
    method ResetAllWithCache(r: Render)
      requires r.Valid()
      modifies this
      ensures fresh(canvas) && canvas.entries == Ordered.Empty()
      ensures Log() == History.Record(r.Log(), canvas) && Valid()
      ensures discovered == Seeds && cache == map[]
      ensures KeepsIds() && KeepsEvents() && KeepsPointer()
    {
      UpdateCanvas(r, Ordered.Empty());
      discovered := Seeds;
      cache := map[];
    }

    /** `addNotification`: the notification gets the next number. */
    method Notify(title: string, message: string, emoji: string)
      modifies this`notifications, this`nextNotificationId
      ensures notifications == old(notifications) + [NotificationData(old(nextNotificationId), title, message, emoji)]
      ensures nextNotificationId == old(nextNotificationId) + 1
      ensures explosions == old(explosions) && nextExplosionId == old(nextExplosionId)
      ensures KeepsBoard() && KeepsStores() && KeepsIds() && KeepsPointer()
    {
      notifications := notifications + [NotificationData(nextNotificationId, title, message, emoji)];
      nextNotificationId := nextNotificationId + 1;
    }

    /** An explosion result: the explosion appears at the midpoint, the description (if any) is
        announced, and both sources are deleted from `r`'s canvas, with one history entry. */
    method Detonate(r: Render, el1: CanvasElement, el2: CanvasElement, described: Option<string>)
      requires r.Valid()
      modifies this
      ensures fresh(canvas) && Valid() && KeepsPointer()
      ensures Explodes(r, el1, el2, described, old(Tally()), Tally(), canvas, Log())
    {
      ghost var before := Tally();
      ghost var news := if described.None? then [] else
        [NotificationData(before.nextNotificationId, el1.text + " + " + el2.text + " = 💥", described.value, "💥")];
      explosions := explosions + [ExplosionData(nextExplosionId, Midpoint(el1.position, el2.position))];
      nextExplosionId := nextExplosionId + 1;
      if described.Some? {
        Notify(el1.text + " + " + el2.text + " = 💥", described.value, "💥");
      }
      ghost var after := Tally();
      assert after == before.(
        explosions := before.explosions + [ExplosionData(before.nextExplosionId, Midpoint(el1.position, el2.position))],
        nextExplosionId := before.nextExplosionId + 1,
        notifications := before.notifications + news,
        nextNotificationId := before.nextNotificationId + |news|);
      UpdateCanvas(r, Removed(r.canvas.entries, el1.id, el2.id));
      assert Tally() == after;
      ghost var shown, log := canvas, Log();
      assert Explodes(r, el1, el2, described, before, after, shown, log);
    }

    /** The first-discovery bookkeeping of a template result against `r`'s discovered map: a first
        discovery is added to it and, with a description, announced; the board is left alone. */
    method Announce(r: Render, t: ElementData, now: int, described: Option<string>) returns (e: ElementData, first: bool)
      modifies this`discovered, this`notifications, this`nextNotificationId
      ensures (e, first) == Discover(r.discovered, t, now)
      ensures Tally() == old(Tally()).(
        discovered := if first then Ordered.Put(r.discovered, e.text, e) else old(discovered),
        notifications := old(notifications) + (if first && described.Some? then
          [NotificationData(old(nextNotificationId), "New Discovery: " + e.text, described.value, e.emoji)] else []),
        nextNotificationId := old(nextNotificationId) + (if first && described.Some? then 1 else 0))
    {
      var found := Discover(r.discovered, t, now);
      e, first := found.0, found.1;
      if first {
        discovered := Ordered.Put(r.discovered, e.text, e);
      }
      if first && described.Some? {
        notifications := notifications + [NotificationData(nextNotificationId, "New Discovery: " + e.text, described.value, e.emoji)];
        nextNotificationId := nextNotificationId + 1;
      }
    }

    /** A template result: the first-discovery bookkeeping (`Announce`), then both sources are
        deleted from `r`'s canvas and the new instance appears at their midpoint under a fresh id,
        with one history entry. */
    method Materialise(r: Render, el1: CanvasElement, el2: CanvasElement, t: ElementData, now: int, described: Option<string>)
      requires r.Valid()
      modifies this
      ensures fresh(canvas) && Valid() && KeepsPointer()
      ensures Materialises(r, el1, el2, t, now, described, old(Tally()), Tally(), canvas, Log())
    {
      ghost var before := Tally();
      var e, first := Announce(r, t, now, described);
      ghost var announced := Tally();
      var id := IssueId();
      assert Tally() == announced.(nextId := Ids.Issue(before.nextId).1);
      var made := Instance(id, e, Midpoint(el1.position, el2.position), first);
      UpdateCanvas(r, Merge(r.canvas.entries, el1.id, el2.id, made));
      FreshMerge(r.canvas.entries, before.nextId, el1.id, el2.id, made);
      ghost var after, shown, log := Tally(), canvas, Log();
      assert after == announced.(nextId := Ids.Issue(before.nextId).1);
      assert Materialises(r, el1, el2, t, now, described, before, after, shown, log);
    }

    /** `combineElements` of render `r` (App.tsx), with the static recipe table: the two names are
        looked up under their sorted key; no recipe changes nothing. */
    method Combine(r: Render, el1: CanvasElement, el2: CanvasElement, now: int, descriptions: map<string, string>)
      requires r.Valid()
      modifies this
      ensures Recipes.Lookup(el1.text, el2.text) == None ==> unchanged(this)
      ensures Recipes.Lookup(el1.text, el2.text).Some? ==> fresh(canvas)
      ensures Combines(r, el1, el2, now, descriptions, old(Tally()), Tally(), canvas, Log())
      ensures Combined(r, el1, el2, Ids.Issue(old(nextId)).0, now).Some? ==>
        canvas.entries == Combined(r, el1, el2, Ids.Issue(old(nextId)).0, now).value
      ensures old(Valid()) ==> Valid()
      ensures KeepsPointer()
    {
      var result := Recipes.Lookup(el1.text, el2.text);
      var described := Description(descriptions, Text.RecipeKey(el1.text, el2.text));
      match result
      case None =>
      case Some(Explode) => Detonate(r, el1, el2, described);
      case Some(Produce(t)) => Materialise(r, el1, el2, t, now, described);
    }

    /** The first phase of the cached `combineElements` of render `r` (src/App.tsx): both sources still
        on `r`'s canvas are marked as being processed, with no history entry. */
    method MarkProcessing(r: Render, el1: CanvasElement, el2: CanvasElement)
      modifies this
      ensures fresh(canvas) && canvas.entries == Flag(Flag(r.canvas.entries, el1.id), el2.id)
      ensures history == old(history) && index == old(index)
      ensures KeepsStores() && KeepsIds() && KeepsEvents() && KeepsPointer()
    {
      canvas := new CanvasMap(Flag(Flag(r.canvas.entries, el1.id), el2.id));
    }

    /** The second phase of the cached `combineElements` of render `r`, once the cache or the
        generative service (`answer`, None when there is no client or the call fails) has spoken.
        Both sources are deleted from `r`'s canvas whatever the outcome, and the result, if any,
        appears at their midpoint under a fresh id; one history entry is recorded either way. */
    method Resolve(r: Render, el1: CanvasElement, el2: CanvasElement, answer: Option<(string, string)>,
                   upper: string -> string, now: int)
      requires r.Valid()
      modifies this
      ensures var key := Text.RecipeKey(el1.text, el2.text);
        var (res, first) := CacheOutcome(r.cache, r.discovered, key, answer, upper, now);
        && cache == (if key !in r.cache && res.Some? then r.cache[key := res.value] else old(cache))
        && discovered == (if first then Ordered.Put(r.discovered, res.value.text, res.value) else old(discovered))
        && (res.None? ==> nextId == old(nextId) && canvas.entries == Removed(r.canvas.entries, el1.id, el2.id))
        && (res.Some? ==>
              var (id, next) := Ids.Issue(old(nextId));
              nextId == next
              && canvas.entries == Merge(r.canvas.entries, el1.id, el2.id,
                   Instance(id, res.value, Midpoint(el1.position, el2.position), first)))
      ensures fresh(canvas) && Log() == History.Record(r.Log(), canvas) && Valid()
      ensures counted == old(counted) && KeepsEvents() && KeepsPointer()
      ensures CacheOutcome(r.cache, r.discovered, Text.RecipeKey(el1.text, el2.text), answer, upper, now).0.Some? ==>
        IssuedFresh(r)
    {
      var key := Text.RecipeKey(el1.text, el2.text);
      var (res, first) := CacheOutcome(r.cache, r.discovered, key, answer, upper, now);
      if key !in r.cache && res.Some? {
        cache := r.cache[key := res.value];
        if first {
          discovered := Ordered.Put(r.discovered, res.value.text, res.value);
        }
      }
      if res.Some? {
        ghost var before := nextId;
        var id := IssueId();
        UpdateCanvas(r, Merge(r.canvas.entries, el1.id, el2.id,
          Instance(id, res.value, Midpoint(el1.position, el2.position), first)));
        FreshMerge(r.canvas.entries, before, el1.id, el2.id, Instance(id, res.value, Midpoint(el1.position, el2.position), first));
      } else {
        UpdateCanvas(r, Removed(r.canvas.entries, el1.id, el2.id));
      }
    }
  }
}
