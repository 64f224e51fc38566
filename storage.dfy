/** The persistence hook (hooks/useLocalStorage.ts): the replacer that tags a Map on its way into
    JSON, the reviver that turns tagged objects back into Maps, the initial-load rule, the setter
    and the cross-tab storage event. JSON is handled as trees of values; the text layer
    (`JSON.stringify` producing characters and `JSON.parse` reading them) is not modelled. */
module Storage {
  import opened Types

  /** The JavaScript values that reach the hook. A `JsMap` lists its entries in insertion order. */
  datatype Value =
    | Undef
    | Null
    | Bool(b: bool)
    | Num(n: real)
    | Str(s: string)
    | Arr(items: seq<Value>)
    | Obj(fields: seq<(string, Value)>)
    | JsMap(entries: seq<(Value, Value)>)

  /** Not an object: compared by value when used as a Map key. */
  predicate Primitive(v: Value) {
    !(v.Arr? || v.Obj? || v.JsMap?)
  }

  /** A property of a parsed object; a later duplicate wins. */
  function Lookup(fields: seq<(string, Value)>, name: string): (r: Option<Value>)
    ensures r.Some? ==> exists i | 0 <= i < |fields| :: fields[i] == (name, r.value)
    ensures r.None? <==> forall i | 0 <= i < |fields| :: fields[i].0 != name
  {
    if fields == [] then None
    else if fields[|fields| - 1].0 == name then Some(fields[|fields| - 1].1)
    else Lookup(fields[..|fields| - 1], name)
  }

  // ---------------------------------------------------------------- replacer

  /** `undefined` in an array slot is written as `null`. */
  function InSlot(v: Value): Value {
    if v == Undef then Null else v
  }

  /** Object properties whose value is `undefined` are not written. */
  function Present(fields: seq<(string, Value)>): (r: seq<(string, Value)>)
    ensures forall f :: f in r <==> f in fields && f.1 != Undef
    ensures (forall i | 0 <= i < |fields| :: fields[i].1 != Undef) ==> r == fields
  {
    if fields == [] then []
    else
      var rest := Present(fields[1..]);
      assert fields == [fields[0]] + fields[1..];
      if fields[0].1 == Undef then rest else [fields[0]] + rest
  }

  /** The JSON tree `JSON.stringify(v, replacer)` writes: every Map, at any depth, becomes an
      object `{dataType: 'Map', value: [[key, value], ...]}` of its entries in order; other values
      are written as they are. */
  function Encode(v: Value): (j: Value)
    ensures v != Undef ==> j != Undef
  {
    match v
    case Arr(items) => Arr(seq(|items|, i requires 0 <= i < |items| => InSlot(Encode(items[i]))))
    case Obj(fields) => Obj(Present(seq(|fields|, i requires 0 <= i < |fields| => (fields[i].0, Encode(fields[i].1)))))
    case JsMap(entries) =>
      Obj([("dataType", Str("Map")),
           ("value", Arr(seq(|entries|, i requires 0 <= i < |entries| =>
                               Arr([InSlot(Encode(entries[i].0)), InSlot(Encode(entries[i].1))]))))])
    case _ => v
  }

  // ---------------------------------------------------------------- reviver

  /** `map.set(k, v)` on the entries built so far: a primitive key already present keeps its place
      and takes the new value; an object key is always a new key. */
  function SetEntry(entries: seq<(Value, Value)>, k: Value, v: Value): seq<(Value, Value)> {
    match KeyIndex(entries, k)
    case Some(i) => if Primitive(k) then entries[i := (k, v)] else entries + [(k, v)]
    case None => entries + [(k, v)]
  }

  /** Where a key first occurs among the entries. */
  function KeyIndex(entries: seq<(Value, Value)>, k: Value): (r: Option<nat>)
    ensures r.Some? ==>
      r.value < |entries| && entries[r.value].0 == k && forall i | 0 <= i < r.value :: entries[i].0 != k
    ensures r.None? ==> forall i | 0 <= i < |entries| :: entries[i].0 != k
  {
    if entries == [] then None
    else if entries[0].0 == k then Some(0)
    else match KeyIndex(entries[1..], k)
      case Some(i) => Some(i + 1)
      case None => None
  }

  /** The entries of `new Map(pairs)`. */
  function MapFrom(pairs: seq<(Value, Value)>): seq<(Value, Value)> {
    if pairs == [] then []
    else SetEntry(MapFrom(pairs[..|pairs| - 1]), pairs[|pairs| - 1].0, pairs[|pairs| - 1].1)
  }

  /** The key and value an iterated item stands for, `item[0]` and `item[1]`; `None` when the item
      is not an object, which makes `new Map` throw. */
  function EntryOf(item: Value): Option<(Value, Value)> {
    match item
    case Arr(xs) => Some((if |xs| > 0 then xs[0] else Undef, if |xs| > 1 then xs[1] else Undef))
    case Obj(fs) => Some((Lookup(fs, "0").GetOr(Undef), Lookup(fs, "1").GetOr(Undef)))
    case JsMap(_) => Some((Undef, Undef))
    case _ => None
  }

  /** `new Map(x)`; `None` when it throws. */
  function NewMap(x: Value): Option<Value> {
    match x
    case Undef => Some(JsMap([]))
    case Null => Some(JsMap([]))
    case Str(s) => if s == [] then Some(JsMap([])) else None
    case Arr(items) =>
      if forall i | 0 <= i < |items| :: EntryOf(items[i]).Some? then
        Some(JsMap(MapFrom(seq(|items|, i requires 0 <= i < |items| && EntryOf(items[i]).Some? => EntryOf(items[i]).value))))
      else None
    case JsMap(entries) => Some(JsMap(MapFrom(entries)))
    case _ => None
  }

  /** The reviver on an object whose properties are already revived. */
  function Revive(fields: seq<(string, Value)>): Option<Value> {
    if Lookup(fields, "dataType") == Some(Str("Map")) then NewMap(Lookup(fields, "value").GetOr(Undef))
    else Some(Obj(fields))
  }

  /** `JSON.parse(text, reviver)` on the tree the text holds: children are revived before their
      parent; `None` when the reviver throws. */
  function Decode(j: Value): Option<Value> {
    match j
    case Arr(items) =>
      if forall i | 0 <= i < |items| :: Decode(items[i]).Some? then
        Some(Arr(seq(|items|, i requires 0 <= i < |items| && Decode(items[i]).Some? => Decode(items[i]).value)))
      else None
    case Obj(fields) =>
      if forall i | 0 <= i < |fields| :: Decode(fields[i].1).Some? then
        Revive(seq(|fields|, i requires 0 <= i < |fields| && Decode(fields[i].1).Some? => (fields[i].0, Decode(fields[i].1).value)))
      else None
    case _ => Some(j)
  }

  // ---------------------------------------------------------------- round trip

  /** Distinct primitive keys, as every Map has. */
  predicate KeysDistinct(entries: seq<(Value, Value)>) {
    forall i, j | 0 <= i < j < |entries| && Primitive(entries[i].0) :: entries[i].0 != entries[j].0
  }

  /** The values the round trip holds for: no `undefined`, no plain object tagged like a Map, and
      Maps with distinct primitive keys, at every depth. */
  predicate Storable(v: Value) {
    match v
    case Undef => false
    case Arr(items) => forall i | 0 <= i < |items| :: Storable(items[i])
    case Obj(fields) =>
      Lookup(fields, "dataType") != Some(Str("Map")) && forall i | 0 <= i < |fields| :: Storable(fields[i].1)
    case JsMap(entries) =>
      KeysDistinct(entries) && forall i | 0 <= i < |entries| :: Storable(entries[i].0) && Storable(entries[i].1)
    case _ => true
  }

  /** Building a Map from entries with distinct primitive keys keeps them as they are. */
  lemma {:induction false} MapFromDistinct(pairs: seq<(Value, Value)>)
    requires KeysDistinct(pairs)
    ensures MapFrom(pairs) == pairs
  {
    if pairs != [] {
      var front := pairs[..|pairs| - 1];
      var (k, v) := pairs[|pairs| - 1];
      assert KeysDistinct(front);
      MapFromDistinct(front);
      if Primitive(k) {
        forall i | 0 <= i < |front| ensures front[i].0 != k {
          if Primitive(front[i].0) {
            assert pairs[i].0 != pairs[|pairs| - 1].0;
          }
        }
      }
      assert pairs == front + [(k, v)];
    }
  }

  /** Reading back what was written gives the value that was written, Maps and their entry order
      included, at every depth. */
  lemma {:induction false} RoundTrip(v: Value)
    requires Storable(v)
    ensures Decode(Encode(v)) == Some(v)
  {
    match v
    case Arr(items) =>
      forall i | 0 <= i < |items| ensures Decode(Encode(items[i])) == Some(items[i]) {
        RoundTrip(items[i]);
      }
      RoundTripArr(items);
    case Obj(fields) =>
      forall i | 0 <= i < |fields| ensures Decode(Encode(fields[i].1)) == Some(fields[i].1) {
        RoundTrip(fields[i].1);
      }
      RoundTripObj(fields);
    case JsMap(entries) =>
      forall i | 0 <= i < |entries|
        ensures Decode(Encode(entries[i].0)) == Some(entries[i].0) && Decode(Encode(entries[i].1)) == Some(entries[i].1)
      {
        RoundTrip(entries[i].0);
        RoundTrip(entries[i].1);
      }
      RoundTripMap(entries);
    case _ =>
  }

  /** The array case of the round trip, once every item is known to come back. */
  lemma RoundTripArr(items: seq<Value>)
    requires forall i | 0 <= i < |items| :: items[i] != Undef && Decode(Encode(items[i])) == Some(items[i])
    ensures Decode(Encode(Arr(items))) == Some(Arr(items))
  {
    var enc := Encode(Arr(items)).items;
    assert forall i | 0 <= i < |items| :: enc[i] == Encode(items[i]);
    DecodeItems(enc, items);
  }

  /** The object case of the round trip, once every property value is known to come back. */
  lemma RoundTripObj(fields: seq<(string, Value)>)
    requires Lookup(fields, "dataType") != Some(Str("Map"))
    requires forall i | 0 <= i < |fields| :: fields[i].1 != Undef && Decode(Encode(fields[i].1)) == Some(fields[i].1)
    ensures Decode(Encode(Obj(fields))) == Some(Obj(fields))
  {
    WriteObj(fields);
    ReadObj(fields);
    ReadBackObj(fields);
  }

  lemma WriteObj(fields: seq<(string, Value)>)
    requires forall i | 0 <= i < |fields| :: fields[i].1 != Undef
    ensures Encode(Obj(fields)) == Obj(EncodedFields(fields))
  {
    EncodeFields(fields, EncodedFields(fields));
  }

  lemma ReadObj(fields: seq<(string, Value)>)
    requires forall i | 0 <= i < |fields| :: Decode(Encode(fields[i].1)) == Some(fields[i].1)
    ensures Decode(Obj(EncodedFields(fields))) == Revive(fields)
  {
    DecodeFields(EncodedFields(fields), fields);
  }

  lemma ReadBackObj(fields: seq<(string, Value)>)
    requires Lookup(fields, "dataType") != Some(Str("Map"))
    requires Encode(Obj(fields)) == Obj(EncodedFields(fields))
    requires Decode(Obj(EncodedFields(fields))) == Revive(fields)
    ensures Decode(Encode(Obj(fields))) == Some(Obj(fields))
  {
  }

  /** The Map case of the round trip, once every key and value is known to come back. */
  lemma RoundTripMap(entries: seq<(Value, Value)>)
    requires KeysDistinct(entries)
    requires forall i | 0 <= i < |entries| :: entries[i].0 != Undef && entries[i].1 != Undef
    requires forall i | 0 <= i < |entries| ::
      Decode(Encode(entries[i].0)) == Some(entries[i].0) && Decode(Encode(entries[i].1)) == Some(entries[i].1)
    ensures Decode(Encode(JsMap(entries))) == Some(JsMap(entries))
  {
    var pairs := seq(|entries|, i requires 0 <= i < |entries| =>
      Arr([InSlot(Encode(entries[i].0)), InSlot(Encode(entries[i].1))]));
    var decodedPairs := seq(|entries|, i requires 0 <= i < |entries| => Arr([entries[i].0, entries[i].1]));
    PairsRoundTrip(entries, pairs, decodedPairs);
    var tagged := [("dataType", Str("Map")), ("value", Arr(pairs))];
    assert Encode(JsMap(entries)) == Obj(tagged);
    TagRevived(pairs, decodedPairs);
    NewMapOfPairs(entries, decodedPairs);
  }

  lemma PairsRoundTrip(entries: seq<(Value, Value)>, pairs: seq<Value>, decodedPairs: seq<Value>)
    requires forall i | 0 <= i < |entries| :: entries[i].0 != Undef && entries[i].1 != Undef
    requires forall i | 0 <= i < |entries| ::
      Decode(Encode(entries[i].0)) == Some(entries[i].0) && Decode(Encode(entries[i].1)) == Some(entries[i].1)
    requires |pairs| == |decodedPairs| == |entries|
    requires forall i | 0 <= i < |entries| :: pairs[i] == Arr([InSlot(Encode(entries[i].0)), InSlot(Encode(entries[i].1))])
    requires forall i | 0 <= i < |entries| :: decodedPairs[i] == Arr([entries[i].0, entries[i].1])
    ensures Decode(Arr(pairs)) == Some(Arr(decodedPairs))
  {
    forall i | 0 <= i < |pairs| ensures Decode(pairs[i]) == Some(decodedPairs[i]) {
      PairRoundTrip(entries[i].0, entries[i].1);
    }
    DecodeItems(pairs, decodedPairs);
  }

  lemma TagRevived(pairs: seq<Value>, decodedPairs: seq<Value>)
    requires Decode(Arr(pairs)) == Some(Arr(decodedPairs))
    ensures Decode(Obj([("dataType", Str("Map")), ("value", Arr(pairs))])) == NewMap(Arr(decodedPairs))
  {
    var tagged := [("dataType", Str("Map")), ("value", Arr(pairs))];
    var revived := Tagged(Arr(decodedPairs));
    assert Decode(Str("Map")) == Some(Str("Map"));
    DecodeFields(tagged, revived);
    TaggedLookups(Arr(decodedPairs));
  }

  /** The properties of a tagged Map. */
  function Tagged(x: Value): seq<(string, Value)> {
    [("dataType", Str("Map")), ("value", x)]
  }

  lemma TaggedLookups(x: Value)
    ensures Lookup(Tagged(x), "dataType") == Some(Str("Map"))
    ensures Lookup(Tagged(x), "value") == Some(x)
    ensures Revive(Tagged(x)) == NewMap(x)
  {
  }

  lemma NewMapOfPairs(entries: seq<(Value, Value)>, decodedPairs: seq<Value>)
    requires KeysDistinct(entries)
    requires |decodedPairs| == |entries|
    requires forall i | 0 <= i < |entries| :: decodedPairs[i] == Arr([entries[i].0, entries[i].1])
    ensures NewMap(Arr(decodedPairs)) == Some(JsMap(entries))
  {
    assert forall i | 0 <= i < |decodedPairs| :: EntryOf(decodedPairs[i]) == Some(entries[i]);
    var got := seq(|decodedPairs|, i requires 0 <= i < |decodedPairs| && EntryOf(decodedPairs[i]).Some? => EntryOf(decodedPairs[i]).value);
    assert got == entries;
    assert NewMap(Arr(decodedPairs)) == Some(JsMap(MapFrom(got)));
    MapFromDistinct(entries);
  }

  /** One entry of a Map comes back as the two-element array `[key, value]`. */
  lemma PairRoundTrip(k: Value, v: Value)
    requires k != Undef && v != Undef
    requires Decode(Encode(k)) == Some(k) && Decode(Encode(v)) == Some(v)
    ensures Decode(Arr([InSlot(Encode(k)), InSlot(Encode(v))])) == Some(Arr([k, v]))
  {
    var ek, ev := Encode(k), Encode(v);
    assert InSlot(ek) == ek && InSlot(ev) == ev;
    var p := [ek, ev];
    DecodeItems(p, [k, v]);
  }

  /** An object is written with each property value encoded; none of them is dropped. */
  lemma EncodeFields(fields: seq<(string, Value)>, named: seq<(string, Value)>)
    requires forall i | 0 <= i < |fields| :: fields[i].1 != Undef
    requires named == EncodedFields(fields)
    ensures Encode(Obj(fields)) == Obj(named)
  {
    assert forall i | 0 <= i < |named| :: named[i].1 != Undef;
  }

  /** Each property with its value encoded, before `undefined` ones are dropped. */
  function EncodedFields(fields: seq<(string, Value)>): (named: seq<(string, Value)>)
    ensures |named| == |fields|
    ensures forall i | 0 <= i < |fields| :: named[i] == (fields[i].0, Encode(fields[i].1))
  {
    seq(|fields|, i requires 0 <= i < |fields| => (fields[i].0, Encode(fields[i].1)))
  }

  /** An object whose property values each read back as the matching value of `ys`, under the same
      names, is revived from `ys`. */
  lemma DecodeFields(xs: seq<(string, Value)>, ys: seq<(string, Value)>)
    requires |xs| == |ys|
    requires forall i | 0 <= i < |xs| :: xs[i].0 == ys[i].0 && Decode(xs[i].1) == Some(ys[i].1)
    ensures Decode(Obj(xs)) == Revive(ys)
  {
    assert seq(|xs|, i requires 0 <= i < |xs| && Decode(xs[i].1).Some? => (xs[i].0, Decode(xs[i].1).value)) == ys;
  }

  /** An array whose items each read back as the matching item of `ys` reads back as `ys`. */
  lemma DecodeItems(xs: seq<Value>, ys: seq<Value>)
    requires |xs| == |ys|
    requires forall i | 0 <= i < |xs| :: Decode(xs[i]) == Some(ys[i])
    ensures Decode(Arr(xs)) == Some(Arr(ys))
  {
    assert seq(|xs|, i requires 0 <= i < |xs| && Decode(xs[i]).Some? => Decode(xs[i]).value) == ys;
  }

  /** The object a Map with no entries is written as. */
  const EmptyTag := Obj([("dataType", Str("Map")), ("value", Arr([]))])

  lemma EmptyArrayKept()
    ensures Encode(Arr([])) == Arr([]) && Decode(Arr([])) == Some(Arr([]))
  {
    assert |Encode(Arr([])).items| == 0;
    assert |Decode(Arr([])).value.items| == 0;
  }

  lemma EmptyTagWritten()
    ensures Encode(JsMap([])) == EmptyTag && Encode(EmptyTag) == EmptyTag
  {
    assert |Encode(JsMap([])).fields[1].1.items| == 0;
    EmptyArrayKept();
    var f := EmptyTag.fields;
    assert seq(|f|, i requires 0 <= i < |f| => (f[i].0, Encode(f[i].1))) == f;
  }

  lemma EmptyTagRead()
    ensures Decode(EmptyTag) == Some(JsMap([]))
  {
    EmptyArrayKept();
    TagRevived([], []);
    assert |NewMap(Arr([])).value.entries| == 0;
  }

  /** The encoding is not one-to-one: a plain object that looks like a tagged Map is written exactly
      as that Map is, and comes back as a Map. */
  lemma TaggedObjectComesBackAsMap()
    ensures EmptyTag != JsMap([])
    ensures Encode(EmptyTag) == Encode(JsMap([]))
    ensures Decode(Encode(EmptyTag)) == Some(JsMap([]))
  {
    EmptyTagWritten();
    EmptyTagRead();
  }

  // ---------------------------------------------------------------- the hook

  /** What storage holds under a key: nothing (or the empty string), text that is not JSON, or
      the JSON tree of some text. */
  datatype Item = Missing | Garbage | Stored(tree: Value)

  /** The initial state: the revived stored value, or `initial` when nothing usable is stored or
      reading it throws. */
  function Load(item: Item, initial: Value): Value {
    match item
    case Stored(tree) => if Decode(tree).Some? then Decode(tree).value else initial
    case _ => initial
  }

  /** A value that is written can be read back on the next load. */
  lemma ReloadAfterWrite(v: Value, initial: Value)
    requires Storable(v)
    ensures Load(Stored(Encode(v)), initial) == v
  {
    RoundTrip(v);
  }

  /** The argument of a setter call: a value, or a function of the current value. */
  datatype Update = Put(v: Value) | Apply(f: Value -> Value)

  /** One use of the hook for one key. */
  class Slot {
    const key: string
    /** `storedValue`, the state. */
    var state: Value
    /** What storage holds under `key`. */
    var item: Item

    /** The first render: the state is loaded from storage. */
    constructor (key: string, item: Item, initial: Value)
      ensures this.key == key && this.item == item && state == Load(item, initial)
    {
      this.key, this.item := key, item;
      state := Load(item, initial);
    }

    /** `setValue` of a render whose state was `captured`: a function update is applied to
        `captured`, not to a value written earlier in the same handler; the result becomes the
        state and is written to storage, unless the write fails (`writeFails`), which is
        swallowed. Writing `undefined` stores text that does not parse. */
    method Set(captured: Value, update: Update, writeFails: bool)
      modifies this
      ensures state == match update case Put(v) => v case Apply(f) => f(captured)
      ensures writeFails ==> item == old(item)
      ensures !writeFails ==> item == if state == Undef then Garbage else Stored(Encode(state))
    {
      var toStore := match update case Put(v) => v case Apply(f) => f(captured);
      state := toStore;
      if !writeFails {
        item := if toStore == Undef then Garbage else Stored(Encode(toStore));
      }
    }

    /** The storage event: another page has changed storage under `eventKey`, which now holds
        `newValue`. For this key, a non-empty new value replaces the state with the revived value;
        when reviving throws, or the event is for another key or clears the key, the state stays. */
    method OnStorage(eventKey: string, newValue: Item)
      modifies this
      ensures item == if eventKey == key then newValue else old(item)
      ensures eventKey == key && newValue.Stored? && Decode(newValue.tree).Some? ==> state == Decode(newValue.tree).value
      ensures !(eventKey == key && newValue.Stored? && Decode(newValue.tree).Some?) ==> state == old(state)
    {
      if eventKey == key {
        item := newValue;
      }
      if eventKey == key && newValue.Stored? {
        var revived := Decode(newValue.tree);
        if revived.Some? {
          state := revived.value;
        }
      }
    }
  }
}
