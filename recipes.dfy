/** The static recipe table (recipes.ts). The table is an object literal: its rows, in the order
    written, each set one key, the two names of a pair joined with '+'. Here every row is kept
    with the two names of its key apart; its key is `Text.Join(first, second)`, the very string
    the literal writes. The game looks a pair up under its sorted key (App.tsx:180-183). */
module Recipes {
  import opened Types
  import Text

  /** One row of the literal: the key's two names and the outcome stored under it. */
  datatype Entry = Entry(first: string, second: string, result: RecipeResult) {
    function Key(): string {
      Text.Join(first, second)
    }
  }

  // The names the table mentions, each written once.
  const Helio := "Hélio"
  const Carbono := "Carbono"
  const Hidrogenio := "Hidrogênio"
  const Oxigenio := "Oxigênio"
  const Silicio := "Silício"
  const Ferro := "Ferro"
  const Gravidade := "Gravidade"
  const NuvemDeGas := "Nuvem de Gás"
  const Tempo := "Tempo"
  const Protoestrela := "Protoestrela"
  const Estrela := "Estrela"
  const GiganteVermelha := "Gigante Vermelha"
  const AnaBranca := "Anã Branca"
  const AnaNegra := "Anã Negra"
  const EstrelaMassiva := "Estrela Massiva"
  const SupergiganteAzul := "Supergigante Azul"
  const SupergiganteVermelha := "Supergigante Vermelha"
  const Colapso := "Colapso do Núcleo"
  const Supernova := "Supernova"
  const EstrelaDeNeutrons := "Estrela de Nêutrons"
  const BuracoNegro := "Buraco Negro"
  const Pulsar := "Pulsar"
  const SistemaBinario := "Sistema Binário"
  const Nebulosa := "Nebulosa"
  const AglomeradoEstelar := "Aglomerado Estelar"
  const BuracoNegroSupermassivo := "Buraco Negro Supermassivo"
  const Galaxia := "Galáxia"
  const ColisaoDeGalaxias := "Colisão de Galáxias"
  const DiscoDeAcrescimo := "Disco de Acréscimo"
  const Quasar := "Quasar"

  function Make(first: string, second: string, text: string, emoji: string): Entry {
    Entry(first, second, Produce(ElementData(text, emoji, None)))
  }

  function Boom(first: string, second: string): Entry {
    Entry(first, second, Explode)
  }

  /** recipes.ts:5-9 */
  const Fusion: seq<Entry> := [
    Make(Helio, Helio, Carbono, "🪨"),
    Make(Carbono, Helio, Oxigenio, "💨"),
    Make(Hidrogenio, Hidrogenio, Helio, "🎈"),
    Make(Carbono, Oxigenio, Silicio, "💎"),
    Make(Silicio, Silicio, Ferro, "⚙️")
  ]

  /** recipes.ts:12-14 */
  const Basic: seq<Entry> := [
    Make(Gravidade, Hidrogenio, NuvemDeGas, "☁️"),
    Make(NuvemDeGas, Tempo, Protoestrela, "✨"),
    Make(Gravidade, Protoestrela, Estrela, "⭐")
  ]

  /** recipes.ts:17-19 */
  const LowMass: seq<Entry> := [
    Make(Estrela, Tempo, GiganteVermelha, "🔴"),
    Make(GiganteVermelha, Gravidade, AnaBranca, "⚪"),
    Make(AnaBranca, Tempo, AnaNegra, "⚫")
  ]

  /** recipes.ts:22-24 */
  const HighMassEarly: seq<Entry> := [
    Make(Estrela, NuvemDeGas, EstrelaMassiva, "☀️"),
    Make(EstrelaMassiva, Tempo, SupergiganteAzul, "🔵"),
    Make(SupergiganteAzul, Tempo, SupergiganteVermelha, "🏮")
  ]

  /** recipes.ts:25, the one row whose names are not in sort order. */
  const OutOfOrder: Entry := Make(Ferro, EstrelaMassiva, Colapso, "💥")

  /** recipes.ts:26-27 */
  const HighMassLate: seq<Entry> := [
    Make(Colapso, Gravidade, Supernova, "💥"),
    Make(Gravidade, SupergiganteVermelha, Supernova, "💥")
  ]

  /** recipes.ts:30-32 */
  const Remnants: seq<Entry> := [
    Make(Gravidade, Supernova, EstrelaDeNeutrons, "🌠"),
    Make(EstrelaDeNeutrons, Gravidade, BuracoNegro, "🕳️"),
    Make(EstrelaDeNeutrons, Tempo, Pulsar, "💫")
  ]

  /** recipes.ts:35-42 */
  const Galactic: seq<Entry> := [
    Make(Estrela, Estrela, SistemaBinario, "💞"),
    Make(NuvemDeGas, Supernova, Nebulosa, "🌌"),
    Make(Gravidade, Nebulosa, AglomeradoEstelar, "✨"),
    Make(BuracoNegro, BuracoNegro, BuracoNegroSupermassivo, "🌀"),
    Make(AglomeradoEstelar, BuracoNegroSupermassivo, Galaxia, "🪐"),
    Make(Galaxia, Galaxia, ColisaoDeGalaxias, "☄️"),
    Make(BuracoNegro, Estrela, DiscoDeAcrescimo, "🛸"),
    Make(DiscoDeAcrescimo, Tempo, Quasar, "🔆")
  ]

  /** recipes.ts:45-52 */
  const Explosive: seq<Entry> := [
    Boom(AnaBranca, Estrela),
    Boom(EstrelaDeNeutrons, EstrelaDeNeutrons),
    Boom(BuracoNegro, SupergiganteVermelha),
    Boom(BuracoNegro, Galaxia),
    Boom(Supernova, Supernova),
    Boom(Galaxia, Quasar),
    Boom(BuracoNegro, Tempo),
    Boom(BuracoNegro, Pulsar)
  ]

  /** The rows before and after `OutOfOrder`. */
  const Early: seq<Entry> := Fusion + Basic + LowMass + HighMassEarly

  const Late: seq<Entry> := HighMassLate + Remnants + Galactic

  const Elements: seq<Entry> := Early + [OutOfOrder] + Late

  const Rows: seq<Entry> := Elements + Explosive

  /** The object an object literal builds: each row sets its key, a later row overriding an
      earlier one with the same key. */
  function Build(rows: seq<Entry>): map<string, RecipeResult> {
    if rows == [] then map[]
    else Build(rows[..|rows| - 1])[rows[|rows| - 1].Key() := rows[|rows| - 1].result]
  }

  /** A key is in the object exactly when some row sets it, and it then holds what some row
      with that key stores. */
  lemma {:induction false} BuildHas(rows: seq<Entry>, k: string)
    ensures k in Build(rows) <==> exists e | e in rows :: e.Key() == k
    ensures k in Build(rows) ==> exists e | e in rows && e.Key() == k :: Build(rows)[k] == e.result
  {
    if rows != [] {
      var rest := rows[..|rows| - 1];
      BuildHas(rest, k);
      assert forall x | x in rows :: x == rows[|rows| - 1] || x in rest;
      assert forall x | x in rest :: x in rows;
    }
  }

  /** Later rows take precedence over earlier ones. */
  lemma {:induction false} BuildAppend(a: seq<Entry>, b: seq<Entry>)
    ensures Build(a + b) == Build(a) + Build(b)
  {
    if b != [] {
      var b', e := b[..|b| - 1], b[|b| - 1];
      assert (a + b)[..|a + b| - 1] == a + b';
      BuildAppend(a, b');
      assert Build(b) == Build(b')[e.Key() := e.result];
      calc {
        Build(a + b);
        Build(a + b')[e.Key() := e.result];
        (Build(a) + Build(b'))[e.Key() := e.result];
        Build(a) + Build(b')[e.Key() := e.result];
      }
    } else {
      assert a + b == a;
    }
  }

  const Table: map<string, RecipeResult> := Build(Rows)

  /** What combining two names yields: the entry under their sorted key, if any. */
  function Lookup(a: string, b: string): Option<RecipeResult> {
    var key := Text.RecipeKey(a, b);
    if key in Table then Some(Table[key]) else None
  }

  /** Combining is symmetric in its two names. */
  lemma LookupSymmetric(a: string, b: string)
    ensures Lookup(a, b) == Lookup(b, a)
  {
    Text.KeySymmetric(a, b);
  }

  // ------------------------------------------------------------ facts checked section by section

  lemma NamesPlusFreeA()
    ensures '+' !in Helio && '+' !in Carbono && '+' !in Hidrogenio && '+' !in Oxigenio
    ensures '+' !in Silicio && '+' !in Ferro && '+' !in Gravidade && '+' !in NuvemDeGas
    ensures '+' !in Tempo
  {
  }

  lemma NamesPlusFreeB()
    ensures '+' !in Protoestrela && '+' !in Estrela && '+' !in GiganteVermelha
    ensures '+' !in AnaBranca && '+' !in EstrelaMassiva && '+' !in SupergiganteAzul
    ensures '+' !in SupergiganteVermelha && '+' !in Colapso && '+' !in Supernova
  {
  }

  lemma NamesPlusFreeC()
    ensures '+' !in EstrelaDeNeutrons && '+' !in BuracoNegro && '+' !in Pulsar
    ensures '+' !in Nebulosa && '+' !in AglomeradoEstelar && '+' !in BuracoNegroSupermassivo
    ensures '+' !in Galaxia && '+' !in DiscoDeAcrescimo && '+' !in Quasar
  {
  }

  /** A row's names sort as written, told by their first characters or, when those agree, by
      their second ones (or the two names are the same). */
  ghost predicate Ordered(e: Entry) {
    e.first == e.second ||
    (e.first != [] && e.second != [] &&
     (Text.CharBefore(e.first[0], e.second[0]) ||
      (e.first[0] == e.second[0] && |e.first| > 1 && |e.second| > 1 && Text.CharBefore(e.first[1], e.second[1]))))
  }

  /** The facts every section of the table satisfies: names free of '+', element results
      carrying no discovery time. */
  ghost predicate Sound(rows: seq<Entry>) {
    (forall e | e in rows :: '+' !in e.first && '+' !in e.second) &&
    (forall e | e in rows && e.result.Produce? :: e.result.element.discoveredAt.None?)
  }

  /** Every row names its two names in order. */
  ghost predicate Sorted(rows: seq<Entry>) {
    forall e | e in rows :: Ordered(e)
  }

  /** Element rows that do not produce the collapse. */
  ghost predicate Producing(rows: seq<Entry>) {
    forall e | e in rows :: e.result.Produce? && e.result.element.text != Colapso
  }

  lemma FusionSound() ensures Sound(Fusion) && Sorted(Fusion) && Producing(Fusion) {
    NamesPlusFreeA();
  }
  lemma BasicSound() ensures Sound(Basic) && Sorted(Basic) && Producing(Basic) {
    NamesPlusFreeA();
    NamesPlusFreeB();
  }
  lemma LowMassSound() ensures Sound(LowMass) && Sorted(LowMass) && Producing(LowMass) {
    NamesPlusFreeA();
    NamesPlusFreeB();
  }
  lemma HighMassSound()
    ensures Sound(HighMassEarly) && Sorted(HighMassEarly) && Producing(HighMassEarly)
    ensures Sound([OutOfOrder]) && OutOfOrder.result.Produce?
    ensures Sound(HighMassLate) && Sorted(HighMassLate) && Producing(HighMassLate)
  {
    NamesPlusFreeA();
    NamesPlusFreeB();
  }
  lemma RemnantsSound() ensures Sound(Remnants) && Sorted(Remnants) && Producing(Remnants) {
    NamesPlusFreeA();
    NamesPlusFreeB();
    NamesPlusFreeC();
  }
  lemma GalacticSound() ensures Sound(Galactic) {
    NamesPlusFreeA();
    NamesPlusFreeB();
    NamesPlusFreeC();
  }
  lemma GalacticSorted() ensures Sorted(Galactic) { }
  lemma GalacticProducing() ensures Producing(Galactic) { }
  lemma ExplosiveSound() ensures Sound(Explosive) {
    NamesPlusFreeA();
    NamesPlusFreeB();
    NamesPlusFreeC();
  }
  lemma ExplosiveSorted() ensures Sorted(Explosive) && forall e | e in Explosive :: e.result.Explode? { }

  lemma Append(a: seq<Entry>, b: seq<Entry>)
    ensures Sound(a) && Sound(b) ==> Sound(a + b)
    ensures Sorted(a) && Sorted(b) ==> Sorted(a + b)
    ensures Producing(a) && Producing(b) ==> Producing(a + b)
  {
  }

  lemma EarlySound() ensures Sound(Early) && Sorted(Early) && Producing(Early) {
    FusionSound();
    BasicSound();
    LowMassSound();
    HighMassSound();
    Append(Fusion, Basic);
    Append(Fusion + Basic, LowMass);
    Append(Fusion + Basic + LowMass, HighMassEarly);
  }

  lemma LateSound() ensures Sound(Late) && Sorted(Late) && Producing(Late) {
    HighMassSound();
    RemnantsSound();
    GalacticSound();
    GalacticSorted();
    GalacticProducing();
    Append(HighMassLate, Remnants);
    Append(HighMassLate + Remnants, Galactic);
  }

  /** The section facts, for the whole table. */
  lemma RowsSound()
    ensures Sound(Rows)
    ensures forall e | e in Rows && e != OutOfOrder :: Ordered(e)
    ensures forall e | e in Elements :: e.result.Produce?
    ensures forall e | e in Elements && e != OutOfOrder :: e.result.element.text != Colapso
    ensures forall e | e in Explosive :: e.result.Explode?
  {
    EarlySound();
    LateSound();
    HighMassSound();
    ExplosiveSound();
    ExplosiveSorted();
    Append(Early, [OutOfOrder]);
    Append(Early + [OutOfOrder], Late);
    Append(Elements, Explosive);
  }

  /** Names ordered by their first two characters are not out of order. */
  lemma OrderedNotBefore(e: Entry)
    requires Ordered(e)
    ensures !Text.Before(e.second, e.first)
  {
    if e.first == e.second {
      Text.BeforeIrreflexive(e.first);
    } else if e.first[0] == e.second[0] {
      assert Text.Before(e.second, e.first) == Text.Before(e.second[1..], e.first[1..]);
    }
  }

  // ------------------------------------------------------------ the shape of the keys

  /** No name in a key contains '+', so every key splits back into its row's two names and
      nothing else. */
  lemma KeySplitsUniquely(e: Entry, a: string, b: string)
    requires e in Rows
    requires e.Key() == Text.Join(a, b)
    ensures a == e.first && b == e.second
  {
    RowsSound();
    Text.JoinUnique(e.first, e.second, a, b);
  }

  // ------------------------------------------------------------ findable keys

  /** The entry under `k` can be reached by some pair of names. */
  ghost predicate Findable(k: string) {
    exists a, b :: Text.RecipeKey(a, b) == k
  }

  /** A row's key is found exactly when it lists its names in sort order. */
  lemma FindableIffSorted(e: Entry)
    requires e in Rows
    ensures Findable(e.Key()) <==> !Text.Before(e.second, e.first)
  {
    RowsSound();
    if !Text.Before(e.second, e.first) {
      Text.BeforeTrichotomy(e.first, e.second);
      assert Text.RecipeKey(e.first, e.second) == e.Key();
    }
    if Findable(e.Key()) {
      var x, y :| Text.RecipeKey(x, y) == e.Key();
      var p := Text.SortPair(x, y);
      Text.KeyIsSorted(x, y);
      Text.JoinUnique(e.first, e.second, p.0, p.1);
    }
  }

  /** Every row but one is found by its own two names. */
  lemma OthersFindable(e: Entry)
    requires e in Rows && e != OutOfOrder
    ensures Findable(e.Key())
  {
    RowsSound();
    OrderedNotBefore(e);
    FindableIffSorted(e);
  }

  /** The out-of-order row is in the table, yet no pair of names looks it up. */
  lemma OutOfOrderUnreachable()
    ensures OutOfOrder in Rows && OutOfOrder.Key() in Table
    ensures !Findable(OutOfOrder.Key())
  {
    assert OutOfOrder in Rows;
    BuildHas(Rows, OutOfOrder.Key());
    assert Text.Before(EstrelaMassiva, Ferro);
    FindableIffSorted(OutOfOrder);
  }

  // ------------------------------------------------------------ reachability

  function SeedNames(): set<string> {
    set e | e in InitialElements :: e.text
  }

  /** No pair of names ever yields the core collapse: only the unreachable row produces it. */
  lemma CollapseNeverProduced(a: string, b: string)
    ensures Lookup(a, b).Some? && Lookup(a, b).value.Produce? ==>
      Lookup(a, b).value.element.text != Colapso
  {
    var k := Text.RecipeKey(a, b);
    BuildHas(Rows, k);
    if k in Table && Table[k].Produce? && Table[k].element.text == Colapso {
      var e :| e in Rows && e.Key() == k && Table[k] == e.result;
      RowsSound();
      assert e == OutOfOrder;
      OutOfOrderUnreachable();
      assert false;
    }
  }

  /** A play: every name is a seed or what an earlier pair of names yielded. */
  ghost predicate Derivable(t: seq<string>) {
    forall i | 0 <= i < |t| ::
      t[i] in SeedNames() ||
      exists j, l | 0 <= j < i && 0 <= l < i ::
        Lookup(t[j], t[l]).Some? && Lookup(t[j], t[l]).value.Produce? &&
        Lookup(t[j], t[l]).value.element.text == t[i]
  }

  /** No play reaches the collapse, so the row keyed by the collapse and gravity
      (recipes.ts:26) is never looked up either. */
  lemma CollapseRecipeUnreachable(t: seq<string>, a: string, b: string)
    requires Derivable(t) && a in t && b in t
    ensures Colapso !in t
    ensures Text.RecipeKey(a, b) != Text.Join(Colapso, Gravidade)
  {
    forall i | 0 <= i < |t| ensures t[i] != Colapso {
      if t[i] !in SeedNames() {
        var j, l :| 0 <= j < i && 0 <= l < i &&
          Lookup(t[j], t[l]).Some? && Lookup(t[j], t[l]).value.Produce? &&
          Lookup(t[j], t[l]).value.element.text == t[i];
        CollapseNeverProduced(t[j], t[l]);
      }
    }
    var p := Text.SortPair(a, b);
    Text.KeyIsSorted(a, b);
    NamesPlusFreeA();
    NamesPlusFreeB();
    if Text.RecipeKey(a, b) == Text.Join(Colapso, Gravidade) {
      Text.JoinUnique(Colapso, Gravidade, p.0, p.1);
    }
  }

  // ------------------------------------------------------------ the entries themselves

  /** Only the rows of recipes.ts:45-52 are explosions: every key they set holds an explosion,
      every other key an element template without a discovery time. */
  lemma EntryKinds()
    ensures forall e | e in Elements :: e.result.Produce?
    ensures forall e | e in Explosive :: e.result.Explode?
    ensures forall k | k in Table :: Table[k].Explode? <==> k in Build(Explosive)
    ensures forall k | k in Table && Table[k].Produce? :: Table[k].element.discoveredAt.None?
  {
    RowsSound();
    BuildAppend(Elements, Explosive);
    forall k | k in Table
      ensures Table[k].Explode? <==> k in Build(Explosive)
      ensures Table[k].Produce? ==> Table[k].element.discoveredAt.None?
    {
      BuildHas(Elements, k);
      BuildHas(Explosive, k);
      BuildHas(Rows, k);
    }
  }

  /** Every row of `rows` that writes the pair `(a, b)` stores `r`. */
  ghost predicate AgreesOn(rows: seq<Entry>, a: string, b: string, r: RecipeResult) {
    forall e | e in rows && e.first == a && e.second == b :: e.result == r
  }

  /** When all rows writing a pair agree, the table holds their outcome under its key. */
  lemma TableAgrees(a: string, b: string, r: RecipeResult)
    requires exists e | e in Rows :: e.first == a && e.second == b
    requires AgreesOn(Rows, a, b, r)
    ensures Text.Join(a, b) in Table && Table[Text.Join(a, b)] == r
  {
    var k := Text.Join(a, b);
    var e0 :| e0 in Rows && e0.first == a && e0.second == b;
    BuildHas(Rows, k);
    var e :| e in Rows && e.Key() == k && Table[k] == e.result;
    KeySplitsUniquely(e, a, b);
  }

  /** Rows whose first name does not start with `c`. */
  ghost predicate FirstAvoids(rows: seq<Entry>, c: char) {
    forall e | e in rows :: e.first != [] && e.first[0] != c
  }

  lemma NoOtherHydrogenA()
    ensures AgreesOn(Fusion, Hidrogenio, Hidrogenio, Fusion[2].result)
    ensures FirstAvoids(Basic, 'H') && FirstAvoids(LowMass, 'H') && FirstAvoids(HighMassEarly, 'H')
  {
  }

  lemma NoOtherHydrogenB()
    ensures FirstAvoids([OutOfOrder], 'H') && FirstAvoids(HighMassLate, 'H')
    ensures FirstAvoids(Remnants, 'H') && FirstAvoids(Galactic, 'H')
  {
  }

  lemma NoOtherHydrogenC()
    ensures FirstAvoids(Explosive, 'H')
  {
  }

  lemma AvoidsAgrees(rows: seq<Entry>, a: string, b: string, r: RecipeResult)
    requires a != [] && FirstAvoids(rows, a[0])
    ensures AgreesOn(rows, a, b, r)
  {
  }

  /** Results are not unique per name: two keys produce the supernova. */
  lemma SupernovaTwice()
    ensures HighMassLate[0].Key() != HighMassLate[1].Key()
    ensures HighMassLate[0].result == HighMassLate[1].result == Make(Colapso, Gravidade, Supernova, "💥").result
  {
    NamesPlusFreeA();
    NamesPlusFreeB();
    if HighMassLate[0].Key() == HighMassLate[1].Key() {
      Text.JoinUnique(Colapso, Gravidade, Gravidade, SupergiganteVermelha);
    }
  }

  lemma HydrogenPairAgrees()
    ensures AgreesOn(Rows, Hidrogenio, Hidrogenio, Fusion[2].result)
  {
    var r := Fusion[2].result;
    NoOtherHydrogenA();
    NoOtherHydrogenB();
    NoOtherHydrogenC();
    AvoidsAgrees(Basic, Hidrogenio, Hidrogenio, r);
    AvoidsAgrees(LowMass, Hidrogenio, Hidrogenio, r);
    AvoidsAgrees(HighMassEarly, Hidrogenio, Hidrogenio, r);
    AvoidsAgrees([OutOfOrder], Hidrogenio, Hidrogenio, r);
    AvoidsAgrees(HighMassLate, Hidrogenio, Hidrogenio, r);
    AvoidsAgrees(Remnants, Hidrogenio, Hidrogenio, r);
    AvoidsAgrees(Galactic, Hidrogenio, Hidrogenio, r);
    AvoidsAgrees(Explosive, Hidrogenio, Hidrogenio, r);
    assert AgreesOn(Early, Hidrogenio, Hidrogenio, r);
    assert AgreesOn(Late, Hidrogenio, Hidrogenio, r);
    assert AgreesOn(Elements, Hidrogenio, Hidrogenio, r);
  }

  /** Two hydrogens make helium. */
  lemma HydrogenMakesHelium()
    ensures Lookup(Hidrogenio, Hidrogenio) == Some(Make(Hidrogenio, Hidrogenio, Helio, "🎈").result)
  {
    HydrogenPairAgrees();
    assert Fusion[2] in Rows;
    TableAgrees(Hidrogenio, Hidrogenio, Fusion[2].result);
    Text.BeforeIrreflexive(Hidrogenio);
  }

  /** Each seed is one of the names of some key. */
  lemma SeedsInKeys()
    ensures SeedNames() == {Hidrogenio, Gravidade, Tempo}
    ensures Fusion[2].first == Hidrogenio && Basic[0].first == Gravidade && Basic[1].second == Tempo
  {
  }
}
