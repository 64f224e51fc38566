/** The palette of discovered elements (components/Sidebar.tsx): the search filter, the stable sort
    by time, name or emoji, the sort-button rule, the resize rule and the column count.
    `toLowerCase` and `localeCompare` are parameters: `lower` maps a name to lower case and `rank`
    gives every string its place in the locale's collation order, so that `a.localeCompare(b)` has
    the sign of `rank(a) - rank(b)`. */
module Sidebar {
  import opened Types
  import Ordered
  import Text

  // ---------------------------------------------------------------- stable sort by a key

  /** Put `e` in front of the first element whose key is not smaller. */
  function Insert<T>(key: T -> int, e: T, s: seq<T>): seq<T> {
    if s == [] || key(e) <= key(s[0]) then [e] + s else [s[0]] + Insert(key, e, s[1..])
  }

  /** Insertion sort; an element never passes one with the same key, so the sort is stable. */
  function SortBy<T>(key: T -> int, s: seq<T>): seq<T> {
    if s == [] then [] else Insert(key, s[0], SortBy(key, s[1..]))
  }

  predicate Sorted<T>(key: T -> int, s: seq<T>) {
    forall i, j | 0 <= i < j < |s| :: key(s[i]) <= key(s[j])
  }

  /** The elements of `s` whose key is `k`, in their order in `s`. */
  function Matching<T>(key: T -> int, s: seq<T>, k: int): seq<T> {
    if s == [] then [] else (if key(s[0]) == k then [s[0]] else []) + Matching(key, s[1..], k)
  }

  lemma {:induction false} MatchingMembers<T>(key: T -> int, s: seq<T>, k: int)
    ensures forall x | x in Matching(key, s, k) :: x in s && key(x) == k
    ensures forall i | 0 <= i < |s| && key(s[i]) == k :: Matching(key, s, k) != []
  {
    if s != [] {
      MatchingMembers(key, s[1..], k);
      forall i | 0 <= i < |s| && key(s[i]) == k
        ensures Matching(key, s, k) != []
      {
        if i > 0 {
          assert key(s[1..][i - 1]) == k;
        }
      }
    }
  }

  /** Inserting adds `e` to the multiset and keeps the first element or puts `e` in front. */
  lemma {:induction false} InsertPermutes<T>(key: T -> int, e: T, s: seq<T>)
    ensures multiset(Insert(key, e, s)) == multiset(s) + multiset{e}
    ensures |Insert(key, e, s)| == |s| + 1
    ensures Insert(key, e, s)[0] == e || (s != [] && Insert(key, e, s)[0] == s[0])
  {
    if s != [] && key(e) > key(s[0]) {
      InsertPermutes(key, e, s[1..]);
      assert s == [s[0]] + s[1..];
    }
  }

  /** Every key in `s` is at least `m`. */
  predicate AtLeast<T>(key: T -> int, s: seq<T>, m: int) {
    forall i | 0 <= i < |s| :: key(s[i]) >= m
  }

  lemma MatchingCons<T>(key: T -> int, x: T, s: seq<T>, k: int)
    ensures Matching(key, [x] + s, k) == (if key(x) == k then [x] else []) + Matching(key, s, k)
  {
    assert ([x] + s)[1..] == s;
  }

  lemma SortedCons<T>(key: T -> int, x: T, s: seq<T>)
    ensures Sorted(key, [x] + s) <==> Sorted(key, s) && AtLeast(key, s, key(x))
  {
    var r := [x] + s;
    if Sorted(key, r) {
      forall i, j | 0 <= i < j < |s| ensures key(s[i]) <= key(s[j]) {
        assert s[i] == r[i + 1] && s[j] == r[j + 1];
      }
      forall i | 0 <= i < |s| ensures key(s[i]) >= key(x) {
        assert s[i] == r[i + 1] && r[0] == x;
        assert key(r[0]) <= key(r[i + 1]);
      }
    }
    if Sorted(key, s) && AtLeast(key, s, key(x)) {
      forall i, j | 0 <= i < j < |r| ensures key(r[i]) <= key(r[j]) {
        assert r[j] == s[j - 1];
        if i > 0 {
          assert r[i] == s[i - 1];
        }
      }
    }
  }

  /** Inserting an element whose key is at least `m` keeps every key at least `m`. */
  lemma {:induction false} InsertAtLeast<T>(key: T -> int, e: T, s: seq<T>, m: int)
    requires AtLeast(key, s, m) && key(e) >= m
    ensures AtLeast(key, Insert(key, e, s), m)
  {
    if s != [] && key(e) > key(s[0]) {
      InsertAtLeast(key, e, s[1..], m);
      var r, t := Insert(key, e, s), Insert(key, e, s[1..]);
      assert r == [s[0]] + t;
      forall i | 0 <= i < |r| ensures key(r[i]) >= m {
        if i > 0 {
          assert r[i] == t[i - 1];
        }
      }
    } else {
      var r := Insert(key, e, s);
      forall i | 0 <= i < |r| ensures key(r[i]) >= m {
        if i > 0 {
          assert r[i] == s[i - 1];
        }
      }
    }
  }

  /** Inserting into a sorted sequence keeps it sorted. */
  lemma {:induction false} InsertSorted<T>(key: T -> int, e: T, s: seq<T>)
    requires Sorted(key, s)
    ensures Sorted(key, Insert(key, e, s))
  {
    if s == [] || key(e) <= key(s[0]) {
      if s != [] {
        SortedCons(key, s[0], s[1..]);
        assert s == [s[0]] + s[1..];
        forall i | 0 <= i < |s| ensures key(s[i]) >= key(e) {
          if i > 0 {
            assert s[i] == s[1..][i - 1];
          }
        }
      }
      SortedCons(key, e, s);
    } else {
      assert s == [s[0]] + s[1..];
      SortedCons(key, s[0], s[1..]);
      InsertSorted(key, e, s[1..]);
      InsertAtLeast(key, e, s[1..], key(s[0]));
      SortedCons(key, s[0], Insert(key, e, s[1..]));
    }
  }

  /** `e` comes first among the elements with its key: it is put in front of every element whose
      key is not smaller. */
  lemma {:induction false} InsertMatching<T>(key: T -> int, e: T, s: seq<T>, k: int)
    ensures Matching(key, Insert(key, e, s), k) == (if key(e) == k then [e] else []) + Matching(key, s, k)
  {
    if s == [] || key(e) <= key(s[0]) {
      MatchingCons(key, e, s, k);
    } else {
      var t := Insert(key, e, s[1..]);
      InsertMatching(key, e, s[1..], k);
      MatchingCons(key, s[0], t, k);
      MatchingCons(key, s[0], s[1..], k);
      assert s == [s[0]] + s[1..];
    }
  }

  /** The sort's result is sorted, a permutation of its input, and stable: the elements sharing a
      key keep their relative order. */
  lemma {:induction false} SortByFacts<T>(key: T -> int, s: seq<T>)
    ensures Sorted(key, SortBy(key, s))
    ensures multiset(SortBy(key, s)) == multiset(s)
    ensures forall k :: Matching(key, SortBy(key, s), k) == Matching(key, s, k)
  {
    if s != [] {
      SortByFacts(key, s[1..]);
      InsertPermutes(key, s[0], SortBy(key, s[1..]));
      InsertSorted(key, s[0], SortBy(key, s[1..]));
      assert s == [s[0]] + s[1..];
      forall k ensures Matching(key, SortBy(key, s), k) == Matching(key, s, k) {
        InsertMatching(key, s[0], SortBy(key, s[1..]), k);
        assert Matching(key, s, k) == (if key(s[0]) == k then [s[0]] else []) + Matching(key, s[1..], k);
      }
    }
  }

  /** Two sorted sequences that agree on the elements of every key are equal. */
  lemma {:induction false} SortedUnique<T>(key: T -> int, t: seq<T>, u: seq<T>)
    requires Sorted(key, t) && Sorted(key, u)
    requires forall k :: Matching(key, t, k) == Matching(key, u, k)
    ensures t == u
    decreases |t|
  {
    MatchingMembers(key, t, if t == [] then 0 else key(t[0]));
    MatchingMembers(key, u, if u == [] then 0 else key(u[0]));
    if t == [] || u == [] {
      return;
    }
    var a, b := key(t[0]), key(u[0]);
    MatchingMembers(key, t, b);
    MatchingMembers(key, u, a);
    assert Matching(key, t, a) != [];
    var x := Matching(key, u, a)[0];
    assert x in u;
    var y := Matching(key, t, b)[0];
    assert y in t;
    assert a == b;
    assert t == [t[0]] + t[1..] && u == [u[0]] + u[1..];
    forall k ensures Matching(key, t[1..], k) == Matching(key, u[1..], k) {
      MatchingCons(key, t[0], t[1..], k);
      MatchingCons(key, u[0], u[1..], k);
      var mt, mu := Matching(key, t, k), Matching(key, u, k);
      assert mt == mu;
      if a == k {
        assert mt == [t[0]] + Matching(key, t[1..], k);
        assert mu == [u[0]] + Matching(key, u[1..], k);
        assert Matching(key, t[1..], k) == mt[1..];
        assert Matching(key, u[1..], k) == mu[1..];
      } else {
        assert mt == Matching(key, t[1..], k);
        assert mu == Matching(key, u[1..], k);
      }
    }
    SortedCons(key, t[0], t[1..]);
    SortedCons(key, u[0], u[1..]);
    SortedUnique(key, t[1..], u[1..]);
  }

  /** Any stable sort gives the same answer as `SortBy`, so the model does not depend on the
      algorithm the engine uses. */
  lemma StableSortIsDetermined<T>(key: T -> int, s: seq<T>, t: seq<T>)
    requires Sorted(key, t) && forall k :: Matching(key, t, k) == Matching(key, s, k)
    ensures t == SortBy(key, s)
  {
    SortByFacts(key, s);
    SortedUnique(key, t, SortBy(key, s));
  }

  /** `Array.prototype.reverse` on a copy. */
  function Reversed<T>(s: seq<T>): (r: seq<T>)
    ensures |r| == |s| && forall i | 0 <= i < |s| :: r[i] == s[|s| - 1 - i]
  {
    if s == [] then [] else Reversed(s[1..]) + [s[0]]
  }

  /** Reversing a concatenation reverses the order of the parts. */
  lemma ReversedAppend<T>(a: seq<T>, b: seq<T>)
    ensures Reversed(a + b) == Reversed(b) + Reversed(a)
  {
    var x, y := Reversed(a + b), Reversed(b) + Reversed(a);
    forall i | 0 <= i < |x| ensures x[i] == y[i] {
      if i < |b| {
        assert x[i] == (a + b)[|a| + |b| - 1 - i] == b[|b| - 1 - i];
      } else {
        assert x[i] == (a + b)[|a| + |b| - 1 - i] == a[|a| - 1 - (i - |b|)];
      }
    }
  }

  lemma {:induction false} MatchingAppend<T>(key: T -> int, a: seq<T>, b: seq<T>, k: int)
    ensures Matching(key, a + b, k) == Matching(key, a, k) + Matching(key, b, k)
  {
    if a != [] {
      assert (a + b)[1..] == a[1..] + b;
      MatchingAppend(key, a[1..], b, k);
    } else {
      assert a + b == b;
    }
  }

  /** The elements with one key appear in the opposite order after reversing: ties come out
      backwards. */
  lemma {:induction false} MatchingReversed<T>(key: T -> int, s: seq<T>, k: int)
    ensures Matching(key, Reversed(s), k) == Reversed(Matching(key, s, k))
  {
    if s != [] {
      var head := if key(s[0]) == k then [s[0]] else [];
      MatchingReversed(key, s[1..], k);
      MatchingAppend(key, Reversed(s[1..]), [s[0]], k);
      assert Matching(key, [s[0]], k) == head;
      ReversedAppend(head, Matching(key, s[1..], k));
      assert Reversed(head) == head;
    }
  }

  lemma {:induction false} ReversedMultiset<T>(s: seq<T>)
    ensures multiset(Reversed(s)) == multiset(s)
  {
    if s != [] {
      ReversedMultiset(s[1..]);
      assert s == [s[0]] + s[1..];
    }
  }

  // ---------------------------------------------------------------- the palette

  /** The elements whose lower-cased name contains the lower-cased search term, in map order. */
  function Shown(els: seq<ElementData>, term: string, lower: string -> string): (r: seq<ElementData>)
    ensures forall e :: e in r <==> e in els && Text.Includes(lower(e.text), lower(term))
    ensures multiset(r) <= multiset(els)
    ensures forall e :: multiset(r)[e] == if Text.Includes(lower(e.text), lower(term)) then multiset(els)[e] else 0
  {
    if els == [] then []
    else
      var rest := Shown(els[1..], term, lower);
      assert els == [els[0]] + els[1..];
      if Text.Includes(lower(els[0].text), lower(term)) then [els[0]] + rest else rest
  }

  /** The comparator's key: the discovery time (missing counts as 0), or the collation rank of the
      name or of the emoji. */
  function SortKey(t: SortType, rank: string -> int, e: ElementData): int {
    match t
    case Time => e.discoveredAt.GetOr(0)
    case Name => rank(e.text)
    case Emoji => rank(e.emoji)
  }

  /** The sort key for sort type `t` as a function of the element. */
  function KeyOf(t: SortType, rank: string -> int): ElementData -> int {
    (e: ElementData) => SortKey(t, rank, e)
  }

  /** `sortedAndFilteredElements`. */
  function Palette(discovered: Ordered.Map<string, ElementData>, term: string, t: SortType, dir: SortDirection,
                   lower: string -> string, rank: string -> int): seq<ElementData>
  {
    var sorted := SortBy(KeyOf(t, rank), Shown(Ordered.Values(discovered), term, lower));
    if dir == Asc then sorted else Reversed(sorted)
  }

  /** The palette shows exactly the discovered elements matching the search, each as often as it is
      stored; ascending it is ordered by the key with ties in map order, descending it is that list
      backwards. */
  lemma PaletteFacts(discovered: Ordered.Map<string, ElementData>, term: string, t: SortType, dir: SortDirection,
                     lower: string -> string, rank: string -> int)
    ensures var r := Palette(discovered, term, t, dir, lower, rank);
      var shown := Shown(Ordered.Values(discovered), term, lower);
      && multiset(r) == multiset(shown)
      && (forall e :: e in r <==> e in Ordered.Values(discovered) && Text.Includes(lower(e.text), lower(term)))
      && (dir == Asc ==> forall i, j | 0 <= i < j < |r| :: SortKey(t, rank, r[i]) <= SortKey(t, rank, r[j]))
      && (dir == Desc ==> forall i, j | 0 <= i < j < |r| :: SortKey(t, rank, r[i]) >= SortKey(t, rank, r[j]))
      && (dir == Asc ==> forall k :: Matching(KeyOf(t, rank), r, k) == Matching(KeyOf(t, rank), shown, k))
      && (dir == Desc ==> r == Reversed(Palette(discovered, term, t, Asc, lower, rank)))
      && (dir == Desc ==> forall k :: Matching(KeyOf(t, rank), r, k) == Reversed(Matching(KeyOf(t, rank), shown, k)))
  {
    PaletteShows(discovered, term, t, dir, lower, rank);
    var shown := Shown(Ordered.Values(discovered), term, lower);
    SortByFacts(KeyOf(t, rank), shown);
    if dir == Desc {
      PaletteDescending(discovered, term, t, lower, rank);
    }
  }

  /** Either way round, the palette holds exactly the matching discoveries. */
  lemma PaletteShows(discovered: Ordered.Map<string, ElementData>, term: string, t: SortType, dir: SortDirection,
                     lower: string -> string, rank: string -> int)
    ensures var r := Palette(discovered, term, t, dir, lower, rank);
      var shown := Shown(Ordered.Values(discovered), term, lower);
      && multiset(r) == multiset(shown)
      && (forall e :: e in r <==> e in Ordered.Values(discovered) && Text.Includes(lower(e.text), lower(term)))
  {
    var shown := Shown(Ordered.Values(discovered), term, lower);
    var s := SortBy(KeyOf(t, rank), shown);
    SortByFacts(KeyOf(t, rank), shown);
    ReversedMultiset(s);
    var r := Palette(discovered, term, t, dir, lower, rank);
    assert multiset(r) == multiset(shown);
    forall e ensures e in r <==> e in shown {
      assert e in r <==> e in multiset(r);
      assert e in shown <==> e in multiset(shown);
    }
  }

  /** Descending, the palette is the ascending one backwards: keys never rise and ties come out in
      reverse map order. */
  lemma PaletteDescending(discovered: Ordered.Map<string, ElementData>, term: string, t: SortType,
                          lower: string -> string, rank: string -> int)
    ensures var r := Palette(discovered, term, t, Desc, lower, rank);
      var shown := Shown(Ordered.Values(discovered), term, lower);
      && r == Reversed(Palette(discovered, term, t, Asc, lower, rank))
      && (forall i, j | 0 <= i < j < |r| :: SortKey(t, rank, r[i]) >= SortKey(t, rank, r[j]))
      && (forall k :: Matching(KeyOf(t, rank), r, k) == Reversed(Matching(KeyOf(t, rank), shown, k)))
  {
    var key := KeyOf(t, rank);
    var shown := Shown(Ordered.Values(discovered), term, lower);
    SortByFacts(key, shown);
    ReversedDescending(key, SortBy(key, shown));
    DescendingTies(key, shown);
  }

  /** A list sorted ascending by the key is descending once reversed. */
  lemma ReversedDescending<T>(key: T -> int, s: seq<T>)
    requires Sorted(key, s)
    ensures forall i, j | 0 <= i < j < |s| :: key(Reversed(s)[i]) >= key(Reversed(s)[j])
  {
    var r := Reversed(s);
    forall i, j | 0 <= i < j < |s| ensures key(r[i]) >= key(r[j]) {
      assert r[i] == s[|s| - 1 - i] && r[j] == s[|s| - 1 - j];
    }
  }

  /** Reversing the sorted list reverses the order of every group of ties. */
  lemma DescendingTies<T>(key: T -> int, shown: seq<T>)
    ensures forall k :: Matching(key, Reversed(SortBy(key, shown)), k) == Reversed(Matching(key, shown, k))
  {
    SortByFacts(key, shown);
    forall k ensures Matching(key, Reversed(SortBy(key, shown)), k) == Reversed(Matching(key, shown, k)) {
      MatchingReversed(key, SortBy(key, shown), k);
    }
  }

  // ---------------------------------------------------------------- panel state

  function Flip(d: SortDirection): SortDirection {
    if d == Asc then Desc else Asc
  }

  const MinWidth: real := 280.0
  const MaxWidth: real := 800.0

  /** The sort and size state behind the palette: the sort type and direction and the search term
      live in the app, the width in storage. */
  class Panel {
    var sortType: SortType
    var sortDirection: SortDirection
    var searchTerm: string
    var width: real

    constructor (width: real)
      ensures sortType == Time && sortDirection == Asc && searchTerm == [] && this.width == width
    {
      sortType, sortDirection, searchTerm, this.width := Time, Asc, [], width;
    }

    /** `handleSortTypeChange`: the current type flips the direction; another type is selected
        ascending. */
    method SortTypeChange(t: SortType)
      modifies this`sortType, this`sortDirection
      ensures t == old(sortType) ==> sortType == t && sortDirection == Flip(old(sortDirection))
      ensures t != old(sortType) ==> sortType == t && sortDirection == Asc
    {
      if t == sortType {
        sortDirection := if sortDirection == Asc then Desc else Asc;
      } else {
        sortType := t;
        sortDirection := Asc;
      }
    }

    /** A resize move at client x `clientX`: the new width is accepted only within [280, 800]. */
    method ResizeMove(innerWidth: real, clientX: real)
      modifies this`width
      ensures MinWidth <= innerWidth - clientX <= MaxWidth ==> width == innerWidth - clientX
      ensures !(MinWidth <= innerWidth - clientX <= MaxWidth) ==> width == old(width)
      ensures MinWidth <= old(width) <= MaxWidth ==> MinWidth <= width <= MaxWidth
    {
      var newWidth := innerWidth - clientX;
      if newWidth >= MinWidth && newWidth <= MaxWidth {
        width := newWidth;
      }
    }
  }

  /** Clicking the same sort button twice restores the direction. */
  lemma FlipTwice(d: SortDirection)
    ensures Flip(Flip(d)) == d && Flip(d) != d
  {
  }

  /** `numColumns`: as many 130-pixel items with 8-pixel gaps as fit in the width less 24 pixels
      of padding, but never fewer than two. */
  function NumColumns(width: real): (c: int)
    ensures c >= 2
    ensures c > 2 ==> 130.0 * c as real + 8.0 * (c - 1) as real <= width - 24.0
    ensures 130.0 * (c + 1) as real + 8.0 * c as real > width - 24.0
  {
    var columns := ((width - 24.0 + 8.0) / (130.0 + 8.0)).Floor;
    if columns >= 2 then columns else 2
  }
}
