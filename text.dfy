/** String operations the game relies on: the default `Array.prototype.sort` order on strings,
    the canonical recipe key, `String.prototype.includes` and first-letter capitalisation.
    Strings are sequences of Unicode characters; JavaScript compares them by their UTF-16 code
    units, which `Units` and `Utf16` spell out. */
module Text {

  /** The UTF-16 code units of a character: the character itself inside the Basic Multilingual
      Plane, a high and a low surrogate outside it. */
  function Units(c: char): (u: seq<int>)
    ensures 1 <= |u| <= 2
  {
    if c as int < 0x1_0000 then [c as int]
    else
      var v := c as int - 0x1_0000;
      [0xD800 + v / 0x400, 0xDC00 + v % 0x400]
  }

  /** The UTF-16 code units of a string. */
  function Utf16(s: string): (u: seq<int>)
    ensures s == [] <==> u == []
  {
    if s == [] then [] else Units(s[0]) + Utf16(s[1..])
  }

  /** Lexicographic order on code-unit sequences: a proper prefix comes first, otherwise the first
      differing unit decides. This is how JavaScript compares two strings. */
  predicate LexLess(x: seq<int>, y: seq<int>)
    decreases |x|
  {
    if x == [] then y != []
    else if y == [] then false
    else if x[0] != y[0] then x[0] < y[0]
    else LexLess(x[1..], y[1..])
  }

  /** The first code unit of a character. */
  function LeadUnit(c: char): int {
    if c as int < 0x1_0000 then c as int else 0xD800 + (c as int - 0x1_0000) / 0x400
  }

  /** `c` sorts strictly before `d` by code units: the first units decide, and when they agree (two
      characters outside the Basic Multilingual Plane with one high surrogate) the low surrogates
      follow the characters' own order. */
  predicate CharBefore(c: char, d: char) {
    if LeadUnit(c) != LeadUnit(d) then LeadUnit(c) < LeadUnit(d) else c < d
  }

  /** `a` sorts strictly before `b` under the default sort, character by character. */
  predicate Before(a: string, b: string)
    decreases |a|
  {
    if a == [] then b != []
    else if b == [] then false
    else if a[0] != b[0] then CharBefore(a[0], b[0])
    else Before(a[1..], b[1..])
  }

  /** Comparing two characters' code units gives `CharBefore`, and two different characters never
      have one unit sequence a prefix of the other's. */
  lemma CharUnits(c: char, d: char, x: seq<int>, y: seq<int>)
    requires c != d
    ensures LexLess(Units(c) + x, Units(d) + y) <==> CharBefore(c, d)
  {
    var uc, ud := Units(c) + x, Units(d) + y;
    assert uc[0] == LeadUnit(c) && ud[0] == LeadUnit(d);
    if LeadUnit(c) == LeadUnit(d) {
      var v, w := c as int - 0x1_0000, d as int - 0x1_0000;
      assert c as int >= 0x1_0000 && d as int >= 0x1_0000;
      assert v / 0x400 == w / 0x400;
      assert v == 0x400 * (v / 0x400) + v % 0x400 && w == 0x400 * (w / 0x400) + w % 0x400;
      assert uc[1] == 0xDC00 + v % 0x400 && ud[1] == 0xDC00 + w % 0x400;
      assert uc[1] != ud[1];
      assert LexLess(uc, ud) == LexLess(uc[1..], ud[1..]);
    }
  }

  /** Sequences that start alike compare as their rests do. */
  lemma {:induction false} LexLessAfter(p: seq<int>, x: seq<int>, y: seq<int>)
    ensures LexLess(p + x, p + y) <==> LexLess(x, y)
  {
    if p == [] {
      assert p + x == x && p + y == y;
    } else {
      assert (p + x)[0] == (p + y)[0];
      assert (p + x)[1..] == p[1..] + x && (p + y)[1..] == p[1..] + y;
      LexLessAfter(p[1..], x, y);
    }
  }

  /** `Before` is exactly JavaScript's comparison of the two strings' UTF-16 code units. */
  lemma {:induction false} BeforeIsUnitOrder(a: string, b: string)
    ensures Before(a, b) <==> LexLess(Utf16(a), Utf16(b))
    decreases |a|
  {
    if a != [] && b != [] {
      if a[0] == b[0] {
        BeforeIsUnitOrder(a[1..], b[1..]);
        LexLessAfter(Units(a[0]), Utf16(a[1..]), Utf16(b[1..]));
      } else {
        CharUnits(a[0], b[0], Utf16(a[1..]), Utf16(b[1..]));
      }
    }
  }

  /** Code-unit order is not code-point order: an emoji outside the Basic Multilingual Plane sorts
      before a full-width letter from the top of that plane, though its code point is larger. */
  lemma UnitOrderIsNotCodePointOrder()
    ensures Before("\U{1F30C}", "\U{FF21}") && "\U{FF21}"[0] < "\U{1F30C}"[0]
  {
  }

  lemma {:induction false} BeforeIrreflexive(a: string)
    ensures !Before(a, a)
    decreases |a|
  {
    if a != [] {
      BeforeIrreflexive(a[1..]);
    }
  }

  /** Two different strings are ordered one way or the other, never both. */
  lemma {:induction false} BeforeTrichotomy(a: string, b: string)
    ensures a == b || Before(a, b) || Before(b, a)
    ensures !(Before(a, b) && Before(b, a))
    decreases |a|
  {
    if a != [] && b != [] && a[0] != b[0] {
      assert CharBefore(a[0], b[0]) != CharBefore(b[0], a[0]);
    } else if a != [] && b != [] {
      BeforeTrichotomy(a[1..], b[1..]);
      if a[1..] == b[1..] {
        assert a == [a[0]] + a[1..] && b == [b[0]] + b[1..];
      }
    }
  }

  /** `[a, b].sort()`: the two names in default sort order (equal names stay as they are). */
  function SortPair(a: string, b: string): (string, string) {
    if Before(b, a) then (b, a) else (a, b)
  }

  /** Two names joined with '+'. */
  function Join(a: string, b: string): string {
    a + "+" + b
  }

  /** A join of two names without '+' has its only '+' between them, so any way of writing it
      as a join gives back the same two names. */
  lemma JoinUnique(a: string, b: string, c: string, d: string)
    requires '+' !in a && '+' !in b
    requires Join(a, b) == Join(c, d)
    ensures a == c && b == d
  {
    var k := Join(a, b);
    assert forall i | 0 <= i < |a| :: k[i] == a[i];
    assert forall i | |a| < i < |k| :: k[i] == b[i - |a| - 1];
    assert Join(c, d)[|c|] == '+';
    assert |c| == |a|;
    assert a == k[..|a|] && c == Join(c, d)[..|c|];
    assert b == k[|a| + 1..] && d == Join(c, d)[|c| + 1..];
  }

  /** The lookup key of a pair of names: the two names sorted and joined with '+'. */
  function RecipeKey(a: string, b: string): string {
    var p := SortPair(a, b);
    Join(p.0, p.1)
  }

  /** The key does not depend on the order in which the two names are given. */
  lemma KeySymmetric(a: string, b: string)
    ensures RecipeKey(a, b) == RecipeKey(b, a)
    ensures SortPair(a, b) == SortPair(b, a)
  {
    BeforeTrichotomy(a, b);
  }

  /** The key lists its names in sort order, and they are the two names given. */
  lemma KeyIsSorted(a: string, b: string)
    ensures var p := SortPair(a, b); !Before(p.1, p.0)
    ensures var p := SortPair(a, b); (p == (a, b) || p == (b, a))
  {
    BeforeTrichotomy(a, b);
  }

  /** `s.includes(t)`: `t` occurs in `s` as a contiguous piece. */
  predicate Includes(s: string, t: string)
    decreases |s|
  {
    (|t| <= |s| && s[..|t|] == t) || (s != [] && Includes(s[1..], t))
  }

  /** `t` occurs in `s` starting at index `i`. */
  predicate OccursAt(s: string, t: string, i: int) {
    0 <= i <= |s| - |t| && s[i..i + |t|] == t
  }

  /** `Includes` agrees with the positional reading of `includes`. */
  lemma {:induction false} IncludesAt(s: string, t: string)
    ensures Includes(s, t) <==> exists i :: OccursAt(s, t, i)
    decreases |s|
  {
    if s != [] {
      IncludesAt(s[1..], t);
      if exists i :: OccursAt(s, t, i) {
        var i :| OccursAt(s, t, i);
        if i > 0 {
          assert OccursAt(s[1..], t, i - 1);
        }
      }
      if |t| <= |s| && s[..|t|] == t {
        assert OccursAt(s, t, 0);
      }
      if Includes(s[1..], t) {
        var i :| OccursAt(s[1..], t, i);
        assert OccursAt(s, t, i + 1);
      }
    } else if Includes(s, t) {
      assert OccursAt(s, t, 0);
    }
  }

  /** `t.charAt(0).toUpperCase() + t.slice(1)` for a non-empty `t`. `charAt(0)` is one code unit.
      For a first character outside the Basic Multilingual Plane that is a lone high surrogate,
      which `toUpperCase` keeps, and `slice(1)` begins with the matching low surrogate, so the name
      comes back whole. Otherwise `upper` stands for `toUpperCase` of the first character, which
      may turn it into several. */
  function Capitalise(t: string, upper: string -> string): (r: string)
    requires t != []
    ensures |r| >= |t| - 1 && r[|r| - (|t| - 1)..] == t[1..]
    ensures |Units(t[0])| == 2 ==> r == t
    ensures |Units(t[0])| == 1 ==> r[..|r| - (|t| - 1)] == upper(t[..1])
  {
    if t[0] as int >= 0x1_0000 then t else upper(t[..1]) + t[1..]
  }
}
