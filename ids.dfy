/** Instance ids are "el-N". The counter that issues them is recomputed from the live ids
    (App.tsx:43-45): `parseInt(id.split('-')[1], 10)` of every instance, `Math.max(0, ...)`,
    plus one. A number that does not parse is NaN, and NaN poisons `Math.max` and every later
    increment, so the counter is either a number or NaN. */
module Ids {
  import opened Types
  import Ordered

  datatype Counter = Num(n: nat) | NaN

  function DigitChar(d: nat): char
    requires d < 10
  {
    (48 + d) as char
  }

  predicate IsDigit(c: char) {
    '0' <= c <= '9'
  }

  /** The decimal numeral of `n`, as a template literal prints it. */
  function Decimal(n: nat): (s: string)
    ensures s != [] && forall i | 0 <= i < |s| :: IsDigit(s[i])
  {
    if n < 10 then [DigitChar(n)] else Decimal(n / 10) + [DigitChar(n % 10)]
  }

  /** The longest prefix of `s` made of digits. */
  function LeadingDigits(s: string): (r: string)
    ensures |r| <= |s| && r == s[..|r|]
    ensures forall i | 0 <= i < |r| :: IsDigit(r[i])
    ensures |r| < |s| ==> !IsDigit(s[|r|])
  {
    if s == [] || !IsDigit(s[0]) then [] else [s[0]] + LeadingDigits(s[1..])
  }

  /** The value of a numeral. */
  function DigitsValue(s: string): nat
    requires forall i | 0 <= i < |s| :: IsDigit(s[i])
  {
    if s == [] then 0
    else
      assert IsDigit(s[|s| - 1]);
      DigitsValue(s[..|s| - 1]) * 10 + (s[|s| - 1] as int - 48)
  }

  /** The characters `parseInt` skips at the start: ECMAScript's white space (tab, vertical tab,
      form feed, the byte order mark and every space separator) and line terminators. */
  predicate IsSpace(c: char) {
    c == '\t' || c == '\n' || c == '\U{000B}' || c == '\U{000C}' || c == '\r' || c == ' '
    || c == '\U{00A0}' || c == '\U{1680}' || '\U{2000}' <= c <= '\U{200A}'
    || c == '\U{2028}' || c == '\U{2029}' || c == '\U{202F}' || c == '\U{205F}'
    || c == '\U{3000}' || c == '\U{FEFF}'
  }

  /** `s` without its leading white space. */
  function TrimStart(s: string): string {
    if s != [] && IsSpace(s[0]) then TrimStart(s[1..]) else s
  }

  /** `parseInt(s, 10)`: leading white space and one '+' sign are skipped, then the value of the
      digits that follow; None (NaN) when there are none. A '-' sign cannot occur here, because the
      text parsed is a piece of an id split at '-'. */
  function ParseInt(s: string): Option<nat> {
    var d := LeadingDigits(Unsigned(TrimStart(s)));
    if d == [] then None else Some(DigitsValue(d))
  }

  /** `t` without one leading '+'. */
  function Unsigned(t: string): string {
    if t != [] && t[0] == '+' then t[1..] else t
  }

  /** The text up to the first '-' (or all of it). */
  function UpToDash(s: string): (r: string)
    ensures '-' !in r
    ensures '-' !in s ==> r == s
  {
    if s == [] || s[0] == '-' then [] else [s[0]] + UpToDash(s[1..])
  }

  /** `s.split('-')[1]`: the piece between the first and the second '-', or undefined
      (None) when `s` has no '-'. */
  function SecondPiece(s: string): Option<string> {
    if s == [] then None
    else if s[0] == '-' then Some(UpToDash(s[1..]))
    else SecondPiece(s[1..])
  }

  /** The number an id carries; None stands for NaN. */
  function IdNumber(id: string): Option<nat> {
    match SecondPiece(id)
    case None => None
    case Some(piece) => ParseInt(piece)
  }

  /** The id `getNewId` builds from counter value `n`. */
  function Format(n: nat): string {
    "el-" + Decimal(n)
  }

  lemma {:induction false} DecimalValue(n: nat)
    ensures DigitsValue(Decimal(n)) == n
  {
    if n >= 10 {
      DecimalValue(n / 10);
      var s := Decimal(n);
      assert s[..|s| - 1] == Decimal(n / 10);
    }
  }

  lemma {:induction false} LeadingDigitsAll(s: string)
    requires forall i | 0 <= i < |s| :: IsDigit(s[i])
    ensures LeadingDigits(s) == s
  {
    if s != [] {
      LeadingDigitsAll(s[1..]);
    }
  }

  /** Reading back an issued id gives the number it was issued from. */
  lemma FormatRoundTrip(n: nat)
    ensures IdNumber(Format(n)) == Some(n)
  {
    var d := Decimal(n);
    assert '-' !in d by {
      forall i | 0 <= i < |d| ensures d[i] != '-' { }
    }
    var f := Format(n);
    assert SecondPiece(f) == Some(d) by {
      assert f[1..] == "l-" + d && f[2..] == "-" + d && ("-" + d)[1..] == d;
      assert SecondPiece(f) == SecondPiece(f[1..]) == SecondPiece(f[2..]);
    }
    assert ParseInt(d) == Some(n) by {
      ParseIntNumeral([], n);
      assert [] + d == d;
    }
  }

  /** `parseInt` reads a numeral after any white space, with or without a '+' sign. */
  lemma ParseIntNumeral(space: string, n: nat)
    requires forall i | 0 <= i < |space| :: IsSpace(space[i])
    ensures ParseInt(space + Decimal(n)) == Some(n)
    ensures ParseInt(space + "+" + Decimal(n)) == Some(n)
  {
    var d := Decimal(n);
    assert IsDigit(d[0]);
    assert TrimStart(space + d) == d by {
      TrimSpace(space, d);
    }
    assert TrimStart(space + "+" + d) == "+" + d by {
      assert space + "+" + d == space + ("+" + d);
      TrimSpace(space, "+" + d);
    }
    assert Unsigned("+" + d) == d by {
      assert ("+" + d)[1..] == d;
    }
    assert LeadingDigits(d) == d && DigitsValue(d) == n by {
      LeadingDigitsAll(d);
      DecimalValue(n);
    }
  }

  lemma {:induction false} TrimSpace(space: string, s: string)
    requires forall i | 0 <= i < |space| :: IsSpace(space[i])
    requires s != [] && !IsSpace(s[0])
    ensures TrimStart(space + s) == s
  {
    if space == [] {
      assert space + s == s;
    } else {
      assert (space + s)[1..] == space[1..] + s;
      TrimSpace(space[1..], s);
    }
  }

  /** Issued ids differ for different counter values. */
  lemma FormatInjective(m: nat, n: nat)
    ensures Format(m) == Format(n) <==> m == n
  {
    FormatRoundTrip(m);
    FormatRoundTrip(n);
  }

  /** `Math.max(0, ...numbers)`: NaN as soon as one id does not parse. */
  function MaxNumber(ids: seq<string>): (r: Counter)
    ensures r.Num? <==> forall i | 0 <= i < |ids| :: IdNumber(ids[i]).Some?
    ensures r.Num? ==> forall i | 0 <= i < |ids| :: IdNumber(ids[i]).value <= r.n
    ensures r.Num? && r.n > 0 ==> exists i | 0 <= i < |ids| :: IdNumber(ids[i]) == Some(r.n)
  {
    if ids == [] then Num(0)
    else
      var rest := MaxNumber(ids[1..]);
      assert forall i | 1 <= i < |ids| :: ids[1..][i - 1] == ids[i];
      match IdNumber(ids[0])
      case None => NaN
      case Some(k) =>
        if rest.NaN? then NaN
        else if k >= rest.n then Num(k) else rest
  }

  function IdsOf(els: seq<CanvasElement>): (r: seq<string>)
    ensures |r| == |els| && forall i | 0 <= i < |els| :: r[i] == els[i].id
  {
    seq(|els|, i requires 0 <= i < |els| => els[i].id)
  }

  /** The counter after the effect has seen the canvas: one past the largest id number. */
  function NextCounter(m: Ordered.Map<string, CanvasElement>): Counter {
    match MaxNumber(IdsOf(Ordered.Values(m)))
    case NaN => NaN
    case Num(k) => Num(k + 1)
  }

  /** `getNewId`: the id for the current counter and the counter after it. */
  function Issue(c: Counter): (string, Counter) {
    match c
    case Num(n) => (Format(n), Num(n + 1))
    case NaN => ("el-NaN", NaN)
  }

  /** Every instance is stored under its own id. */
  ghost predicate KeysAreIds(m: Ordered.Map<string, CanvasElement>) {
    forall k | k in m.at :: m.at[k].id == k
  }

  /** When the counter is a number, the id it issues is not live. */
  lemma IssuedIdIsFresh(m: Ordered.Map<string, CanvasElement>)
    requires KeysAreIds(m)
    requires NextCounter(m).Num?
    ensures Issue(NextCounter(m)).0 !in m.at
  {
    var vals := Ordered.Values(m);
    var ids := IdsOf(vals);
    var c := NextCounter(m).n;
    if Format(c) in m.at {
      var i :| 0 <= i < |m.order| && m.order[i] == Format(c);
      assert ids[i] == Format(c);
      FormatRoundTrip(c);
    }
  }

  lemma {:induction false} MaxNumberAppend(ids: seq<string>, x: string, k: nat)
    requires IdNumber(x) == Some(k)
    ensures MaxNumber(ids + [x]) ==
      match MaxNumber(ids)
      case NaN => NaN
      case Num(m) => Num(if k >= m then k else m)
  {
    if ids != [] {
      assert (ids + [x])[1..] == ids[1..] + [x];
      MaxNumberAppend(ids[1..], x, k);
    }
  }

  /** Placing the instance `getNewId` named moves the counter on by one; undoing that
      placement brings back the old canvas and with it the old counter, so the same id is
      issued again. */
  lemma CounterAfterPlacing(m: Ordered.Map<string, CanvasElement>, e: CanvasElement)
    requires NextCounter(m).Num? && e.id == Issue(NextCounter(m)).0 && e.id !in m.at
    ensures NextCounter(Ordered.Put(m, e.id, e)) == Issue(NextCounter(m)).1
  {
    var c := NextCounter(m).n;
    var m' := Ordered.Put(m, e.id, e);
    assert IdsOf(Ordered.Values(m')) == IdsOf(Ordered.Values(m)) + [e.id];
    FormatRoundTrip(c);
    MaxNumberAppend(IdsOf(Ordered.Values(m)), e.id, c);
  }

  /** Live ids that all parse give a number; the counter is above each of them. */
  lemma CounterAboveLiveIds(m: Ordered.Map<string, CanvasElement>, k: string)
    requires k in m.at && NextCounter(m).Num?
    ensures IdNumber(m.at[k].id).Some? && IdNumber(m.at[k].id).value < NextCounter(m).n
  {
    var i :| 0 <= i < |m.order| && m.order[i] == k;
    assert IdsOf(Ordered.Values(m))[i] == m.at[k].id;
  }
}
