/**
 The order of the body parameters, read off the names of the variables: by the number a name ends in, names without
 one after number 998 and before number 1000, and names of the same rank in the order they came.
 */
module NumberedVariables {
  import opened Wrappers
  import opened BodyParameters

  function Digit(d: nat): char
    requires d < 10
  {
    ['0', '1', '2', '3', '4', '5', '6', '7', '8', '9'][d]
  }

  /** The decimal text of a number. */
  function Decimal(n: nat): string {
    if n < 10 then [Digit(n)] else Decimal(n / 10) + [Digit(n % 10)]
  }

  function Zeros(k: nat): string {
    if k == 0 then "" else Zeros(k - 1) + "0"
  }

  /** What follows the last underscore of a name, or the whole name when it has none. */
  ghost predicate LastPart(name: string, part: string) {
    '_' !in part && (name == part || exists p :: name == Prefixed(p, part))
  }

  function Prefixed(p: string, part: string): string { p + "_" + part }

  /** The name ends in the decimal text of n, with or without leading zeros, of at most 4300 digits. */
  ghost predicate Numbered(name: string, n: nat) {
    exists k: nat :: LastPart(name, Padded(k, n)) && |Padded(k, n)| <= 4300
  }

  function Padded(k: nat, n: nat): string { Zeros(k) + Decimal(n) }

  /** The last part of the name is empty or holds something that is no digit. */
  ghost predicate Unnumbered(name: string) {
    exists part :: LastPart(name, part) && (part == "" || exists c :: c in part && !IsDigit(c))
  }

  // ------------------------------------------------------------ the sort key of a name

  lemma {:induction false} SuffixOfPart(part: string)
    requires '_' !in part
    ensures Suffix(part) == part
  {
    if part != "" {
      var before := part[..|part| - 1];
      assert part == before + [part[|part| - 1]];
      SuffixOfPart(before);
    }
  }

  lemma {:induction false} SuffixOfPrefixed(p: string, part: string)
    requires '_' !in part
    ensures Suffix(Prefixed(p, part)) == part
    decreases |part|
  {
    var name := Prefixed(p, part);
    if part != "" {
      var before := part[..|part| - 1];
      assert part == before + [part[|part| - 1]];
      SuffixOfPrefixed(p, before);
      assert name[..|name| - 1] == Prefixed(p, before);
    }
  }

  lemma LastPartIsSuffix(name: string, part: string)
    requires LastPart(name, part)
    ensures Suffix(name) == part
  {
    if name == part {
      SuffixOfPart(part);
    } else {
      var p :| name == Prefixed(p, part);
      SuffixOfPrefixed(p, part);
    }
  }

  lemma DigitMeans(d: nat)
    requires d < 10
    ensures IsDecimal(Digit(d)) && DigitValue(Digit(d)) == d && Digit(d) != '_'
  {
  }

  lemma {:induction false} DecimalDigits(n: nat)
    ensures Decimal(n) != "" && forall i :: 0 <= i < |Decimal(n)| ==> IsDecimal(Decimal(n)[i])
  {
    DigitMeans(n % 10);
    if n >= 10 { DecimalDigits(n / 10); }
  }

  lemma {:induction false} DecimalMeans(n: nat)
    ensures forall i :: 0 <= i < |Decimal(n)| ==> IsDecimal(Decimal(n)[i])
    ensures DecimalValue(Decimal(n)) == n
  {
    DecimalDigits(n);
    DigitMeans(n % 10);
    if n < 10 {
      assert [Digit(n)][..0] == "";
    } else {
      DecimalMeans(n / 10);
      assert Decimal(n)[..|Decimal(n)| - 1] == Decimal(n / 10);
    }
  }

  lemma {:induction false} ZerosMean(k: nat)
    ensures forall i :: 0 <= i < |Zeros(k)| ==> IsDecimal(Zeros(k)[i])
    ensures DecimalValue(Zeros(k)) == 0
  {
    DigitMeans(0);
    if k > 0 {
      ZerosMean(k - 1);
      assert Zeros(k)[..|Zeros(k)| - 1] == Zeros(k - 1);
    }
  }

  /** Leading zeros do not change a value. */
  lemma {:induction false} PaddedValue(k: nat, digits: string)
    requires forall i :: 0 <= i < |digits| ==> IsDecimal(digits[i])
    ensures forall i :: 0 <= i < |Zeros(k) + digits| ==> IsDecimal((Zeros(k) + digits)[i])
    ensures DecimalValue(Zeros(k) + digits) == DecimalValue(digits)
    decreases |digits|
  {
    ZerosMean(k);
    var all := Zeros(k) + digits;
    if digits == "" {
      assert all == Zeros(k);
    } else {
      PaddedValue(k, digits[..|digits| - 1]);
      assert all[..|all| - 1] == Zeros(k) + digits[..|digits| - 1];
    }
  }

  lemma NumberedSortsAt(name: string, n: nat)
    requires Numbered(name, n)
    ensures SortKey(name) == Some(n)
  {
    var k: nat :| LastPart(name, Padded(k, n)) && |Padded(k, n)| <= 4300;
    LastPartIsSuffix(name, Padded(k, n));
    DecimalMeans(n);
    DecimalDigits(n);
    PaddedValue(k, Decimal(n));
    ReadableSortsAt(name, Padded(k, n));
  }

  lemma ReadableSortsAt(name: string, digits: string)
    requires Suffix(name) == digits && digits != "" && |digits| <= 4300
    requires forall i :: 0 <= i < |digits| ==> IsDecimal(digits[i])
    ensures SortKey(name) == Some(DecimalValue(digits))
  {
    forall c | c in digits ensures IsDecimal(c) && IsDigit(c) {
      var i :| 0 <= i < |digits| && digits[i] == c;
    }
  }

  lemma UnnumberedSortsAt(name: string)
    requires Unnumbered(name)
    ensures SortKey(name) == Some(999)
  {
    var part :| LastPart(name, part) && (part == "" || exists c :: c in part && !IsDigit(c));
    LastPartIsSuffix(name, part);
  }

  // ------------------------------------------------------------ the order of the rendered texts

  /** Where an entry goes: after the first entries, those with a smaller key. */
  function Place(x: Keyed, sorted: seq<Keyed>): (p: nat)
    ensures p <= |sorted| && forall i :: 0 <= i < p ==> sorted[i].key < x.key
    ensures p < |sorted| ==> x.key <= sorted[p].key
  {
    if sorted == [] || x.key <= sorted[0].key then 0 else 1 + Place(x, sorted[1..])
  }

  lemma {:induction false} InsertAtPlace(x: Keyed, sorted: seq<Keyed>)
    ensures var p := Place(x, sorted); Insert(x, sorted) == sorted[..p] + ([x] + sorted[p..])
  {
    if sorted != [] && x.key > sorted[0].key {
      InsertAtPlace(x, sorted[1..]);
      var p := Place(x, sorted[1..]);
      assert sorted[..p + 1] == [sorted[0]] + sorted[1..][..p] && sorted[p + 1..] == sorted[1..][p..];
    }
  }

  /** The entry at i belongs before the one at j: by key, and by position among equal keys. */
  predicate InOrder(xs: seq<Keyed>, i: nat, j: nat) {
    i < |xs| && j < |xs| && (xs[i].key < xs[j].key || (xs[i].key == xs[j].key && i < j))
  }

  /** The order lists the positions that the sorted entries had. */
  ghost predicate SortedFrom(xs: seq<Keyed>, order: seq<nat>, sorted: seq<Keyed>) {
    && |order| == |xs| == |sorted|
    && (forall a :: 0 <= a < |order| ==> order[a] < |xs| && sorted[a] == xs[order[a]])
    && forall a, b :: 0 <= a < b < |order| ==> InOrder(xs, order[a], order[b])
  }

  /** The positions once a new first entry has gone to place p. */
  function PlacedAt(rest: seq<nat>, p: nat, a: nat): nat
    requires p <= |rest| && a <= |rest|
  {
    if a < p then rest[a] + 1 else if a == p then 0 else rest[a - 1] + 1
  }

  function Placed(rest: seq<nat>, p: nat): (order: seq<nat>)
    requires p <= |rest|
    ensures |order| == |rest| + 1 && forall a :: 0 <= a < |order| ==> order[a] == PlacedAt(rest, p, a)
  {
    seq(|rest| + 1, a requires 0 <= a < |rest| + 1 => PlacedAt(rest, p, a))
  }

  lemma {:induction false} SortOrder(xs: seq<Keyed>) returns (order: seq<nat>)
    ensures SortedFrom(xs, order, StableSort(xs))
  {
    if xs == [] {
      order := [];
    } else {
      var rest := SortOrder(xs[1..]);
      var sorted := StableSort(xs[1..]);
      InsertAtPlace(xs[0], sorted);
      order := Placed(rest, Place(xs[0], sorted));
      InsertedFrom(xs[0], xs[1..], rest, sorted);
      assert [xs[0]] + xs[1..] == xs;
    }
  }

  function PutAt(sorted: seq<Keyed>, p: nat, x: Keyed): (r: seq<Keyed>)
    requires p <= |sorted|
    ensures |r| == |sorted| + 1
    ensures forall a :: 0 <= a < |r| ==> r[a] == if a < p then sorted[a] else if a == p then x else sorted[a - 1]
  {
    sorted[..p] + ([x] + sorted[p..])
  }

  lemma InsertedFrom(x: Keyed, tail: seq<Keyed>, rest: seq<nat>, sorted: seq<Keyed>)
    requires SortedFrom(tail, rest, sorted)
    ensures var p := Place(x, sorted); SortedFrom([x] + tail, Placed(rest, p), PutAt(sorted, p, x))
  {
    var p := Place(x, sorted);
    forall a, b | 0 <= a < b < |rest| + 1 ensures InOrder([x] + tail, PlacedAt(rest, p, a), PlacedAt(rest, p, b)) {
      PlacedPair(x, tail, rest, sorted, a, b);
    }
    forall a | 0 <= a < |rest| + 1
      ensures PlacedAt(rest, p, a) < |[x] + tail| && PutAt(sorted, p, x)[a] == ([x] + tail)[PlacedAt(rest, p, a)]
    {
    }
  }

  lemma PlacedPair(x: Keyed, tail: seq<Keyed>, rest: seq<nat>, sorted: seq<Keyed>, a: nat, b: nat)
    requires SortedFrom(tail, rest, sorted) && a < b <= |rest|
    ensures var p := Place(x, sorted); InOrder([x] + tail, PlacedAt(rest, p, a), PlacedAt(rest, p, b))
  {
    var p := Place(x, sorted);
    if a == p {
      FirstInOrder(x, tail, rest, sorted, b - 1);
    } else if b == p {
      assert sorted[a].key < x.key && sorted[a] == tail[rest[a]];
    } else {
      var a', b' := if a < p then a else a - 1, if b < p then b else b - 1;
      assert InOrder(tail, rest[a'], rest[b']);
    }
  }

  /** The new entry belongs before those from its place on. */
  lemma FirstInOrder(x: Keyed, tail: seq<Keyed>, rest: seq<nat>, sorted: seq<Keyed>, b: nat)
    requires SortedFrom(tail, rest, sorted) && Place(x, sorted) <= b < |rest|
    ensures InOrder([x] + tail, 0, rest[b] + 1)
  {
    var p := Place(x, sorted);
    assert x.key <= sorted[p].key && sorted[p] == tail[rest[p]];
    if b > p { assert InOrder(tail, rest[p], rest[b]); }
  }

  /** The first name goes before the second. */
  ghost predicate GoesBefore(a: string, b: string) {
    || (exists n: nat, m: nat :: Numbered(a, n) && Numbered(b, m) && n < m)
    || (exists n: nat :: Numbered(a, n) && n < 999 && Unnumbered(b))
    || (exists m: nat :: Unnumbered(a) && Numbered(b, m) && 999 < m)
  }

  ghost predicate SameRank(a: string, b: string) {
    || (exists n: nat :: Numbered(a, n) && Numbered(b, n))
    || (Unnumbered(a) && Unnumbered(b))
    || (Unnumbered(a) && Numbered(b, 999))
    || (Numbered(a, 999) && Unnumbered(b))
  }

  lemma RanksAreKeys(a: string, b: string)
    ensures GoesBefore(a, b) ==> SortKey(a).Some? && SortKey(b).Some? && SortKey(a).value < SortKey(b).value
    ensures SameRank(a, b) ==> SortKey(a).Some? && SortKey(a) == SortKey(b)
  {
    forall n: nat | Numbered(a, n) ensures SortKey(a) == Some(n) { NumberedSortsAt(a, n); }
    forall n: nat | Numbered(b, n) ensures SortKey(b) == Some(n) { NumberedSortsAt(b, n); }
    if Unnumbered(a) { UnnumberedSortsAt(a); }
    if Unnumbered(b) { UnnumberedSortsAt(b); }
  }

  /** The texts of the variables in an order of positions: each position once, and none after one it goes before. */
  ghost predicate RenderedIn(variables: seq<(string, string)>, texts: seq<string>, order: seq<nat>) {
    && |order| == |variables| == |texts|
    && (forall a :: 0 <= a < |order| ==> order[a] < |variables| && texts[a] == variables[order[a]].1)
    && (forall a, b :: 0 <= a < b < |order| ==>
          && order[a] != order[b]
          && !GoesBefore(variables[order[b]].0, variables[order[a]].0)
          && (SameRank(variables[order[a]].0, variables[order[b]].0) ==> order[a] < order[b]))
  }

  /**
   The parameters that are sent are the texts of all the variables: the smaller number first, a number below 999
   before a name without a number, and such a name before a number above 999; the same rank in the order given.
   */
  lemma NumbersDecide(variables: seq<(string, string)>) returns (order: seq<nat>)
    requires Render(variables).Some?
    ensures RenderedIn(variables, Render(variables).value, order)
  {
    var xs := AllKeyed(variables);
    RenderIsSorted(variables);
    order := SortOrder(xs);
    assert forall i :: 0 <= i < |variables| ==> SortKey(variables[i].0).Some?;
    forall a, b | 0 <= a < b < |order|
      ensures order[a] != order[b] && !GoesBefore(variables[order[b]].0, variables[order[a]].0)
      ensures SameRank(variables[order[a]].0, variables[order[b]].0) ==> order[a] < order[b]
    {
      assert InOrder(xs, order[a], order[b]);
      assert xs[order[a]] == KeyedOf(variables[order[a]]) && xs[order[b]] == KeyedOf(variables[order[b]]);
      RanksAreKeys(variables[order[b]].0, variables[order[a]].0);
      RanksAreKeys(variables[order[a]].0, variables[order[b]].0);
    }
  }
}
