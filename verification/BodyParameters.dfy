/**
 The order in which a recipient's CSV variables become the numbered body
 parameters of a template: a stable sort on the number that ends the column name.
 */
module BodyParameters {
  import opened Wrappers

  /** A variable under its sort key. */
  datatype Keyed = Keyed(key: nat, text: string)

  const NO_NUMBER: nat := 999

  /** The most digits Python's int() reads. */
  const MAX_DIGITS: nat := 4300

  // Unicode 15.0, table DerivedNumericType: the characters Python's isdigit() accepts.

  /** The last zero of a run of ten decimal digits that is not after c. */
  function ZeroBefore(c: int): int {
    if c >= 0x1FBF0 then 0x1FBF0 else if c >= 0x1E950 then 0x1E950 else if c >= 0x1E4F0 then 0x1E4F0 else
    if c >= 0x1E2F0 then 0x1E2F0 else if c >= 0x1E140 then 0x1E140 else if c >= 0x1D7F6 then 0x1D7F6 else
    if c >= 0x1D7EC then 0x1D7EC else if c >= 0x1D7E2 then 0x1D7E2 else if c >= 0x1D7D8 then 0x1D7D8 else
    if c >= 0x1D7CE then 0x1D7CE else if c >= 0x16B50 then 0x16B50 else if c >= 0x16AC0 then 0x16AC0 else
    if c >= 0x16A60 then 0x16A60 else if c >= 0x11F50 then 0x11F50 else if c >= 0x11DA0 then 0x11DA0 else
    if c >= 0x11D50 then 0x11D50 else if c >= 0x11C50 then 0x11C50 else if c >= 0x11950 then 0x11950 else
    if c >= 0x118E0 then 0x118E0 else if c >= 0x11730 then 0x11730 else if c >= 0x116C0 then 0x116C0 else
    if c >= 0x11650 then 0x11650 else if c >= 0x114D0 then 0x114D0 else if c >= 0x11450 then 0x11450 else
    if c >= 0x112F0 then 0x112F0 else if c >= 0x111D0 then 0x111D0 else if c >= 0x11136 then 0x11136 else
    if c >= 0x110F0 then 0x110F0 else if c >= 0x11066 then 0x11066 else if c >= 0x10D30 then 0x10D30 else
    if c >= 0x104A0 then 0x104A0 else if c >= 0xFF10 then 0xFF10 else if c >= 0xABF0 then 0xABF0 else
    if c >= 0xAA50 then 0xAA50 else if c >= 0xA9F0 then 0xA9F0 else if c >= 0xA9D0 then 0xA9D0 else
    if c >= 0xA900 then 0xA900 else if c >= 0xA8D0 then 0xA8D0 else if c >= 0xA620 then 0xA620 else
    if c >= 0x1C50 then 0x1C50 else if c >= 0x1C40 then 0x1C40 else if c >= 0x1BB0 then 0x1BB0 else
    if c >= 0x1B50 then 0x1B50 else if c >= 0x1A90 then 0x1A90 else if c >= 0x1A80 then 0x1A80 else
    if c >= 0x19D0 then 0x19D0 else if c >= 0x1946 then 0x1946 else if c >= 0x1810 then 0x1810 else
    if c >= 0x17E0 then 0x17E0 else if c >= 0x1090 then 0x1090 else if c >= 0x1040 then 0x1040 else
    if c >= 0xF20 then 0xF20 else if c >= 0xED0 then 0xED0 else if c >= 0xE50 then 0xE50 else
    if c >= 0xDE6 then 0xDE6 else if c >= 0xD66 then 0xD66 else if c >= 0xCE6 then 0xCE6 else
    if c >= 0xC66 then 0xC66 else if c >= 0xBE6 then 0xBE6 else if c >= 0xB66 then 0xB66 else
    if c >= 0xAE6 then 0xAE6 else if c >= 0xA66 then 0xA66 else if c >= 0x9E6 then 0x9E6 else
    if c >= 0x966 then 0x966 else if c >= 0x7C0 then 0x7C0 else if c >= 0x6F0 then 0x6F0 else
    if c >= 0x660 then 0x660 else if c >= 0x30 then 0x30 else -10
  }

  predicate IsDecimal(c: char) {
    ZeroBefore(c as int) <= c as int < ZeroBefore(c as int) + 10
  }

  /** Superscripts, circled digits and the like: int() refuses them. */
  predicate IsOtherDigit(c: int) {
    0xB2 <= c <= 0xB3 || c == 0xB9 || 0x1369 <= c <= 0x1371 || c == 0x19DA || c == 0x2070 || 0x2074 <= c <= 0x2079
    || 0x2080 <= c <= 0x2089 || 0x2460 <= c <= 0x2468 || 0x2474 <= c <= 0x247C || 0x2488 <= c <= 0x2490
    || c == 0x24EA || 0x24F5 <= c <= 0x24FD || c == 0x24FF || 0x2776 <= c <= 0x277E || 0x2780 <= c <= 0x2788
    || 0x278A <= c <= 0x2792 || 0x10A40 <= c <= 0x10A43 || 0x10E60 <= c <= 0x10E68 || 0x11052 <= c <= 0x1105A
    || 0x1F100 <= c <= 0x1F10A
  }

  predicate IsDigit(c: char) { IsDecimal(c) || IsOtherDigit(c as int) }

  /** What follows the last underscore, or the whole name when there is none. */
  function Suffix(name: string): string {
    if name == "" || name[|name| - 1] == '_' then ""
    else Suffix(name[..|name| - 1]) + [name[|name| - 1]]
  }

  function DigitValue(c: char): nat
    requires IsDecimal(c)
  {
    c as int - ZeroBefore(c as int)
  }

  function DecimalValue(digits: string): nat
    requires forall i :: 0 <= i < |digits| ==> IsDecimal(digits[i])
  {
    if digits == "" then 0
    else 10 * DecimalValue(digits[..|digits| - 1]) + DigitValue(digits[|digits| - 1])
  }

  /** The key one column sorts under; None where int() raises. */
  function SortKey(name: string): Option<nat> {
    var suffix := Suffix(name);
    if suffix == "" || exists c :: c in suffix && !IsDigit(c) then Some(NO_NUMBER)
    else if |suffix| > MAX_DIGITS || exists c :: c in suffix && !IsDecimal(c) then None
    else Some(DecimalValue(suffix))
  }

  /** The variables under their sort keys; None as soon as one key raises. */
  function WithKeys(variables: seq<(string, string)>): (r: Option<seq<Keyed>>)
    ensures r.Some? <==> forall i :: 0 <= i < |variables| ==> SortKey(variables[i].0).Some?
    ensures r.Some? ==> |r.value| == |variables|
                        && forall i :: 0 <= i < |variables| ==>
                             SortKey(variables[i].0) == Some(r.value[i].key) && r.value[i].text == variables[i].1
  {
    if variables == [] then Some([])
    else match (SortKey(variables[0].0), WithKeys(variables[1..]))
         case (Some(k), Some(rest)) => Some([Keyed(k, variables[0].1)] + rest)
         case _ => None
  }

  function Insert(x: Keyed, sorted: seq<Keyed>): seq<Keyed> {
    if sorted == [] || x.key <= sorted[0].key then [x] + sorted
    else [sorted[0]] + Insert(x, sorted[1..])
  }

  function StableSort(xs: seq<Keyed>): seq<Keyed> {
    if xs == [] then [] else Insert(xs[0], StableSort(xs[1..]))
  }

  function Values(xs: seq<Keyed>): (r: seq<string>)
    ensures |r| == |xs| && forall i :: 0 <= i < |xs| ==> r[i] == xs[i].text
  {
    if xs == [] then [] else [xs[0].text] + Values(xs[1..])
  }

  /** The body parameters sent for a recipient; None where the sort raises. */
  function Render(variables: seq<(string, string)>): Option<seq<string>> {
    match WithKeys(variables)
    case None => None
    case Some(keyed) => Some(Values(StableSort(keyed)))
  }

  ghost predicate Sorted(xs: seq<Keyed>) {
    forall i, j :: 0 <= i < j < |xs| ==> xs[i].key <= xs[j].key
  }

  /** The entries under one key, in their order. */
  function Under(xs: seq<Keyed>, key: nat): seq<Keyed> {
    if xs == [] then []
    else (if xs[0].key == key then [xs[0]] else []) + Under(xs[1..], key)
  }

  lemma {:induction false} InsertPermutes(x: Keyed, sorted: seq<Keyed>)
    ensures multiset(Insert(x, sorted)) == multiset{x} + multiset(sorted)
  {
    if sorted != [] && x.key > sorted[0].key {
      InsertPermutes(x, sorted[1..]);
      assert sorted == [sorted[0]] + sorted[1..];
    }
  }

  lemma {:induction false} InsertKeepsSorted(x: Keyed, sorted: seq<Keyed>)
    requires Sorted(sorted)
    ensures Sorted(Insert(x, sorted))
    ensures Insert(x, sorted)[0].key == if sorted == [] || x.key <= sorted[0].key then x.key else sorted[0].key
  {
    if sorted != [] && x.key > sorted[0].key {
      InsertKeepsSorted(x, sorted[1..]);
    }
  }

  lemma UnderCons(x: Keyed, xs: seq<Keyed>, key: nat)
    ensures Under([x] + xs, key) == (if x.key == key then [x] else []) + Under(xs, key)
  {
    assert ([x] + xs)[1..] == xs;
  }

  lemma {:induction false} InsertKeepsOrder(x: Keyed, sorted: seq<Keyed>, key: nat)
    requires Sorted(sorted)
    ensures Under(Insert(x, sorted), key) == (if x.key == key then [x] else []) + Under(sorted, key)
  {
    if sorted == [] || x.key <= sorted[0].key {
      assert ([x] + sorted)[1..] == sorted;
    } else {
      InsertKeepsOrder(x, sorted[1..], key);
      UnderCons(sorted[0], Insert(x, sorted[1..]), key);
      UnderCons(sorted[0], sorted[1..], key);
      assert sorted == [sorted[0]] + sorted[1..];
      var own, head := if x.key == key then [x] else [], if sorted[0].key == key then [sorted[0]] else [];
      assert own == [] || head == [];
      assert head + (own + Under(sorted[1..], key)) == own + (head + Under(sorted[1..], key));
    }
  }

  /** The sort returns a permutation, in key order, that keeps the order of equal keys. */
  lemma {:induction false} StableSortProperties(xs: seq<Keyed>)
    ensures multiset(StableSort(xs)) == multiset(xs)
    ensures Sorted(StableSort(xs))
    ensures forall key :: Under(StableSort(xs), key) == Under(xs, key)
  {
    if xs != [] {
      var rest := StableSort(xs[1..]);
      StableSortProperties(xs[1..]);
      InsertPermutes(xs[0], rest);
      InsertKeepsSorted(xs[0], rest);
      assert xs == [xs[0]] + xs[1..];
      forall key ensures Under(StableSort(xs), key) == Under(xs, key) {
        InsertKeepsOrder(xs[0], rest, key);
      }
    }
  }

  lemma {:induction false} UnderMembers(xs: seq<Keyed>, key: nat)
    ensures forall x :: x in Under(xs, key) <==> x in xs && x.key == key
  {
    if xs != [] { UnderMembers(xs[1..], key); }
  }

  /** Those properties leave no choice: they determine the sorted sequence. */
  lemma {:induction false} StableOrderUnique(a: seq<Keyed>, b: seq<Keyed>)
    requires Sorted(a) && Sorted(b)
    requires forall key :: Under(a, key) == Under(b, key)
    ensures a == b
    decreases |a|
  {
    if a == [] {
      var key := if b == [] then 0 else b[0].key;
      assert Under(b, key) == Under(a, key) == [];
    } else {
      UnderMembers(a, a[0].key);
      UnderMembers(b, a[0].key);
      assert a[0] in Under(b, a[0].key);
      UnderMembers(a, b[0].key);
      UnderMembers(b, b[0].key);
      assert b[0] in Under(a, b[0].key);
      assert a[0].key == b[0].key;
      assert Under(a, a[0].key)[0] == a[0] && Under(b, a[0].key)[0] == b[0];
      forall key ensures Under(a[1..], key) == Under(b[1..], key) {
        assert Under(a, key) == Under(b, key);
        if key == a[0].key {
          assert Under(a, key)[1..] == Under(a[1..], key);
          assert Under(b, key)[1..] == Under(b[1..], key);
        } else {
          assert Under(a, key) == Under(a[1..], key);
          assert Under(b, key) == Under(b[1..], key);
        }
      }
      StableOrderUnique(a[1..], b[1..]);
    }
  }

  // Dependence on the order in which the variables arrive.

  /** Variables that share a sort key hold the same text. */
  ghost predicate TiesAgree(xs: seq<Keyed>) {
    forall i, j :: 0 <= i < j < |xs| && xs[i].key == xs[j].key ==> xs[i] == xs[j]
  }

  lemma {:induction false} SortedPermutationUnique(a: seq<Keyed>, b: seq<Keyed>)
    requires Sorted(a) && Sorted(b) && multiset(a) == multiset(b) && TiesAgree(a)
    ensures a == b
    decreases |a|
  {
    assert |multiset(a)| == |a| && |multiset(b)| == |b|;
    if a != [] {
      HeadsAgree(a, b);
      TailsPermute(a, b);
      SortedPermutationUnique(a[1..], b[1..]);
    }
  }

  lemma TailsPermute(a: seq<Keyed>, b: seq<Keyed>)
    requires multiset(a) == multiset(b) && a != [] && b != [] && a[0] == b[0]
    ensures multiset(a[1..]) == multiset(b[1..])
  {
    assert a == [a[0]] + a[1..] && b == [b[0]] + b[1..];
    assert multiset(a[1..]) == multiset(a) - multiset{a[0]};
    assert multiset(b[1..]) == multiset(b) - multiset{b[0]};
  }

  lemma HeadsAgree(a: seq<Keyed>, b: seq<Keyed>)
    requires Sorted(a) && Sorted(b) && multiset(a) == multiset(b) && TiesAgree(a)
    requires a != [] && b != []
    ensures a[0] == b[0]
  {
    assert a[0] in multiset(b) && b[0] in multiset(a);
    var i :| 0 <= i < |b| && b[i] == a[0];
    var j :| 0 <= j < |a| && a[j] == b[0];
    assert a[0].key <= a[j].key && b[0].key <= b[i].key;
  }

  lemma {:induction false} UnderConcat(a: seq<Keyed>, b: seq<Keyed>, key: nat)
    ensures Under(a + b, key) == Under(a, key) + Under(b, key)
  {
    if a == [] {
      assert a + b == b;
    } else {
      UnderConcat(a[1..], b, key);
      UnderCons(a[0], a[1..] + b, key);
      UnderCons(a[0], a[1..], key);
      assert a == [a[0]] + a[1..] && a + b == [a[0]] + (a[1..] + b);
      var head := if a[0].key == key then [a[0]] else [];
      assert head + (Under(a[1..], key) + Under(b, key)) == (head + Under(a[1..], key)) + Under(b, key);
    }
  }

  function Keys(xs: seq<Keyed>): (r: seq<Keyed>)
    ensures |r| == |xs| && forall i :: 0 <= i < |xs| ==> r[i] == Keyed(xs[i].key, "")
  {
    if xs == [] then [] else [Keyed(xs[0].key, "")] + Keys(xs[1..])
  }

  lemma {:induction false} KeysOfInsert(x: Keyed, sorted: seq<Keyed>)
    ensures Keys(Insert(x, sorted)) == Insert(Keyed(x.key, ""), Keys(sorted))
  {
    if sorted == [] || x.key <= sorted[0].key {
      assert ([x] + sorted)[1..] == sorted;
    } else {
      KeysOfInsert(x, sorted[1..]);
      assert ([sorted[0]] + Insert(x, sorted[1..]))[1..] == Insert(x, sorted[1..]);
    }
  }

  lemma {:induction false} KeysOfSort(xs: seq<Keyed>)
    ensures Keys(StableSort(xs)) == StableSort(Keys(xs))
  {
    if xs != [] {
      KeysOfSort(xs[1..]);
      KeysOfInsert(xs[0], StableSort(xs[1..]));
    }
  }

  lemma {:induction false} UnderAt(xs: seq<Keyed>, n: nat, key: nat)
    requires n < |xs| && xs[n].key == key
    ensures Under(xs, key) == Under(xs[..n], key) + [xs[n]] + Under(xs[n+1..], key)
  {
    var a, x, b := xs[..n], [xs[n]], xs[n+1..];
    assert xs == a + (x + b);
    UnderConcat(a, x + b, key);
    UnderConcat(x, b, key);
    assert Under(x, key) == x;
  }

  /** Sequences that sort to the same texts and have the same keys in the same places agree under every key. */
  lemma SameTextsSameGroups(xs: seq<Keyed>, ys: seq<Keyed>, key: nat)
    requires Keys(xs) == Keys(ys) && Values(StableSort(ys)) == Values(StableSort(xs))
    ensures Under(xs, key) == Under(ys, key)
  {
    StableSortProperties(xs);
    StableSortProperties(ys);
    KeysOfSort(xs);
    KeysOfSort(ys);
    var s, t := StableSort(xs), StableSort(ys);
    assert |Keys(s)| == |Keys(t)|;
    forall n | 0 <= n < |s| ensures s[n] == t[n] {
      assert Keys(s)[n] == Keys(t)[n] && Values(s)[n] == Values(t)[n];
    }
    assert s == t;
  }

  lemma SwapKeepsKeys(xs: seq<Keyed>, i: nat, j: nat)
    requires i < j < |xs| && xs[i].key == xs[j].key
    ensures Keys(xs[i := xs[j]][j := xs[i]]) == Keys(xs)
  {
    var ys := xs[i := xs[j]][j := xs[i]];
    var a, b := Keys(xs), Keys(ys);
    forall n | 0 <= n < |a| ensures a[n] == b[n] {
      assert ys[n].key == xs[n].key;
    }
  }

  /** Exchanging two variables with the same key and different texts changes what is sent. */
  lemma SwappedTieShows(xs: seq<Keyed>, ys: seq<Keyed>, i: nat, j: nat)
    requires i < j < |xs| && xs[i].key == xs[j].key && xs[i] != xs[j]
    requires ys == xs[i := xs[j]][j := xs[i]]
    ensures Values(StableSort(ys)) != Values(StableSort(xs))
  {
    var key := xs[i].key;
    SwapChangesGroup(xs, ys, i, j);
    if Values(StableSort(ys)) == Values(StableSort(xs)) {
      SwapKeepsKeys(xs, i, j);
      SameTextsSameGroups(xs, ys, key);
      assert false;
    }
  }

  lemma SwapChangesGroup(xs: seq<Keyed>, ys: seq<Keyed>, i: nat, j: nat)
    requires i < j < |xs| && xs[i].key == xs[j].key && xs[i] != xs[j]
    requires ys == xs[i := xs[j]][j := xs[i]]
    ensures Under(xs, xs[i].key) != Under(ys, xs[i].key)
  {
    var key := xs[i].key;
    UnderAt(xs, i, key);
    UnderAt(ys, i, key);
    assert xs[..i] == ys[..i];
    var before := |Under(xs[..i], key)|;
    assert Under(xs, key)[before] == xs[i];
    assert Under(ys, key)[before] == xs[j];
  }

  lemma SwapPermutes<T>(xs: seq<T>, i: nat, j: nat)
    requires i < j < |xs|
    ensures multiset(xs[i := xs[j]][j := xs[i]]) == multiset(xs)
  {
  }

  lemma AgreeingTiesSort(xs: seq<Keyed>, ys: seq<Keyed>)
    requires TiesAgree(xs) && multiset(ys) == multiset(xs)
    ensures StableSort(ys) == StableSort(xs)
  {
    StableSortProperties(xs);
    StableSortProperties(ys);
    TiesAgreeSorted(xs, StableSort(xs));
    SortedPermutationUnique(StableSort(xs), StableSort(ys));
  }

  lemma TiesAgreeSorted(xs: seq<Keyed>, s: seq<Keyed>)
    requires TiesAgree(xs) && multiset(s) == multiset(xs)
    ensures TiesAgree(s)
  {
    forall i, j | 0 <= i < j < |s| && s[i].key == s[j].key ensures s[i] == s[j] {
      assert s[i] in multiset(xs) && s[j] in multiset(xs);
      var m :| 0 <= m < |xs| && xs[m] == s[i];
      var n :| 0 <= n < |xs| && xs[n] == s[j];
    }
  }

  // The same for the variables themselves.

  function KeyedOf(variable: (string, string)): Keyed {
    Keyed(SortKey(variable.0).OrElse(Some(0)).value, variable.1)
  }

  function AllKeyed(variables: seq<(string, string)>): (r: seq<Keyed>)
    ensures |r| == |variables| && forall i :: 0 <= i < |r| ==> r[i] == KeyedOf(variables[i])
  {
    if variables == [] then [] else [KeyedOf(variables[0])] + AllKeyed(variables[1..])
  }

  lemma WithKeysIsAllKeyed(variables: seq<(string, string)>)
    ensures WithKeys(variables).Some? ==> WithKeys(variables).value == AllKeyed(variables)
  {
  }

  lemma InsertedPermutes<T>(p: seq<T>, x: T, q: seq<T>)
    ensures multiset(p + ([x] + q)) == multiset{x} + multiset(p + q)
  {
  }

  lemma SplitAt<T>(xs: seq<T>, k: nat)
    requires k < |xs|
    ensures xs == xs[..k] + ([xs[k]] + xs[k+1..])
  {
  }

  /** Taking out the same element, wherever it is, leaves permutations of one another. */
  lemma TailPermutes<T>(a: seq<T>, b: seq<T>, k: nat)
    requires a != [] && k < |b| && b[k] == a[0] && multiset(a) == multiset(b)
    ensures multiset(a[..0] + a[1..]) == multiset(b[..k] + b[k+1..])
  {
    SplitAt(a, 0);
    SplitAt(b, k);
    InsertedPermutes(a[..0], a[0], a[1..]);
    InsertedPermutes(b[..k], a[0], b[k+1..]);
    Cancel(a[0], multiset(a[..0] + a[1..]), multiset(b[..k] + b[k+1..]));
  }

  lemma Cancel<T>(x: T, m: multiset<T>, m': multiset<T>)
    requires multiset{x} + m == multiset{x} + m'
    ensures m == m'
  {
    assert m == (multiset{x} + m) - multiset{x};
    assert m' == (multiset{x} + m') - multiset{x};
  }

  lemma {:induction false} AllKeyedPermutes(a: seq<(string, string)>, b: seq<(string, string)>)
    requires multiset(a) == multiset(b)
    ensures multiset(AllKeyed(a)) == multiset(AllKeyed(b))
    decreases |a|
  {
    if a == [] {
      assert |multiset(a)| == |a| && |multiset(b)| == |b|;
    } else {
      assert a[0] in multiset(b);
      var k: nat :| k < |b| && b[k] == a[0];
      TailPermutes(a, b, k);
      AllKeyedPermutes(a[..0] + a[1..], b[..k] + b[k+1..]);
      AllKeyedAt(a, 0);
      AllKeyedAt(b, k);
    }
  }

  lemma AllKeyedConcat(a: seq<(string, string)>, b: seq<(string, string)>)
    ensures AllKeyed(a + b) == AllKeyed(a) + AllKeyed(b)
  {
  }

  lemma AllKeyedAt(variables: seq<(string, string)>, k: nat)
    requires k < |variables|
    ensures multiset(AllKeyed(variables)) ==
            multiset{KeyedOf(variables[k])} + multiset(AllKeyed(variables[..k] + variables[k+1..]))
  {
    var p, x, q := variables[..k], [variables[k]], variables[k+1..];
    SplitAt(variables, k);
    AllKeyedConcat(p, x + q);
    AllKeyedConcat(x, q);
    AllKeyedConcat(p, q);
    assert AllKeyed(x) == [KeyedOf(variables[k])];
    InsertedPermutes(AllKeyed(p), KeyedOf(variables[k]), AllKeyed(q));
  }

  lemma PermutedRaises(a: seq<(string, string)>, b: seq<(string, string)>)
    requires multiset(a) == multiset(b)
    ensures Render(a).None? <==> Render(b).None?
  {
    assert forall v :: v in a <==> v in multiset(a);
    assert forall v :: v in b <==> v in multiset(b);
    if Render(a).None? {
      var i :| 0 <= i < |a| && SortKey(a[i].0).None?;
      assert a[i] in b;
    }
    if Render(b).None? {
      var i :| 0 <= i < |b| && SortKey(b[i].0).None?;
      assert b[i] in a;
    }
  }

  /** Variables whose names sort alike hold the same text. */
  ghost predicate AlikeAgree(variables: seq<(string, string)>) {
    forall i, j :: 0 <= i < j < |variables| && SortKey(variables[i].0) == SortKey(variables[j].0) ==>
      variables[i].1 == variables[j].1
  }

  ghost predicate VariableOrderIrrelevant(variables: seq<(string, string)>) {
    forall other :: multiset(other) == multiset(variables) ==> Render(other) == Render(variables)
  }

  lemma AgreeingVariables(a: seq<(string, string)>, b: seq<(string, string)>)
    requires multiset(a) == multiset(b) && Render(a).Some? && AlikeAgree(a)
    ensures Render(b) == Render(a)
  {
    PermutedRaises(a, b);
    RenderIsSorted(a);
    RenderIsSorted(b);
    WithKeysIsAllKeyed(a);
    AllKeyedPermutes(a, b);
    assert TiesAgree(AllKeyed(a));
    AgreeingTiesSort(AllKeyed(a), AllKeyed(b));
  }

  lemma DisagreeingVariables(variables: seq<(string, string)>) returns (other: seq<(string, string)>)
    requires Render(variables).Some? && !AlikeAgree(variables)
    ensures multiset(other) == multiset(variables) && Render(other) != Render(variables)
  {
    var i: nat, j: nat :| i < j < |variables| && SortKey(variables[i].0) == SortKey(variables[j].0)
                          && variables[i].1 != variables[j].1;
    other := variables[i := variables[j]][j := variables[i]];
    SwapPermutes(variables, i, j);
    PermutedRaises(variables, other);
    RenderIsSorted(variables);
    RenderIsSorted(other);
    SwapKeyed(variables, other, i, j);
    SwappedTieShows(AllKeyed(variables), AllKeyed(other), i, j);
  }

  lemma RenderIsSorted(variables: seq<(string, string)>)
    requires Render(variables).Some?
    ensures Render(variables) == Some(Values(StableSort(AllKeyed(variables))))
  {
    WithKeysIsAllKeyed(variables);
  }

  lemma SwapKeyed(variables: seq<(string, string)>, other: seq<(string, string)>, i: nat, j: nat)
    requires i < j < |variables| && other == variables[i := variables[j]][j := variables[i]]
    ensures var xs := AllKeyed(variables); AllKeyed(other) == xs[i := xs[j]][j := xs[i]]
  {
  }

  /**
   What is rendered, or that rendering raises, is the same for every order of the variables exactly when
   rendering raises or variables whose names sort alike hold the same text.
   */
  lemma VariableOrder(variables: seq<(string, string)>)
    ensures VariableOrderIrrelevant(variables) <==> Render(variables).None? || AlikeAgree(variables)
  {
    if Render(variables).None? {
      forall other | multiset(other) == multiset(variables) ensures Render(other) == Render(variables) {
        PermutedRaises(variables, other);
      }
    } else if AlikeAgree(variables) {
      forall other | multiset(other) == multiset(variables) ensures Render(other) == Render(variables) {
        AgreeingVariables(variables, other);
      }
    } else {
      var other := DisagreeingVariables(variables);
    }
  }

  /** A name that ends in a number to isdigit() but not to int(). */
  predicate Unreadable(name: string) {
    var suffix := Suffix(name);
    && suffix != "" && (forall i :: 0 <= i < |suffix| ==> IsDigit(suffix[i]))
    && (|suffix| > MAX_DIGITS || exists i :: 0 <= i < |suffix| && !IsDecimal(suffix[i]))
  }

  /** The sort raises exactly when some variable's name is one. */
  lemma RenderRaises(variables: seq<(string, string)>)
    ensures Render(variables).None? <==> exists i :: 0 <= i < |variables| && Unreadable(variables[i].0)
  {
    forall i | 0 <= i < |variables| ensures SortKey(variables[i].0).None? <==> Unreadable(variables[i].0) {
      var suffix := Suffix(variables[i].0);
      assert forall j :: 0 <= j < |suffix| ==> suffix[j] in suffix;
    }
  }

  /** A column the source cannot number: "price_" followed by a superscript two. */
  lemma SuperscriptColumnRaises(text: string)
    ensures Render([("price_\U{00B2}", text)]).None?
  {
    var name := "price_\U{00B2}";
    var c := '\U{00B2}';
    assert name[..6][|name[..6]| - 1] == '_';
    assert Suffix(name[..6]) == "";
    assert name[..|name| - 1] == name[..6] && Suffix(name) == [c];
    assert c in Suffix(name) && !IsDecimal(c) && IsDigit(c);
    assert SortKey(name).None?;
  }
}
