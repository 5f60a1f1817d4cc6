/** The two orders the listings use: ascending by a text column (publisher
    name, user email) and newest-first by creation stamp, each made strict by
    breaking ties on the record id, with an insertion sort that produces the
    one sequence sorted by such an order. */
module Ordering {

  /** Strict lexicographic order on strings: `a` is a proper prefix of `b`,
      or at the first difference `a` has the smaller character. */
  predicate TextBefore(a: string, b: string)
    decreases |a|
  {
    if |a| == 0 then |b| > 0
    else |b| > 0 && (a[0] < b[0] || (a[0] == b[0] && TextBefore(a[1..], b[1..])))
  }

  lemma {:induction false} TextBeforeIrreflexive(a: string)
    ensures !TextBefore(a, a)
    decreases |a|
  {
    if |a| > 0 {
      TextBeforeIrreflexive(a[1..]);
    }
  }

  lemma {:induction false} TextBeforeTransitive(a: string, b: string, c: string)
    requires TextBefore(a, b) && TextBefore(b, c)
    ensures TextBefore(a, c)
    decreases |a|
  {
    if |a| > 0 && a[0] == b[0] && b[0] == c[0] {
      TextBeforeTransitive(a[1..], b[1..], c[1..]);
    }
  }

  lemma {:induction false} TextBeforeTotal(a: string, b: string)
    requires a != b
    ensures TextBefore(a, b) || TextBefore(b, a)
    decreases |a|
  {
    if |a| > 0 && |b| > 0 && a[0] == b[0] {
      assert a == [a[0]] + a[1..] && b == [b[0]] + b[1..];
      TextBeforeTotal(a[1..], b[1..]);
    }
  }

  /** Which column a listing is ordered by: `keys` maps a record id to its
      text column, `stamps` maps a record id to its creation time. */
  datatype Order = ByText(keys: map<nat, string>) | NewestFirst(stamps: map<nat, nat>)

  function TextKey(keys: map<nat, string>, id: nat): string {
    if id in keys then keys[id] else ""
  }

  function Stamp(stamps: map<nat, nat>, id: nat): nat {
    if id in stamps then stamps[id] else 0
  }

  /** `a` is listed before `b`. Text orders ascend with the lower id first on
      a tie; the newest-first order descends with the higher (later) id first. */
  predicate Before(o: Order, a: nat, b: nat) {
    match o
    case ByText(keys) =>
      TextBefore(TextKey(keys, a), TextKey(keys, b))
      || (TextKey(keys, a) == TextKey(keys, b) && a < b)
    case NewestFirst(stamps) =>
      Stamp(stamps, a) > Stamp(stamps, b)
      || (Stamp(stamps, a) == Stamp(stamps, b) && a > b)
  }

  lemma BeforeIrreflexive(o: Order, a: nat)
    ensures !Before(o, a, a)
  {
    if o.ByText? {
      TextBeforeIrreflexive(TextKey(o.keys, a));
    }
  }

  lemma BeforeTransitive(o: Order, a: nat, b: nat, c: nat)
    requires Before(o, a, b) && Before(o, b, c)
    ensures Before(o, a, c)
  {
    if o.ByText? {
      var ka, kb, kc := TextKey(o.keys, a), TextKey(o.keys, b), TextKey(o.keys, c);
      if TextBefore(ka, kb) && TextBefore(kb, kc) {
        TextBeforeTransitive(ka, kb, kc);
      }
    }
  }

  lemma BeforeTotal(o: Order, a: nat, b: nat)
    requires a != b
    ensures Before(o, a, b) || Before(o, b, a)
  {
    if o.ByText? && TextKey(o.keys, a) != TextKey(o.keys, b) {
      TextBeforeTotal(TextKey(o.keys, a), TextKey(o.keys, b));
    }
  }

  lemma BeforeAsymmetric(o: Order, a: nat, b: nat)
    ensures !(Before(o, a, b) && Before(o, b, a))
  {
    if Before(o, a, b) && Before(o, b, a) {
      BeforeTransitive(o, a, b, a);
      BeforeIrreflexive(o, a);
    }
  }

  /** In a text order, a record listed earlier never has the larger text. */
  lemma ByTextAscending(keys: map<nat, string>, a: nat, b: nat)
    requires Before(ByText(keys), a, b)
    ensures !TextBefore(TextKey(keys, b), TextKey(keys, a))
  {
    var ka, kb := TextKey(keys, a), TextKey(keys, b);
    TextBeforeIrreflexive(ka);
    if TextBefore(ka, kb) && TextBefore(kb, ka) {
      TextBeforeTransitive(ka, kb, ka);
    }
  }

  ghost predicate Distinct(xs: seq<nat>) {
    forall i, j :: 0 <= i < j < |xs| ==> xs[i] != xs[j]
  }

  /** Every earlier element is strictly before every later one. */
  ghost predicate SortedBy(o: Order, xs: seq<nat>) {
    forall i, j :: 0 <= i < j < |xs| ==> Before(o, xs[i], xs[j])
  }

  lemma SortedIsDistinct(o: Order, xs: seq<nat>)
    requires SortedBy(o, xs)
    ensures Distinct(xs)
  {
    forall i, j | 0 <= i < j < |xs|
      ensures xs[i] != xs[j]
    {
      BeforeIrreflexive(o, xs[i]);
    }
  }

  /** The head of a sorted sequence is before every other member. */
  lemma HeadFirst(o: Order, xs: seq<nat>, y: nat)
    requires SortedBy(o, xs) && y in xs
    ensures y == xs[0] || Before(o, xs[0], y)
  {
  }

  lemma TailMembers(o: Order, xs: seq<nat>, y: nat)
    requires SortedBy(o, xs) && |xs| > 0
    ensures y in xs[1..] <==> y in xs && y != xs[0]
  {
    if y in xs[1..] {
      var k :| 0 <= k < |xs[1..]| && xs[1..][k] == y;
      assert Before(o, xs[0], xs[k + 1]);
      BeforeIrreflexive(o, y);
    }
    if y in xs && y != xs[0] {
      var k :| 0 <= k < |xs| && xs[k] == y;
      assert xs[1..][k - 1] == y;
    }
  }

  lemma PrependSorted(o: Order, h: nat, xs: seq<nat>)
    requires SortedBy(o, xs)
    requires forall y :: y in xs ==> Before(o, h, y)
    ensures SortedBy(o, [h] + xs)
  {
  }

  /** Places `x` in a sorted sequence; a member already present is kept once. */
  function Insert(o: Order, x: nat, xs: seq<nat>): (r: seq<nat>)
    requires SortedBy(o, xs)
    ensures SortedBy(o, r)
    ensures forall y :: y in r <==> y == x || y in xs
    ensures x !in xs ==> |r| == |xs| + 1
    decreases |xs|
  {
    if |xs| == 0 then
      [x]
    else if x == xs[0] then
      xs
    else if Before(o, x, xs[0]) then
      PrependAfterHead(o, x, xs);
      [x] + xs
    else
      BeforeTotal(o, x, xs[0]);
      var rest := Insert(o, x, xs[1..]);
      InsertTail(o, x, xs, rest);
      [xs[0]] + rest
  }

  lemma PrependAfterHead(o: Order, x: nat, xs: seq<nat>)
    requires SortedBy(o, xs) && |xs| > 0 && Before(o, x, xs[0])
    ensures SortedBy(o, [x] + xs)
  {
    forall y | y in xs
      ensures Before(o, x, y)
    {
      HeadFirst(o, xs, y);
      if y != xs[0] {
        BeforeTransitive(o, x, xs[0], y);
      }
    }
    PrependSorted(o, x, xs);
  }

  lemma InsertTail(o: Order, x: nat, xs: seq<nat>, rest: seq<nat>)
    requires SortedBy(o, xs) && |xs| > 0 && Before(o, xs[0], x)
    requires SortedBy(o, rest)
    requires forall y :: y in rest <==> y == x || y in xs[1..]
    ensures SortedBy(o, [xs[0]] + rest)
  {
    forall y | y in rest
      ensures Before(o, xs[0], y)
    {
      if y != x {
        TailMembers(o, xs, y);
        HeadFirst(o, xs, y);
      }
    }
    PrependSorted(o, xs[0], rest);
  }

  /** Insertion sort: the members of `xs`, strictly ordered by `o`. */
  function Sort(o: Order, xs: seq<nat>): (r: seq<nat>)
    ensures SortedBy(o, r)
    ensures forall y :: y in r <==> y in xs
    ensures Distinct(xs) ==> |r| == |xs|
    decreases |xs|
  {
    if |xs| == 0 then
      []
    else
      var rest := Sort(o, xs[1..]);
      assert Distinct(xs) ==> xs[0] !in xs[1..] && Distinct(xs[1..]);
      Insert(o, xs[0], rest)
  }

  lemma FirstIsMember(xs: seq<nat>)
    ensures |xs| > 0 ==> xs[0] in xs
  {
  }

  /** A strict order admits one sorted arrangement of a given member set:
      whatever computes it, the listing is the same sequence. */
  lemma {:induction false} SortedUnique(o: Order, xs: seq<nat>, ys: seq<nat>)
    requires SortedBy(o, xs) && SortedBy(o, ys)
    requires forall y :: y in xs <==> y in ys
    ensures xs == ys
    decreases |xs|
  {
    if |xs| == 0 {
      FirstIsMember(ys);
    } else {
      assert xs[0] in ys;
      assert |ys| > 0;
      HeadFirst(o, xs, ys[0]);
      HeadFirst(o, ys, xs[0]);
      BeforeAsymmetric(o, xs[0], ys[0]);
      assert xs[0] == ys[0];
      forall y
        ensures y in xs[1..] <==> y in ys[1..]
      {
        TailMembers(o, xs, y);
        TailMembers(o, ys, y);
      }
      SortedUnique(o, xs[1..], ys[1..]);
      assert xs == [xs[0]] + xs[1..] && ys == [ys[0]] + ys[1..];
    }
  }
}
