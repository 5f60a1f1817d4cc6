/** Row selection over an id-keyed table and the fixed-size page slicing the
    personal post listing applies (`.page(n).per(5)`). */
module Query {
  import opened Ordering

  /** The ids below `bound` of rows of `table` that `keep` accepts, in
      ascending id order. */
  function Select<V>(table: map<nat, V>, bound: nat, keep: V -> bool): (r: seq<nat>)
    ensures forall id :: id in r <==> id < bound && id in table && keep(table[id])
    ensures forall i, j :: 0 <= i < j < |r| ==> r[i] < r[j]
    ensures Distinct(r)
    decreases bound
  {
    if bound == 0 then
      []
    else
      var rest := Select(table, bound - 1, keep);
      var last := bound - 1;
      if last in table && keep(table[last]) then
        AppendAscending(rest, last);
        rest + [last]
      else
        rest
  }

  lemma AppendAscending(xs: seq<nat>, last: nat)
    requires forall i, j :: 0 <= i < j < |xs| ==> xs[i] < xs[j]
    requires forall id :: id in xs ==> id < last
    ensures forall i, j :: 0 <= i < j < |xs + [last]| ==> (xs + [last])[i] < (xs + [last])[j]
  {
    var r := xs + [last];
    forall i, j | 0 <= i < j < |r|
      ensures r[i] < r[j]
    {
      assert r[i] == xs[i] && xs[i] in xs;
      if j < |xs| {
        assert r[j] == xs[j];
      }
    }
  }

  /** Rows per page of the personal post listing. */
  const PerPage: nat := 5

  function Min(a: nat, b: nat): nat {
    if a <= b then a else b
  }

  /** Rows skipped before page `page`: page numbers below 1 (including an
      absent page parameter, read as 0) show the first page. */
  function Offset(page: int): nat {
    if page <= 1 then 0 else PerPage * (page - 1)
  }

  /** The rows of page `page`. */
  function Page<T>(xs: seq<T>, page: int): (r: seq<T>)
    ensures |r| <= PerPage
    ensures forall x :: x in r ==> x in xs
  {
    if Offset(page) >= |xs| then [] else xs[Offset(page)..Min(Offset(page) + PerPage, |xs|)]
  }

  /** Pages 1 through k, one after another. */
  function Pages<T>(xs: seq<T>, k: nat): seq<T>
    decreases k
  {
    if k == 0 then [] else Pages(xs, k - 1) + Page(xs, k)
  }

  /** The first k pages hold exactly the first k * PerPage rows, in order:
      no row is skipped, repeated or moved between pages. */
  lemma {:induction false} PagesArePrefix<T>(xs: seq<T>, k: nat)
    ensures Pages(xs, k) == xs[..Min(k * PerPage, |xs|)]
    decreases k
  {
    if k > 0 {
      PagesArePrefix(xs, k - 1);
      var start := (k - 1) * PerPage;
      assert k * PerPage == start + PerPage;
      assert Offset(k) == start;
      var lo := Min(start, |xs|);
      var hi := Min(start + PerPage, |xs|);
      if start < |xs| {
        assert Page(xs, k) == xs[lo..hi];
        assert xs[..lo] + xs[lo..hi] == xs[..hi];
      }
    }
  }

  /** Enough pages reproduce the whole listing. */
  lemma PagesCoverAll<T>(xs: seq<T>, k: nat)
    requires |xs| <= k * PerPage
    ensures Pages(xs, k) == xs
  {
    PagesArePrefix(xs, k);
    assert xs[..|xs|] == xs;
  }

  /** A listing of twelve rows splits into pages of five, five and two. */
  lemma TwelveRowsPaged<T>(xs: seq<T>)
    requires |xs| == 12
    ensures |Page(xs, 1)| == 5 && |Page(xs, 2)| == 5 && |Page(xs, 3)| == 2
    ensures Page(xs, 4) == [] && Page(xs, 0) == Page(xs, 1)
    ensures Pages(xs, 3) == xs
  {
    PagesCoverAll(xs, 3);
  }
}
