/** Paging through a driver's completed legs by cursor.

    The query returns ids in descending order, from below the cursor if there is one, and one more than the page
    holds; the cursor of the next page is the id of the last item shown. */
module CursorWalk {
  import opened Options

  type Id = int

  datatype Page = Page(items: seq<Id>, hasMore: bool, next: Option<Id>)

  ghost predicate Descending(rows: seq<Id>) {
    forall i, j | 0 <= i < j < |rows| :: rows[i] > rows[j]
  }

  function Filter(rows: seq<Id>, p: Id -> bool): seq<Id> {
    if rows == [] then []
    else if p(rows[0]) then [rows[0]] + Filter(rows[1..], p)
    else Filter(rows[1..], p)
  }

  function Take(rows: seq<Id>, n: nat): seq<Id> {
    if n <= |rows| then rows[..n] else rows
  }

  function BelowCursor(c: Id): Id -> bool {
    id => id < c
  }

  /** ... WHERE id < before */
  function After(rows: seq<Id>, before: Option<Id>): seq<Id> {
    match before
    case None => rows
    case Some(c) => Filter(rows, BelowCursor(c))
  }

  /** One page; `keep` is the status filter, which is applied only to the rows already fetched. */
  function PageOf(rows: seq<Id>, keep: Id -> bool, before: Option<Id>, limit: nat): Page {
    var fetched := Take(After(rows, before), limit + 1);
    var hasMore := |fetched| > limit;
    var items := Filter(Take(fetched, limit), keep);
    Page(items, hasMore, if hasMore && items != [] then Some(items[|items| - 1]) else None)
  }

  // ----- facts about filters -----

  lemma {:induction false} FilterConcat(a: seq<Id>, b: seq<Id>, p: Id -> bool)
    ensures Filter(a + b, p) == Filter(a, p) + Filter(b, p)
  {
    if a == [] {
      assert a + b == b;
    } else {
      assert (a + b)[1..] == a[1..] + b;
      FilterConcat(a[1..], b, p);
    }
  }

  lemma {:induction false} FilterNone(rows: seq<Id>, p: Id -> bool)
    requires forall i | 0 <= i < |rows| :: !p(rows[i])
    ensures Filter(rows, p) == []
  {
    if rows != [] {
      FilterNone(rows[1..], p);
    }
  }

  lemma {:induction false} FilterAll(rows: seq<Id>, p: Id -> bool)
    requires forall i | 0 <= i < |rows| :: p(rows[i])
    ensures Filter(rows, p) == rows
  {
    if rows != [] {
      FilterAll(rows[1..], p);
    }
  }

  lemma {:induction false} FilterSnoc(rows: seq<Id>, x: Id, p: Id -> bool)
    ensures Filter(rows + [x], p) == Filter(rows, p) + (if p(x) then [x] else [])
  {
    FilterConcat(rows, [x], p);
    assert Filter([x], p) == if p(x) then [x] else [];
  }

  lemma FilterBack(a: seq<Id>, b: seq<Id>, p: Id -> bool)
    requires forall i | 0 <= i < |a| :: !p(a[i])
    requires forall i | 0 <= i < |b| :: p(b[i])
    ensures Filter(a + b, p) == b
  {
    FilterConcat(a, b, p);
    FilterNone(a, p);
    FilterAll(b, p);
  }

  /** The rows below the id at position `k` are exactly those after it. */
  lemma BelowIsSuffix(rows: seq<Id>, k: nat)
    requires Descending(rows) && k < |rows|
    ensures Filter(rows, BelowCursor(rows[k])) == rows[k + 1..]
  {
    assert rows == rows[..k + 1] + rows[k + 1..];
    FilterBack(rows[..k + 1], rows[k + 1..], BelowCursor(rows[k]));
  }

  // ----- following the cursor -----

  /** The number of rows a page with the cursor can still reach; it falls from page to page. */
  function Left(rows: seq<Id>, before: Option<Id>): nat {
    |After(rows, before)|
  }

  lemma {:induction false} FilterShrinks(rows: seq<Id>, c: Id, d: Id)
    requires d < c
    ensures |Filter(rows, BelowCursor(d))| <= |Filter(rows, BelowCursor(c))|
    ensures d in rows ==> |Filter(rows, BelowCursor(d))| < |Filter(rows, BelowCursor(c))|
  {
    if rows != [] {
      FilterShrinks(rows[1..], c, d);
      assert rows == [rows[0]] + rows[1..];
    }
  }

  lemma {:induction false} FilterIn(rows: seq<Id>, p: Id -> bool)
    ensures forall x :: x in Filter(rows, p) <==> x in rows && p(x)
    ensures |Filter(rows, p)| <= |rows|
    ensures (exists x :: x in rows && !p(x)) ==> |Filter(rows, p)| < |rows|
  {
    if rows != [] {
      FilterIn(rows[1..], p);
      assert rows == [rows[0]] + rows[1..];
    }
  }

  lemma CursorAdvances(rows: seq<Id>, keep: Id -> bool, before: Option<Id>, limit: nat)
    ensures var page := PageOf(rows, keep, before, limit);
            page.next.Some? ==> Left(rows, page.next) < Left(rows, before)
  {
    var page := PageOf(rows, keep, before, limit);
    if page.next.Some? {
      var c := page.next.value;
      var rest := After(rows, before);
      FilterIn(Take(Take(rest, limit + 1), limit), keep);
      assert c in page.items && c in rest;
      match before
      case None =>
        FilterIn(rows, BelowCursor(c));
      case Some(b) =>
        FilterIn(rows, BelowCursor(b));
        FilterShrinks(rows, b, c);
    }
  }

  /** All pages from a cursor on, until a page names no next one. */
  function Walk(rows: seq<Id>, keep: Id -> bool, before: Option<Id>, limit: nat): seq<Page>
    decreases Left(rows, before)
  {
    var page := PageOf(rows, keep, before, limit);
    CursorAdvances(rows, keep, before, limit);
    if page.next.Some? then [page] + Walk(rows, keep, page.next, limit) else [page]
  }

  function Shown(pages: seq<Page>): seq<Id> {
    if pages == [] then [] else pages[0].items + Shown(pages[1..])
  }

  // ----- the walk over positions -----

  /** The kept rows from position `lo` up to position `hi`. */
  function Kept(rows: seq<Id>, keep: Id -> bool, lo: nat, hi: nat): seq<Id>
    requires lo <= hi <= |rows|
    decreases hi
  {
    if lo == hi then []
    else Kept(rows, keep, lo, hi - 1) + if keep(rows[hi - 1]) then [rows[hi - 1]] else []
  }

  lemma {:induction false} KeptIsFilter(rows: seq<Id>, keep: Id -> bool, lo: nat, hi: nat)
    requires lo <= hi <= |rows|
    ensures Filter(rows[lo..hi], keep) == Kept(rows, keep, lo, hi)
    decreases hi
  {
    if lo < hi {
      assert rows[lo..hi] == rows[lo..hi - 1] + [rows[hi - 1]];
      FilterSnoc(rows[lo..hi - 1], rows[hi - 1], keep);
      KeptIsFilter(rows, keep, lo, hi - 1);
    }
  }

  lemma AllKeptIsFilter(rows: seq<Id>, keep: Id -> bool)
    ensures Kept(rows, keep, 0, |rows|) == Filter(rows, keep)
  {
    KeptIsFilter(rows, keep, 0, |rows|);
    assert rows[0..|rows|] == rows;
  }

  lemma {:induction false} KeptSplits(rows: seq<Id>, keep: Id -> bool, lo: nat, mid: nat, hi: nat)
    requires lo <= mid <= hi <= |rows|
    ensures Kept(rows, keep, lo, hi) == Kept(rows, keep, lo, mid) + Kept(rows, keep, mid, hi)
    decreases hi
  {
    if mid < hi {
      KeptSplits(rows, keep, lo, mid, hi - 1);
    }
  }

  ghost predicate NoneKept(rows: seq<Id>, keep: Id -> bool, lo: nat, hi: nat)
    requires hi <= |rows|
  {
    forall i | lo <= i < hi :: !keep(rows[i])
  }

  lemma {:induction false} NothingKept(rows: seq<Id>, keep: Id -> bool, lo: nat, hi: nat)
    requires lo <= hi <= |rows|
    ensures Kept(rows, keep, lo, hi) == [] <==> NoneKept(rows, keep, lo, hi)
    decreases hi
  {
    if lo < hi {
      NothingKept(rows, keep, lo, hi - 1);
    }
  }

  /** The position after the last kept row from `lo` up to `hi`, or `lo` if there is none. */
  function PastKept(rows: seq<Id>, keep: Id -> bool, lo: nat, hi: nat): (n: nat)
    requires lo <= hi <= |rows|
    ensures lo <= n <= hi && (n > lo ==> keep(rows[n - 1])) && NoneKept(rows, keep, n, hi)
    decreases hi
  {
    if lo == hi then lo
    else if keep(rows[hi - 1]) then hi
    else PastKept(rows, keep, lo, hi - 1)
  }

  /** The kept rows of a stretch end with the last kept row. */
  lemma KeptEnds(rows: seq<Id>, keep: Id -> bool, lo: nat, hi: nat)
    requires lo <= hi <= |rows|
    ensures var kept, n := Kept(rows, keep, lo, hi), PastKept(rows, keep, lo, hi);
            && kept == Kept(rows, keep, lo, n)
            && (kept == [] <==> n == lo)
            && (n > lo ==> kept[|kept| - 1] == rows[n - 1])
  {
    var n := PastKept(rows, keep, lo, hi);
    KeptSplits(rows, keep, lo, n, hi);
    NothingKept(rows, keep, n, hi);
  }

  /** Where a page that starts at position `k` ends. */
  function PageEnd(rows: seq<Id>, limit: nat, k: nat): (e: nat)
    requires k <= |rows|
    ensures k <= e <= |rows|
  {
    if |rows| - k <= limit then |rows| else k + limit
  }

  /** Where the walk goes on after the page at `k`: behind the last row shown, if more rows follow the page;
      otherwise it ends, and stays at `k`. */
  function Onward(rows: seq<Id>, keep: Id -> bool, limit: nat, k: nat): (n: nat)
    requires k <= |rows|
    ensures k <= n <= |rows|
  {
    if |rows| - k <= limit then k else PastKept(rows, keep, k, k + limit)
  }

  /** The same walk by positions. */
  function WalkFrom(rows: seq<Id>, keep: Id -> bool, limit: nat, k: nat): seq<seq<Id>>
    requires k <= |rows|
    decreases |rows| - k
  {
    var n := Onward(rows, keep, limit, k);
    [Kept(rows, keep, k, PageEnd(rows, limit, k))] + if n == k then [] else WalkFrom(rows, keep, limit, n)
  }

  function Flatten(pages: seq<seq<Id>>): seq<Id> {
    if pages == [] then [] else pages[0] + Flatten(pages[1..])
  }

  ghost predicate StandsAt(rows: seq<Id>, before: Option<Id>, k: nat) {
    k <= |rows| && After(rows, before) == rows[k..]
  }

  lemma PageReads(rows: seq<Id>, keep: Id -> bool, before: Option<Id>, limit: nat, k: nat)
    requires StandsAt(rows, before, k)
    ensures var page := PageOf(rows, keep, before, limit);
            && page.items == Kept(rows, keep, k, PageEnd(rows, limit, k))
            && (page.hasMore <==> PageEnd(rows, limit, k) < |rows|)
            && (page.next.Some? <==> |rows| - k > limit && page.items != [])
            && (page.next.Some? ==> page.next.value == page.items[|page.items| - 1])
  {
    var rest, e := rows[k..], PageEnd(rows, limit, k);
    assert Take(Take(rest, limit + 1), limit) == rows[k..e];
    KeptIsFilter(rows, keep, k, e);
  }

  lemma CursorStands(rows: seq<Id>, n: nat)
    requires Descending(rows) && 0 < n <= |rows|
    ensures StandsAt(rows, Some(rows[n - 1]), n)
  {
    BelowIsSuffix(rows, n - 1);
  }

  lemma LastItemStands(rows: seq<Id>, keep: Id -> bool, lo: nat, hi: nat)
    requires Descending(rows) && lo <= hi <= |rows|
    ensures var kept, n := Kept(rows, keep, lo, hi), PastKept(rows, keep, lo, hi);
            && (kept == [] <==> n == lo)
            && (n > lo ==> StandsAt(rows, Some(kept[|kept| - 1]), n))
  {
    KeptEnds(rows, keep, lo, hi);
    var n := PastKept(rows, keep, lo, hi);
    if n > lo {
      CursorStands(rows, n);
    }
  }

  lemma NextStands(rows: seq<Id>, keep: Id -> bool, limit: nat, k: nat, page: Page)
    requires Descending(rows) && k <= |rows|
    requires page.items == Kept(rows, keep, k, PageEnd(rows, limit, k))
    requires page.next.Some? <==> |rows| - k > limit && page.items != []
    requires page.next.Some? ==> page.next.value == page.items[|page.items| - 1]
    ensures var n := Onward(rows, keep, limit, k);
            (page.next.Some? <==> n > k) && (page.next.Some? ==> StandsAt(rows, page.next, n))
  {
    if |rows| - k > limit {
      LastItemStands(rows, keep, k, k + limit);
    }
  }

  /** A page from a cursor shows what the walk shows at the cursor's position, and its own cursor stands where the
      walk goes on. */
  lemma PageAt(rows: seq<Id>, keep: Id -> bool, before: Option<Id>, limit: nat, k: nat)
    requires Descending(rows) && StandsAt(rows, before, k)
    ensures var page, n := PageOf(rows, keep, before, limit), Onward(rows, keep, limit, k);
            && page.items == Kept(rows, keep, k, PageEnd(rows, limit, k))
            && (page.hasMore <==> PageEnd(rows, limit, k) < |rows|)
            && (page.next.Some? <==> n > k)
            && (page.next.Some? ==> StandsAt(rows, page.next, n))
  {
    PageReads(rows, keep, before, limit, k);
    NextStands(rows, keep, limit, k, PageOf(rows, keep, before, limit));
  }

  lemma FlattenCons(page: seq<Id>, pages: seq<seq<Id>>)
    ensures Flatten([page] + pages) == page + Flatten(pages)
  {
    assert ([page] + pages)[1..] == pages;
  }

  lemma ShownCons(page: Page, pages: seq<Page>)
    ensures Shown([page] + pages) == page.items + Shown(pages)
  {
    assert ([page] + pages)[1..] == pages;
  }

  lemma WalkUnfold(rows: seq<Id>, keep: Id -> bool, before: Option<Id>, limit: nat)
    ensures var page, walk := PageOf(rows, keep, before, limit), Walk(rows, keep, before, limit);
            if page.next.Some?
            then Shown(walk) == page.items + Shown(Walk(rows, keep, page.next, limit))
                 && |walk| == 1 + |Walk(rows, keep, page.next, limit)|
            else Shown(walk) == page.items && |walk| == 1
  {
    var page := PageOf(rows, keep, before, limit);
    CursorAdvances(rows, keep, before, limit);
    if page.next.Some? {
      ShownCons(page, Walk(rows, keep, page.next, limit));
    } else {
      assert Shown([page]) == page.items + Shown([]);
    }
  }

  lemma WalkFromUnfold(rows: seq<Id>, keep: Id -> bool, limit: nat, k: nat)
    requires k <= |rows|
    ensures var n, pages := Onward(rows, keep, limit, k), WalkFrom(rows, keep, limit, k);
            var page := Kept(rows, keep, k, PageEnd(rows, limit, k));
            if n > k
            then Flatten(pages) == page + Flatten(WalkFrom(rows, keep, limit, n))
                 && |pages| == 1 + |WalkFrom(rows, keep, limit, n)|
            else Flatten(pages) == page && |pages| == 1
  {
    var n, page := Onward(rows, keep, limit, k), Kept(rows, keep, k, PageEnd(rows, limit, k));
    if n > k {
      FlattenCons(page, WalkFrom(rows, keep, limit, n));
    } else {
      FlattenCons(page, []);
    }
  }

  /** Walking by cursors is walking by positions. */
  lemma {:induction false} WalkIsWalkFrom(rows: seq<Id>, keep: Id -> bool, before: Option<Id>, limit: nat, k: nat)
    requires Descending(rows) && StandsAt(rows, before, k)
    ensures var walk, pages := Walk(rows, keep, before, limit), WalkFrom(rows, keep, limit, k);
            Shown(walk) == Flatten(pages) && |walk| == |pages|
    decreases |rows| - k
  {
    var page := PageOf(rows, keep, before, limit);
    PageAt(rows, keep, before, limit, k);
    WalkUnfold(rows, keep, before, limit);
    WalkFromUnfold(rows, keep, limit, k);
    if page.next.Some? {
      WalkIsWalkFrom(rows, keep, page.next, limit, Onward(rows, keep, limit, k));
    }
  }

  // ----- what the walk shows -----

  /** Every kept row from position `k` on is within a page's length of `k` or of another kept row above it. */
  ghost predicate NoGap(rows: seq<Id>, keep: Id -> bool, limit: nat, k: nat) {
    forall j | k <= j < |rows| && keep(rows[j]) :: j < k + limit || KeptWithin(rows, keep, j - limit, j)
  }

  ghost predicate KeptWithin(rows: seq<Id>, keep: Id -> bool, lo: int, hi: int) {
    exists p | 0 <= p < |rows| :: lo <= p < hi && keep(rows[p])
  }

  /** One page of the walk keeps the question the same for the rows that follow it. */
  lemma GapMovesOn(rows: seq<Id>, keep: Id -> bool, limit: nat, k: nat)
    requires k <= |rows| && Onward(rows, keep, limit, k) > k
    ensures NoGap(rows, keep, limit, k) <==> NoGap(rows, keep, limit, Onward(rows, keep, limit, k))
  {
    var n := Onward(rows, keep, limit, k);
    assert keep(rows[n - 1]) && NoneKept(rows, keep, n, k + limit);
    forall j | k + limit <= j < |rows| && keep(rows[j])
      ensures j < n + limit ==> KeptWithin(rows, keep, j - limit, j)
    {
    }
  }

  lemma {:induction false} NoneKeptYet(rows: seq<Id>, keep: Id -> bool, limit: nat, k: nat, hi: nat)
    requires NoGap(rows, keep, limit, k) && k + limit <= hi <= |rows| && NoneKept(rows, keep, k, k + limit)
    ensures NoneKept(rows, keep, k, hi)
    decreases hi
  {
    if k + limit < hi {
      NoneKeptYet(rows, keep, limit, k, hi - 1);
    }
  }

  /** If a page shows nothing but more rows follow, there is a gap exactly when something is left to show. */
  lemma GapAtEmptyPage(rows: seq<Id>, keep: Id -> bool, limit: nat, k: nat)
    requires k <= |rows| && |rows| - k > limit && NoneKept(rows, keep, k, k + limit)
    ensures NoGap(rows, keep, limit, k) <==> Kept(rows, keep, k, |rows|) == []
  {
    NothingKept(rows, keep, k, |rows|);
    if NoGap(rows, keep, limit, k) {
      NoneKeptYet(rows, keep, limit, k, |rows|);
    }
  }

  /** The rows shown are a prefix of the kept rows: in order, none skipped, none twice.  They are all of them iff
      there is no gap. */
  ghost predicate ShowsKept(rows: seq<Id>, keep: Id -> bool, limit: nat, k: nat, shown: seq<Id>)
    requires k <= |rows|
  {
    && shown <= Kept(rows, keep, k, |rows|)
    && (shown == Kept(rows, keep, k, |rows|) <==> NoGap(rows, keep, limit, k))
  }

  lemma LastPageShows(rows: seq<Id>, keep: Id -> bool, limit: nat, k: nat)
    requires k <= |rows| && Onward(rows, keep, limit, k) == k
    ensures ShowsKept(rows, keep, limit, k, Kept(rows, keep, k, PageEnd(rows, limit, k)))
  {
    if |rows| - k > limit {
      KeptEnds(rows, keep, k, k + limit);
      GapAtEmptyPage(rows, keep, limit, k);
    }
  }

  lemma PrefixBehind(page: seq<Id>, shown: seq<Id>, kept: seq<Id>)
    requires shown <= kept
    ensures page + shown <= page + kept
    ensures page + shown == page + kept <==> shown == kept
  {
    assert (page + shown)[|page|..] == shown && (page + kept)[|page|..] == kept;
  }

  lemma PageThenRestShows(rows: seq<Id>, keep: Id -> bool, limit: nat, k: nat, shown: seq<Id>)
    requires k <= |rows| && Onward(rows, keep, limit, k) > k
    requires ShowsKept(rows, keep, limit, Onward(rows, keep, limit, k), shown)
    ensures ShowsKept(rows, keep, limit, k, Kept(rows, keep, k, PageEnd(rows, limit, k)) + shown)
  {
    var n := Onward(rows, keep, limit, k);
    KeptEnds(rows, keep, k, k + limit);
    KeptSplits(rows, keep, k, n, |rows|);
    GapMovesOn(rows, keep, limit, k);
    PrefixBehind(Kept(rows, keep, k, n), shown, Kept(rows, keep, n, |rows|));
  }

  lemma {:induction false} WalkFromShows(rows: seq<Id>, keep: Id -> bool, limit: nat, k: nat)
    requires k <= |rows|
    ensures ShowsKept(rows, keep, limit, k, Flatten(WalkFrom(rows, keep, limit, k)))
    decreases |rows| - k
  {
    var n := Onward(rows, keep, limit, k);
    WalkFromUnfold(rows, keep, limit, k);
    if n > k {
      WalkFromShows(rows, keep, limit, n);
      PageThenRestShows(rows, keep, limit, k, Flatten(WalkFrom(rows, keep, limit, n)));
    } else {
      LastPageShows(rows, keep, limit, k);
    }
  }

  /** With a status filter, following the cursor from the start shows the matching legs in order without a
      repetition, up to some point; it shows all of them iff no stretch of `limit` rows without a match
      precedes a match. */
  lemma FilteredWalk(rows: seq<Id>, keep: Id -> bool, limit: nat)
    requires Descending(rows)
    ensures var shown := Shown(Walk(rows, keep, None, limit));
            && shown <= Filter(rows, keep)
            && Descending(shown)
            && (shown == Filter(rows, keep) <==> NoGap(rows, keep, limit, 0))
  {
    assert rows[0..] == rows;
    WalkIsWalkFrom(rows, keep, None, limit, 0);
    WalkFromShows(rows, keep, limit, 0);
    AllKeptIsFilter(rows, keep);
    FilterDescends(rows, keep);
  }

  lemma {:induction false} FilterDescends(rows: seq<Id>, p: Id -> bool)
    requires Descending(rows)
    ensures Descending(Filter(rows, p))
  {
    if rows != [] {
      var rest := Filter(rows[1..], p);
      FilterDescends(rows[1..], p);
      FilterIn(rows[1..], p);
      forall j | 0 <= j < |rest|
        ensures rows[0] > rest[j]
      {
        assert rest[j] in rest;
        var i :| 0 <= i < |rows[1..]| && rows[1..][i] == rest[j];
        assert rows[i + 1] == rest[j];
      }
    }
  }

  function Everything(): Id -> bool {
    id => true
  }

  /** How many pages `n` rows take: one for none, otherwise as many as are needed and no more. */
  function PagesFor(n: nat, limit: nat): nat
    requires limit >= 1
  {
    if n <= limit then 1 else 1 + PagesFor(n - limit, limit)
  }

  lemma {:induction false} PagesForExact(n: nat, limit: nat)
    requires limit >= 1
    ensures n > 0 ==> (PagesFor(n, limit) - 1) * limit < n <= PagesFor(n, limit) * limit
  {
    if n > limit {
      PagesForExact(n - limit, limit);
      var p := PagesFor(n - limit, limit);
      assert (p + 1 - 1) * limit == (p - 1) * limit + limit;
      assert (p + 1) * limit == p * limit + limit;
    }
  }

  ghost predicate KeepsAll(rows: seq<Id>, keep: Id -> bool) {
    forall i | 0 <= i < |rows| :: keep(rows[i])
  }

  lemma FullPage(rows: seq<Id>, keep: Id -> bool, limit: nat, k: nat)
    requires limit >= 1 && KeepsAll(rows, keep) && k + limit < |rows|
    ensures Onward(rows, keep, limit, k) == k + limit
  {
    assert keep(rows[k + limit - 1]);
  }

  /** The number of pages from position `k` on. */
  function Pages(rows: seq<Id>, keep: Id -> bool, limit: nat, k: nat): nat
    requires k <= |rows|
    decreases |rows| - k
  {
    var n := Onward(rows, keep, limit, k);
    if n == k then 1 else 1 + Pages(rows, keep, limit, n)
  }

  lemma {:induction false} PagesAreCounted(rows: seq<Id>, keep: Id -> bool, limit: nat, k: nat)
    requires k <= |rows|
    ensures |WalkFrom(rows, keep, limit, k)| == Pages(rows, keep, limit, k)
    decreases |rows| - k
  {
    var n := Onward(rows, keep, limit, k);
    WalkFromUnfold(rows, keep, limit, k);
    if n > k {
      PagesAreCounted(rows, keep, limit, n);
    }
  }

  /** A full page of kept rows moves on by exactly one page. */
  lemma {:induction false} PageCount(rows: seq<Id>, keep: Id -> bool, limit: nat, k: nat)
    requires limit >= 1 && KeepsAll(rows, keep) && k <= |rows|
    ensures Pages(rows, keep, limit, k) == PagesFor(|rows| - k, limit)
    decreases |rows| - k
  {
    if |rows| - k > limit {
      FullPage(rows, keep, limit, k);
      PageCount(rows, keep, limit, k + limit);
    }
  }

  lemma AllKeptGap(rows: seq<Id>, keep: Id -> bool, limit: nat)
    requires KeepsAll(rows, keep)
    ensures NoGap(rows, keep, limit, 0) <==> limit >= 1 || rows == []
  {
    if limit >= 1 {
      forall j | 0 <= j < |rows| && keep(rows[j])
        ensures j < limit || KeptWithin(rows, keep, j - limit, j)
      {
        if j >= limit {
          assert keep(rows[j - 1]);
        }
      }
    } else if rows != [] {
      assert keep(rows[0]) && !KeptWithin(rows, keep, 0, 0);
    }
  }

  /** Without a filter, following the cursor from the start shows every leg exactly once, in descending order, in
      as many pages as it takes; a page size of zero shows nothing. */
  lemma HistoryWalk(rows: seq<Id>, limit: nat)
    requires Descending(rows)
    ensures Shown(Walk(rows, Everything(), None, limit)) == rows <==> limit >= 1 || rows == []
    ensures limit >= 1 ==>
              var pages := |Walk(rows, Everything(), None, limit)|;
              pages == PagesFor(|rows|, limit) && (rows != [] ==> (pages - 1) * limit < |rows| <= pages * limit)
  {
    var keep := Everything();
    FilteredWalk(rows, keep, limit);
    FilterAll(rows, keep);
    AllKeptGap(rows, keep, limit);
    if limit >= 1 {
      assert rows[0..] == rows;
      WalkIsWalkFrom(rows, keep, None, limit, 0);
      PagesAreCounted(rows, keep, limit, 0);
      PageCount(rows, keep, limit, 0);
      PagesForExact(|rows|, limit);
    }
  }
}
