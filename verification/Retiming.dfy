/** What a photo whose timestamp changes does to the list on screen. A rescan may
    date a photo anew and keeps its id (`Upsert` of catalog/store.go); the cursor
    of the gallery goes by timestamp and id. */
module Retiming {
  import opened Wrappers
  import opened CatalogStore
  import opened Pagination
  import opened PaginationTheorems
  import opened Gallery
  import Cursor
  import Lex

  // ---- What is on which page ----

  /** Request j goes past this key: it starts before it and leaves it behind. */
  ghost predicate Reached(reqs: seq<Request>, j: nat, k: Key)
    requires j < |reqs|
  {
    var next := reqs[j].page.next;
    && PosOf(CursorAt(reqs, j)).Some? && Beyond(PosAt(reqs, j), k)
    && (next == "" || (PosOf(next).Some? && !Beyond(PosOf(next).value, k)))
  }

  ghost predicate Shows(reqs: seq<Request>, j: nat, k: Key)
    requires j < |reqs|
  {
    exists a :: 0 <= a < |reqs[j].page.items| && KeyOf(reqs[j].page.items[a]) == k
  }

  lemma ItemsMatch(counted: Table, t: Table, f: Filter, p: Pos, n: nat, page: Page, row: Row)
    requires IsPage(counted, t, f, p, n, page) && row in page.items
    ensures Selected(t, f, p, row)
  {
    hide Sorted, Selected;
    var s :| Answers(t, f, p, s) && CutFrom(s, n, page);
    assert row in s;
  }

  lemma ItemOfTable(f: Filter, reqs: seq<Request>, j: nat, a: nat)
    requires IsWalk(f, reqs) && j < |reqs| && a < |reqs[j].page.items|
    ensures Present(reqs[j].t, f, KeyOf(reqs[j].page.items[a]))
    ensures exists base :: base in reqs[j].t.rows && reqs[j].t.rows[base] == reqs[j].page.items[a]
  {
    hide IsPage, PosOf, Storable, Matches;
    ItemsMatch(reqs[j].counted, reqs[j].t, f, PosAt(reqs, j), Clamp(reqs[j].limit), reqs[j].page, reqs[j].page.items[a]);
  }

  /** A photo that matches is on the page of a request exactly when the request
      goes past the place that its timestamp of that moment gives it. */
  lemma ShownExactly(f: Filter, reqs: seq<Request>, j: nat, k: Key)
    requires IsWalk(f, reqs) && j < |reqs|
    ensures Shows(reqs, j, k) <==> Present(reqs[j].t, f, k) && Reached(reqs, j, k)
  {
    hide IsWalk, Storable, PosOf, IsPage, Sorted, Before, Beyond, Matches;
    WalkAt(f, reqs, j);
    Edges(f, reqs, j);
    var items := reqs[j].page.items;
    if a :| 0 <= a < |items| && KeyOf(items[a]) == k {
      ItemOfTable(f, reqs, j, a);
    }
    if Present(reqs[j].t, f, k) && Reached(reqs, j, k) {
      var base :| base in reqs[j].t.rows && KeyOf(reqs[j].t.rows[base]) == k && Matches(f, reqs[j].t.rows[base]);
      assert Selected(reqs[j].t, f, PosAt(reqs, j), reqs[j].t.rows[base]);
      var a :| 0 <= a < |items| && items[a] == reqs[j].t.rows[base];
    }
  }

  // ---- One photo twice ----

  ghost predicate DistinctIds(s: seq<Row>) {
    forall p, q :: 0 <= p < q < |s| ==> s[p].id != s[q].id
  }

  /** Two requests go past the places that the photo had at their moments. */
  ghost predicate Twice(f: Filter, reqs: seq<Request>, i: nat, k: Key, j: nat, l: Key)
    requires i < |reqs| && j < |reqs|
  {
    && i < j && k.id == l.id
    && Present(reqs[i].t, f, k) && Reached(reqs, i, k)
    && Present(reqs[j].t, f, l) && Reached(reqs, j, l)
  }

  lemma {:induction false} ConcatSplit(walk: seq<Request>, n: nat)
    requires n <= |walk|
    ensures Concat(walk) == Concat(walk[..n]) + Concat(walk[n..])
  {
    if n == 0 {
      assert walk[..0] == [] && walk[0..] == walk;
    } else {
      ConcatSplit(walk[1..], n - 1);
      assert walk[..n][1..] == walk[1..][..n - 1] && walk[1..][n - 1..] == walk[n..];
      assert walk[0].page.items + (Concat(walk[1..][..n - 1]) + Concat(walk[n..])) == walk[0].page.items + Concat(walk[1..][..n - 1]) + Concat(walk[n..]);
    }
  }

  lemma {:induction false} InConcat(walk: seq<Request>, i: nat, x: Row)
    requires i < |walk| && x in walk[i].page.items
    ensures x in Concat(walk)
  {
    if i > 0 {
      InConcat(walk[1..], i - 1, x);
    }
  }

  lemma ApartInJoin(a: seq<Row>, b: seq<Row>, x: Row, y: Row)
    requires x in a && y in b && x.id == y.id
    ensures !DistinctIds(a + b)
  {
    var p :| 0 <= p < |a| && a[p] == x;
    var q :| 0 <= q < |b| && b[q] == y;
    assert (a + b)[p] == x && (a + b)[|a| + q] == y;
  }

  /** Rows of one storable table with one id are the same. */
  lemma SameIdSameRow(t: Table, a: string, b: string)
    requires Storable(t) && a in t.rows && b in t.rows && t.rows[a].id == t.rows[b].id
    ensures t.rows[a] == t.rows[b]
  {
    hide StorableKey;
  }

  lemma PageIdsDistinct(f: Filter, walk: seq<Request>, i: nat, a: nat, b: nat)
    requires IsWalk(f, walk) && i < |walk| && a < |walk[i].page.items| && b < |walk[i].page.items|
    requires walk[i].page.items[a].id == walk[i].page.items[b].id
    ensures a == b
  {
    hide Storable, PosOf, IsPage, Matches;
    ItemOfTable(f, walk, i, a);
    ItemOfTable(f, walk, i, b);
    var x :| x in walk[i].t.rows && walk[i].t.rows[x] == walk[i].page.items[a];
    var y :| y in walk[i].t.rows && walk[i].t.rows[y] == walk[i].page.items[b];
    SameIdSameRow(walk[i].t, x, y);
    ReturnedAtMostOnce(f, walk, i, a, i, b);
  }

  /** Where a duplicate of the pages from n on comes from. */
  lemma {:induction false} DuplicatePages(f: Filter, walk: seq<Request>, n: nat) returns (i: nat, a: nat, j: nat, b: nat)
    requires IsWalk(f, walk) && n <= |walk| && !DistinctIds(Concat(walk[n..]))
    ensures n <= i < j < |walk| && a < |walk[i].page.items| && b < |walk[j].page.items|
    ensures walk[i].page.items[a].id == walk[j].page.items[b].id
    decreases |walk| - n
  {
    hide IsWalk;
    ConcatFrom(walk, n);
    var head, tail := walk[n].page.items, Concat(walk[n + 1..]);
    if !DistinctIds(tail) {
      i, a, j, b := DuplicatePages(f, walk, n + 1);
    } else {
      var p, q :| 0 <= p < q < |head + tail| && (head + tail)[p].id == (head + tail)[q].id;
      if q < |head| {
        PageIdsDistinct(f, walk, n, p, q);
      }
      assert p < |head|;
      var y := tail[q - |head|];
      assert y in Concat(walk[n + 1..]);
      ConcatPages(walk, n + 1, y);
      j, b :| n + 1 <= j < |walk| && 0 <= b < |walk[j].page.items| && walk[j].page.items[b] == y;
      i, a := n, p;
    }
  }

  /** The pages of a walk show some photo twice, whatever its timestamps, exactly
      when two of the requests go past its place of the moment. */
  lemma TwiceExactly(f: Filter, walk: seq<Request>)
    requires IsWalk(f, walk)
    ensures !DistinctIds(Concat(walk)) <==> exists i: nat, k, j: nat, l :: i < |walk| && j < |walk| && Twice(f, walk, i, k, j, l)
  {
    hide IsWalk, Reached, Present, DistinctIds;
    assert walk[0..] == walk;
    if !DistinctIds(Concat(walk)) {
      var i, a, j, b := DuplicatePages(f, walk, 0);
      var k, l := KeyOf(walk[i].page.items[a]), KeyOf(walk[j].page.items[b]);
      ShownExactly(f, walk, i, k);
      ShownExactly(f, walk, j, l);
      assert Twice(f, walk, i, k, j, l);
    }
    forall i: nat, k, j: nat, l | i < |walk| && j < |walk| && Twice(f, walk, i, k, j, l)
      ensures !DistinctIds(Concat(walk))
    {
      ShownExactly(f, walk, i, k);
      ShownExactly(f, walk, j, l);
      ShownTwice(walk, i, k, j, l);
    }
  }

  lemma ShownTwice(walk: seq<Request>, i: nat, k: Key, j: nat, l: Key)
    requires i < j < |walk| && k.id == l.id && Shows(walk, i, k) && Shows(walk, j, l)
    ensures !DistinctIds(Concat(walk))
  {
    hide DistinctIds;
    var a :| 0 <= a < |walk[i].page.items| && KeyOf(walk[i].page.items[a]) == k;
    var b :| 0 <= b < |walk[j].page.items| && KeyOf(walk[j].page.items[b]) == l;
    var x, y := walk[i].page.items[a], walk[j].page.items[b];
    ConcatSplit(walk, j);
    InConcat(walk[..j], i, x);
    InConcat(walk[j..], 0, y);
    ApartInJoin(Concat(walk[..j]), Concat(walk[j..]), x, y);
  }

  // ---- No timestamp changes ----

  ghost predicate SameTimes(t: Table, u: Table) {
    forall a, b :: a in t.rows && b in u.rows && t.rows[a].id == u.rows[b].id ==> t.rows[a].meta.takenAt == u.rows[b].meta.takenAt
  }

  /** No photo is dated anew between the requests. */
  ghost predicate FixedTimes(walk: seq<Request>) {
    forall i, j :: 0 <= i < |walk| && 0 <= j < |walk| ==> SameTimes(walk[i].t, walk[j].t)
  }

  /** Then the list on screen shows no photo twice. */
  lemma FixedTimesShowOnce(f: Filter, walk: seq<Request>)
    requires IsWalk(f, walk) && FixedTimes(walk)
    ensures DistinctIds(Concat(walk))
  {
    hide IsWalk, DistinctIds;
    assert walk[0..] == walk;
    if !DistinctIds(Concat(walk)) {
      var i, a, j, b := DuplicatePages(f, walk, 0);
      ItemOfTable(f, walk, i, a);
      ItemOfTable(f, walk, j, b);
      assert SameTimes(walk[i].t, walk[j].t);
      NotAgain(f, walk, i, a, j, b);
    }
  }

  // ---- A photo dated anew ----

  /** From request m on, a row that stays in the listing stays ahead until it is
      shown. */
  lemma {:induction false} StaysAheadFrom(f: Filter, reqs: seq<Request>, m: nat, k: Key, n: nat)
    requires IsWalk(f, reqs) && m <= n < |reqs| && PosOf(CursorAt(reqs, m)).Some? && Beyond(PosAt(reqs, m), k)
    requires forall i :: m <= i < |reqs| ==> Present(reqs[i].t, f, k)
    ensures (exists j :: m <= j < n && Shows(reqs, j, k)) || (PosOf(CursorAt(reqs, n)).Some? && Beyond(PosAt(reqs, n), k))
    decreases n
  {
    hide IsWalk, PosOf, Beyond, Present, Shows, Selected, Sorted;
    if m < n {
      StaysAheadFrom(f, reqs, m, k, n - 1);
      WalkAt(f, reqs, n);
      Edges(f, reqs, n - 1);
      ShownExactly(f, reqs, n - 1, k);
      assert CursorAt(reqs, n) == reqs[n - 1].page.next;
    }
  }

  /** A photo that was shown, and whose new timestamp puts it beyond the cursor
      reached, is shown again by the end of the walk if it stays and matches. */
  lemma RetimedShownAgain(f: Filter, reqs: seq<Request>, i: nat, old_: Key, m: nat, k: Key)
    requires IsWalk(f, reqs) && Exhausted(reqs) && i < m < |reqs| && Shows(reqs, i, old_) && k.id == old_.id
    requires PosOf(CursorAt(reqs, m)).Some? && Beyond(PosAt(reqs, m), k)
    requires forall n :: m <= n < |reqs| ==> Present(reqs[n].t, f, k)
    ensures exists j :: m <= j < |reqs| && Shows(reqs, j, k)
    ensures !DistinctIds(Concat(reqs))
  {
    hide IsWalk, PosOf, Beyond, Present, Shows, DistinctIds;
    var last := |reqs| - 1;
    StaysAheadFrom(f, reqs, m, k, last);
    if !(exists j :: m <= j < last && Shows(reqs, j, k)) {
      ShownExactly(f, reqs, last, k);
      assert Shows(reqs, last, k);
    }
    var j :| m <= j < |reqs| && Shows(reqs, j, k);
    ShownTwice(reqs, i, old_, j, k);
  }

  /** The other way round: one that gets a place behind the cursor before it was
      shown is skipped. */
  lemma RetimedSkipped(f: Filter, reqs: seq<Request>, j: nat, k: Key)
    requires IsWalk(f, reqs) && j < |reqs| && PosOf(CursorAt(reqs, j)).Some? && !Beyond(PosAt(reqs, j), k)
    ensures forall n :: j <= n < |reqs| ==> !Shows(reqs, n, k)
  {
    hide IsWalk, PosOf, Beyond, Present, Shows;
    forall n | j <= n < |reqs|
      ensures !Shows(reqs, n, k)
    {
      if Shows(reqs, n, k) {
        ShownExactly(f, reqs, n, k);
        PositionsAdvance(f, reqs, j, n, k);
      }
    }
  }

  // ---- Two photos and two requests ----

  const NO_FILTER := Filter("", "", "", "", 0, "")

  function Dated(takenAt: Option<string>): Metadata {
    Metadata(takenAt, "", 0, 0, 0, "", "")
  }

  /** The photos "a" and "c", of which "a" is the later one. */
  function Two(a: Photo, c: Photo): Table
    requires a.keyBase == "a" && c.keyBase == "c"
  {
    Upsert(Upsert(Table(map[], 1), a, Dated(Some("b"))), c, Dated(Some("a")))
  }

  /** A rescan in which "a" has lost its date. */
  function Rescanned(a: Photo, c: Photo): Table
    requires a.keyBase == "a" && c.keyBase == "c"
  {
    Upsert(Two(a, c), a, Dated(None))
  }

  function RowA(a: Photo): Row {
    Row(1, a, ThumbPath("a"), Dated(Some("b")), 0, false)
  }

  function RowC(c: Photo): Row {
    Row(2, c, ThumbPath("c"), Dated(Some("a")), 0, false)
  }

  function FirstCursor(): string {
    NextCursor(Key(Some("b"), 1))
  }

  /** The walk of two requests, the rescan between them. */
  function RescanBetween(a: Photo, c: Photo): seq<Request>
    requires a.keyBase == "a" && c.keyBase == "c"
  {
    [Request(Two(a, c), Two(a, c), 1, Page([RowA(a)], FirstCursor(), 2)),
     Request(Rescanned(a, c), Rescanned(a, c), 60, Page([RowC(c), RowA(a).(meta := Dated(None))], "", 2))]
  }

  lemma TwoRows(a: Photo, c: Photo)
    requires a.keyBase == "a" && c.keyBase == "c"
    ensures Two(a, c) == Table(map["a" := RowA(a), "c" := RowC(c)], 3)
    ensures Rescanned(a, c) == Table(map["a" := RowA(a).(meta := Dated(None)), "c" := RowC(c)], 3)
    ensures Storable(Two(a, c)) && Storable(Rescanned(a, c))
  {
    hide ThumbPath;
  }

  lemma SmallOrder()
    ensures Lex.Less("a", "b") && !Lex.Less("b", "a") && !Lex.Less("b", "b")
  {
  }

  lemma FirstPage(a: Photo, c: Photo)
    requires a.keyBase == "a" && c.keyBase == "c"
    ensures IsPage(Two(a, c), Two(a, c), NO_FILTER, Top, 1, Page([RowA(a)], FirstCursor(), 2))
  {
    hide ThumbPath, NextCursor, Storable, Lex.Less, Two, Rescanned;
    TwoRows(a, c);
    SmallOrder();
    var t := Two(a, c);
    var s := [RowA(a), RowC(c)];
    assert t.rows["a"] == s[0] && t.rows["c"] == s[1];
    assert Answers(t, NO_FILTER, Top, s);
    assert MatchingKeys(t, NO_FILTER) == {"a", "c"};
    assert s[..1] == [RowA(a)];
  }

  lemma SecondPage(a: Photo, c: Photo)
    requires a.keyBase == "a" && c.keyBase == "c"
    ensures IsPage(Rescanned(a, c), Rescanned(a, c), NO_FILTER, PosAfter(Key(Some("b"), 1)), 60, RescanBetween(a, c)[1].page)
  {
    hide ThumbPath, NextCursor, Storable, Lex.Less, Two, Rescanned;
    TwoRows(a, c);
    SmallOrder();
    var t := Rescanned(a, c);
    var s := [RowC(c), RowA(a).(meta := Dated(None))];
    assert t.rows["c"] == s[0] && t.rows["a"] == s[1];
    assert Answers(t, NO_FILTER, PosAfter(Key(Some("b"), 1)), s);
    assert MatchingKeys(t, NO_FILTER) == {"a", "c"};
  }

  /** The list on screen is complete and shows "a" twice. */
  lemma RescanShowsTwice(a: Photo, c: Photo)
    requires a.keyBase == "a" && c.keyBase == "c"
    ensures var walk := RescanBetween(a, c);
      var items := Concat(walk);
      && Chained(NO_FILTER, walk, items, "", false)
      && |items| == 3 && items[0].id == items[2].id && items[0].photo == items[2].photo == a
  {
    hide IsPage, NextCursor, Storable, Two, Rescanned, Cursor.DecodeCursor, ThumbPath;
    TwoRows(a, c);
    FirstPage(a, c);
    SecondPage(a, c);
    NextCursorPos(Key(Some("b"), 1));
    var walk := RescanBetween(a, c);
    assert walk[1..] == [walk[1]] && walk[1..][1..] == [];
    assert Concat(walk[1..]) == walk[1].page.items;
  }
}
