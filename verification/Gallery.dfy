/** The gallery store of the web client (web/src/stores/photos.ts): an object
    whose loads suspend, so that responses may come late, in any order, or fail.
    The optimistic edits of single items are not modelled. */
module Gallery {
  import opened Wrappers
  import opened CatalogStore
  import opened Pagination
  import opened PaginationTheorems

  const PAGE_SIZE := 80

  /** A suspended load: the epoch it started under and the query it sent. */
  datatype Ticket = Ticket(epoch: nat, cursor: string, filter: Filter)

  /** What the list on screen is: the pages of one filter, chained by their
      cursors from the start. */
  ghost predicate Chained(f: Filter, walk: seq<Request>, items: seq<Row>, cursor: string, hasMore: bool) {
    && IsWalk(f, walk)
    && items == Concat(walk)
    && cursor == CursorAt(walk, |walk|)
    && (hasMore <==> walk == [] || cursor != "")
  }

  /** A response of the server to the query of a ticket, counted and read at some
      moments. */
  ghost predicate Serves(counted: Table, t: Table, ticket: Ticket, page: Page) {
    Storable(t) && PosOf(ticket.cursor).Some? && IsPage(counted, t, ticket.filter, PosOf(ticket.cursor).value, PAGE_SIZE, page)
  }

  /** An answer has at most eighty rows, and eighty when more follow. */
  lemma EightyAPage(counted: Table, t: Table, ticket: Ticket, page: Page)
    requires Serves(counted, t, ticket, page)
    ensures |page.items| <= 80 && (page.next != "" ==> |page.items| == 80)
    ensures page.total == |AskedKeys(counted, ticket.filter)|
    ensures forall i :: 0 <= i < |page.items| ==> Asked(ticket.filter, page.items[i])
  {
    hide IsPage, Asked, PosOf, Storable, Precedes;
    PageTells(counted, t, ticket.filter, PosOf(ticket.cursor).value, PAGE_SIZE, page);
  }

  class PhotosStore {
    var items: seq<Row>
    var cursor: string
    var hasMore: bool
    var loading: bool
    var error: string
    var total: nat
    var filter: Filter
    var epoch: nat

    ghost var walk: seq<Request>
    ghost var inFlight: set<Ticket>

    /** At most one load of each epoch is in flight, and none of a later one. */
    ghost predicate OnePerEpoch()
      reads this
    {
      && (forall a :: a in inFlight ==> a.epoch <= epoch)
      && (forall a, b :: a in inFlight && b in inFlight && a.epoch == b.epoch ==> a == b)
    }

    /** `loading` says whether a load of the current epoch is in flight, and that
        one continues the list on screen. */
    ghost predicate Valid()
      reads this
    {
      && OnePerEpoch()
      && Chained(filter, walk, items, cursor, hasMore)
      && (loading <==> Ticket(epoch, cursor, filter) in inFlight)
      && (forall a :: a in inFlight && a.epoch == epoch ==> a == Ticket(epoch, cursor, filter))
      && (loading ==> hasMore)
    }

    constructor (start: Filter)
      ensures Valid() && items == [] && filter == start && inFlight == {} && hasMore && !loading
    {
      hide Chained;
      ResetChain(start);
      items, cursor, hasMore, loading, error, total, filter, epoch := [], "", true, false, "", 0, start, 0;
      walk, inFlight := [], {};
    }

    /** The loads in flight become those of an older epoch. */
    method Reset()
      requires OnePerEpoch()
      modifies this
      ensures Valid() && items == [] && cursor == "" && hasMore && !loading && error == "" && total == 0
      ensures filter == old(filter) && epoch == old(epoch) + 1 && inFlight == old(inFlight)
    {
      hide Chained;
      ResetChain(filter);
      epoch := epoch + 1;
      items, cursor, hasMore, error, total := [], "", true, "", 0;
      loading := false;
      walk := [];
    }

    method SetFilter(f: Filter) returns (sent: Option<Ticket>)
      requires Valid()
      modifies this
      ensures Valid() && filter == f && items == [] && epoch == old(epoch) + 1
      ensures sent == Some(Ticket(epoch, "", f)) && inFlight == old(inFlight) + {sent.value}
    {
      hide Chained;
      filter := f;
      Reset();
      sent := BeginLoad();
    }

    method Refresh() returns (sent: Option<Ticket>)
      requires Valid()
      modifies this
      ensures Valid() && filter == old(filter) && items == [] && epoch == old(epoch) + 1
      ensures sent == Some(Ticket(epoch, "", filter)) && inFlight == old(inFlight) + {sent.value}
    {
      hide Chained;
      Reset();
      sent := BeginLoad();
    }

    /** loadMore up to its await: nothing is sent while a load of this epoch is in
        flight or when the end has been reached. */
    method BeginLoad() returns (sent: Option<Ticket>)
      requires Valid()
      modifies this`loading, this`error, this`inFlight
      ensures Valid()
      ensures sent.None? <==> old(loading) || !hasMore
      ensures sent.None? ==> loading == old(loading) && error == old(error) && inFlight == old(inFlight)
      ensures sent.Some? ==> sent == Some(Ticket(epoch, cursor, filter)) && error == "" && inFlight == old(inFlight) + {sent.value}
    {
      hide Chained;
      if loading || !hasMore {
        return None;
      }
      loading := true;
      error := "";
      var ticket := Ticket(epoch, cursor, filter);
      inFlight := inFlight + {ticket};
      return Some(ticket);
    }

    /** loadMore after its await: a response of an older epoch changes nothing. */
    method EndLoad(ticket: Ticket, answer: Result<Page, string>, ghost counted: Table, ghost t: Table)
      requires Valid() && ticket in inFlight
      requires answer.Ok? ==> Serves(counted, t, ticket, answer.value)
      modifies this`items, this`cursor, this`hasMore, this`loading, this`error, this`total, this`walk, this`inFlight
      ensures Valid() && inFlight == old(inFlight) - {ticket}
      ensures ticket.epoch != epoch ==>
        items == old(items) && cursor == old(cursor) && hasMore == old(hasMore) && loading == old(loading) && error == old(error) && total == old(total)
      ensures ticket.epoch == epoch && answer.Ok? ==>
        items == old(items) + answer.value.items && cursor == answer.value.next && total == answer.value.total && !loading && error == old(error)
      ensures ticket.epoch == epoch && answer.Err? ==>
        items == old(items) && cursor == old(cursor) && hasMore == old(hasMore) && total == old(total) && !loading && error == answer.error
    {
      hide Chained, Serves;
      inFlight := inFlight - {ticket};
      if answer.Ok? {
        if ticket.epoch == epoch {
          var page := answer.value;
          LongerChain(filter, walk, items, cursor, counted, t, ticket, page);
          items := items + page.items;
          cursor := page.next;
          hasMore := page.next != "";
          total := page.total;
          walk := walk + [Request(counted, t, PAGE_SIZE, page)];
        }
      } else if ticket.epoch == epoch {
        error := answer.error;
      }
      if ticket.epoch == epoch {
        loading := false;
      }
    }
  }

  lemma ResetChain(f: Filter)
    ensures Chained(f, [], [], "", true)
  {
  }

  lemma {:induction false} ConcatAppend(walk: seq<Request>, r: Request)
    ensures Concat(walk + [r]) == Concat(walk) + r.page.items
  {
    if walk == [] {
      assert [r][1..] == [];
      assert r.page.items + [] == [] + r.page.items;
    } else {
      assert (walk + [r])[1..] == walk[1..] + [r];
      ConcatAppend(walk[1..], r);
      assert walk[0].page.items + (Concat(walk[1..]) + r.page.items) == walk[0].page.items + Concat(walk[1..]) + r.page.items;
    }
  }

  /** The next page of the same filter extends the chain. */
  lemma LongerChain(f: Filter, walk: seq<Request>, items: seq<Row>, cursor: string, counted: Table, t: Table, ticket: Ticket, page: Page)
    requires Chained(f, walk, items, cursor, true) && ticket.filter == f && ticket.cursor == cursor
    requires Serves(counted, t, ticket, page)
    ensures Chained(f, walk + [Request(counted, t, PAGE_SIZE, page)], items + page.items, page.next, page.next != "")
  {
    hide Storable, IsPage, PosOf;
    var next := walk + [Request(counted, t, PAGE_SIZE, page)];
    ConcatAppend(walk, Request(counted, t, PAGE_SIZE, page));
    assert next[..|walk|] == walk;
    forall i | 0 <= i < |next|
      ensures Storable(next[i].t) && (i > 0 ==> CursorAt(next, i) != "") && PosOf(CursorAt(next, i)).Some?
        && IsPage(next[i].counted, next[i].t, f, PosOf(CursorAt(next, i)).value, Clamp(next[i].limit), next[i].page)
    {
      if i < |walk| {
        assert next[i] == walk[i] && CursorAt(next, i) == CursorAt(walk, i);
      } else {
        assert CursorAt(next, i) == cursor;
      }
    }
  }

  // ---- What the user sees ----

  /** x is an item of one of the pages from n on. */
  ghost predicate OnPage(walk: seq<Request>, n: nat, x: Row) {
    exists i, a :: n <= i < |walk| && 0 <= a < |walk[i].page.items| && walk[i].page.items[a] == x
  }

  lemma ConcatFrom(walk: seq<Request>, n: nat)
    requires n < |walk|
    ensures Concat(walk[n..]) == walk[n].page.items + Concat(walk[n + 1..])
  {
    assert walk[n..][1..] == walk[n + 1..];
  }

  lemma {:induction false} ConcatPages(walk: seq<Request>, n: nat, x: Row)
    requires n <= |walk| && x in Concat(walk[n..])
    ensures OnPage(walk, n, x)
    decreases |walk| - n
  {
    if n < |walk| {
      ConcatFrom(walk, n);
      if x in walk[n].page.items {
        var a :| 0 <= a < |walk[n].page.items| && walk[n].page.items[a] == x;
      } else {
        ConcatPages(walk, n + 1, x);
      }
    }
  }

  ghost predicate Distinct(s: seq<Row>) {
    forall p, q :: 0 <= p < q < |s| ==> KeyOf(s[p]) != KeyOf(s[q])
  }

  lemma PageDistinct(f: Filter, walk: seq<Request>, n: nat)
    requires IsWalk(f, walk) && n < |walk|
    ensures Distinct(walk[n].page.items)
  {
    hide IsWalk, KeyOf;
    var head := walk[n].page.items;
    forall p, q | 0 <= p < q < |head|
      ensures KeyOf(head[p]) != KeyOf(head[q])
    {
      if KeyOf(head[p]) == KeyOf(head[q]) {
        ReturnedAtMostOnce(f, walk, n, p, n, q);
      }
    }
  }

  lemma DistinctJoin(a: seq<Row>, b: seq<Row>)
    requires Distinct(a) && Distinct(b) && forall x, y :: x in a && y in b ==> KeyOf(x) != KeyOf(y)
    ensures Distinct(a + b)
  {
    hide KeyOf;
    var s := a + b;
    forall p, q | 0 <= p < q < |s|
      ensures KeyOf(s[p]) != KeyOf(s[q])
    {
      if q < |a| {
        assert s[p] == a[p] && s[q] == a[q];
      } else if p >= |a| {
        assert s[p] == b[p - |a|] && s[q] == b[q - |a|];
      } else {
        assert s[p] in a && s[q] in b;
      }
    }
  }

  lemma {:induction false} ConcatDistinct(f: Filter, walk: seq<Request>, n: nat)
    requires IsWalk(f, walk) && n <= |walk|
    ensures Distinct(Concat(walk[n..]))
    decreases |walk| - n
  {
    hide IsWalk, KeyOf, Distinct;
    if n == |walk| {
      NoneDistinct();
    } else {
      ConcatDistinct(f, walk, n + 1);
      ConcatFrom(walk, n);
      PageDistinct(f, walk, n);
      var head, tail := walk[n].page.items, Concat(walk[n + 1..]);
      forall x, y | x in head && y in tail
        ensures KeyOf(x) != KeyOf(y)
      {
        ConcatPages(walk, n + 1, y);
        var p :| 0 <= p < |head| && head[p] == x;
        var j, b :| n + 1 <= j < |walk| && 0 <= b < |walk[j].page.items| && walk[j].page.items[b] == y;
        NotAgain(f, walk, n, p, j, b);
      }
      DistinctJoin(head, tail);
    }
  }

  lemma NoneDistinct()
    ensures Distinct([])
  {
  }

  /** The list on screen never shows a timestamp and id twice, whatever happened to
      the catalog between the pages (`Retiming.TwiceExactly` is about the id alone);
      and while the catalog does not change it is a prefix of the listing of the
      current filter, all of it once there is no more to load. */
  lemma OnScreen(f: Filter, walk: seq<Request>, items: seq<Row>, cursor: string, hasMore: bool, t: Table, listing: seq<Row>)
    requires Chained(f, walk, items, cursor, hasMore)
    ensures Distinct(items)
    ensures Storable(t) && Steady(t, walk) && Answers(t, f, Top, listing) ==>
      items <= listing && (!hasMore ==> items == listing)
  {
    hide IsWalk, Storable, Answers, Steady, Distinct;
    assert walk[0..] == walk;
    ConcatDistinct(f, walk, 0);
    if Storable(t) && Steady(t, walk) && Answers(t, f, Top, listing) && walk != [] {
      UnchangingWalk(t, f, walk, listing);
    }
  }
}
