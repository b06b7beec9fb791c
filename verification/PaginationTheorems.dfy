/** Walking the gallery page by page, with or without changes in between. */
module PaginationTheorems {
  import opened Wrappers
  import opened CatalogStore
  import opened Pagination
  import Lex

  /** A request and its answer: the table that was counted, the one the rows were
      read from, the limit asked for. */
  datatype Request = Request(counted: Table, t: Table, limit: int, page: Page)

  function CursorAt(reqs: seq<Request>, i: nat): string
    requires i <= |reqs|
  {
    if i == 0 then "" else reqs[i - 1].page.next
  }

  /** Each request but the first continues from the cursor of the one before;
      the table may be any other each time. */
  ghost predicate IsWalk(f: Filter, reqs: seq<Request>) {
    forall i :: 0 <= i < |reqs| ==>
      && Storable(reqs[i].t)
      && (i > 0 ==> CursorAt(reqs, i) != "")
      && PosOf(CursorAt(reqs, i)).Some?
      && IsPage(reqs[i].counted, reqs[i].t, f, PosOf(CursorAt(reqs, i)).value, Clamp(reqs[i].limit), reqs[i].page)
  }

  predicate Exhausted(reqs: seq<Request>) {
    reqs != [] && reqs[|reqs| - 1].page.next == ""
  }

  /** What one page says about the position it starts from and the one it leaves. */
  lemma PageEdges(counted: Table, t: Table, f: Filter, p: Pos, n: nat, page: Page)
    requires Storable(t) && n > 0 && IsPage(counted, t, f, p, n, page)
    ensures Sorted(page.items)
    ensures forall i :: 0 <= i < |page.items| ==> Beyond(p, KeyOf(page.items[i]))
    ensures page.next == "" ==> forall row :: Selected(t, f, p, row) ==> row in page.items
    ensures page.next != "" ==>
      && PosOf(page.next).Some?
      && (forall i :: 0 <= i < |page.items| ==> !Beyond(PosOf(page.next).value, KeyOf(page.items[i])))
      && (forall row :: Selected(t, f, p, row) ==> row in page.items || Beyond(PosOf(page.next).value, KeyOf(row)))
      && (forall x :: Beyond(PosOf(page.next).value, x) ==> Beyond(p, x))
  {
    hide Matches, Before, Beyond, PosOf, StorableKey, NextCursor;
    var s :| Answers(t, f, p, s) && CutFrom(s, n, page);
    assert forall i :: 0 <= i < |s| ==> Beyond(p, KeyOf(s[i])) by {
      forall i | 0 <= i < |s|
        ensures Beyond(p, KeyOf(s[i]))
      {
        assert s[i] in s;
      }
    }
    if |s| > n {
      var last := KeyOf(s[n - 1]);
      NextCursorPos(last);
      var q := PosOf(page.next).value;
      forall i | 0 <= i < n
        ensures !Beyond(q, KeyOf(s[i]))
      {
        BeyondIsBefore(last, KeyOf(s[i]));
        BeforeOrders(last, KeyOf(s[i]), last);
      }
      forall row | Selected(t, f, p, row)
        ensures row in page.items || Beyond(q, KeyOf(row))
      {
        assert row in s;
        var i :| 0 <= i < |s| && s[i] == row;
        if i >= n {
          BeyondIsBefore(last, KeyOf(row));
        } else {
          assert page.items[i] == row;
        }
      }
      forall x | Beyond(q, x)
        ensures Beyond(p, x)
      {
        BeyondIsBefore(last, x);
        BeyondClosed(p, last, x);
      }
    }
  }

  /** What comes after a row beyond a position is beyond it too. */
  lemma BeyondClosed(p: Pos, k: Key, x: Key)
    requires Beyond(p, k) && Before(k, x)
    ensures Beyond(p, x)
  {
    if p.After? && k.takenAt.Some? && x.takenAt.Some? && !p.isNull {
      if k.takenAt.value != p.text && x.takenAt.value != k.takenAt.value {
        Lex.Transitive(x.takenAt.value, k.takenAt.value, p.text);
      }
    }
  }

  function PosAt(reqs: seq<Request>, i: nat): Pos
    requires i <= |reqs| && PosOf(CursorAt(reqs, i)).Some?
  {
    PosOf(CursorAt(reqs, i)).value
  }

  lemma WalkAt(f: Filter, reqs: seq<Request>, i: nat)
    requires IsWalk(f, reqs) && i < |reqs|
    ensures PosOf(CursorAt(reqs, i)).Some? && (i > 0 ==> reqs[i - 1].page.next != "")
  {
    hide PosOf, IsPage, Storable;
  }

  /** Positions only move on. */
  lemma {:induction false} PositionsAdvance(f: Filter, reqs: seq<Request>, i: nat, j: nat, x: Key)
    requires IsWalk(f, reqs) && i <= j < |reqs|
    requires PosOf(CursorAt(reqs, j)).Some? && Beyond(PosAt(reqs, j), x)
    ensures PosOf(CursorAt(reqs, i)).Some? && Beyond(PosAt(reqs, i), x)
  {
    hide IsWalk, Beyond, PosOf, Selected, Sorted;
    WalkAt(f, reqs, i);
    if i < j {
      WalkAt(f, reqs, j);
      WalkAt(f, reqs, j - 1);
      Edges(f, reqs, j - 1);
      assert CursorAt(reqs, j) == reqs[j - 1].page.next;
      PositionsAdvance(f, reqs, i, j - 1, x);
    }
  }

  lemma Edges(f: Filter, reqs: seq<Request>, i: nat)
    requires IsWalk(f, reqs) && i < |reqs|
    ensures PosOf(CursorAt(reqs, i)).Some?
    ensures var page := reqs[i].page;
      var p := PosAt(reqs, i);
      && Sorted(page.items)
      && (forall a :: 0 <= a < |page.items| ==> Beyond(p, KeyOf(page.items[a])))
      && (page.next == "" ==> forall row :: Selected(reqs[i].t, f, p, row) ==> row in page.items)
      && (page.next != "" ==>
            && PosOf(page.next).Some?
            && (forall a :: 0 <= a < |page.items| ==> !Beyond(PosOf(page.next).value, KeyOf(page.items[a])))
            && (forall row :: Selected(reqs[i].t, f, p, row) ==> row in page.items || Beyond(PosOf(page.next).value, KeyOf(row)))
            && (forall x :: Beyond(PosOf(page.next).value, x) ==> Beyond(p, x)))
  {
    hide Storable, Beyond, PosOf, IsPage, Selected, Sorted;
    PageEdges(reqs[i].counted, reqs[i].t, f, PosAt(reqs, i), Clamp(reqs[i].limit), reqs[i].page);
  }

  // ---- Under change ----

  /** However the table changes between requests, and whatever their limits: a
      row with a fixed timestamp and id is never returned twice. */
  lemma ReturnedAtMostOnce(f: Filter, reqs: seq<Request>, i: nat, a: nat, j: nat, b: nat)
    requires IsWalk(f, reqs) && i < |reqs| && j < |reqs| && a < |reqs[i].page.items| && b < |reqs[j].page.items|
    requires KeyOf(reqs[i].page.items[a]) == KeyOf(reqs[j].page.items[b])
    ensures i == j && a == b
  {
    hide IsWalk, Before, Beyond, PosOf, Selected;
    if i < j {
      NotAgain(f, reqs, i, a, j, b);
    } else if j < i {
      NotAgain(f, reqs, j, b, i, a);
    } else {
      Edges(f, reqs, i);
      var k := KeyOf(reqs[i].page.items[a]);
      BeforeOrders(k, k, k);
    }
  }

  lemma NotAgain(f: Filter, reqs: seq<Request>, i: nat, a: nat, j: nat, b: nat)
    requires IsWalk(f, reqs) && i < j < |reqs| && a < |reqs[i].page.items| && b < |reqs[j].page.items|
    ensures KeyOf(reqs[i].page.items[a]) != KeyOf(reqs[j].page.items[b])
  {
    hide IsWalk, Beyond, PosOf, Selected, Sorted;
    WalkAt(f, reqs, i);
    WalkAt(f, reqs, i + 1);
    WalkAt(f, reqs, j);
    Edges(f, reqs, i);
    Edges(f, reqs, j);
    assert CursorAt(reqs, i + 1) == reqs[i].page.next != "";
    PositionsAdvance(f, reqs, i + 1, j, KeyOf(reqs[j].page.items[b]));
  }

  /** A row with this key is there, and matches. */
  ghost predicate Present(t: Table, f: Filter, k: Key) {
    exists base :: base in t.rows && KeyOf(t.rows[base]) == k && Matches(f, t.rows[base])
  }

  ghost predicate Returned(reqs: seq<Request>, n: nat, k: Key)
    requires n <= |reqs|
  {
    exists i, a :: 0 <= i < n && 0 <= a < |reqs[i].page.items| && KeyOf(reqs[i].page.items[a]) == k
  }

  /** Until it is returned, a row that stays in the listing stays ahead. */
  lemma {:induction false} StaysAhead(f: Filter, reqs: seq<Request>, k: Key, n: nat)
    requires IsWalk(f, reqs) && n <= |reqs| && forall i :: 0 <= i < |reqs| ==> Present(reqs[i].t, f, k)
    ensures Returned(reqs, n, k) || (PosOf(CursorAt(reqs, n)).Some? && Beyond(PosAt(reqs, n), k) && (n > 0 ==> CursorAt(reqs, n) != ""))
  {
    hide Storable, PosOf, IsPage, Sorted, Before, Matches;
    if n == 0 {
      TopIsFirst(k);
    } else {
      StaysAhead(f, reqs, k, n - 1);
      if !Returned(reqs, n - 1, k) {
        Edges(f, reqs, n - 1);
        var t := reqs[n - 1].t;
        assert Present(t, f, k);
        var base :| base in t.rows && KeyOf(t.rows[base]) == k && Matches(f, t.rows[base]);
        assert Selected(t, f, PosAt(reqs, n - 1), t.rows[base]);
        if t.rows[base] in reqs[n - 1].page.items {
          var a :| 0 <= a < |reqs[n - 1].page.items| && reqs[n - 1].page.items[a] == t.rows[base];
          assert Returned(reqs, n, k);
        }
      }
    }
  }

  lemma TopIsFirst(k: Key)
    ensures PosOf("") == Some(Top) && Beyond(Top, k)
  {
  }

  /** Item a of page i, and no other, has this key. */
  ghost predicate OnlyAt(reqs: seq<Request>, k: Key, i: nat, a: nat) {
    && i < |reqs| && a < |reqs[i].page.items| && KeyOf(reqs[i].page.items[a]) == k
    && (forall j, b :: 0 <= j < |reqs| && 0 <= b < |reqs[j].page.items| && KeyOf(reqs[j].page.items[b]) == k ==> j == i && b == a)
  }

  /** A row that exists with a fixed timestamp and id, and matches the filter,
      throughout a walk to the end is returned exactly once. */
  lemma ReturnedExactlyOnce(f: Filter, reqs: seq<Request>, k: Key)
    requires IsWalk(f, reqs) && Exhausted(reqs) && forall i :: 0 <= i < |reqs| ==> Present(reqs[i].t, f, k)
    ensures Returned(reqs, |reqs|, k)
    ensures exists i, a :: OnlyAt(reqs, k, i, a)
  {
    hide IsWalk, Present;
    StaysAhead(f, reqs, k, |reqs|);
    assert Returned(reqs, |reqs|, k);
    var i, a :| 0 <= i < |reqs| && 0 <= a < |reqs[i].page.items| && KeyOf(reqs[i].page.items[a]) == k;
    forall j, b | 0 <= j < |reqs| && 0 <= b < |reqs[j].page.items| && KeyOf(reqs[j].page.items[b]) == k
      ensures j == i && b == a
    {
      ReturnedAtMostOnce(f, reqs, i, a, j, b);
    }
    assert OnlyAt(reqs, k, i, a);
  }

  // ---- Without change ----

  function Concat(reqs: seq<Request>): seq<Row> {
    if reqs == [] then [] else reqs[0].page.items + Concat(reqs[1..])
  }

  /** The pages from request i on. */
  ghost predicate Steady(t: Table, reqs: seq<Request>) {
    forall i :: 0 <= i < |reqs| ==> reqs[i].counted == t && reqs[i].t == t
  }

  /** Cutting the first n rows off an answer leaves the answer for the next
      position. */
  lemma RestAnswers(t: Table, f: Filter, p: Pos, s: seq<Row>, n: nat)
    requires Answers(t, f, p, s) && 0 < n < |s|
    ensures Answers(t, f, PosAfter(KeyOf(s[n - 1])), s[n..])
  {
    hide Matches, Before, Beyond, PosAfter;
    var last := KeyOf(s[n - 1]);
    assert s[n - 1] in s;
    assert forall i :: 0 <= i < n - 1 ==> Before(KeyOf(s[i]), last);
    forall row
      ensures row in s[n..] <==> Selected(t, f, PosAfter(last), row)
    {
      BeyondIsBefore(last, KeyOf(row));
      if row in s[n..] {
        var i :| n <= i < |s| && s[i] == row;
        assert row in s;
      }
      if Selected(t, f, PosAfter(last), row) {
        BeyondClosed(p, last, KeyOf(row));
        assert row in s;
        var i :| 0 <= i < |s| && s[i] == row;
        BeforeOrders(last, KeyOf(row), last);
        assert i >= n;
        assert s[n..][i - n] == row;
      }
    }
  }

  /** One step of a walk over an unchanging table. */
  lemma SteadyStep(t: Table, f: Filter, reqs: seq<Request>, i: nat, s: seq<Row>)
    requires IsWalk(f, reqs) && Steady(t, reqs) && i < |reqs| && Answers(t, f, PosAt(reqs, i), s)
    ensures var page := reqs[i].page;
      var n := Clamp(reqs[i].limit);
      && page.items == (if |s| > n then s[..n] else s) && (page.next == "" <==> |s| <= n)
      && (i + 1 < |reqs| ==> |s| > n && PosOf(CursorAt(reqs, i + 1)).Some? && Answers(t, f, PosAt(reqs, i + 1), s[n..]))
  {
    hide Answers, PosOf, NextCursor, StorableKey, Storable, MatchingKeys;
    var page := reqs[i].page;
    var n := Clamp(reqs[i].limit);
    PageIsCut(reqs[i].counted, t, f, PosAt(reqs, i), n, page, s);
    if |s| > n {
      NextCursorPos(KeyOf(s[n - 1]));
    }
    if i + 1 < |reqs| {
      assert CursorAt(reqs, i + 1) == page.next != "";
      RestAnswers(t, f, PosAt(reqs, i), s, n);
    }
  }

  /** From any position, the pages that follow spell out the answer, or a prefix
      of it while there is a next cursor; and each page but the last shortens it. */
  lemma {:induction false} PagesSpell(t: Table, f: Filter, reqs: seq<Request>, i: nat, s: seq<Row>)
    requires IsWalk(f, reqs) && Steady(t, reqs) && i < |reqs| && PosOf(CursorAt(reqs, i)).Some? && Answers(t, f, PosAt(reqs, i), s)
    ensures Concat(reqs[i..]) <= s && (reqs[|reqs| - 1].page.next == "" ==> Concat(reqs[i..]) == s)
    ensures |reqs| - i <= if s == [] then 1 else |s|
    decreases |reqs| - i
  {
    hide Answers, PosOf, IsWalk, Steady;
    SteadyStep(t, f, reqs, i, s);
    var page := reqs[i].page;
    var n := Clamp(reqs[i].limit);
    assert reqs[i..][0] == reqs[i] && reqs[i..][1..] == reqs[i + 1..];
    if i + 1 < |reqs| {
      PagesSpell(t, f, reqs, i + 1, s[n..]);
      assert s == s[..n] + s[n..];
    } else {
      assert reqs[i + 1..] == [];
      assert Concat(reqs[i..]) == page.items;
    }
  }

  lemma PageIsCut(counted: Table, t: Table, f: Filter, p: Pos, n: nat, page: Page, s: seq<Row>)
    requires IsPage(counted, t, f, p, n, page) && Answers(t, f, p, s)
    ensures CutFrom(s, n, page)
  {
    hide Answers, MatchingKeys, CutFrom;
    var a :| Answers(t, f, p, a) && CutFrom(a, n, page);
    AnswersUnique(t, f, p, a, s);
  }

  /** The answer without a cursor has one row for each that matches. */
  lemma TotalIsLength(t: Table, f: Filter, s: seq<Row>)
    requires Storable(t) && Answers(t, f, Top, s)
    ensures |s| == |MatchingKeys(t, f)|
  {
    hide Matches, Before, StorableKey;
    var ids := set k | k in MatchingKeys(t, f) :: t.rows[k].id;
    IdsCount(t, MatchingKeys(t, f));
    var found := set i | 0 <= i < |s| :: s[i].id;
    forall i, j | 0 <= i < j < |s|
      ensures s[i].id != s[j].id
    {
      assert s[i] in s && s[j] in s;
      BeforeOrders(KeyOf(s[i]), KeyOf(s[i]), KeyOf(s[i]));
      assert s[i] != s[j];
    }
    SeqCount(s, |s|);
    assert found == ids by {
      forall i | 0 <= i < |s|
        ensures s[i].id in ids
      {
        assert s[i] in s;
      }
      forall k | k in MatchingKeys(t, f)
        ensures t.rows[k].id in found
      {
        assert Selected(t, f, Top, t.rows[k]);
      }
    }
  }

  lemma {:induction false} IdsCount(t: Table, ks: set<string>)
    requires Storable(t) && ks <= t.rows.Keys
    ensures |set k | k in ks :: t.rows[k].id| == |ks|
  {
    hide StorableKey;
    var ids := set k | k in ks :: t.rows[k].id;
    if ks == {} {
      assert ids == {};
    } else {
      var k :| k in ks;
      var rest := set j | j in ks - {k} :: t.rows[j].id;
      IdsCount(t, ks - {k});
      assert ids == rest + {t.rows[k].id};
      assert t.rows[k].id !in rest;
    }
  }

  lemma {:induction false} SeqCount(s: seq<Row>, n: nat)
    requires n <= |s| && forall i, j :: 0 <= i < j < |s| ==> s[i].id != s[j].id
    ensures |set i | 0 <= i < n :: s[i].id| == n
  {
    var ids := set i | 0 <= i < n :: s[i].id;
    if n == 0 {
      assert ids == {};
    } else {
      SeqCount(s, n - 1);
      var rest := set i | 0 <= i < n - 1 :: s[i].id;
      assert ids == rest + {s[n - 1].id};
      assert s[n - 1].id !in rest;
    }
  }

  /** On an unchanging table: the pages of a walk to the end are together the
      matching rows in gallery order; no walk is longer than there are rows (one
      page at least); and every page announces the same, true total. */
  lemma UnchangingWalk(t: Table, f: Filter, reqs: seq<Request>, s: seq<Row>)
    requires Storable(t) && IsWalk(f, reqs) && reqs != [] && Steady(t, reqs) && Answers(t, f, Top, s)
    ensures Exhausted(reqs) ==> Concat(reqs) == s
    ensures Concat(reqs) <= s
    ensures |reqs| <= if s == [] then 1 else |s|
    ensures forall i :: 0 <= i < |reqs| ==> reqs[i].page.total == |s|
  {
    hide Answers, PosOf, MatchingKeys, Storable;
    TopIsFirst(Key(None, 0));
    assert reqs[0..] == reqs;
    PagesSpell(t, f, reqs, 0, s);
    TotalIsLength(t, f, s);
  }

  /** A walk never runs into a cursor that does not decode. */
  lemma WalkGoesOn(f: Filter, reqs: seq<Request>)
    requires IsWalk(f, reqs) && reqs != [] && !Exhausted(reqs)
    ensures PosOf(CursorAt(reqs, |reqs|)).Some?
  {
    hide PosOf, Beyond, IsWalk, Selected, Sorted;
    Edges(f, reqs, |reqs| - 1);
  }
}
