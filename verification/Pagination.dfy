/** Keyset pagination of the gallery: `photoWhere`, `CountPhotos` and `ListPhotos`
    of catalog/query.go. Timestamps compare as byte strings. */
module Pagination {
  import opened Wrappers
  import opened CatalogStore
  import Cursor
  import Decimal
  import Lex

  const DEFAULT_LIMIT := 60
  const MAX_LIMIT := 200

  /** Zero values do not filter. */
  datatype Filter = Filter(folder: string, filmSimulation: string, cameraModel: string, recipe: string, minRating: int, decision: string)

  predicate Matches(f: Filter, row: Row) {
    && (f.folder != "" ==> row.photo.folder == f.folder)
    && (f.filmSimulation != "" ==> row.meta.filmSimulation == f.filmSimulation)
    && (f.cameraModel != "" ==> row.meta.cameraModel == f.cameraModel)
    && (f.recipe != "" ==> row.meta.recipeHash == f.recipe)
    && (f.minRating > 0 ==> row.rating >= f.minRating)
    && (f.decision == "keep" ==> row.rating > 0)
    && (f.decision == "discard" ==> row.discarded)
    && (f.decision == "none" ==> row.rating == 0 && !row.discarded)
  }

  /** Which rows a filter asks for, by its parts. */
  ghost predicate Asked(f: Filter, row: Row) {
    && f.folder in ["", row.photo.folder] && f.filmSimulation in ["", row.meta.filmSimulation]
    && f.cameraModel in ["", row.meta.cameraModel] && f.recipe in ["", row.meta.recipeHash]
    && f.minRating <= row.rating
    && !(f.decision == "keep" && row.rating == 0)
    && !(f.decision == "discard" && !row.discarded)
    && !(f.decision == "none" && (row.rating != 0 || row.discarded))
  }

  ghost function AskedKeys(t: Table, f: Filter): set<string> {
    set k | k in t.rows && Asked(f, t.rows[k])
  }

  lemma MatchesAsked(f: Filter, row: Row)
    ensures Matches(f, row) <==> Asked(f, row)
  {
  }

  /** A higher bar only removes rows. */
  lemma StricterFilter(f: Filter, g: Filter, row: Row)
    requires g == f.(minRating := g.minRating) && f.minRating <= g.minRating && Matches(g, row)
    ensures Matches(f, row)
  {
  }

  /** Of the rows that any filter lets through, each is in one of the three piles of
      the user, and only one. */
  lemma PilesPartition(f: Filter, t: Table, k: string)
    requires Exclusive(t) && k in t.rows && f.decision == "" && Matches(f, t.rows[k])
    ensures var row := t.rows[k];
      && (Matches(f.(decision := "keep"), row) || Matches(f.(decision := "discard"), row) || Matches(f.(decision := "none"), row))
      && !(Matches(f.(decision := "keep"), row) && Matches(f.(decision := "discard"), row))
      && !(Matches(f.(decision := "keep"), row) && Matches(f.(decision := "none"), row))
      && !(Matches(f.(decision := "discard"), row) && Matches(f.(decision := "none"), row))
  {
  }

  // ---- The order of the gallery ----

  /** What the order and the cursor look at. */
  datatype Key = Key(takenAt: Option<string>, id: int)

  function KeyOf(row: Row): Key {
    Key(row.meta.takenAt, row.id)
  }

  /** Dated rows first, latest first; undated rows last; ties by id, descending. */
  predicate Before(a: Key, b: Key) {
    if a.takenAt.Some? && b.takenAt.Some? then
      Lex.Less(b.takenAt.value, a.takenAt.value) || (a.takenAt == b.takenAt && a.id > b.id)
    else if a.takenAt.None? && b.takenAt.None? then a.id > b.id
    else a.takenAt.Some?
  }

  lemma BeforeOrders(a: Key, b: Key, c: Key)
    ensures !Before(a, a)
    ensures Before(a, b) && Before(b, c) ==> Before(a, c)
    ensures Before(a, b) || a == b || Before(b, a)
  {
    hide Lex.Less;
    if a.takenAt.Some? {
      Lex.Irreflexive(a.takenAt.value);
      if b.takenAt.Some? {
        Lex.Total(a.takenAt.value, b.takenAt.value);
        if c.takenAt.Some? && Lex.Less(c.takenAt.value, b.takenAt.value) && Lex.Less(b.takenAt.value, a.takenAt.value) {
          Lex.Transitive(c.takenAt.value, b.takenAt.value, a.takenAt.value);
        }
      }
    }
  }

  // ---- Cursors as positions ----

  datatype Pos = Top | After(isNull: bool, text: string, id: int)

  /** The cursor predicate of the query. */
  predicate Beyond(p: Pos, k: Key) {
    match p
    case Top => true
    case After(isNull, text, id) =>
      if isNull then k.takenAt.None? && k.id < id
      else
        || (k.takenAt.Some? && (Lex.Less(k.takenAt.value, text) || (k.takenAt.value == text && k.id < id)))
        || k.takenAt.None?
  }

  function PosOf(cursor: string): Option<Pos> {
    if cursor == "" then Some(Top)
    else
      var d := Cursor.DecodeCursor(cursor);
      if d.None? then None else Some(After(d.value.0, d.value.1, d.value.2))
  }

  function PosAfter(k: Key): Pos {
    After(k.takenAt.None?, if k.takenAt.None? then "" else k.takenAt.value, k.id)
  }

  /** Undated rows come last, a later row before an earlier one, and of two rows with
      the same timestamp, or both without, the one with the greater id first. */
  lemma BeforeMeans(a: Key, b: Key)
    ensures Before(a, b) ==>
      && (b.takenAt.Some? ==> a.takenAt.Some? && !Lex.Less(a.takenAt.value, b.takenAt.value))
      && (a.takenAt == b.takenAt ==> a.id > b.id)
  {
    hide Lex.Less;
    if a.takenAt.Some? && b.takenAt.Some? {
      Lex.Irreflexive(a.takenAt.value);
      if Lex.Less(b.takenAt.value, a.takenAt.value) && Lex.Less(a.takenAt.value, b.takenAt.value) {
        Lex.Transitive(a.takenAt.value, b.takenAt.value, a.takenAt.value);
      }
    }
  }

  /** A cursor has left behind a row dated like it, or both undated, when its id is
      not smaller; a later one; and, once among the undated, every dated one. */
  lemma BeyondMeans(isNull: bool, text: string, id: int, k: Key)
    ensures Beyond(Top, k)
    ensures Beyond(After(isNull, text, id), k) <==>
      if isNull then k.takenAt == None && k.id < id
      else k.takenAt == None || (k.takenAt == Some(text) && k.id < id) || (k.takenAt.value != text && Lex.Less(k.takenAt.value, text))
  {
    hide Lex.Less;
    Lex.Irreflexive(text);
  }

  /** Going on from a row is exactly what comes after it in the order. */
  lemma BeyondIsBefore(k: Key, x: Key)
    ensures Beyond(PosAfter(k), x) <==> Before(k, x)
  {
  }

  /** Timestamps and ids as the program stores them: bytes without a bar, 64 bits. */
  predicate StorableKey(k: Key) {
    && 0 <= k.id <= Decimal.MAX64
    && (k.takenAt.Some? ==> Cursor.IsBytes(k.takenAt.value) && '|' !in k.takenAt.value)
  }

  /** Ids are unique, and every key can go into a cursor. */
  ghost predicate Storable(t: Table) {
    && (forall k :: k in t.rows ==> StorableKey(KeyOf(t.rows[k])))
    && (forall j, k :: j in t.rows && k in t.rows && t.rows[j].id == t.rows[k].id ==> j == k)
  }

  /** Any table will do whose ids are distinct and of 64 bits and whose timestamps are
      bytes without a bar. */
  lemma StorableExactly(t: Table)
    ensures Storable(t) <==>
      && (forall k :: k in t.rows ==>
            && t.rows[k].id <= 9223372036854775807
            && (t.rows[k].meta.takenAt != None ==> Cursor.IsBytes(t.rows[k].meta.takenAt.value) && '|' !in t.rows[k].meta.takenAt.value))
      && (forall j, k :: j in t.rows && k in t.rows && j != k ==> t.rows[j].id != t.rows[k].id)
  {
  }

  function NextCursor(k: Key): string
    requires StorableKey(k)
  {
    Cursor.RawIsBytes(k.takenAt, k.id);
    Cursor.EncodeCursor(k.takenAt, k.id)
  }

  lemma NextCursorPos(k: Key)
    requires StorableKey(k)
    ensures NextCursor(k) != "" && PosOf(NextCursor(k)) == Some(PosAfter(k))
  {
    hide Cursor.EncodeCursor, Cursor.DecodeCursor, Cursor.IsBytes;
    Cursor.CursorRoundTrip(k.takenAt, k.id);
  }

  // ---- Queries ----

  ghost predicate Sorted(s: seq<Row>) {
    forall i, j :: 0 <= i < j < |s| ==> Before(KeyOf(s[i]), KeyOf(s[j]))
  }

  /** The rows of the listing: those that match, beyond the position. */
  ghost predicate Selected(t: Table, f: Filter, p: Pos, row: Row) {
    (exists k :: k in t.rows && t.rows[k] == row) && Matches(f, row) && Beyond(p, KeyOf(row))
  }

  /** The answer of the database to the listing query, without its limit. */
  ghost predicate Answers(t: Table, f: Filter, p: Pos, s: seq<Row>) {
    Sorted(s) && forall row :: row in s <==> Selected(t, f, p, row)
  }

  lemma {:induction false} AnswersUnique(t: Table, f: Filter, p: Pos, a: seq<Row>, b: seq<Row>)
    requires Answers(t, f, p, a) && Answers(t, f, p, b)
    ensures a == b
  {
    hide Selected, Before;
    SortedUnique(a, b);
  }

  lemma {:induction false} SortedUnique(a: seq<Row>, b: seq<Row>)
    requires Sorted(a) && Sorted(b) && forall row :: row in a <==> row in b
    ensures a == b
  {
    hide Before, KeyOf;
    assert b != [] ==> b[0] in b;
    if a != [] {
      assert a[0] in b && b[0] in a;
      if a[0] != b[0] {
        var i :| 0 <= i < |b| && b[i] == a[0];
        var j :| 0 <= j < |a| && a[j] == b[0];
        BeforeOrders(KeyOf(b[0]), KeyOf(a[0]), KeyOf(b[0]));
      }
      BeforeOrders(KeyOf(a[0]), KeyOf(a[0]), KeyOf(a[0]));
      forall row
        ensures row in a[1..] <==> row in b[1..]
      {
        if row in a[1..] {
          assert row in b && row != a[0];
        }
        if row in b[1..] {
          assert row in a && row != b[0];
        }
      }
      SortedUnique(a[1..], b[1..]);
    }
  }

  function InsertRow(s: seq<Row>, row: Row): seq<Row> {
    if s == [] || Before(KeyOf(row), KeyOf(s[0])) then [row] + s else [s[0]] + InsertRow(s[1..], row)
  }

  lemma {:induction false} InsertContents(s: seq<Row>, row: Row, x: Row)
    ensures x in InsertRow(s, row) <==> x == row || x in s
  {
    hide Before;
    if s != [] && !Before(KeyOf(row), KeyOf(s[0])) {
      InsertContents(s[1..], row, x);
    }
  }

  lemma {:induction false} InsertSorts(s: seq<Row>, row: Row)
    requires Sorted(s) && forall i :: 0 <= i < |s| ==> KeyOf(s[i]) != KeyOf(row)
    ensures Sorted(InsertRow(s, row))
  {
    hide Before, KeyOf;
    if s == [] {
    } else if Before(KeyOf(row), KeyOf(s[0])) {
      forall j | 0 <= j < |s|
        ensures Before(KeyOf(row), KeyOf(s[j]))
      {
        BeforeOrders(KeyOf(row), KeyOf(s[0]), KeyOf(s[j]));
      }
    } else {
      BeforeOrders(KeyOf(row), KeyOf(s[0]), KeyOf(row));
      InsertSorts(s[1..], row);
      var rest := InsertRow(s[1..], row);
      forall j | 0 <= j < |rest|
        ensures Before(KeyOf(s[0]), KeyOf(rest[j]))
      {
        InsertContents(s[1..], row, rest[j]);
      }
    }
  }

  /** The database: selects and sorts. */
  method Query(t: Table, f: Filter, p: Pos) returns (s: seq<Row>)
    requires Storable(t)
    ensures Answers(t, f, p, s)
  {
    hide Matches, Before, Beyond, StorableKey, InsertRow;
    s := [];
    var todo := t.rows.Keys;
    while todo != {}
      invariant todo <= t.rows.Keys
      invariant Sorted(s)
      invariant forall row :: row in s <==> exists k :: k in t.rows && k !in todo && t.rows[k] == row && Matches(f, row) && Beyond(p, KeyOf(row))
      decreases |todo|
    {
      var k :| k in todo;
      todo := todo - {k};
      var row := t.rows[k];
      if Matches(f, row) && Beyond(p, KeyOf(row)) {
        forall i | 0 <= i < |s|
          ensures KeyOf(s[i]) != KeyOf(row)
        {
          assert s[i] in s;
        }
        InsertSorts(s, row);
        forall x
          ensures x in InsertRow(s, row) <==> x == row || x in s
        {
          InsertContents(s, row, x);
        }
        s := InsertRow(s, row);
      }
    }
  }

  ghost function MatchingKeys(t: Table, f: Filter): set<string> {
    set k | k in t.rows && Matches(f, t.rows[k])
  }

  method CountPhotos(t: Table, f: Filter) returns (n: nat)
    ensures n == |MatchingKeys(t, f)|
    ensures n == |AskedKeys(t, f)|
  {
    hide Matches, Asked;
    forall k | k in t.rows
      ensures Matches(f, t.rows[k]) <==> Asked(f, t.rows[k])
    {
      MatchesAsked(f, t.rows[k]);
    }
    n := 0;
    var todo := t.rows.Keys;
    ghost var seen: set<string> := {};
    while todo != {}
      invariant todo <= t.rows.Keys && todo !! seen
      invariant seen == set k | k in t.rows && k !in todo && Matches(f, t.rows[k])
      invariant n == |seen|
      decreases |todo|
    {
      var k :| k in todo;
      todo := todo - {k};
      if Matches(f, t.rows[k]) {
        n := n + 1;
        seen := seen + {k};
      }
    }
    assert seen == MatchingKeys(t, f) == AskedKeys(t, f);
  }

  // ---- One page ----

  datatype Page = Page(items: seq<Row>, next: string, total: nat)

  function Clamp(limit: int): (n: nat)
    ensures 1 <= n <= MAX_LIMIT
  {
    if limit <= 0 then DEFAULT_LIMIT else if limit > MAX_LIMIT then MAX_LIMIT else limit
  }

  /** The first n rows of an answer, and the cursor after the last of them when
      there are more. */
  ghost predicate CutFrom(s: seq<Row>, n: nat, page: Page) {
    if |s| <= n then page.items == s && page.next == ""
    else n > 0 && page.items == s[..n] && StorableKey(KeyOf(s[n - 1])) && page.next == NextCursor(KeyOf(s[n - 1]))
  }

  /** The count and the rows are two statements: other writers may come between
      them, and `counted` is the table the first one saw. */
  ghost predicate IsPage(counted: Table, t: Table, f: Filter, p: Pos, n: nat, page: Page) {
    page.total == |MatchingKeys(counted, f)| && exists s :: Answers(t, f, p, s) && CutFrom(s, n, page)
  }

  /** What a page tells, by the fields of the rows: rows of the table that are asked
      for and lie beyond the cursor, in order; no such row passed over before the
      next cursor; and the number of all that are asked for. */
  ghost predicate Tells(counted: Table, t: Table, f: Filter, p: Pos, n: nat, page: Page) {
    && |page.items| <= n && (page.next != "" ==> |page.items| == n)
    && page.total == |AskedKeys(counted, f)|
    && (forall i :: 0 <= i < |page.items| ==>
          Asked(f, page.items[i]) && Beyond(p, KeyOf(page.items[i])) && InTable(t, page.items[i]))
    && (forall k :: k in t.rows && Asked(f, t.rows[k]) && Beyond(p, KeyOf(t.rows[k])) ==>
          t.rows[k] in page.items
          || (page.next != "" && forall i :: 0 <= i < |page.items| ==> Precedes(page.items[i], t.rows[k])))
    && (forall i, j :: 0 <= i < j < |page.items| ==> Precedes(page.items[i], page.items[j]))
  }

  ghost predicate InTable(t: Table, row: Row) {
    exists k :: k in t.rows && t.rows[k] == row
  }

  /** The order of the gallery on rows. */
  ghost predicate Precedes(a: Row, b: Row) {
    && (b.meta.takenAt.Some? ==> a.meta.takenAt.Some? && !Lex.Less(a.meta.takenAt.value, b.meta.takenAt.value))
    && (a.meta.takenAt == b.meta.takenAt ==> a.id > b.id)
  }

  lemma PageTells(counted: Table, t: Table, f: Filter, p: Pos, n: nat, page: Page)
    requires IsPage(counted, t, f, p, n, page)
    ensures Tells(counted, t, f, p, n, page)
  {
    hide Matches, Asked, Beyond, StorableKey, NextCursor, Precedes, Answers, CutFrom, KeyOf;
    var s :| Answers(t, f, p, s) && CutFrom(s, n, page);
    TotalTells(counted, f);
    CutMeans(s, n, page);
    AnswerTells(t, f, p, s);
    forall k | k in t.rows && Asked(f, t.rows[k]) && Beyond(p, KeyOf(t.rows[k]))
      ensures t.rows[k] in page.items
        || (page.next != "" && forall i :: 0 <= i < |page.items| ==> Precedes(page.items[i], t.rows[k]))
    {
      assert t.rows[k] in s;
      var j :| 0 <= j < |s| && s[j] == t.rows[k];
      if j < |page.items| {
        assert page.items[j] == s[j];
      }
    }
  }

  lemma TotalTells(t: Table, f: Filter)
    ensures MatchingKeys(t, f) == AskedKeys(t, f)
  {
    hide Matches, Asked;
    forall k | k in t.rows
      ensures Matches(f, t.rows[k]) <==> Asked(f, t.rows[k])
    {
      MatchesAsked(f, t.rows[k]);
    }
  }

  lemma CutMeans(s: seq<Row>, n: nat, page: Page)
    requires CutFrom(s, n, page)
    ensures |page.items| <= |s| && page.items == s[..|page.items|] && |page.items| <= n
    ensures if page.next == "" then page.items == s else |page.items| == n < |s|
  {
    hide StorableKey, NextCursor;
    if |s| > n {
      NextCursorNotEmpty(KeyOf(s[n - 1]));
    }
  }

  /** The rows of an answer: all that are asked for and beyond, in order. */
  lemma AnswerTells(t: Table, f: Filter, p: Pos, s: seq<Row>)
    requires Answers(t, f, p, s)
    ensures forall i :: 0 <= i < |s| ==> Asked(f, s[i]) && Beyond(p, KeyOf(s[i])) && InTable(t, s[i])
    ensures forall k :: k in t.rows && Asked(f, t.rows[k]) && Beyond(p, KeyOf(t.rows[k])) ==> t.rows[k] in s
    ensures forall i, j :: 0 <= i < j < |s| ==> Precedes(s[i], s[j])
  {
    hide Asked, Beyond, Precedes, Selected, Sorted;
    InOrder(s);
    forall i | 0 <= i < |s|
      ensures Asked(f, s[i]) && Beyond(p, KeyOf(s[i])) && InTable(t, s[i])
    {
      assert s[i] in s;
      SelectedMeans(t, f, p, s[i]);
    }
    forall k | k in t.rows && Asked(f, t.rows[k]) && Beyond(p, KeyOf(t.rows[k]))
      ensures t.rows[k] in s
    {
      SelectedMeans(t, f, p, t.rows[k]);
    }
  }

  lemma SelectedMeans(t: Table, f: Filter, p: Pos, row: Row)
    ensures Selected(t, f, p, row) <==> InTable(t, row) && Asked(f, row) && Beyond(p, KeyOf(row))
  {
    hide Matches, Asked, Beyond;
    MatchesAsked(f, row);
  }

  lemma InOrder(s: seq<Row>)
    requires Sorted(s)
    ensures forall i, j :: 0 <= i < j < |s| ==> Precedes(s[i], s[j])
  {
    hide Before, Precedes, KeyOf;
    forall i, j | 0 <= i < j < |s|
      ensures Precedes(s[i], s[j])
    {
      BeforePrecedes(s[i], s[j]);
    }
  }

  lemma BeforePrecedes(a: Row, b: Row)
    requires Before(KeyOf(a), KeyOf(b))
    ensures Precedes(a, b)
  {
    hide Before, Lex.Less;
    BeforeMeans(KeyOf(a), KeyOf(b));
  }

  lemma NextCursorNotEmpty(k: Key)
    requires StorableKey(k)
    ensures NextCursor(k) != ""
  {
    hide NextCursor;
    NextCursorPos(k);
  }

  /** One page of the gallery, or an error for a cursor that does not decode. */
  method ListPhotos(counted: Table, t: Table, f: Filter, cursor: string, limit: int) returns (r: Result<Page, string>)
    requires Storable(t)
    ensures r.Err? <==> PosOf(cursor).None?
    ensures r.Ok? ==> IsPage(counted, t, f, PosOf(cursor).value, Clamp(limit), r.value)
    ensures r.Ok? ==> Tells(counted, t, f, PosOf(cursor).value, if limit <= 0 then 60 else if limit > 200 then 200 else limit, r.value)
  {
    hide PosOf, Answers, StorableKey, NextCursor, MatchingKeys, Tells;
    var n := Clamp(limit);
    var total := CountPhotos(counted, f);
    var p := PosOf(cursor);
    if p.None? {
      return Err("invalid cursor");
    }
    var s := Query(t, f, p.value);
    AnswersStorable(t, f, p.value, s);
    var rows := if |s| > n + 1 then s[..n + 1] else s;
    var items: seq<Row> := [];
    var next := "";
    var i := 0;
    while i < |rows|
      invariant 0 <= i <= |rows| && i <= n
      invariant items == rows[..i] && next == ""
    {
      if |items| == n {
        next := NextCursor(KeyOf(items[n - 1]));
        break;
      }
      items := items + [rows[i]];
      i := i + 1;
    }
    assert CutFrom(s, n, Page(items, next, total));
    PageTells(counted, t, f, p.value, n, Page(items, next, total));
    return Ok(Page(items, next, total));
  }

  lemma AnswersStorable(t: Table, f: Filter, p: Pos, s: seq<Row>)
    requires Storable(t) && Answers(t, f, p, s)
    ensures forall i :: 0 <= i < |s| ==> StorableKey(KeyOf(s[i]))
  {
    hide StorableKey, Matches, Beyond, Before;
    forall i | 0 <= i < |s|
      ensures StorableKey(KeyOf(s[i]))
    {
      assert s[i] in s;
    }
  }
}
