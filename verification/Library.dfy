/** The recipe library: `CreateRecipe`, `UpdateRecipe`, `DeleteRecipe` and
    `ListRecipes` of catalog/recipes.go under the checks, the import and the
    export of server/recipes.go. The fingerprint is its text before hashing. */
module Library {
  import opened Wrappers
  import opened Recipe
  import Fingerprint
  import Lex

  const MAX_ENTRIES := 1000

  /** A document of the editor or of an import file. */
  datatype Body = Body(name: string, fields: Fields, notes: string, author: string, authorUrl: string, source: string)

  /** A stored recipe; an incomplete one has no fingerprint. */
  datatype Card = Card(body: Body, hash: Option<string>)

  datatype Shelf = Shelf(cards: map<nat, Card>, nextId: nat)

  datatype Conflict = NameTaken | HashTaken | NotFound | StoreFailed

  /** What is decided elsewhere: which links parse as http or https, and which of
      two broken uniqueness constraints the database names. */
  datatype Rules = Rules(validUrl: string -> bool, hashFirst: bool)

  // ---- Checks ----

  predicate IsBlank(c: char) {
    c == ' ' || '\t' <= c <= '\r'
  }

  function TrimLeft(s: string): string {
    if s != [] && IsBlank(s[0]) then TrimLeft(s[1..]) else s
  }

  function TrimRight(s: string): string {
    if s != [] && IsBlank(s[|s| - 1]) then TrimRight(s[..|s| - 1]) else s
  }

  function Trim(s: string): string {
    TrimRight(TrimLeft(s))
  }

  predicate TextsFit(b: Body) {
    |b.name| <= 200 && |b.author| <= 200 && |b.source| <= 200 && |b.authorUrl| <= 500 && |b.notes| <= 10000
  }

  predicate LinkFits(rules: Rules, b: Body) {
    b.authorUrl == "" || rules.validUrl(b.authorUrl)
  }

  /** What the import lets in. */
  predicate Acceptable(b: Body) {
    b.name != "" && TextsFit(b) && Valid(b.fields)
  }

  /** What the editor lets in: a complete recipe with a usable link. */
  predicate Editable(rules: Rules, b: Body) {
    Acceptable(b) && Complete(b.fields) && LinkFits(rules, b)
  }

  function Trimmed(b: Body): Body {
    b.(name := Trim(b.name))
  }

  function WithoutBadLink(rules: Rules, b: Body): Body {
    if LinkFits(rules, b) then b else b.(authorUrl := "")
  }

  // ---- The store ----

  predicate HasName(s: Shelf, name: string, except: Option<nat>) {
    exists id :: id in s.cards && except != Some(id) && s.cards[id].body.name == name
  }

  predicate HasHash(s: Shelf, hash: Option<string>, except: Option<nat>) {
    hash.Some? && exists id :: id in s.cards && except != Some(id) && s.cards[id].hash == hash
  }

  function CardOf(b: Body): Card {
    Card(b, Fingerprint.HashedText(b.fields))
  }

  /** The uniqueness conflict a write would meet, if any. */
  function ConflictOf(rules: Rules, s: Shelf, b: Body, except: Option<nat>): Option<Conflict> {
    var name, hash := HasName(s, b.name, except), HasHash(s, CardOf(b).hash, except);
    if !name && !hash then None
    else if name && !(hash && rules.hashFirst) then Some(NameTaken)
    else Some(HashTaken)
  }

  function Inserted(s: Shelf, b: Body): Shelf {
    Shelf(s.cards[s.nextId := CardOf(b)], s.nextId + 1)
  }

  /** Names and fingerprints are unique, each fingerprint is that of its fields,
      and ids are never reused. */
  ghost predicate Sound(s: Shelf) {
    && (forall id :: id in s.cards ==> id < s.nextId && s.cards[id].hash == Fingerprint.HashedText(s.cards[id].body.fields))
    && (forall i, j :: i in s.cards && j in s.cards && s.cards[i].body.name == s.cards[j].body.name ==> i == j)
    && (forall i, j :: i in s.cards && j in s.cards && s.cards[i].hash.Some? && s.cards[i].hash == s.cards[j].hash ==> i == j)
  }

  /** Every card would pass the import again, unchanged. */
  ghost predicate Presentable(rules: Rules, s: Shelf) {
    forall id :: id in s.cards ==> ReadyToImport(rules, s.cards[id].body)
  }

  predicate ReadyToImport(rules: Rules, b: Body) {
    Trimmed(b) == b && Acceptable(b) && LinkFits(rules, b)
  }

  lemma InsertSound(rules: Rules, s: Shelf, b: Body)
    requires Sound(s) && ConflictOf(rules, s, b, None) == None
    ensures Sound(Inserted(s, b))
  {
    hide Fingerprint.HashedText;
  }

  lemma ReplaceSound(rules: Rules, s: Shelf, b: Body, id: nat)
    requires Sound(s) && id in s.cards && ConflictOf(rules, s, b, Some(id)) == None
    ensures Sound(s.(cards := s.cards[id := CardOf(b)]))
  {
    hide Fingerprint.HashedText;
  }

  lemma {:induction false} TrimLeftStops(s: string)
    ensures TrimLeft(s) == "" || !IsBlank(TrimLeft(s)[0])
  {
    if s != [] && IsBlank(s[0]) {
      TrimLeftStops(s[1..]);
    }
  }

  lemma {:induction false} TrimRightStops(s: string)
    ensures TrimRight(s) == "" || !IsBlank(TrimRight(s)[|TrimRight(s)| - 1])
    ensures TrimRight(s) <= s
  {
    if s != [] && IsBlank(s[|s| - 1]) {
      TrimRightStops(s[..|s| - 1]);
    }
  }

  lemma TrimTwice(s: string)
    ensures Trim(Trim(s)) == Trim(s)
  {
    TrimLeftStops(s);
    TrimRightStops(TrimLeft(s));
    var t := Trim(s);
    assert t != "" ==> t[0] == TrimLeft(s)[0];
    assert TrimLeft(t) == t;
  }

  lemma CleanedIsReady(rules: Rules, b: Body)
    requires Acceptable(Trimmed(b))
    ensures ReadyToImport(rules, WithoutBadLink(rules, Trimmed(b)))
  {
    hide Trim, Valid;
    TrimTwice(b.name);
  }

  // ---- The import ----

  datatype Status = Imported | Incomplete | Skipped | Failed

  /** One entry: rejected, skipped for a conflict, or stored. */
  function ImportOne(rules: Rules, s: Shelf, e: Body, fails: bool): (Shelf, Status) {
    var b := Trimmed(e);
    if !Acceptable(b) then (s, Failed)
    else
      var c := WithoutBadLink(rules, b);
      if fails then (s, Failed)
      else if ConflictOf(rules, s, c, None).Some? then (s, Skipped)
      else (Inserted(s, c), if Complete(c.fields) then Imported else Incomplete)
  }

  /** The shelf after the first k entries. */
  function ImportFirst(rules: Rules, s: Shelf, entries: seq<Body>, fails: nat -> bool, k: nat): Shelf
    requires k <= |entries|
  {
    if k == 0 then s else ImportOne(rules, ImportFirst(rules, s, entries, fails, k - 1), entries[k - 1], fails(k - 1)).0
  }

  function StatusOf(rules: Rules, s: Shelf, entries: seq<Body>, fails: nat -> bool, k: nat): Status
    requires k < |entries|
  {
    ImportOne(rules, ImportFirst(rules, s, entries, fails, k), entries[k], fails(k)).1
  }

  function Statuses(rules: Rules, s: Shelf, entries: seq<Body>, fails: nat -> bool, k: nat): (r: seq<Status>)
    requires k <= |entries|
    ensures |r| == k
  {
    if k == 0 then [] else Statuses(rules, s, entries, fails, k - 1) + [StatusOf(rules, s, entries, fails, k - 1)]
  }

  function Count(items: seq<Status>, x: Status): nat {
    if items == [] then 0 else Count(items[..|items| - 1], x) + if items[|items| - 1] == x then 1 else 0
  }

  datatype Report = Report(imported: nat, incomplete: nat, skipped: nat, errors: nat, items: seq<Status>)

  /** The four counters of a report add up to its items. */
  lemma {:induction false} CountersSum(items: seq<Status>)
    ensures Count(items, Imported) + Count(items, Incomplete) + Count(items, Skipped) + Count(items, Failed) == |items|
  {
    if items != [] {
      CountersSum(items[..|items| - 1]);
    }
  }

  lemma ImportOneKeeps(rules: Rules, s: Shelf, e: Body, fails: bool)
    requires Sound(s) && Presentable(rules, s)
    ensures Sound(ImportOne(rules, s, e, fails).0) && Presentable(rules, ImportOne(rules, s, e, fails).0)
  {
    hide Acceptable, Trimmed, WithoutBadLink, ReadyToImport, ConflictOf, Sound, Complete;
    var b := Trimmed(e);
    if Acceptable(b) {
      CleanedIsReady(rules, e);
      var c := WithoutBadLink(rules, b);
      if ConflictOf(rules, s, c, None).None? {
        InsertSound(rules, s, c);
      }
    }
  }

  lemma {:induction false} ImportKeeps(rules: Rules, s: Shelf, entries: seq<Body>, fails: nat -> bool, k: nat)
    requires Sound(s) && Presentable(rules, s) && k <= |entries|
    ensures Sound(ImportFirst(rules, s, entries, fails, k)) && Presentable(rules, ImportFirst(rules, s, entries, fails, k))
  {
    hide Sound, Presentable, ImportOne;
    if k > 0 {
      ImportKeeps(rules, s, entries, fails, k - 1);
      ImportOneKeeps(rules, ImportFirst(rules, s, entries, fails, k - 1), entries[k - 1], fails(k - 1));
    }
  }

  class Library {
    const rules: Rules
    var cards: map<nat, Card>
    var nextId: nat

    function View(): Shelf
      reads this
    {
      Shelf(cards, nextId)
    }

    ghost predicate Valid()
      reads this
    {
      Sound(View()) && Presentable(rules, View())
    }

    constructor (rules: Rules)
      ensures Valid() && View() == Shelf(map[], 1) && this.rules == rules
    {
      this.rules := rules;
      cards, nextId := map[], 1;
    }

    /** POST: nothing changes unless the document is fit and free of conflicts. */
    method Create(body: Body, fails: bool) returns (r: Result<nat, Option<Conflict>>)
      requires Valid()
      modifies this
      ensures Valid()
      ensures r.Ok? ==> View() == Inserted(old(View()), Trimmed(body)) && r.value == old(nextId)
      ensures r.Err? ==> View() == old(View())
      ensures r == Err(None) <==> !Editable(rules, Trimmed(body))
      ensures Editable(rules, Trimmed(body)) && fails ==> r == Err(Some(StoreFailed))
      ensures Editable(rules, Trimmed(body)) && !fails ==>
        (r.Err? <==> ConflictOf(rules, old(View()), Trimmed(body), None).Some?)
        && (r.Err? ==> r.error == ConflictOf(rules, old(View()), Trimmed(body), None))
    {
      hide Sound, Editable, Trimmed, ConflictOf, Fingerprint.HashedText, ReadyToImport;
      var b := Trimmed(body);
      if !Editable(rules, b) {
        return Err(None);
      }
      if fails {
        return Err(Some(StoreFailed));
      }
      var conflict := ConflictOf(rules, View(), b, None);
      if conflict.Some? {
        return Err(conflict);
      }
      InsertSound(rules, View(), b);
      EditableIsReady(rules, body);
      var id := nextId;
      cards := cards[id := CardOf(b)];
      nextId := id + 1;
      return Ok(id);
    }

    /** PATCH: the whole document is replaced, and its fingerprint recomputed. */
    method Update(id: nat, body: Body, fails: bool) returns (r: Result<nat, Option<Conflict>>)
      requires Valid()
      modifies this`cards
      ensures Valid()
      ensures r.Ok? ==> r.value == id && id in old(cards) && cards == old(cards)[id := CardOf(Trimmed(body))]
      ensures r.Err? ==> cards == old(cards)
      ensures r == Err(None) <==> !Editable(rules, Trimmed(body))
      ensures Editable(rules, Trimmed(body)) && fails ==> r == Err(Some(StoreFailed))
      ensures Editable(rules, Trimmed(body)) && !fails ==> (r == Err(Some(NotFound)) <==> id !in old(cards))
      ensures Editable(rules, Trimmed(body)) && !fails && id in old(cards) ==>
        var conflict := ConflictOf(rules, old(View()), Trimmed(body), Some(id));
        (r.Err? <==> conflict.Some?) && (r.Err? ==> r.error == conflict)
    {
      hide Sound, Editable, Trimmed, Fingerprint.HashedText, ReadyToImport, HasName, HasHash;
      var b := Trimmed(body);
      if !Editable(rules, b) {
        return Err(None);
      }
      if fails {
        return Err(Some(StoreFailed));
      }
      if id !in cards {
        return Err(Some(NotFound));
      }
      var conflict := ConflictOf(rules, View(), b, Some(id));
      if conflict.Some? {
        return Err(conflict);
      }
      ReplaceSound(rules, View(), b, id);
      EditableIsReady(rules, body);
      cards := cards[id := CardOf(b)];
      return Ok(id);
    }

    method Delete(id: nat) returns (existed: bool)
      requires Valid()
      modifies this`cards
      ensures Valid() && cards == old(cards) - {id} && existed == (id in old(cards))
    {
      hide Fingerprint.HashedText, ReadyToImport;
      existed := id in cards;
      cards := cards - {id};
    }

    /** The import: at most a thousand entries, each stored, skipped or reported. */
    method Import(entries: seq<Body>, fails: nat -> bool) returns (r: Result<Report, string>)
      requires Valid()
      modifies this
      ensures Valid()
      ensures r.Err? <==> |entries| > 1000
      ensures r.Err? ==> View() == old(View())
      ensures r.Ok? ==> View() == ImportFirst(rules, old(View()), entries, fails, |entries|)
      ensures r.Ok? ==> r.value.items == Statuses(rules, old(View()), entries, fails, |entries|)
      ensures r.Ok? ==> var items := r.value.items;
        && r.value.imported == Count(items, Imported) && r.value.incomplete == Count(items, Incomplete)
        && r.value.skipped == Count(items, Skipped) && r.value.errors == Count(items, Failed)
        && r.value.imported + r.value.incomplete + r.value.skipped + r.value.errors == |entries|
    {
      hide Sound, Presentable, ImportOne, Tallied, Count, CardOf;
      if |entries| > MAX_ENTRIES {
        return Err("too many recipes");
      }
      ghost var start := View();
      var report := Report(0, 0, 0, 0, []);
      NothingTallied();
      var i := 0;
      while i < |entries|
        invariant 0 <= i <= |entries|
        invariant View() == ImportFirst(rules, start, entries, fails, i)
        invariant report.items == Statuses(rules, start, entries, fails, i)
        invariant Tallied(report)
      {
        var status := ImportEntry(entries[i], fails(i));
        report := Add(report, status);
        i := i + 1;
      }
      ImportKeeps(rules, start, entries, fails, |entries|);
      TalliedSum(report);
      return Ok(report);
    }

    method ImportEntry(entry: Body, fails: bool) returns (status: Status)
      modifies this
      ensures View() == ImportOne(rules, old(View()), entry, fails).0 && status == ImportOne(rules, old(View()), entry, fails).1
    {
      hide HasName, HasHash, Valid, Complete, Trim;
      var e := Trimmed(entry);
      if e.name == "" {
        return Failed;
      }
      if !TextsFit(e) {
        return Failed;
      }
      if !Recipe.Valid(e.fields) {
        return Failed;
      }
      if e.authorUrl != "" && !rules.validUrl(e.authorUrl) {
        e := e.(authorUrl := "");
      }
      if fails {
        return Failed;
      }
      if ConflictOf(rules, View(), e, None).Some? {
        return Skipped;
      }
      var id := nextId;
      cards := cards[id := CardOf(e)];
      nextId := id + 1;
      if !Complete(e.fields) {
        return Incomplete;
      }
      return Imported;
    }

    /** The whole library by name, without regard to case. */
    method ListRecipes() returns (order: seq<nat>)
      ensures IsListing(View(), order)
    {
      hide NameLess, Place;
      order := [];
      var todo := cards.Keys;
      while todo != {}
        invariant todo <= cards.Keys
        invariant forall id :: id in order <==> id in cards && id !in todo
        invariant forall i, j :: 0 <= i < j < |order| ==> order[i] != order[j]
        invariant ByName(cards, order)
        decreases |todo|
      {
        var id :| id in todo;
        todo := todo - {id};
        PlaceKeeps(cards, order, id);
        forall x
          ensures x in Place(cards, order, id) <==> x == id || x in order
        {
          PlaceContents(cards, order, id, x);
        }
        order := Place(cards, order, id);
      }
    }

    method Export() returns (out: seq<Body>)
      ensures exists order :: IsListing(View(), order) && out == BodiesOf(View(), order)
    {
      var order := ListRecipes();
      out := [];
      var i := 0;
      while i < |order|
        invariant 0 <= i <= |order| && |out| == i
        invariant forall j :: 0 <= j < i ==> out[j] == cards[order[j]].body
      {
        out := out + [cards[order[i]].body];
        i := i + 1;
      }
      assert out == BodiesOf(View(), order);
    }
  }

  ghost predicate Tallied(report: Report) {
    && report.imported == Count(report.items, Imported) && report.incomplete == Count(report.items, Incomplete)
    && report.skipped == Count(report.items, Skipped) && report.errors == Count(report.items, Failed)
  }

  /** One more line of the report. */
  method Add(report: Report, status: Status) returns (r: Report)
    requires Tallied(report)
    ensures Tallied(r) && r.items == report.items + [status]
  {
    Tally(report.items, status);
    r := report.(items := report.items + [status]);
    match status {
      case Imported => r := r.(imported := r.imported + 1);
      case Incomplete => r := r.(incomplete := r.incomplete + 1);
      case Skipped => r := r.(skipped := r.skipped + 1);
      case Failed => r := r.(errors := r.errors + 1);
    }
  }

  lemma Tally(items: seq<Status>, status: Status)
    ensures forall x :: Count(items + [status], x) == Count(items, x) + if status == x then 1 else 0
  {
    assert (items + [status])[..|items|] == items;
  }

  lemma NothingTallied()
    ensures Tallied(Report(0, 0, 0, 0, []))
  {
  }

  lemma TalliedSum(report: Report)
    requires Tallied(report)
    ensures var items := report.items;
      && report.imported == Count(items, Imported) && report.incomplete == Count(items, Incomplete)
      && report.skipped == Count(items, Skipped) && report.errors == Count(items, Failed)
      && report.imported + report.incomplete + report.skipped + report.errors == |items|
  {
    CountersSum(report.items);
  }

  lemma EditableIsReady(rules: Rules, body: Body)
    requires Editable(rules, Trimmed(body))
    ensures ReadyToImport(rules, Trimmed(body))
  {
    hide Trim, Valid, Complete;
    TrimTwice(body.name);
  }

  // ---- The listing ----

  function Lower(s: string): string {
    if s == [] then [] else [if 'A' <= s[0] <= 'Z' then (s[0] as int + 32) as char else s[0]] + Lower(s[1..])
  }

  predicate NameLess(cards: map<nat, Card>, a: nat, b: nat)
    requires a in cards && b in cards
  {
    Lex.Less(Lower(cards[a].body.name), Lower(cards[b].body.name))
  }

  ghost predicate ByName(cards: map<nat, Card>, order: seq<nat>) {
    && (forall i :: 0 <= i < |order| ==> order[i] in cards)
    && forall i, j :: 0 <= i < j < |order| ==> !NameLess(cards, order[j], order[i])
  }

  ghost predicate IsListing(s: Shelf, order: seq<nat>) {
    && (forall id :: id in order <==> id in s.cards)
    && (forall i, j :: 0 <= i < j < |order| ==> order[i] != order[j])
    && ByName(s.cards, order)
  }

  /** Insertion before the first recipe that comes after it. */
  function Place(cards: map<nat, Card>, order: seq<nat>, id: nat): seq<nat>
    requires id in cards && forall i :: 0 <= i < |order| ==> order[i] in cards
  {
    if order == [] || NameLess(cards, id, order[0]) then [id] + order
    else [order[0]] + Place(cards, order[1..], id)
  }

  lemma {:induction false} PlaceContents(cards: map<nat, Card>, order: seq<nat>, id: nat, x: nat)
    requires id in cards && forall i :: 0 <= i < |order| ==> order[i] in cards
    ensures x in Place(cards, order, id) <==> x == id || x in order
  {
    hide NameLess;
    if order != [] && !NameLess(cards, id, order[0]) {
      PlaceContents(cards, order[1..], id, x);
    }
  }

  /** Inserting keeps the order by name, and keeps ids apart. */
  lemma {:induction false} PlaceKeeps(cards: map<nat, Card>, order: seq<nat>, id: nat)
    requires ByName(cards, order) && id in cards && id !in order
    requires forall i, j :: 0 <= i < j < |order| ==> order[i] != order[j]
    ensures ByName(cards, Place(cards, order, id))
    ensures var r := Place(cards, order, id);
      forall i, j :: 0 <= i < j < |r| ==> r[i] != r[j]
  {
    hide NameLess;
    if order == [] {
    } else if NameLess(cards, id, order[0]) {
      forall j | 0 <= j < |order|
        ensures !NameLess(cards, order[j], id)
      {
        NameLessOrders(cards, order[j], id, order[0]);
      }
    } else {
      var rest := Place(cards, order[1..], id);
      PlaceKeeps(cards, order[1..], id);
      forall j | 0 <= j < |rest|
        ensures rest[j] in cards && !NameLess(cards, rest[j], order[0]) && rest[j] != order[0]
      {
        PlaceContents(cards, order[1..], id, rest[j]);
      }
    }
  }

  lemma NameLessOrders(cards: map<nat, Card>, a: nat, b: nat, c: nat)
    requires a in cards && b in cards && c in cards
    ensures NameLess(cards, a, b) && NameLess(cards, b, c) ==> NameLess(cards, a, c)
    ensures !NameLess(cards, a, a)
  {
    var x, y, z := Lower(cards[a].body.name), Lower(cards[b].body.name), Lower(cards[c].body.name);
    Lex.Irreflexive(x);
    if Lex.Less(x, y) && Lex.Less(y, z) {
      Lex.Transitive(x, y, z);
    }
  }

  function BodiesOf(s: Shelf, order: seq<nat>): seq<Body>
    requires forall i :: 0 <= i < |order| ==> order[i] in s.cards
  {
    seq(|order|, i requires 0 <= i < |order| => s.cards[order[i]].body)
  }

  // ---- Export and import ----

  const NEVER: nat -> bool := (_ => false)

  /** The shelf that the first k recipes of a listing make, in that order. */
  ghost predicate Copied(s: Shelf, order: seq<nat>, k: nat, copy: Shelf)
    requires k <= |order| && forall i :: 0 <= i < |order| ==> order[i] in s.cards
  {
    && copy.nextId == k + 1
    && (forall id :: id in copy.cards <==> 1 <= id <= k)
    && (forall i :: 0 <= i < k ==> copy.cards[i + 1] == s.cards[order[i]])
  }

  lemma NoConflict(rules: Rules, s: Shelf, order: seq<nat>, k: nat, copy: Shelf)
    requires Sound(s) && IsListing(s, order) && k < |order| && Copied(s, order, k, copy)
    ensures var card := s.cards[order[k]];
      CardOf(card.body) == card && ConflictOf(rules, copy, card.body, None) == None
  {
    hide ByName, Fingerprint.HashedText;
    var card := s.cards[order[k]];
    assert CardOf(card.body) == card;
    forall id | id in copy.cards
      ensures copy.cards[id].body.name != card.body.name && (card.hash.Some? ==> copy.cards[id].hash != card.hash)
    {
      assert copy.cards[id] == s.cards[order[id - 1]] by {
        assert 0 <= id - 1 < k && copy.cards[(id - 1) + 1] == s.cards[order[id - 1]];
      }
      assert order[id - 1] != order[k];
    }
  }

  lemma CopyOne(rules: Rules, s: Shelf, order: seq<nat>, k: nat, copy: Shelf)
    requires Sound(s) && Presentable(rules, s) && IsListing(s, order) && k < |order| && Copied(s, order, k, copy)
    ensures var (next, status) := ImportOne(rules, copy, s.cards[order[k]].body, false);
      && Copied(s, order, k + 1, next)
      && status == if s.cards[order[k]].hash.Some? then Imported else Incomplete
  {
    hide Acceptable, Trimmed, Fingerprint.HashedText, ConflictOf, ByName, Complete;
    var card := s.cards[order[k]];
    NoConflict(rules, s, order, k, copy);
    HashMeansComplete(card.body.fields);
    assert ReadyToImport(rules, card.body);
  }

  lemma HashMeansComplete(f: Fields)
    ensures Fingerprint.HashedText(f).Some? <==> Complete(f)
  {
    hide Complete;
  }

  lemma ListingIds(s: Shelf, order: seq<nat>)
    requires IsListing(s, order)
    ensures forall i :: 0 <= i < |order| ==> order[i] in s.cards
  {
  }

  lemma NothingCopied(s: Shelf, order: seq<nat>)
    requires forall i :: 0 <= i < |order| ==> order[i] in s.cards
    ensures Copied(s, order, 0, Shelf(map[], 1))
  {
  }

  /** Importing an export of at most a thousand recipes into an empty library
      gives the same cards, numbered in the order of the export, without skip or
      error: the complete ones imported, the others reported incomplete. */
  lemma {:induction false} ExportImports(rules: Rules, s: Shelf, order: seq<nat>, k: nat)
    requires Sound(s) && Presentable(rules, s) && IsListing(s, order) && k <= |order|
    ensures var entries := BodiesOf(s, order);
      var empty := Shelf(map[], 1);
      && Copied(s, order, k, ImportFirst(rules, empty, entries, NEVER, k))
      && (forall i :: 0 <= i < k ==> Statuses(rules, empty, entries, NEVER, k)[i] == if s.cards[order[i]].hash.Some? then Imported else Incomplete)
  {
    hide Sound, Presentable, ImportOne, IsListing, Copied, CardOf;
    assert forall i :: 0 <= i < |order| ==> order[i] in s.cards by { ListingIds(s, order); }
    if k == 0 {
      NothingCopied(s, order);
    } else {
      ExportImports(rules, s, order, k - 1);
      var entries := BodiesOf(s, order);
      var empty := Shelf(map[], 1);
      CopyOne(rules, s, order, k - 1, ImportFirst(rules, empty, entries, NEVER, k - 1));
    }
  }

  /** An entry that was looked at would not be stored any more. */
  ghost predicate Settled(rules: Rules, s: Shelf, e: Body) {
    var c := WithoutBadLink(rules, Trimmed(e));
    !Acceptable(Trimmed(e)) || ConflictOf(rules, s, c, None).Some?
  }

  lemma ImportOneSettles(rules: Rules, s: Shelf, e: Body)
    requires forall id :: id in s.cards ==> id < s.nextId
    ensures var t := ImportOne(rules, s, e, false).0;
      && Settled(rules, t, e)
      && (forall id :: id in t.cards ==> id < t.nextId)
      && (forall id :: id in s.cards ==> id in t.cards && t.cards[id] == s.cards[id])
  {
    hide Acceptable, Trimmed, WithoutBadLink, Fingerprint.HashedText, Complete;
    var c := WithoutBadLink(rules, Trimmed(e));
    if Acceptable(Trimmed(e)) && ConflictOf(rules, s, c, None).None? {
      var t := Inserted(s, c);
      assert t.cards[s.nextId].body.name == c.name;
      assert HasName(t, c.name, None);
    }
  }

  /** What is settled stays so while cards are only added. */
  lemma SettledStays(rules: Rules, s: Shelf, t: Shelf, e: Body)
    requires Settled(rules, s, e) && forall id :: id in s.cards ==> id in t.cards && t.cards[id] == s.cards[id]
    ensures Settled(rules, t, e)
  {
    hide Acceptable, Trimmed, WithoutBadLink, Fingerprint.HashedText;
    var c := WithoutBadLink(rules, Trimmed(e));
    if Acceptable(Trimmed(e)) {
      if HasName(s, c.name, None) {
        var id :| id in s.cards && s.cards[id].body.name == c.name;
        assert id in t.cards && t.cards[id].body.name == c.name;
      } else {
        var id :| id in s.cards && s.cards[id].hash == CardOf(c).hash;
        assert id in t.cards && t.cards[id].hash == CardOf(c).hash;
      }
    }
  }

  lemma {:induction false} AllSettled(rules: Rules, s: Shelf, entries: seq<Body>, k: nat)
    requires k <= |entries| && forall id :: id in s.cards ==> id < s.nextId
    ensures var t := ImportFirst(rules, s, entries, NEVER, k);
      && (forall id :: id in t.cards ==> id < t.nextId)
      && forall i :: 0 <= i < k ==> Settled(rules, t, entries[i])
  {
    hide ImportOne, Settled;
    if k > 0 {
      AllSettled(rules, s, entries, k - 1);
      var before := ImportFirst(rules, s, entries, NEVER, k - 1);
      ImportOneSettles(rules, before, entries[k - 1]);
      var t := ImportOne(rules, before, entries[k - 1], false).0;
      forall i | 0 <= i < k - 1
        ensures Settled(rules, t, entries[i])
      {
        SettledStays(rules, before, t, entries[i]);
      }
    }
  }

  lemma SettledChangesNothing(rules: Rules, s: Shelf, e: Body)
    requires Settled(rules, s, e)
    ensures ImportOne(rules, s, e, false).0 == s && ImportOne(rules, s, e, false).1 in [Skipped, Failed]
  {
    hide Acceptable, Trimmed, WithoutBadLink, ConflictOf;
  }

  /** Importing any file a second time changes nothing: every entry is skipped or
      reported as an error. */
  lemma {:induction false} ImportTwice(rules: Rules, s: Shelf, entries: seq<Body>, k: nat)
    requires k <= |entries| && forall id :: id in s.cards ==> id < s.nextId
    ensures var once := ImportFirst(rules, s, entries, NEVER, |entries|);
      && ImportFirst(rules, once, entries, NEVER, k) == once
      && (k < |entries| ==> StatusOf(rules, once, entries, NEVER, k) in [Skipped, Failed])
  {
    hide ImportOne, Settled;
    AllSettled(rules, s, entries, |entries|);
    var once := ImportFirst(rules, s, entries, NEVER, |entries|);
    if k > 0 {
      ImportTwice(rules, s, entries, k - 1);
      SettledChangesNothing(rules, once, entries[k - 1]);
    }
    if k < |entries| {
      SettledChangesNothing(rules, once, entries[k]);
    }
  }
}
