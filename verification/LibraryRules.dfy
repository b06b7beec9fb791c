/** What the library takes, refuses and reports, told on the documents and cards
    themselves (server/recipes.go:63-86 and 255-342, catalog/recipes.go:83-170). */
module LibraryRules {
  import opened Wrappers
  import opened Recipe
  import opened Library
  import Fingerprint
  import RecipeRules
  import RecipeIdentity
  import Lex

  // ---- Documents ----

  const BLANKS := {' ', '\t', '\n', '\U{000B}', '\U{000C}', '\r'}

  ghost predicate AllBlank(s: string) {
    forall i :: 0 <= i < |s| ==> s[i] in BLANKS
  }

  lemma BlankMeans(c: char)
    ensures IsBlank(c) <==> c in BLANKS
  {
  }

  /** Trimming takes the blanks away at both ends, and only those. */
  lemma TrimMeans(s: string) returns (left: string, right: string)
    ensures AllBlank(left) && AllBlank(right) && s == left + Trim(s) + right
    ensures Trim(s) != "" ==> Trim(s)[0] !in BLANKS && Trim(s)[|Trim(s)| - 1] !in BLANKS
  {
    hide TrimLeft, TrimRight, IsBlank;
    left := LeftOf(s);
    right := RightOf(TrimLeft(s));
    TrimLeftStops(s);
    TrimRightStops(TrimLeft(s));
    var t := Trim(s);
    if t != "" {
      BlankMeans(t[0]);
      BlankMeans(t[|t| - 1]);
      assert t[0] == TrimLeft(s)[0];
    }
  }

  lemma {:induction false} LeftOf(s: string) returns (left: string)
    ensures AllBlank(left) && s == left + TrimLeft(s)
  {
    if s != [] && IsBlank(s[0]) {
      BlankMeans(s[0]);
      var more := LeftOf(s[1..]);
      left := [s[0]] + more;
      assert s == [s[0]] + s[1..];
    } else {
      left := [];
    }
  }

  lemma {:induction false} RightOf(s: string) returns (right: string)
    ensures AllBlank(right) && s == TrimRight(s) + right
  {
    if s != [] && IsBlank(s[|s| - 1]) {
      BlankMeans(s[|s| - 1]);
      var more := RightOf(s[..|s| - 1]);
      right := more + [s[|s| - 1]];
      assert s == s[..|s| - 1] + [s[|s| - 1]];
    } else {
      right := [];
      assert s + [] == s;
    }
  }

  /** The import takes a named document within the limits that says only what is
      allowed. */
  lemma AcceptableExactly(b: Body)
    ensures Acceptable(b) <==>
      && 1 <= |b.name| <= 200 && |b.author| <= 200 && |b.source| <= 200 && |b.authorUrl| <= 500 && |b.notes| <= 10000
      && RecipeRules.Allowed(b.fields)
  {
    hide Valid, RecipeRules.Allowed;
    RecipeRules.ValidExactly(b.fields);
  }

  /** The editor also asks for every setting of a fingerprint, and for a usable link
      or none. */
  lemma EditableExactly(rules: Rules, b: Body)
    ensures Editable(rules, b) <==> Acceptable(b) && RecipeIdentity.Told(b.fields) && (b.authorUrl != "" ==> rules.validUrl(b.authorUrl))
  {
    hide Acceptable, Complete, RecipeIdentity.Told;
    RecipeIdentity.CompleteTold(b.fields);
  }

  /** What becomes of a document: its name is trimmed, and the import drops a link
      that is not usable. */
  lemma CleanedMeans(rules: Rules, b: Body)
    ensures Trimmed(b) == Body(Trim(b.name), b.fields, b.notes, b.author, b.authorUrl, b.source)
    ensures var c := WithoutBadLink(rules, b);
      c == Body(b.name, b.fields, b.notes, b.author, if b.authorUrl != "" && rules.validUrl(b.authorUrl) then b.authorUrl else "", b.source)
  {
    hide Trim;
  }

  // ---- Conflicts ----

  /** Another card has this name. */
  ghost predicate SameName(s: Shelf, b: Body, except: Option<nat>) {
    exists id :: id in s.cards && except != Some(id) && s.cards[id].body.name == b.name
  }

  /** Another card is the same recipe. */
  ghost predicate SameSettings(s: Shelf, b: Body, except: Option<nat>) {
    RecipeIdentity.Told(b.fields)
    && exists id :: id in s.cards && except != Some(id) && RecipeIdentity.Told(s.cards[id].body.fields)
         && RecipeIdentity.SameRecipe(s.cards[id].body.fields, b.fields)
  }

  /** No text of a card or of the document has a newline: true of whatever passed
      the checks. */
  ghost predicate OneLined(s: Shelf, b: Body) {
    RecipeIdentity.NoNewlines(b.fields) && forall id :: id in s.cards ==> RecipeIdentity.NoNewlines(s.cards[id].body.fields)
  }

  lemma SameHash(card: Card, b: Body)
    requires card.hash == Fingerprint.HashedText(card.body.fields)
    requires RecipeIdentity.NoNewlines(b.fields) && RecipeIdentity.NoNewlines(card.body.fields)
    ensures CardOf(b).hash.Some? && card.hash == CardOf(b).hash <==>
      RecipeIdentity.Told(b.fields) && RecipeIdentity.Told(card.body.fields) && RecipeIdentity.SameRecipe(card.body.fields, b.fields)
  {
    hide Fingerprint.HashedText, RecipeIdentity.Told, RecipeIdentity.SameRecipe, RecipeIdentity.NoNewlines;
    RecipeIdentity.TextExactly(b.fields);
    RecipeIdentity.TextExactly(card.body.fields);
    if RecipeIdentity.Told(b.fields) && RecipeIdentity.Told(card.body.fields) {
      RecipeIdentity.SameTextExactly(card.body.fields, b.fields);
    }
  }

  /** A write conflicts exactly with another card of that name or of those settings;
      the name is told unless the settings conflict too and come first. */
  lemma ConflictExactly(rules: Rules, s: Shelf, b: Body, except: Option<nat>)
    requires Sound(s) && OneLined(s, b)
    ensures var name, settings := SameName(s, b, except), SameSettings(s, b, except);
      && (ConflictOf(rules, s, b, except) == None <==> !name && !settings)
      && (ConflictOf(rules, s, b, except) == Some(NameTaken) <==> name && !(settings && rules.hashFirst))
      && (ConflictOf(rules, s, b, except) == Some(HashTaken) <==> settings && (!name || rules.hashFirst))
  {
    hide Fingerprint.HashedText, RecipeIdentity.Told, RecipeIdentity.SameRecipe, RecipeIdentity.NoNewlines, CardOf;
    assert HasName(s, b.name, except) <==> SameName(s, b, except);
    HashExactly(s, b, except);
  }

  lemma HashExactly(s: Shelf, b: Body, except: Option<nat>)
    requires Sound(s) && OneLined(s, b)
    ensures HasHash(s, CardOf(b).hash, except) <==> SameSettings(s, b, except)
  {
    hide Fingerprint.HashedText, RecipeIdentity.Told, RecipeIdentity.SameRecipe, RecipeIdentity.NoNewlines, CardOf;
    forall id | id in s.cards
      ensures CardOf(b).hash.Some? && s.cards[id].hash == CardOf(b).hash <==>
        RecipeIdentity.Told(b.fields) && RecipeIdentity.Told(s.cards[id].body.fields) && RecipeIdentity.SameRecipe(s.cards[id].body.fields, b.fields)
    {
      SameHash(s.cards[id], b);
    }
  }

  // ---- The import ----

  /** One entry: refused, kept out by a conflict, or added as the newest card. */
  lemma EntryMeans(rules: Rules, s: Shelf, e: Body, fails: bool)
    ensures var (t, status) := ImportOne(rules, s, e, fails);
      var c := WithoutBadLink(rules, Trimmed(e));
      && (status == Failed <==> !Acceptable(Trimmed(e)) || fails)
      && (status == Skipped <==> Acceptable(Trimmed(e)) && !fails && ConflictOf(rules, s, c, None) != None)
      && (status in {Failed, Skipped} ==> t == s)
      && (status in {Imported, Incomplete} ==>
            && t.nextId == s.nextId + 1 && t.cards == s.cards[s.nextId := Card(c, Fingerprint.HashedText(c.fields))]
            && (status == Imported <==> RecipeIdentity.Told(c.fields)))
  {
    hide Acceptable, Trimmed, WithoutBadLink, ConflictOf, Fingerprint.HashedText, Complete, RecipeIdentity.Told;
    RecipeIdentity.CompleteTold(WithoutBadLink(rules, Trimmed(e)).fields);
  }

  /** The entries are taken in their order, each one against what those before it
      left; and a file of more than a thousand is refused. */
  lemma EntriesInOrder(rules: Rules, s: Shelf, entries: seq<Body>, fails: nat -> bool, k: nat)
    requires k < |entries|
    ensures ImportFirst(rules, s, entries, fails, 0) == s && MAX_ENTRIES == 1000
    ensures ImportFirst(rules, s, entries, fails, k + 1) == ImportOne(rules, ImportFirst(rules, s, entries, fails, k), entries[k], fails(k)).0
    ensures Statuses(rules, s, entries, fails, k + 1)[k] == ImportOne(rules, ImportFirst(rules, s, entries, fails, k), entries[k], fails(k)).1
    ensures Statuses(rules, s, entries, fails, k + 1)[..k] == Statuses(rules, s, entries, fails, k)
  {
    hide ImportOne;
  }

  /** The lines of the report with this status. */
  ghost function Lines(items: seq<Status>, x: Status): set<nat> {
    set i: nat | i < |items| && items[i] == x
  }

  /** The counters count the lines of the report. */
  lemma {:induction false} CountMeans(items: seq<Status>, x: Status)
    ensures Count(items, x) == |Lines(items, x)|
  {
    hide Lines;
    LinesMore(items, x);
    if items != [] {
      CountMeans(items[..|items| - 1], x);
    }
  }

  lemma LinesMore(items: seq<Status>, x: Status)
    ensures |Lines(items, x)| == if items == [] then 0 else |Lines(items[..|items| - 1], x)| + if items[|items| - 1] == x then 1 else 0
  {
    if items == [] {
      assert Lines(items, x) == {};
    } else {
      var n := |items| - 1;
      assert forall i :: 0 <= i < n ==> items[..n][i] == items[i];
      assert Lines(items, x) == Lines(items[..n], x) + if items[n] == x then {n} else {};
    }
  }

  // ---- The listing ----

  lemma {:induction false} LowerMeans(s: string)
    ensures |Lower(s)| == |s|
    ensures forall i :: 0 <= i < |s| ==> Lower(s)[i] == if 'A' <= s[i] <= 'Z' then (s[i] as int + 32) as char else s[i]
  {
    if s != [] {
      LowerMeans(s[1..]);
    }
  }

  /** No card is listed before one whose name, in small letters, comes first. */
  lemma ListedByName(s: Shelf, order: seq<nat>, i: nat, j: nat)
    requires IsListing(s, order) && i < j < |order|
    ensures order[i] in s.cards && order[j] in s.cards
    ensures !Lex.Less(Lower(s.cards[order[j]].body.name), Lower(s.cards[order[i]].body.name))
  {
    hide Lex.Less, Lower;
    assert !NameLess(s.cards, order[j], order[i]);
  }
}
