/** Purges can be repeated: whatever fails on the way, the state the decisions
    call for stays reachable, and one purge without failures reaches it. */
module PurgeConverges {
  import opened Wrappers
  import opened CatalogStore
  import opened World
  import opened Purge
  import Listing

  /** The keys recorded by the rows at the given bases. */
  ghost function KeysAt(w: World, bases: set<string>): set<string> {
    set b, k | b in bases && b in w.table.rows && k in Recorded(w.table.rows[b]) :: k
  }

  /** The world the present decisions call for: every rejected photo erased, from
      the bucket, the thumbnails, the catalog and the albums. */
  ghost function Target(w: World): World {
    var doomed := DiscardedBases(w);
    DeleteRows(RemoveThumbs(EraseObjects(w, KeysAt(w, doomed)), PathsOf(w, doomed)), doomed)
  }

  /** The list still describes the rows it names. */
  ghost predicate Describes(w: World, photos: seq<Doomed>) {
    forall d :: d in photos && d.keyBase in w.table.rows ==> d == Doom(d.keyBase, w.table.rows[d.keyBase])
  }

  /** The same world with these thumbnail files besides. */
  function Leave(w: World, paths: set<string>): World {
    w.(thumbs := w.thumbs + paths)
  }

  /** What a batch leaves behind for good: the thumbnails of the photos it erased
      that were there and could not be removed, but for those that a photo yet to
      be erased has too. */
  ghost function LeftBehind(w: World, e: End, f: Faults): set<string> {
    PathSet(e.erased) * f.stuck * w.thumbs - PathsOf(e.w, DiscardedBases(e.w))
  }

  /** The target is as it was but for what was left behind, which is nothing the
      target had. */
  ghost predicate Moved(w: World, t: World, left: set<string>) {
    Target(t) == Leave(Target(w), left) && left !! Target(w).thumbs
  }

  /** No decision is changed while the batch is worked on. */
  predicate Undisturbed(f: Faults) {
    f.before == [] && f.during == []
  }

  /** Nothing fails and nobody cancels. */
  predicate Clean(f: Faults) {
    Undisturbed(f) && !f.cancelledBefore && f.recheckErr.None? && f.answer == Answered(map[]) && f.stuck == {} && f.storeErr.None?
  }

  // ---- Each step keeps the target ----

  lemma EraseKeepsTarget(w: World, gone: set<string>)
    requires gone <= KeysAt(w, DiscardedBases(w))
    ensures Target(EraseObjects(w, gone)) == Target(w)
  {
    var t := EraseObjects(w, gone);
    assert DiscardedBases(t) == DiscardedBases(w);
    assert KeysAt(t, DiscardedBases(t)) == KeysAt(w, DiscardedBases(w));
    assert Target(t).bucket == Target(w).bucket;
  }

  lemma UnthumbKeepsTarget(w: World, paths: set<string>)
    requires paths <= PathsOf(w, DiscardedBases(w))
    ensures Target(RemoveThumbs(w, paths)) == Target(w)
  {
    var t := RemoveThumbs(w, paths);
    assert DiscardedBases(t) == DiscardedBases(w);
    assert PathsOf(t, DiscardedBases(t)) == PathsOf(w, DiscardedBases(w));
    assert Target(t).thumbs == Target(w).thumbs;
  }

  lemma KeysSplit(w: World, all: set<string>, bases: set<string>)
    requires bases <= all
    ensures KeysAt(w, all) == KeysAt(w, bases) + KeysAt(DeleteRows(w, bases), all - bases)
    ensures PathsOf(w, all) == PathsOf(w, bases) + PathsOf(DeleteRows(w, bases), all - bases)
    ensures Ids(w.table, all) == Ids(w.table, bases) + Ids(DeleteRows(w, bases).table, all - bases)
  {
    hide Recorded, Paths, Doom;
    var t := DeleteRows(w, bases);
    assert forall b :: b in all - bases && b in w.table.rows ==> b in t.table.rows && t.table.rows[b] == w.table.rows[b];
    forall k | k in KeysAt(w, all)
      ensures k in KeysAt(w, bases) + KeysAt(t, all - bases)
    {
      var b :| b in all && b in w.table.rows && k in Recorded(w.table.rows[b]);
      assert b in bases || k in Recorded(t.table.rows[b]);
    }
    forall p | p in PathsOf(w, all)
      ensures p in PathsOf(w, bases) + PathsOf(t, all - bases)
    {
      var b :| b in all && b in w.table.rows && p in Paths(Doom(b, w.table.rows[b]));
      assert b in bases || p in Paths(Doom(b, t.table.rows[b]));
    }
    forall id | id in Ids(w.table, all)
      ensures id in Ids(w.table, bases) + Ids(t.table, all - bases)
    {
      var b :| b in all && b in w.table.rows && w.table.rows[b].id == id;
      assert b in bases || t.table.rows[b].id == id;
    }
  }

  lemma CascadeTwice(albums: map<nat, set<nat>>, a: set<nat>, b: set<nat>)
    ensures Cascade(Cascade(albums, a), b) == Cascade(albums, a + b)
  {
    assert forall x :: x in albums ==> albums[x] - a - b == albums[x] - (a + b);
  }

  lemma NotMoved(w: World, t: World)
    requires Target(t) == Target(w)
    ensures Moved(w, t, {})
  {
    hide Target;
    assert Target(w).thumbs + {} == Target(w).thumbs;
  }

  lemma MovedOn(w: World, m: World, t: World, a: set<string>, b: set<string>)
    requires Moved(w, m, a) && Moved(m, t, b)
    ensures Moved(w, t, a + b)
  {
    hide Target;
    assert Target(w).thumbs + a + b == Target(w).thumbs + (a + b);
  }

  /** Rows may go once their originals are gone; thumbnails that are still there
      stay, unless another rejected row has them. */
  lemma DropKeepsTarget(w: World, bases: set<string>)
    requires bases <= DiscardedBases(w) && KeysAt(w, bases) !! w.bucket.Keys
    ensures var t := DeleteRows(w, bases);
      Moved(w, t, PathsOf(w, bases) * w.thumbs - PathsOf(t, DiscardedBases(t)))
  {
    hide Recorded, Paths, Doom, KeysAt, PathsOf, Ids, Cascade;
    var t := DeleteRows(w, bases);
    var all := DiscardedBases(w);
    assert DiscardedBases(t) == all - bases;
    KeysSplit(w, all, bases);
    CascadeTwice(w.albums, Ids(w.table, bases), Ids(t.table, all - bases));
    assert Target(t).bucket == Target(w).bucket;
    assert Target(t).table.rows == Target(w).table.rows;
    assert Target(t).thumbs == Target(w).thumbs + (PathsOf(w, bases) * w.thumbs - PathsOf(t, DiscardedBases(t)));
  }

  // ---- A batch keeps the target ----

  /** Described photos that are still rejected. */
  ghost predicate Rejected(w: World, ds: seq<Doomed>) {
    Describes(w, ds) && forall d :: d in ds ==> StillDiscarded(w, d.keyBase)
  }

  lemma RejectedOwns(w: World, ds: seq<Doomed>)
    requires Rejected(w, ds)
    ensures BaseSet(ds) <= DiscardedBases(w)
    ensures KeySet(ds) == KeysAt(w, BaseSet(ds)) && KeysAt(w, BaseSet(ds)) <= KeysAt(w, DiscardedBases(w))
    ensures PathSet(ds) == PathsOf(w, BaseSet(ds)) && PathsOf(w, BaseSet(ds)) <= PathsOf(w, DiscardedBases(w))
  {
    hide Paths;
    assert forall d :: d in ds ==> Keys(d) == Recorded(w.table.rows[d.keyBase]) && d == Doom(d.keyBase, w.table.rows[d.keyBase]);
  }

  lemma RowsKeepTarget(w: World, survivors: seq<Doomed>, events: seq<Event>, f: Faults)
    requires Rejected(w, survivors) && KeySet(survivors) !! w.bucket.Keys && Undisturbed(f)
    ensures var e := EraseRows(w, survivors, events, f);
      && Moved(w, e.w, LeftBehind(w, e, f))
      && e.erased == (if f.storeErr.Some? then [] else survivors) && e.w.table.rows == w.table.rows - BaseSet(e.erased)
  {
    hide Target, KeySet, PathSet, KeysAt, PathsOf, Rejected, DiscardedBases, AllDone, AllFailed, Moved, EraseRows;
    var e := EraseRows(w, survivors, events, f);
    RowsErased(w, survivors, events, f);
    if survivors == [] {
      NothingLeft(w, e, f);
    } else {
      RejectedOwns(w, survivors);
      UnthumbKeepsTarget(w, PathSet(survivors) - f.stuck);
      var w1 := RemoveThumbs(w, PathSet(survivors) - f.stuck);
      SameRows(w, w1, BaseSet(survivors));
      if f.storeErr.Some? {
        NothingLeft(w, e, f);
      } else {
        DropKeepsTarget(w1, BaseSet(survivors));
        assert PathSet(survivors) * w1.thumbs == PathSet(survivors) * f.stuck * w.thumbs;
        SameTarget(w, w1, e.w, LeftBehind(w, e, f));
      }
    }
  }

  /** The steps of `EraseRows` without decisions. */
  lemma RowsErased(w: World, survivors: seq<Doomed>, events: seq<Event>, f: Faults)
    requires Undisturbed(f)
    ensures var e := EraseRows(w, survivors, events, f);
      && e.erased == (if f.storeErr.Some? then [] else survivors)
      && (survivors == [] ==> e.w == w)
      && (survivors != [] ==> var w1 := RemoveThumbs(w, PathSet(survivors) - f.stuck);
            e.w == if f.storeErr.Some? then w1 else DeleteRows(w1, BaseSet(survivors)))
      && e.w.table.rows == w.table.rows - BaseSet(e.erased)
  {
    hide PathSet, AllDone, AllFailed;
  }

  lemma NothingLeft(w: World, e: End, f: Faults)
    requires e.erased == [] && Target(e.w) == Target(w)
    ensures Moved(w, e.w, LeftBehind(w, e, f))
  {
    hide Target, Moved;
    assert PathSet([]) == {};
    assert LeftBehind(w, e, f) == {};
    NotMoved(w, e.w);
  }

  lemma SameTarget(w: World, m: World, t: World, left: set<string>)
    requires Target(m) == Target(w) && Moved(m, t, left)
    ensures Moved(w, t, left)
  {
    hide Target;
  }

  lemma SameRows(w: World, t: World, bases: set<string>)
    requires t.table == w.table
    ensures KeysAt(t, bases) == KeysAt(w, bases) && PathsOf(t, bases) == PathsOf(w, bases) && DiscardedBases(t) == DiscardedBases(w)
  {
  }

  lemma LiveKeepsTarget(w: World, live: seq<Doomed>, events: seq<Event>, f: Faults)
    requires Rejected(w, live) && Undisturbed(f)
    ensures var e := EraseLive(w, live, events, f);
      && Moved(w, e.w, LeftBehind(w, e, f)) && e.w.table.rows == w.table.rows - BaseSet(e.erased)
      && (Clean(f) ==> e.erased == live && !e.cancelled)
  {
    hide Target, KeysAt, PathsOf, DiscardedBases, AllDone, AllFailed, Refusals, EraseRows, Moved, LeftBehind;
    var e := EraseLive(w, live, events, f);
    if live == [] {
      NothingLeft(w, e, f);
    } else {
      RejectedOwns(w, live);
      match f.answer
      case CallFailed(gone, msg) =>
        EraseKeepsTarget(w, gone * KeySet(live));
        NothingLeft(w, e, f);
      case Answered(refused) =>
        EraseKeepsTarget(w, KeySet(live) - refused.Keys);
        SurvivorsMean(live, refused);
        var survivors := Survivors(live, refused);
        var w1 := EraseObjects(w, KeySet(live) - refused.Keys);
        forall k | k in KeySet(survivors)
          ensures k !in w1.bucket
        {
          var d :| d in survivors && k in Keys(d);
          assert d in live && k in KeySet(live) && k !in refused;
        }
        RowsKeepTarget(w1, survivors, events + Refusals(live, refused), f);
        assert LeftBehind(w, e, f) == LeftBehind(w1, e, f) by { SameThumbsLeft(w, w1, e, f); }
        SameTarget(w, w1, e.w, LeftBehind(w1, e, f));
        if Clean(f) {
          AllSurvive(live);
          RowsNotCancelled(w1, survivors, events + Refusals(live, refused), f);
        }
    }
  }

  lemma SameThumbsLeft(w: World, m: World, e: End, f: Faults)
    requires m.thumbs == w.thumbs
    ensures LeftBehind(m, e, f) == LeftBehind(w, e, f)
  {
  }

  lemma {:induction false} AllSurvive(ds: seq<Doomed>)
    ensures Survivors(ds, map[]) == ds
  {
    hide Refuses;
    if ds != [] {
      var n := |ds| - 1;
      AllSurvive(ds[..n]);
      assert !Refuses(map[], ds[n]) by { NothingRefused(ds[n]); }
      assert ds == ds[..n] + [ds[n]];
    }
  }

  lemma NothingRefused(d: Doomed)
    ensures !Refuses(map[], d)
  {
  }

  lemma RowsNotCancelled(w: World, survivors: seq<Doomed>, events: seq<Event>, f: Faults)
    ensures !EraseRows(w, survivors, events, f).cancelled
  {
  }

  /** A batch, with any failures: the target stays but for the thumbnails left
      behind, and the rows lost are exactly those of the photos reported as
      erased. */
  lemma BatchKeepsTarget(w: World, batch: seq<Doomed>, f: Faults)
    requires Describes(w, batch) && Undisturbed(f)
    ensures var e := RunBatch(w, batch, f);
      && Moved(w, e.w, LeftBehind(w, e, f)) && e.w.table.rows == w.table.rows - BaseSet(e.erased)
      && (Clean(f) ==> !e.cancelled && forall d :: d in e.erased <==> d in batch && StillDiscarded(w, d.keyBase))
  {
    hide Target, EraseLive, Spared, AllFailed, Moved, LeftBehind;
    var e := RunBatch(w, batch, f);
    if f.cancelledBefore || f.recheckErr.Some? {
      NothingLeft(w, e, f);
    } else {
      LiveMeans(w, batch);
      LiveKeepsTarget(w, Live(w, batch), Spared(w, batch), f);
    }
  }

  /** When no two rows have a thumbnail in common, a batch leaves behind exactly the
      thumbnails of the photos it erased that were there and could not be removed. */
  lemma LeftExactly(w: World, batch: seq<Doomed>, f: Faults)
    requires Describes(w, batch) && Undisturbed(f) && OwnThumbs(w)
    ensures var e := RunBatch(w, batch, f);
      LeftBehind(w, e, f) == PathSet(e.erased) * f.stuck * w.thumbs
  {
    hide Target, RunBatch, Moved, Describes;
    var e := RunBatch(w, batch, f);
    BatchKeepsTarget(w, batch, f);
    ErasedOwnThumbs(w, batch, f);
    forall p | p in PathSet(e.erased) && p in PathsOf(e.w, DiscardedBases(e.w))
      ensures false
    {
      var d :| d in e.erased && p in Paths(d);
      var b :| b in DiscardedBases(e.w) && p in Paths(Doom(b, e.w.table.rows[b]));
      assert b in w.table.rows && b !in BaseSet(e.erased);
      ThumbPathInjective(b, d.keyBase);
    }
  }

  lemma ErasedOwnThumbs(w: World, batch: seq<Doomed>, f: Faults)
    requires Describes(w, batch) && Undisturbed(f) && OwnThumbs(w)
    ensures forall d :: d in RunBatch(w, batch, f).erased ==> Paths(d) == {ThumbPath(d.keyBase)}
  {
    hide AllFailed, Spared, Refusals, AllDone, KeySet, PathSet, BaseSet, DeleteRows, ThumbPath;
    LiveMeans(w, batch);
    if f.answer.Answered? {
      SurvivorsMean(Live(w, batch), f.answer.refused);
    }
  }

  // ---- A purge keeps the target ----

  /** What the batches of a purge leave behind. */
  ghost function LeftByPurge(w: World, photos: seq<Doomed>, faults: nat -> Faults, b: nat): set<string>
    decreases |photos|
  {
    if photos == [] then {}
    else
      var batch := Take(photos);
      var e := RunBatch(w, batch, faults(b));
      LeftBehind(w, e, faults(b)) + if e.cancelled then {} else LeftByPurge(e.w, photos[|batch|..], faults, b + 1)
  }

  lemma {:induction false} PurgeKeepsTarget(w: World, photos: seq<Doomed>, faults: nat -> Faults, b: nat)
    requires Describes(w, photos) && forall n: nat :: Undisturbed(faults(n))
    ensures var e := RunPurge(w, photos, faults, b);
      && Moved(w, e.w, LeftByPurge(w, photos, faults, b)) && e.w.table.rows == w.table.rows - BaseSet(e.erased)
      && ((forall n: nat :: Clean(faults(n))) ==> !e.cancelled && forall d :: d in photos && StillDiscarded(w, d.keyBase) ==> d in e.erased)
    decreases |photos|
  {
    hide Target, RunBatch, Take, Clean, Undisturbed, Doom, Moved, LeftBehind;
    if photos == [] {
      NotMoved(w, w);
    } else {
      TakeSome(photos);
      var batch := Take(photos);
      var rest := photos[|batch|..];
      assert photos == batch + rest;
      var e := RunBatch(w, batch, faults(b));
      BatchKeepsTarget(w, batch, faults(b));
      var left := LeftBehind(w, e, faults(b));
      assert left + {} == left;
      if !e.cancelled {
        PurgeKeepsTarget(e.w, rest, faults, b + 1);
        var r := RunPurge(e.w, rest, faults, b + 1);
        MovedOn(w, e.w, r.w, left, LeftByPurge(e.w, rest, faults, b + 1));
        assert BaseSet(e.erased + r.erased) == BaseSet(e.erased) + BaseSet(r.erased);
        if forall n: nat :: Clean(faults(n)) {
          forall d | d in photos && StillDiscarded(w, d.keyBase)
            ensures d in e.erased + r.erased
          {
          }
        }
      }
    }
  }

  /** Where every removal succeeds nothing is left behind. */
  lemma {:induction false} NothingStuck(w: World, photos: seq<Doomed>, faults: nat -> Faults, b: nat)
    requires forall n: nat :: faults(n).stuck == {}
    ensures LeftByPurge(w, photos, faults, b) == {}
    decreases |photos|
  {
    hide RunBatch, Take;
    if photos != [] {
      TakeSome(photos);
      var e := RunBatch(w, Take(photos), faults(b));
      NothingStuck(e.w, photos[|Take(photos)|..], faults, b + 1);
    }
  }

  // ---- Replay ----

  /** One purge as it was asked for: the pile listed at its start, and its fate. */
  datatype Attempt = Attempt(photos: seq<Doomed>, faults: nat -> Faults)

  ghost function AfterAttempts(w: World, attempts: seq<Attempt>): World {
    if attempts == [] then w
    else
      var last := attempts[|attempts| - 1];
      RunPurge(AfterAttempts(w, attempts[..|attempts| - 1]), last.photos, last.faults, 0).w
  }

  /** Every purge lists the pile it finds, and nobody changes a decision. */
  ghost predicate Proper(w: World, attempts: seq<Attempt>) {
    forall n :: 0 <= n < |attempts| ==>
      IsDiscardPile(AfterAttempts(w, attempts[..n]), attempts[n].photos)
      && forall b: nat :: Undisturbed(attempts[n].faults(b))
  }

  /** What the purges leave behind, all together. */
  ghost function LeftByAttempts(w: World, attempts: seq<Attempt>): set<string> {
    if attempts == [] then {}
    else
      var n := |attempts| - 1;
      LeftByAttempts(w, attempts[..n]) + LeftByPurge(AfterAttempts(w, attempts[..n]), attempts[n].photos, attempts[n].faults, 0)
  }

  lemma PileDescribes(w: World, photos: seq<Doomed>)
    requires IsDiscardPile(w, photos)
    ensures Describes(w, photos) && DiscardedBases(w) == BaseSet(photos)
  {
    hide Doom;
    forall k | k in DiscardedBases(w)
      ensures k in BaseSet(photos)
    {
      var i :| 0 <= i < |photos| && photos[i].keyBase == k;
      assert photos[i] in photos;
    }
  }

  lemma {:induction false} AttemptsKeepTarget(w: World, attempts: seq<Attempt>)
    requires Proper(w, attempts)
    ensures Moved(w, AfterAttempts(w, attempts), LeftByAttempts(w, attempts))
  {
    hide Target, Undisturbed, IsDiscardPile, Moved;
    if attempts == [] {
      NotMoved(w, w);
    } else {
      var n := |attempts| - 1;
      forall m | 0 <= m < n
        ensures attempts[..n][..m] == attempts[..m]
      {
      }
      var before := AfterAttempts(w, attempts[..n]);
      AttemptsKeepTarget(w, attempts[..n]);
      PileDescribes(before, attempts[n].photos);
      PurgeKeepsTarget(before, attempts[n].photos, attempts[n].faults, 0);
      MovedOn(w, before, AfterAttempts(w, attempts), LeftByAttempts(w, attempts[..n]),
              LeftByPurge(before, attempts[n].photos, attempts[n].faults, 0));
    }
  }

  /** With nothing rejected any more the target is the world itself. */
  lemma NothingLeftToErase(w: World)
    requires DiscardedBases(w) == {}
    ensures Target(w) == w
  {
    assert KeysAt(w, {}) == {} && PathsOf(w, {}) == {} && Ids(w.table, {}) == {};
    assert forall a :: a in w.albums ==> w.albums[a] - {} == w.albums[a];
    assert Cascade(w.albums, {}) == w.albums;
    assert w.bucket - {} == w.bucket && w.table.rows - {} == w.table.rows;
  }

  lemma CleanPurgeReaches(w: World, photos: seq<Doomed>, faults: nat -> Faults)
    requires IsDiscardPile(w, photos) && forall n: nat :: Clean(faults(n))
    ensures RunPurge(w, photos, faults, 0).w == Target(w)
  {
    hide Target, RunPurge, Doom;
    PileDescribes(w, photos);
    PurgeKeepsTarget(w, photos, faults, 0);
    NothingStuck(w, photos, faults, 0);
    assert Target(w).thumbs + {} == Target(w).thumbs;
    var e := RunPurge(w, photos, faults, 0);
    forall k | k in DiscardedBases(w)
      ensures k in BaseSet(e.erased)
    {
      var i :| 0 <= i < |photos| && photos[i].keyBase == k;
      assert photos[i] in e.erased;
    }
    assert DiscardedBases(e.w) <= DiscardedBases(w) - BaseSet(e.erased);
    assert DiscardedBases(e.w) == {};
    NothingLeftToErase(e.w);
  }

  /** After any number of purges, each with its own refused keys, failed calls,
      failed row deletions, thumbnails that could not be removed or cancellation,
      and with unchanged decisions, one purge without failures ends in the same
      bucket, catalog and albums as one purge without failures at the very start,
      and in the same thumbnails together with exactly those left behind. */
  lemma ReplayConverges(w: World, attempts: seq<Attempt>, photos: seq<Doomed>, faults: nat -> Faults,
                        photos0: seq<Doomed>, faults0: nat -> Faults)
    requires Proper(w, attempts)
    requires IsDiscardPile(AfterAttempts(w, attempts), photos) && forall n: nat :: Clean(faults(n))
    requires IsDiscardPile(w, photos0) && forall n: nat :: Clean(faults0(n))
    ensures var end, once := RunPurge(AfterAttempts(w, attempts), photos, faults, 0).w, RunPurge(w, photos0, faults0, 0).w;
      && once == Target(w)
      && end == Leave(once, LeftByAttempts(w, attempts))
      && (end == once <==> LeftByAttempts(w, attempts) == {})
  {
    hide Target, RunPurge, AfterAttempts, LeftByAttempts, Proper, IsDiscardPile, Clean;
    AttemptsKeepTarget(w, attempts);
    CleanPurgeReaches(AfterAttempts(w, attempts), photos, faults);
    CleanPurgeReaches(w, photos0, faults0);
    var left, thumbs := LeftByAttempts(w, attempts), Target(w).thumbs;
    assert left != {} ==> thumbs + left != thumbs;
    assert thumbs + {} == thumbs;
  }

  const NO_FAULTS := Faults(false, [], None, Answered(map[]), false, {}, [], None)

  /** A world of one rejected photo, and what is left of it. */
  function OneRow(k: string, row: Row): World {
    World(map[], Table(map[k := row], row.id + 1), {ThumbPath(k)}, map[])
  }

  function OneGone(k: string, row: Row): World {
    World(map[], Table(map[], row.id + 1), {ThumbPath(k)}, map[])
  }

  /** The purge of that photo, in which nothing fails but the removal of its
      thumbnail. */
  function StuckAttempt(k: string, row: Row): Attempt {
    Attempt([Doom(k, row)], n => NO_FAULTS.(stuck := {ThumbPath(k)}))
  }

  lemma OneLive(w: World, d: Doomed)
    requires StillDiscarded(w, d.keyBase)
    ensures Live(w, [d]) == [d] && Survivors([d], map[]) == [d]
  {
    assert [d][..0] == [];
    NothingRefused(d);
  }

  lemma OneErased(k: string, row: Row)
    requires row.discarded
    ensures var e := RunBatch(OneRow(k, row), [Doom(k, row)], NO_FAULTS.(stuck := {ThumbPath(k)}));
      e.w == OneGone(k, row) && e.erased == [Doom(k, row)] && !e.cancelled
  {
    hide ThumbPath, Live, Survivors, AllDone, Refusals, Spared;
    var w, d := OneRow(k, row), Doom(k, row);
    var f := NO_FAULTS.(stuck := {ThumbPath(k)});
    OneLive(w, d);
    AllSurvive([d]);
    var e := RunBatch(w, [d], f);
    RowsErased(EraseObjects(w, KeySet([d]) - {}), [d], Spared(w, [d]) + Refusals([d], map[]), f);
    OnePath(d, row, k);
    assert e.w.bucket == map[];
    assert e.w.table.rows == map[];
    assert e.w.albums == map[];
  }

  lemma OnePath(d: Doomed, row: Row, k: string)
    requires d == Doom(k, row)
    ensures BaseSet([d]) == {k} && ThumbPath(k) in PathSet([d])
  {
    assert d in [d] && ThumbPath(k) in Paths(d);
  }

  lemma OnePurge(w: World, d: Doomed, faults: nat -> Faults)
    requires !RunBatch(w, [d], faults(0)).cancelled
    ensures RunPurge(w, [d], faults, 0).w == RunBatch(w, [d], faults(0)).w
    ensures LeftByPurge(w, [d], faults, 0) == LeftBehind(w, RunBatch(w, [d], faults(0)), faults(0))
  {
    hide RunBatch, LeftBehind;
    assert [d][1..] == [];
  }

  /** One rejected photo whose thumbnail cannot be removed: its row goes, the file
      stays, and no later purge looks for it. */
  lemma StuckThumbStays(k: string, row: Row)
    requires row.discarded
    ensures var attempt := StuckAttempt(k, row);
      && Proper(OneRow(k, row), [attempt]) && LeftByAttempts(OneRow(k, row), [attempt]) == {ThumbPath(k)}
      && AfterAttempts(OneRow(k, row), [attempt]) == OneGone(k, row) != Target(OneRow(k, row))
  {
    hide ThumbPath, RunBatch, Doom;
    var w, d := OneRow(k, row), Doom(k, row);
    var f := NO_FAULTS.(stuck := {ThumbPath(k)});
    var attempt := StuckAttempt(k, row);
    OneErased(k, row);
    assert d.keyBase == k by { DoomBase(k, row); }
    OnePath(d, row, k);
    assert [attempt][..0] == [];
    assert LeftBehind(w, RunBatch(w, [d], f), f) == {ThumbPath(k)};
    assert attempt.faults(0) == f;
    OnePurge(w, d, attempt.faults);
    AttemptsKeepTarget(w, [attempt]);
  }

  lemma DoomBase(k: string, row: Row)
    ensures Doom(k, row).keyBase == k
  {
  }

  /** A recorded key tells the key base of its row. */
  lemma RecordedBase(row: Row, key: string)
    requires FromBucket(row.photo) && key in Recorded(row)
    ensures Listing.KeyBase(key) == row.photo.keyBase
  {
  }
}
