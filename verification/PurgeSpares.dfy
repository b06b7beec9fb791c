/** A photo that is not rejected when its batch is rechecked comes through the
    purge untouched, whatever fails and whatever the user decides meanwhile,
    exactly when no rejected row of another photo records something of it. */
module PurgeSpares {
  import opened Wrappers
  import opened CatalogStore
  import opened World
  import opened Purge
  import opened PurgeConverges
  import History
  import Reconciliation
  import Lex
  import Listing

  /** The originals of a photo in the bucket. Those of a row from a local directory
      are files, whatever their names. */
  function Owned(w: World, k: string): set<string>
    requires k in w.table.rows
  {
    if LocalEtag(w.table.rows[k].photo.jpeg.etag) then {} else Recorded(w.table.rows[k]) * w.bucket.Keys
  }

  /** What belongs to the photo stays as it is: its row but for the user's own
      columns, its originals, its thumbnail, its albums. */
  ghost predicate Keeps(w: World, t: World, k: string) {
    && k in w.table.rows && k in t.table.rows
    && t.table.rows[k] == w.table.rows[k].(rating := t.table.rows[k].rating, discarded := t.table.rows[k].discarded)
    && t.bucket.Keys <= w.bucket.Keys && (forall key :: key in Owned(w, k) ==> key in t.bucket && t.bucket[key] == w.bucket[key])
    && (ThumbPath(k) in w.thumbs <==> ThumbPath(k) in t.thumbs)
    && t.albums.Keys == w.albums.Keys
    && (forall a :: a in w.albums ==> (w.table.rows[k].id in t.albums[a] <==> w.table.rows[k].id in w.albums[a]))
  }

  /** No other row has the id of this one. */
  ghost predicate OwnId(w: World, k: string) {
    k in w.table.rows && forall b :: b in w.table.rows && w.table.rows[b].id == w.table.rows[k].id ==> b == k
  }

  /** No other photo of the list records an original of this one, or its
      thumbnail. */
  ghost predicate Apart(w: World, ds: seq<Doomed>, k: string)
    requires k in w.table.rows
  {
    forall d :: d in ds && d.keyBase != k ==>
      Keys(d) !! Owned(w, k) && !(ThumbPath(k) in w.thumbs && ThumbPath(k) in Paths(d))
  }

  ghost predicate Untouched(w: World, t: World, k: string) {
    Keeps(w, t, k) && OwnId(t, k)
  }

  /** Whenever the batch of the photo is rechecked, the photo is not rejected. */
  ghost predicate SparedAtRecheck(w: World, photos: seq<Doomed>, faults: nat -> Faults, b: nat, k: string)
    decreases |photos|
  {
    photos != [] ==>
      var batch := Take(photos);
      var e := RunBatch(w, batch, faults(b));
      && (k in BaseSet(batch) && !faults(b).cancelledBefore && faults(b).recheckErr.None? ==>
            !StillDiscarded(ActAll(w, faults(b).before), k))
      && (!e.cancelled ==> SparedAtRecheck(e.w, photos[|batch|..], faults, b + 1, k))
  }

  lemma Together(w: World, m: World, t: World, k: string)
    requires Untouched(w, m, k) && Untouched(m, t, k)
    ensures Untouched(w, t, k)
  {
    hide ThumbPath, LocalEtag;
  }

  lemma AsItWas(w: World, k: string)
    requires OwnId(w, k)
    ensures Untouched(w, w, k)
  {
    hide ThumbPath, LocalEtag, Recorded;
    match w.table.rows[k]
    case Row(_, _, _, _, _, _) =>
  }

  /** What belongs to the photo only gets less, so others stay apart from it. */
  lemma ApartStays(w: World, t: World, ds: seq<Doomed>, es: seq<Doomed>, k: string)
    requires Keeps(w, t, k) && Apart(w, ds, k) && forall d :: d in es ==> d in ds
    ensures Apart(t, es, k)
  {
    hide ThumbPath, LocalEtag, Keys, Paths;
    assert Owned(t, k) <= Owned(w, k);
  }

  lemma DecisionKeeps(w: World, a: UserAction, k: string)
    requires OwnId(w, k)
    ensures Untouched(w, Act(w, a), k)
  {
    hide ThumbPath, LocalEtag;
  }

  lemma {:induction false} DecisionsKeep(w: World, actions: seq<UserAction>, k: string)
    requires OwnId(w, k)
    ensures Untouched(w, ActAll(w, actions), k)
  {
    hide Keeps, Act;
    if actions == [] {
      AsItWas(w, k);
    } else {
      var n := |actions| - 1;
      DecisionsKeep(w, actions[..n], k);
      DecisionKeeps(ActAll(w, actions[..n]), actions[n], k);
      Together(w, ActAll(w, actions[..n]), ActAll(w, actions), k);
    }
  }

  // ---- What is done to others ----

  /** Photos of the list, this one not among them. */
  ghost predicate Others(w: World, ds: seq<Doomed>, k: string) {
    OwnId(w, k) && Apart(w, ds, k) && k !in BaseSet(ds)
  }

  lemma EraseOthers(w: World, ds: seq<Doomed>, gone: set<string>, k: string)
    requires Others(w, ds, k) && gone <= KeySet(ds)
    ensures Untouched(w, EraseObjects(w, gone), k)
  {
    hide Keys, Paths, LocalEtag, ThumbPath, Recorded;
    forall key | key in KeySet(ds)
      ensures key !in Owned(w, k)
    {
      var d :| d in ds && key in Keys(d);
      assert d.keyBase in BaseSet(ds);
    }
  }

  lemma UnthumbOthers(w: World, ds: seq<Doomed>, stuck: set<string>, k: string)
    requires Others(w, ds, k)
    ensures Untouched(w, RemoveThumbs(w, PathSet(ds) - stuck), k)
  {
    hide Keys, Paths, LocalEtag, ThumbPath, Recorded;
    if ThumbPath(k) in PathSet(ds) {
      var d :| d in ds && ThumbPath(k) in Paths(d);
      assert d.keyBase in BaseSet(ds);
    }
  }

  lemma DropOthers(w: World, bases: set<string>, k: string)
    requires OwnId(w, k) && k !in bases
    ensures Untouched(w, DeleteRows(w, bases), k)
  {
    hide ThumbPath, LocalEtag;
  }

  // ---- A batch, a purge ----

  lemma RowsSpare(w: World, survivors: seq<Doomed>, events: seq<Event>, f: Faults, k: string)
    requires Others(w, survivors, k)
    ensures Untouched(w, EraseRows(w, survivors, events, f).w, k)
  {
    hide Keeps, OwnId, Apart, KeySet, PathSet, BaseSet, ActAll, DeleteRows, RemoveThumbs, AllDone, AllFailed;
    if survivors == [] {
      AsItWas(w, k);
    } else {
      var w1 := RemoveThumbs(w, PathSet(survivors) - f.stuck);
      UnthumbOthers(w, survivors, f.stuck, k);
      DecisionsKeep(w1, f.during, k);
      Together(w, w1, ActAll(w1, f.during), k);
      if f.storeErr.None? {
        DropOthers(ActAll(w1, f.during), BaseSet(survivors), k);
        Together(w, ActAll(w1, f.during), DeleteRows(ActAll(w1, f.during), BaseSet(survivors)), k);
      }
    }
  }

  lemma LiveSpares(w: World, live: seq<Doomed>, events: seq<Event>, f: Faults, k: string)
    requires Others(w, live, k)
    ensures Untouched(w, EraseLive(w, live, events, f).w, k)
  {
    hide Keeps, OwnId, Apart, KeySet, Keys, Paths, Refuses, EraseRows, EraseObjects, AllFailed, Refusals;
    if live == [] {
      AsItWas(w, k);
    } else {
      match f.answer
      case CallFailed(gone, msg) => EraseOthers(w, live, gone * KeySet(live), k);
      case Answered(refused) =>
        var survivors := Survivors(live, refused);
        var w1 := EraseObjects(w, KeySet(live) - refused.Keys);
        EraseOthers(w, live, KeySet(live) - refused.Keys, k);
        SurvivorsMean(live, refused);
        ApartStays(w, w1, live, survivors, k);
        RowsSpare(w1, survivors, events + Refusals(live, refused), f, k);
        Together(w, w1, EraseLive(w, live, events, f).w, k);
    }
  }

  lemma BatchSpares(w: World, batch: seq<Doomed>, f: Faults, k: string)
    requires OwnId(w, k) && Apart(w, batch, k)
    requires k in BaseSet(batch) && !f.cancelledBefore && f.recheckErr.None? ==> !StillDiscarded(ActAll(w, f.before), k)
    ensures Untouched(w, RunBatch(w, batch, f).w, k)
  {
    hide Keeps, OwnId, Apart, Keys, Paths, ActAll, EraseLive, Live, Spared, AllFailed, StillDiscarded;
    if f.cancelledBefore {
      AsItWas(w, k);
    } else {
      var w1 := ActAll(w, f.before);
      DecisionsKeep(w, f.before, k);
      if f.recheckErr.None? {
        LiveMeans(w1, batch);
        ApartStays(w, w1, batch, Live(w1, batch), k);
        LiveSpares(w1, Live(w1, batch), Spared(w1, batch), f, k);
        Together(w, w1, RunBatch(w, batch, f).w, k);
      }
    }
  }

  lemma {:induction false} PurgeSpares(w: World, photos: seq<Doomed>, faults: nat -> Faults, b: nat, k: string)
    requires OwnId(w, k) && Apart(w, photos, k) && SparedAtRecheck(w, photos, faults, b, k)
    ensures Untouched(w, RunPurge(w, photos, faults, b).w, k)
    decreases |photos|
  {
    hide Keeps, OwnId, Apart, Keys, Paths, RunBatch, StillDiscarded, BaseSet, Take;
    AsItWas(w, k);
    if photos != [] {
      TakeSome(photos);
      var batch := Take(photos);
      var e := RunBatch(w, batch, faults(b));
      ApartStays(w, w, photos, batch, k);
      BatchSpares(w, batch, faults(b), k);
      if !e.cancelled {
        ApartStays(w, e.w, photos, photos[|batch|..], k);
        PurgeSpares(e.w, photos[|batch|..], faults, b + 1, k);
        Together(w, e.w, RunPurge(w, photos, faults, b).w, k);
      }
    }
  }

  /** Every purge, with any refusals, failures, cancellation and decisions: a photo
      that is not rejected at the recheck of its batch keeps all it has, as long as
      the list is apart from it. */
  lemma SparedKeepsAll(w: World, photos: seq<Doomed>, faults: nat -> Faults, k: string)
    requires OwnId(w, k) && Apart(w, photos, k) && SparedAtRecheck(w, photos, faults, 0, k)
    ensures Keeps(w, RunPurge(w, photos, faults, 0).w, k)
  {
    hide Keeps, OwnId, Apart, RunPurge, SparedAtRecheck;
    PurgeSpares(w, photos, faults, 0, k);
  }

  /** A photo that is not on the list is spared by every purge. */
  lemma {:induction false} UnlistedIsSpared(w: World, photos: seq<Doomed>, faults: nat -> Faults, b: nat, k: string)
    requires k !in BaseSet(photos)
    ensures SparedAtRecheck(w, photos, faults, b, k)
    decreases |photos|
  {
    hide RunBatch, StillDiscarded, Take;
    if photos != [] {
      TakeSome(photos);
      var batch := Take(photos);
      UnlistedIsSpared(RunBatch(w, batch, faults(b)).w, photos[|batch|..], faults, b + 1, k);
    }
  }

  // ---- Exactly when a photo is spared ----

  /** The clean result spares a photo that is not rejected exactly when the pile is
      apart from it. */
  lemma TargetSpares(w: World, photos: seq<Doomed>, k: string)
    requires IsDiscardPile(w, photos) && OwnId(w, k) && !w.table.rows[k].discarded
    ensures Keeps(w, Target(w), k) <==> Apart(w, photos, k)
  {
    hide Recorded, Keys, Paths, Doom, LocalEtag, ThumbPath;
    PileDescribes(w, photos);
    if Keeps(w, Target(w), k) {
      forall d | d in photos && d.keyBase != k
        ensures Keys(d) !! Owned(w, k) && !(ThumbPath(k) in w.thumbs && ThumbPath(k) in Paths(d))
      {
        TargetTakes(w, photos, d);
      }
    }
    if Apart(w, photos, k) {
      forall key | key in Owned(w, k)
        ensures key !in KeysAt(w, DiscardedBases(w))
      {
        NotClaimed(w, photos, k, key);
      }
      if ThumbPath(k) in w.thumbs {
        ThumbNotClaimed(w, photos, k);
      }
    }
  }

  lemma TargetTakes(w: World, photos: seq<Doomed>, d: Doomed)
    requires IsDiscardPile(w, photos) && d in photos
    ensures Keys(d) !! Target(w).bucket.Keys && Paths(d) !! Target(w).thumbs
  {
    hide Paths, Doom;
    assert d == Doom(d.keyBase, w.table.rows[d.keyBase]);
    KeysOfDoom(d.keyBase, w.table.rows[d.keyBase]);
    assert d.keyBase in DiscardedBases(w);
  }

  lemma KeysOfDoom(k: string, row: Row)
    ensures Keys(Doom(k, row)) == Recorded(row)
  {
  }

  lemma NotClaimed(w: World, photos: seq<Doomed>, k: string, key: string)
    requires IsDiscardPile(w, photos) && k in w.table.rows && !w.table.rows[k].discarded && Apart(w, photos, k) && key in Owned(w, k)
    ensures key !in KeysAt(w, DiscardedBases(w))
  {
    hide Recorded, Keys, Paths, Doom, LocalEtag, ThumbPath;
    if key in KeysAt(w, DiscardedBases(w)) {
      var b :| b in DiscardedBases(w) && key in Recorded(w.table.rows[b]);
      var i :| 0 <= i < |photos| && photos[i].keyBase == b;
      assert photos[i] in photos;
      KeysOfDoom(b, w.table.rows[b]);
    }
  }

  lemma ThumbNotClaimed(w: World, photos: seq<Doomed>, k: string)
    requires IsDiscardPile(w, photos) && k in w.table.rows && !w.table.rows[k].discarded && Apart(w, photos, k) && ThumbPath(k) in w.thumbs
    ensures ThumbPath(k) !in PathsOf(w, DiscardedBases(w))
  {
    hide Recorded, Keys, Paths, Doom, LocalEtag, ThumbPath;
  }

  /** Every purge keeps all that belongs to the photo. */
  ghost predicate AlwaysSpared(w: World, photos: seq<Doomed>, k: string) {
    forall faults: nat -> Faults :: Keeps(w, RunPurge(w, photos, faults, 0).w, k)
  }

  function CleanFaults(): nat -> Faults {
    n => NO_FAULTS
  }

  /** A photo that is not rejected keeps all it has through every purge exactly
      when the pile is apart from it. */
  lemma SparedExactly(w: World, photos: seq<Doomed>, k: string)
    requires IsDiscardPile(w, photos) && OwnId(w, k) && !w.table.rows[k].discarded
    ensures AlwaysSpared(w, photos, k) <==> Apart(w, photos, k)
  {
    hide Keeps, Apart, RunPurge, Target, SparedAtRecheck, Doom, Owned;
    if Apart(w, photos, k) {
      assert k !in BaseSet(photos);
      forall faults: nat -> Faults
        ensures Keeps(w, RunPurge(w, photos, faults, 0).w, k)
      {
        UnlistedIsSpared(w, photos, faults, 0, k);
        SparedKeepsAll(w, photos, faults, k);
      }
    }
    if AlwaysSpared(w, photos, k) {
      assert forall n: nat :: Clean(CleanFaults()(n));
      CleanPurgeReaches(w, photos, CleanFaults());
      TargetSpares(w, photos, k);
    }
  }

  // ---- In every history ----

  /** No rejected row from a local directory has a file named like an original of
      the photo. */
  ghost predicate NoLocalNamesake(w: World, k: string)
    requires k in w.table.rows
  {
    forall b :: b in DiscardedBases(w) && b != k && LocalEtag(w.table.rows[b].photo.jpeg.etag) ==> Recorded(w.table.rows[b]) !! Owned(w, k)
  }

  /** Between well-keyed rows only those can be in the way. */
  lemma ApartExactly(w: World, photos: seq<Doomed>, k: string)
    requires IsDiscardPile(w, photos) && WellKeyed(w) && OwnThumbs(w) && k in w.table.rows
    ensures Apart(w, photos, k) <==> NoLocalNamesake(w, k)
  {
    hide Recorded, Keys, Paths, Doom, LocalEtag, ThumbPath, FromBucket, Owned;
    forall d | d in photos && d.keyBase != k
      ensures d.keyBase in DiscardedBases(w) && ThumbPath(k) !in Paths(d) && Keys(d) == Recorded(w.table.rows[d.keyBase])
      ensures LocalEtag(w.table.rows[d.keyBase].photo.jpeg.etag) || Keys(d) !! Owned(w, k)
    {
      assert d == Doom(d.keyBase, w.table.rows[d.keyBase]);
      KeysOfDoom(d.keyBase, w.table.rows[d.keyBase]);
      OtherThumb(d.keyBase, w.table.rows[d.keyBase], k);
      if !LocalEtag(w.table.rows[d.keyBase].photo.jpeg.etag) {
        BucketRowsApart(w, d.keyBase, k);
      }
    }
    forall b | b in DiscardedBases(w)
      ensures exists d :: d in photos && d.keyBase == b
    {
      var i :| 0 <= i < |photos| && photos[i].keyBase == b;
      assert photos[i] in photos;
    }
  }

  lemma OtherThumb(b: string, row: Row, k: string)
    requires b != k && (row.thumbPath == "" || row.thumbPath == ThumbPath(b))
    ensures ThumbPath(k) !in Paths(Doom(b, row))
  {
    if ThumbPath(k) == ThumbPath(b) {
      ThumbPathInjective(b, k);
    }
    assert ThumbPath(k) != "";
  }

  lemma BucketRowsApart(w: World, b: string, k: string)
    requires WellKeyed(w) && b in w.table.rows && k in w.table.rows && b != k && !LocalEtag(w.table.rows[b].photo.jpeg.etag)
    ensures Recorded(w.table.rows[b]) !! Owned(w, k)
  {
    hide Recorded, FromBucket, LocalEtag;
    forall key | key in Recorded(w.table.rows[b]) && key in Owned(w, k)
      ensures false
    {
      RecordedBase(w.table.rows[b], key);
      RecordedBase(w.table.rows[k], key);
    }
  }

  /** In every history, the purge that could begin now, with any faults and
      decisions, keeps all that belongs to a photo that is not rejected exactly when
      no rejected row from a local directory has a file named like one of its
      originals; and it then keeps those of a photo that is rejected now and not at
      the recheck of its batch too. */
  lemma SparedInHistory(states: seq<History.State>, steps: seq<History.Step>, n: nat, photos: seq<Doomed>, k: string)
    requires History.IsHistory(states, steps) && n < |states|
    requires WellKeyed(states[0].w) && History.Sound(states[0].w.table) && OwnThumbs(states[0].w)
    requires IsDiscardPile(states[n].w, photos) && k in states[n].w.table.rows
    ensures var w := states[n].w;
      && (!w.table.rows[k].discarded ==> (AlwaysSpared(w, photos, k) <==> NoLocalNamesake(w, k)))
      && (NoLocalNamesake(w, k) ==> forall faults: nat -> Faults ::
            SparedAtRecheck(w, photos, faults, 0, k) ==> Keeps(w, RunPurge(w, photos, faults, 0).w, k))
  {
    hide AlwaysSpared, NoLocalNamesake, Apart, WellKeyed, OwnThumbs, IsDiscardPile, History.IsHistory, Keeps, SparedAtRecheck, RunPurge;
    var w := states[n].w;
    History.RowsAt(states, steps, n);
    ApartExactly(w, photos, k);
    if !w.table.rows[k].discarded {
      SparedExactly(w, photos, k);
    }
    if NoLocalNamesake(w, k) {
      forall faults: nat -> Faults | SparedAtRecheck(w, photos, faults, 0, k)
        ensures Keeps(w, RunPurge(w, photos, faults, 0).w, k)
      {
        SparedKeepsAll(w, photos, faults, k);
      }
    }
  }

  // ---- A namesake ----

  const BUCKET_JPEG := ObjectRef("a.JPG", 1, "1")
  const LOCAL_JPEG := ObjectRef("a.JPG", 1, "local-1-1")

  function RowOf(id: nat, keyBase: string, folder: string, jpeg: ObjectRef, discarded: bool): Row {
    Row(id, Photo(keyBase, folder, "a", jpeg, None), "", Metadata(None, "", 0, 0, 0, "", ""), 0, discarded)
  }

  /** A photo of the bucket, and the rejected one that a scan of the directory "."
      added for the file of that name. */
  function Namesakes(): World {
    World(map["a.JPG" := BUCKET_JPEG],
          Table(map["a" := RowOf(1, "a", "", BUCKET_JPEG, false), "./a" := RowOf(2, "./a", ".", LOCAL_JPEG, true)], 3), {}, map[])
  }

  function NamesakePile(): seq<Doomed> {
    [Doom("./a", RowOf(2, "./a", ".", LOCAL_JPEG, true))]
  }

  lemma NamesakesKeyed()
    ensures WellKeyed(Namesakes()) && OwnThumbs(Namesakes())
  {
    hide LocalEtag, Listing.Kept, Listing.KeyBase, Listing.KindOf, ThumbPath;
    Etags();
    Reconciliation.SmallKey("JPG");
    assert "a." + "JPG" == "a.JPG";
  }

  lemma NamesakesListed()
    ensures IsDiscardPile(Namesakes(), NamesakePile())
  {
    hide Lex.Less;
    assert NamesakePile()[0].keyBase == "./a";
  }

  lemma Etags()
    ensures LocalEtag("local-1-1") && !LocalEtag("1")
  {
    assert "local-1-1"[..6] == "local-";
    assert Listing.Upper("local-") == "LOCAL-";
  }

  /** Purging the one erases the original of the other, which is not rejected. */
  lemma LocalRowErases()
    ensures WellKeyed(Namesakes()) && OwnThumbs(Namesakes()) && IsDiscardPile(Namesakes(), NamesakePile())
    ensures !NoLocalNamesake(Namesakes(), "a")
    ensures var end := RunPurge(Namesakes(), NamesakePile(), CleanFaults(), 0).w;
      "a" in end.table.rows && !end.table.rows["a"].discarded && end.bucket == map[]
  {
    hide RunPurge, LocalEtag, Listing.Matches;
    var w := Namesakes();
    Etags();
    NamesakesKeyed();
    NamesakesListed();
    assert forall n: nat :: Clean(CleanFaults()(n));
    CleanPurgeReaches(w, NamesakePile(), CleanFaults());
    assert "./a" in DiscardedBases(w) && "a.JPG" in Recorded(w.table.rows["./a"]) && "a.JPG" in Recorded(w.table.rows["a"]);
    assert "a.JPG" in KeysAt(w, DiscardedBases(w));
    assert Target(w).bucket == map[];
  }
}
