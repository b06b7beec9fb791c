/** What a purge does to each photo of its list, told by the list, the answers and
    the rows alone: who is spared, who fails and why, and what goes of the others
    (worker/purge.go:109-214). */
module PurgeOutcomes {
  import opened Wrappers
  import opened CatalogStore
  import opened World
  import opened Purge
  import PurgeConverges
  import Status

  /** The photo is rejected now. */
  predicate RejectedNow(w: World, d: Doomed) {
    d.keyBase in w.table.rows && w.table.rows[d.keyBase].discarded
  }

  predicate HasKey(d: Doomed, key: string) {
    key == d.jpegKey || (key == d.rafKey && key != "")
  }

  /** The bucket answered, and kept no original of the photo. */
  predicate Cleared(f: Faults, d: Doomed) {
    f.answer.Answered? && d.jpegKey !in f.answer.refused && !(d.rafKey != "" && d.rafKey in f.answer.refused)
  }

  /** The batch is rechecked. */
  predicate Rechecked(f: Faults) {
    !f.cancelledBefore && f.recheckErr.None?
  }

  /** A photo of the batch whose originals are gone by its own deletion. */
  predicate Emptied(w: World, batch: seq<Doomed>, f: Faults, d: Doomed) {
    Rechecked(f) && d in batch && RejectedNow(ActAll(w, f.before), d) && Cleared(f, d)
  }

  lemma LiveAre(w: World, batch: seq<Doomed>, d: Doomed)
    ensures d in Live(w, batch) <==> d in batch && RejectedNow(w, d)
  {
    LiveMeans(w, batch);
  }

  lemma SurvivorsAre(ds: seq<Doomed>, refused: map<string, string>, f: Faults, d: Doomed)
    requires f.answer == Answered(refused)
    ensures d in Survivors(ds, refused) <==> d in ds && Cleared(f, d)
  {
    SurvivorsMean(ds, refused);
  }

  lemma {:induction false} ActsOnRows(w: World, actions: seq<UserAction>)
    ensures var t := ActAll(w, actions);
      && t.bucket == w.bucket && t.thumbs == w.thumbs && t.albums == w.albums && t.table.rows.Keys == w.table.rows.Keys
      && forall k :: k in w.table.rows ==> t.table.rows[k].id == w.table.rows[k].id
  {
    if actions != [] {
      ActsOnRows(w, actions[..|actions| - 1]);
    }
  }

  lemma KeysAre(d: Doomed, key: string)
    ensures key in Keys(d) <==> HasKey(d, key)
  {
  }

  lemma PathsAre(d: Doomed, path: string)
    ensures path in Paths(d) <==> path == "thumbs/" + d.keyBase + ".jpg" || (path == d.thumbPath && path != "")
  {
  }

  // ---- The bucket ----

  /** An object goes exactly when a photo of the batch that is rejected at the
      recheck has its key and the bucket did not keep it. */
  lemma BucketMeans(w: World, batch: seq<Doomed>, f: Faults, key: string)
    requires key in w.bucket
    ensures var e := RunBatch(w, batch, f);
      && e.w.bucket.Keys <= w.bucket.Keys && (key in e.w.bucket ==> e.w.bucket[key] == w.bucket[key])
      && (key !in e.w.bucket <==>
            && Rechecked(f)
            && (exists d :: d in batch && RejectedNow(ActAll(w, f.before), d) && HasKey(d, key))
            && (match f.answer
                case Answered(refused) => key !in refused
                case CallFailed(gone, _) => key in gone))
  {
    hide Keys, Paths, RejectedNow, HasKey, Live, Spared, AllFailed, Refusals, Survivors, PathSet, BaseSet, AllDone, ActAll;
    ActsOnRows(w, f.before);
    if Rechecked(f) {
      var w1 := ActAll(w, f.before);
      var live := Live(w1, batch);
      forall d
        ensures d in live <==> d in batch && RejectedNow(w1, d)
        ensures key in Keys(d) <==> HasKey(d, key)
      {
        LiveAre(w1, batch, d);
        KeysAre(d, key);
      }
      assert key in KeySet(live) <==> exists d :: d in batch && RejectedNow(w1, d) && HasKey(d, key);
      match f.answer
      case Answered(refused) => RowsKeepBucket(EraseObjects(w1, KeySet(live) - refused.Keys), Survivors(live, refused), Spared(w1, batch) + Refusals(live, refused), f);
      case CallFailed(gone, msg) =>
    }
  }

  lemma RowsKeepBucket(w: World, survivors: seq<Doomed>, events: seq<Event>, f: Faults)
    ensures EraseRows(w, survivors, events, f).w.bucket == w.bucket
  {
    hide ActAll, PathSet, BaseSet, AllDone, AllFailed;
    ActsOnRows(RemoveThumbs(w, PathSet(survivors) - f.stuck), f.during);
  }

  // ---- Rows, thumbnails, albums ----

  /** A row goes exactly when its photo was emptied and the store did not fail; its
      album memberships go with it; thumbnails go before. */
  lemma RowsMean(w: World, batch: seq<Doomed>, f: Faults)
    ensures var e := RunBatch(w, batch, f);
      && (forall k :: k in e.w.table.rows ==> k in w.table.rows)
      && (forall k :: k in w.table.rows ==>
            (k !in e.w.table.rows <==> f.storeErr.None? && exists d :: Emptied(w, batch, f, d) && d.keyBase == k))
      && (forall d :: d in e.erased <==> f.storeErr.None? && Emptied(w, batch, f, d))
      && e.w.albums.Keys == w.albums.Keys
      && (forall a, id :: a in w.albums ==>
            (id in e.w.albums[a] <==>
               id in w.albums[a] && !exists k :: k in w.table.rows && k !in e.w.table.rows && w.table.rows[k].id == id))
  {
    hide RejectedNow, Cleared, Live, Spared, AllFailed, Refusals, Survivors, PathSet, KeySet, AllDone, ActAll, EraseRows;
    ActsOnRows(w, f.before);
    if Rechecked(f) {
      var w1 := ActAll(w, f.before);
      var live := Live(w1, batch);
      forall d
        ensures d in live <==> d in batch && RejectedNow(w1, d)
      {
        LiveAre(w1, batch, d);
      }
      if f.answer.Answered? {
        var refused := f.answer.refused;
        var survivors := Survivors(live, refused);
        forall d
          ensures d in survivors <==> Emptied(w, batch, f, d)
        {
          SurvivorsAre(live, refused, f, d);
        }
        RowsDropped(EraseObjects(w1, KeySet(live) - refused.Keys), survivors, Spared(w1, batch) + Refusals(live, refused), f);
      } else {
        assert forall d :: !Emptied(w, batch, f, d) by { NotAnswered(w, batch, f); }
      }
    }
  }

  lemma NotAnswered(w: World, batch: seq<Doomed>, f: Faults)
    requires !f.answer.Answered?
    ensures forall d :: !Emptied(w, batch, f, d)
  {
  }

  lemma RowsDropped(w: World, survivors: seq<Doomed>, events: seq<Event>, f: Faults)
    ensures var e := EraseRows(w, survivors, events, f);
      && e.erased == (if f.storeErr.None? then survivors else [])
      && (forall k :: k in e.w.table.rows <==> k in w.table.rows && !exists d :: d in e.erased && d.keyBase == k)
      && e.w.albums.Keys == w.albums.Keys
      && (forall a, id :: a in w.albums ==>
            (id in e.w.albums[a] <==>
               id in w.albums[a] && !exists k :: k in w.table.rows && k !in e.w.table.rows && w.table.rows[k].id == id))
  {
    hide ActAll, PathSet, AllDone, AllFailed;
    ActsOnRows(RemoveThumbs(w, PathSet(survivors) - f.stuck), f.during);
    if survivors == [] {
    } else if f.storeErr.None? {
      DeleteRowsMeans(ActAll(RemoveThumbs(w, PathSet(survivors) - f.stuck), f.during), BaseSet(survivors));
    }
  }

  /** A thumbnail file goes exactly when an emptied photo has it and it can be
      removed, whether the store fails afterwards or not. */
  lemma ThumbsMean(w: World, batch: seq<Doomed>, f: Faults, path: string)
    requires path in w.thumbs
    ensures var e := RunBatch(w, batch, f);
      && e.w.thumbs <= w.thumbs
      && (path !in e.w.thumbs <==>
            && path !in f.stuck
            && exists d :: Emptied(w, batch, f, d) && (path == "thumbs/" + d.keyBase + ".jpg" || (path == d.thumbPath && path != "")))
  {
    hide Paths, RejectedNow, Cleared, Live, Spared, AllFailed, Refusals, Survivors, KeySet, BaseSet, AllDone, ActAll;
    ActsOnRows(w, f.before);
    if Rechecked(f) {
      var w1 := ActAll(w, f.before);
      var live := Live(w1, batch);
      forall d
        ensures d in live <==> d in batch && RejectedNow(w1, d)
        ensures path in Paths(d) <==> path == "thumbs/" + d.keyBase + ".jpg" || (path == d.thumbPath && path != "")
      {
        LiveAre(w1, batch, d);
        PathsAre(d, path);
      }
      if f.answer.Answered? {
        var refused := f.answer.refused;
        var survivors := Survivors(live, refused);
        forall d
          ensures d in survivors <==> Emptied(w, batch, f, d)
        {
          SurvivorsAre(live, refused, f, d);
        }
        ThumbsDropped(EraseObjects(w1, KeySet(live) - refused.Keys), survivors, Spared(w1, batch) + Refusals(live, refused), f);
      } else {
        assert forall d :: !Emptied(w, batch, f, d) by { NotAnswered(w, batch, f); }
      }
    }
  }

  lemma ThumbsDropped(w: World, survivors: seq<Doomed>, events: seq<Event>, f: Faults)
    ensures EraseRows(w, survivors, events, f).w.thumbs == w.thumbs - (PathSet(survivors) - f.stuck)
  {
    hide ActAll, Paths, BaseSet, AllDone, AllFailed;
    ActsOnRows(RemoveThumbs(w, PathSet(survivors) - f.stuck), f.during);
    if survivors == [] {
      assert PathSet(survivors) == {};
    }
  }

  // ---- The outcomes ----

  /** The outcome of one photo of a batch that is worked on to its end. */
  function OutcomeOf(w: World, f: Faults, d: Doomed): Event {
    if f.recheckErr.Some? then Status.ItemFailed(d.keyBase, "store: " + f.recheckErr.value)
    else if !RejectedNow(ActAll(w, f.before), d) then Status.Skip(d.keyBase)
    else
      match f.answer
      case CallFailed(_, msg) => Status.ItemFailed(d.keyBase, "s3: " + msg)
      case Answered(refused) =>
        if d.jpegKey in refused then Status.ItemFailed(d.keyBase, "s3 " + d.jpegKey + ": " + refused[d.jpegKey])
        else if d.rafKey != "" && d.rafKey in refused then Status.ItemFailed(d.keyBase, "s3 " + d.rafKey + ": " + refused[d.rafKey])
        else if f.storeErr.Some? then Status.ItemFailed(d.keyBase, "store: " + f.storeErr.value)
        else Status.ItemDone(d.keyBase, d.jpegSize + d.rafSize)
  }

  /** A batch stops the purge exactly when the cancellation is seen before it, or
      cuts its delete call short. */
  lemma StopsExactly(w: World, batch: seq<Doomed>, f: Faults)
    ensures RunBatch(w, batch, f).cancelled <==>
      f.cancelledBefore
      || (f.recheckErr.None? && f.answer.CallFailed? && f.cancelledInCall && exists d :: d in batch && RejectedNow(ActAll(w, f.before), d))
  {
    hide RejectedNow, Live, Spared, AllFailed, Refusals, Survivors, KeySet, BaseSet, PathSet, AllDone, ActAll;
    var live := Live(ActAll(w, f.before), batch);
    forall d
      ensures d in live <==> d in batch && RejectedNow(ActAll(w, f.before), d)
    {
      LiveAre(ActAll(w, f.before), batch, d);
    }
    if live != [] {
      assert live[0] in live;
    }
  }

  lemma {:induction false} FailedOf(ds: seq<Doomed>, msg: string, d: Doomed)
    requires d in ds
    ensures Status.ItemFailed(d.keyBase, msg) in AllFailed(ds, msg)
  {
    assert ds == ds[..|ds| - 1] + [ds[|ds| - 1]];
    if d != ds[|ds| - 1] {
      FailedOf(ds[..|ds| - 1], msg, d);
    }
  }

  lemma {:induction false} DoneOf(ds: seq<Doomed>, d: Doomed)
    requires d in ds
    ensures Status.ItemDone(d.keyBase, d.jpegSize + d.rafSize) in AllDone(ds)
  {
    assert ds == ds[..|ds| - 1] + [ds[|ds| - 1]];
    if d != ds[|ds| - 1] {
      DoneOf(ds[..|ds| - 1], d);
    }
  }

  lemma {:induction false} SparedOf(w: World, ds: seq<Doomed>, d: Doomed)
    requires d in ds && !RejectedNow(w, d)
    ensures Status.Skip(d.keyBase) in Spared(w, ds)
  {
    assert ds == ds[..|ds| - 1] + [ds[|ds| - 1]];
    if d != ds[|ds| - 1] {
      SparedOf(w, ds[..|ds| - 1], d);
    }
  }

  lemma {:induction false} RefusedOf(ds: seq<Doomed>, refused: map<string, string>, d: Doomed)
    requires d in ds && (d.jpegKey in refused || (d.rafKey != "" && d.rafKey in refused))
    ensures var key := if d.jpegKey in refused then d.jpegKey else d.rafKey;
      Status.ItemFailed(d.keyBase, "s3 " + key + ": " + refused[key]) in Refusals(ds, refused)
  {
    assert ds == ds[..|ds| - 1] + [ds[|ds| - 1]];
    if d != ds[|ds| - 1] {
      RefusedOf(ds[..|ds| - 1], refused, d);
    }
  }

  /** Every photo of a batch that does not stop the purge is told its outcome; with
      `PurgeAccounts`, no other one. */
  lemma OutcomesTold(w: World, batch: seq<Doomed>, f: Faults, d: Doomed)
    requires d in batch && !RunBatch(w, batch, f).cancelled
    ensures OutcomeOf(w, f, d) in RunBatch(w, batch, f).events
  {
    hide RejectedNow, Live, Spared, AllFailed, Refusals, Survivors, KeySet, BaseSet, PathSet, AllDone, ActAll;
    var w1 := ActAll(w, f.before);
    if f.recheckErr.Some? {
      FailedOf(batch, "store: " + f.recheckErr.value, d);
    } else {
      var live := Live(w1, batch);
      LiveAre(w1, batch, d);
      if !RejectedNow(w1, d) {
        SparedOf(w1, batch, d);
        EventsKept(w1, live, Spared(w1, batch), f, OutcomeOf(w, f, d));
      } else {
        match f.answer
        case CallFailed(_, msg) => FailedOf(live, "s3: " + msg, d);
        case Answered(refused) =>
          var survivors := Survivors(live, refused);
          SurvivorsAre(live, refused, f, d);
          var told := Spared(w1, batch) + Refusals(live, refused);
          var erased := EraseObjects(w1, KeySet(live) - refused.Keys);
          if d.jpegKey in refused || (d.rafKey != "" && d.rafKey in refused) {
            RefusedOf(live, refused, d);
            RowsEventsKept(erased, survivors, told, f, OutcomeOf(w, f, d));
          } else {
            RowsTell(erased, survivors, told, f, d);
          }
      }
    }
  }

  lemma RowsTell(w: World, survivors: seq<Doomed>, events: seq<Event>, f: Faults, d: Doomed)
    requires d in survivors
    ensures (if f.storeErr.Some? then Status.ItemFailed(d.keyBase, "store: " + f.storeErr.value) else Status.ItemDone(d.keyBase, d.jpegSize + d.rafSize))
      in EraseRows(w, survivors, events, f).events
  {
    hide ActAll, PathSet, BaseSet, AllDone, AllFailed, DeleteRows;
    if f.storeErr.Some? {
      FailedOf(survivors, "store: " + f.storeErr.value, d);
    } else {
      DoneOf(survivors, d);
    }
  }

  lemma RowsEventsKept(w: World, survivors: seq<Doomed>, events: seq<Event>, f: Faults, ev: Event)
    requires ev in events
    ensures ev in EraseRows(w, survivors, events, f).events
  {
    hide ActAll, PathSet, BaseSet, AllDone, AllFailed, DeleteRows;
  }

  lemma EventsKept(w: World, live: seq<Doomed>, events: seq<Event>, f: Faults, ev: Event)
    requires ev in events
    ensures ev in EraseLive(w, live, events, f).events
  {
    hide ActAll, KeySet, EraseRows, AllFailed, Refusals, Survivors;
    if live != [] && f.answer.Answered? {
      var refused := f.answer.refused;
      RowsEventsKept(EraseObjects(w, KeySet(live) - refused.Keys), Survivors(live, refused), events + Refusals(live, refused), f, ev);
    }
  }

  /** The freed bytes add up the sizes of JPEG and RAW. */
  lemma SizesMean(ds: seq<Doomed>, d: Doomed)
    ensures Sizes([]) == 0 && Sizes(ds + [d]) == Sizes(ds) + d.jpegSize + d.rafSize
  {
    assert (ds + [d])[..|ds|] == ds;
  }

  /** Batches are of two hundred photos, the last one of those left. */
  lemma BatchesOf(photos: seq<Doomed>)
    ensures |photos| <= 200 ==> Take(photos) == photos
    ensures |photos| > 200 ==> |Take(photos)| == 200 && Take(photos) <= photos
  {
  }

  // ---- The clean result ----

  /** Who loses what in the world that the decisions call for. */
  lemma TargetMeans(w: World)
    ensures var t := PurgeConverges.Target(w);
      && t.table.nextId == w.table.nextId && t.bucket.Keys <= w.bucket.Keys && t.thumbs <= w.thumbs && t.albums.Keys == w.albums.Keys
      && (forall key :: key in w.bucket ==>
            (key in t.bucket ==> t.bucket[key] == w.bucket[key])
            && (key !in t.bucket <==> exists b :: RejectedRow(w, b) && RecordsKey(w.table.rows[b], key)))
      && (forall k :: k in t.table.rows <==> k in w.table.rows && !w.table.rows[k].discarded)
      && (forall k :: k in t.table.rows ==> t.table.rows[k] == w.table.rows[k])
      && (forall p :: p in w.thumbs ==> (p !in t.thumbs <==> exists b :: RejectedRow(w, b) && HasThumb(w.table.rows[b], b, p)))
      && (forall a, id :: a in w.albums ==>
            (id in t.albums[a] <==> id in w.albums[a] && !exists b :: RejectedRow(w, b) && w.table.rows[b].id == id))
  {
    hide Recorded, Paths, Doom, HasThumb, RecordsKey;
    var doomed := DiscardedBases(w);
    forall b, key | b in w.table.rows
      ensures key in Recorded(w.table.rows[b]) <==> RecordsKey(w.table.rows[b], key)
    {
      RowRecords(w.table.rows[b], key);
    }
    forall b, p | b in w.table.rows
      ensures p in Paths(Doom(b, w.table.rows[b])) <==> HasThumb(w.table.rows[b], b, p)
    {
      ThumbsOfRow(w.table.rows[b], b, p);
    }
    var w1 := RemoveThumbs(EraseObjects(w, PurgeConverges.KeysAt(w, doomed)), PathsOf(w, doomed));
    DeleteRowsMeans(w1, doomed);
  }

  predicate RejectedRow(w: World, b: string) {
    b in w.table.rows && w.table.rows[b].discarded
  }

  predicate RecordsKey(row: Row, key: string) {
    key == row.photo.jpeg.key || (row.photo.raf.Some? && key == row.photo.raf.value.key && key != "")
  }

  lemma RowRecords(row: Row, key: string)
    ensures key in Recorded(row) <==> RecordsKey(row, key)
  {
    RecordedMeans(row, key);
    assert row.photo.raf.Some? ==> row.photo.raf == Some(row.photo.raf.value);
  }
}
