/** What a scan does to each photo, told by its row, its thumbnail and the listing
    alone: which are skipped, which are written and how (`shouldSkip`, `processOne`
    of catalog/catalog.go, `Upsert` of catalog/store.go). The same holds of the
    loop and of every interleaving of the pool. */
module ScanOutcomes {
  import opened Wrappers
  import opened CatalogStore
  import Status
  import ScanLoop
  import opened Pool
  import opened PoolOutcome
  import opened PoolTheorems

  /** The catalog before the scan holds photo i as it is listed: the same nonempty
      ETag of the JPEG, the same of the RAW ("" without one), and the thumbnail. */
  predicate Unchanged(c: Config, i: nat)
    requires i < |c.jobs|
  {
    var p := c.jobs[i].photo;
    && p.keyBase in c.table.rows
    && var q := c.table.rows[p.keyBase].photo;
       var had, has := if q.raf.Some? then q.raf.value.etag else "", if p.raf.Some? then p.raf.value.etag else "";
       q.jpeg.etag == p.jpeg.etag != "" && had == has && "thumbs/" + p.keyBase + ".jpg" in c.thumbs
  }

  /** Photo i is passed over: never under force. */
  predicate PassedOver(c: Config, i: nat)
    requires i < |c.jobs|
  {
    !c.force && c.jobs[i].checkErr.None? && Unchanged(c, i)
  }

  /** Photo i has work that succeeds. */
  predicate Succeeds(c: Config, i: nat)
    requires i < |c.jobs|
  {
    var job := c.jobs[i];
    && (c.force || (job.checkErr.None? && !Unchanged(c, i)))
    && job.procErr.None? && job.storeErr.None?
  }

  /** Photo i has work, and its thumbnail is written. */
  predicate Renders(c: Config, i: nat)
    requires i < |c.jobs|
  {
    var job := c.jobs[i];
    (c.force || (job.checkErr.None? && !Unchanged(c, i))) && job.procErr.None?
  }

  lemma FateMeans(c: Config, i: nat)
    requires i < |c.jobs|
    ensures Fate(c, i) == Skipped <==> PassedOver(c, i)
    ensures Fate(c, i) == Done <==> Succeeds(c, i)
    ensures Fate(c, i) == Done || Fate(c, i) == StoreFailed <==> Renders(c, i)
    ensures c.force ==> Fate(c, i) != Skipped && Fate(c, i) != CheckFailed
  {
  }

  /** The row that photo i leaves: what was listed and read, and of an earlier row
      its id, its rating and its decision. */
  ghost predicate Leaves(c: Config, i: nat, row: Row)
    requires i < |c.jobs|
  {
    var p := c.jobs[i].photo;
    && row.photo == p && row.meta == c.jobs[i].meta && row.thumbPath == "thumbs/" + p.keyBase + ".jpg"
    && (p.keyBase in c.table.rows ==>
          var before := c.table.rows[p.keyBase];
          row.id == before.id && row.rating == before.rating && row.discarded == before.discarded)
    && (p.keyBase !in c.table.rows ==> row.rating == 0 && !row.discarded)
  }

  /** Photo by photo: the rows of those whose work succeeds are written, every other
      row is as before, and no row is lost. */
  ghost predicate RowsAfter(c: Config, table: Table) {
    && (forall i :: 0 <= i < |c.jobs| && Succeeds(c, i) ==> Base(c, i) in table.rows && Leaves(c, i, table.rows[Base(c, i)]))
    && (forall k :: k in c.table.rows ==>
          k in table.rows && ((forall i :: 0 <= i < |c.jobs| && Base(c, i) == k ==> !Succeeds(c, i)) ==> table.rows[k] == c.table.rows[k]))
    && (forall k :: k in table.rows ==> k in c.table.rows || exists i :: 0 <= i < |c.jobs| && Base(c, i) == k && Succeeds(c, i))
  }

  ghost predicate ThumbsAfter(c: Config, thumbs: set<string>) {
    forall p :: p in thumbs <==> p in c.thumbs || exists i :: 0 <= i < |c.jobs| && Renders(c, i) && p == "thumbs/" + Base(c, i) + ".jpg"
  }

  ghost function SkipCount(c: Config): nat {
    |set i: nat | i < |c.jobs| && PassedOver(c, i)|
  }

  ghost function WriteCount(c: Config): nat {
    |set i: nat | i < |c.jobs| && Succeeds(c, i)|
  }

  lemma CatalogMeans(c: Config, table: Table, thumbs: set<string>)
    requires Valid(c)
    requires var n := |c.jobs|; CatalogIs(c, table, thumbs, Fated(c, n, Done), Fated(c, n, Done) + Fated(c, n, StoreFailed))
    ensures RowsAfter(c, table) && ThumbsAfter(c, thumbs)
  {
    hide Fate, Succeeds, Renders, PassedOver, WrittenRow, Leaves;
    var n := |c.jobs|;
    forall i | 0 <= i < n
      ensures (Fate(c, i) == Done <==> Succeeds(c, i)) && (Fate(c, i) == Done || Fate(c, i) == StoreFailed <==> Renders(c, i))
    {
      FateMeans(c, i);
    }
    forall i | 0 <= i < n && Succeeds(c, i)
      ensures Base(c, i) in table.rows && Leaves(c, i, table.rows[Base(c, i)])
    {
      assert Base(c, i) in Fated(c, n, Done);
      WrittenLeaves(c, i, table.rows[Base(c, i)]);
    }
    ThumbsMean(c, thumbs);
  }

  lemma WrittenLeaves(c: Config, i: nat, row: Row)
    requires i < |c.jobs| && WrittenRow(c, i, row)
    ensures Leaves(c, i, row)
  {
  }

  lemma ThumbsMean(c: Config, thumbs: set<string>)
    requires var n := |c.jobs|; thumbs == c.thumbs + ThumbPaths(Fated(c, n, Done) + Fated(c, n, StoreFailed))
    ensures ThumbsAfter(c, thumbs)
  {
    hide Fate, Renders;
    var n := |c.jobs|;
    var rendered := Fated(c, n, Done) + Fated(c, n, StoreFailed);
    forall i | 0 <= i < n
      ensures Fate(c, i) == Done || Fate(c, i) == StoreFailed <==> Renders(c, i)
      ensures ThumbPath(Base(c, i)) == "thumbs/" + Base(c, i) + ".jpg"
    {
      FateMeans(c, i);
    }
    forall p | p in ThumbPaths(rendered)
      ensures exists i :: 0 <= i < n && Renders(c, i) && p == "thumbs/" + Base(c, i) + ".jpg"
    {
      var b :| b in rendered && p == ThumbPath(b);
      var i :| 0 <= i < n && (Fate(c, i) == Done || Fate(c, i) == StoreFailed) && Base(c, i) == b;
    }
    forall i | 0 <= i < n && Renders(c, i)
      ensures "thumbs/" + Base(c, i) + ".jpg" in ThumbPaths(rendered)
    {
      assert Base(c, i) in rendered;
    }
  }

  /** Bases are distinct, so photos can be counted for them. */
  lemma {:induction false} CountBases(c: Config, photos: set<nat>)
    requires Valid(c) && forall i :: i in photos ==> i < |c.jobs|
    ensures |set i | i in photos :: Base(c, i)| == |photos|
  {
    if photos == {} {
      assert (set i | i in photos :: Base(c, i)) == {};
    } else {
      var k :| k in photos;
      CountBases(c, photos - {k});
      assert (set i | i in photos :: Base(c, i)) == (set i | i in photos - {k} :: Base(c, i)) + {Base(c, k)};
    }
  }

  lemma Counts(c: Config)
    requires Valid(c)
    ensures |Fated(c, |c.jobs|, Done)| == WriteCount(c) && |Fated(c, |c.jobs|, Skipped)| == SkipCount(c)
    ensures c.force ==> SkipCount(c) == 0
  {
    hide Fate, Succeeds, PassedOver, Valid;
    var n := |c.jobs|;
    forall i: nat | i < n
      ensures (Fate(c, i) == Done <==> Succeeds(c, i)) && (Fate(c, i) == Skipped <==> PassedOver(c, i))
      ensures c.force ==> !PassedOver(c, i)
    {
      FateMeans(c, i);
    }
    var w, p := set i: nat | i < n && Succeeds(c, i), set i: nat | i < n && PassedOver(c, i);
    CountBases(c, w);
    CountBases(c, p);
    assert Fated(c, n, Done) == set i | i in w :: Base(c, i);
    assert Fated(c, n, Skipped) == set i | i in p :: Base(c, i);
    if c.force {
      assert p == {};
    }
  }

  /** The pool, in any interleaving that ends with "done". */
  lemma PoolOutcomes(c: Config, states: seq<State>, actions: seq<Action>, s: State, snap: Status.Snapshot)
    requires Valid(c) && Finished(c, states, actions, s, snap) && snap.phase == "done"
    ensures RowsAfter(c, s.table) && ThumbsAfter(c, s.thumbs)
    ensures snap.processed == WriteCount(c) && snap.skipped == SkipCount(c)
    ensures snap.failed == |c.jobs| - WriteCount(c) - SkipCount(c)
    ensures c.force ==> snap.skipped == 0
  {
    hide Valid, Finished, CatalogIs, RowsAfter, ThumbsAfter, WriteCount, SkipCount, Fated;
    Accounts(c, states, actions, s, snap);
    FinishedFacts(c, states, actions, s, snap);
    FinalCatalog(c, s);
    CatalogMeans(c, s.table, s.thumbs);
    Counts(c);
  }

  /** The loop over the same photos, when no skip check fails. */
  lemma LoopOutcomes(c: Config)
    requires Valid(c) && forall i :: 0 <= i < |c.jobs| ==> c.jobs[i].checkErr.None? || c.force
    ensures var end := ScanLoop.After(ScanLoop.Begin(c.table, c.thumbs, |c.jobs|), c.jobs, |c.jobs|, c.force);
      && end.err.None? && RowsAfter(c, end.table) && ThumbsAfter(c, end.thumbs)
      && end.stats.total == |c.jobs| == end.stats.processed + end.stats.skipped + end.stats.failed
      && end.stats.processed == WriteCount(c) && end.stats.skipped == SkipCount(c)
  {
    hide Valid, CatalogIs, RowsAfter, ThumbsAfter, WriteCount, SkipCount, Fated, ScanLoop.After;
    LoopFates(c, |c.jobs|);
    var end := ScanLoop.After(ScanLoop.Begin(c.table, c.thumbs, |c.jobs|), c.jobs, |c.jobs|, c.force);
    ScanLoop.AfterCounts(ScanLoop.Begin(c.table, c.thumbs, |c.jobs|), c.jobs, |c.jobs|, c.force);
    CatalogMeans(c, end.table, end.thumbs);
    Counts(c);
  }
}
