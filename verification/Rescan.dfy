/** Scanning twice. A scan lists the bucket, reconciles (`ReconcileMissing`) and
    runs the loop or the pool over the photos listed; doing it again with the
    same listing finds nothing to do (catalog/catalog.go). */
module Rescan {
  import opened Wrappers
  import opened CatalogStore
  import opened World
  import opened ScanLoop
  import Status
  import Pool
  import PoolTheorems

  /** The row and the thumbnail a scan leaves for a photo. */
  ghost predicate UpToDate(t: Table, thumbs: set<string>, p: Photo) {
    && p.keyBase in t.rows
    && t.rows[p.keyBase].photo.jpeg.etag == p.jpeg.etag
    && RafEtag(t.rows[p.keyBase].photo) == RafEtag(p)
    && ThumbPath(p.keyBase) in thumbs
  }

  /** What is skipped is exactly what is up to date and has an ETag. */
  lemma SkipMeans(t: Table, thumbs: set<string>, p: Photo)
    ensures ShouldSkip(t, thumbs, p, false) <==> UpToDate(t, thumbs, p) && p.jpeg.etag != ""
  {
  }

  ghost predicate DistinctBases(jobs: seq<Job>) {
    forall i, j :: 0 <= i < j < |jobs| ==> jobs[i].photo.keyBase != jobs[j].photo.keyBase
  }

  lemma TurnUpdates(s: Scan, job: Job, force: bool)
    requires s.err.None?
    ensures var t := Turn(s, job, force);
      && t.stats.failed >= s.stats.failed
      && (t.err.None? && t.stats.failed == s.stats.failed ==> UpToDate(t.table, t.thumbs, job.photo))
      && (forall p: Photo :: p.keyBase != job.photo.keyBase && UpToDate(s.table, s.thumbs, p) ==> UpToDate(t.table, t.thumbs, p))
      && s.table.rows.Keys <= t.table.rows.Keys <= s.table.rows.Keys + {job.photo.keyBase}
  {
    SkipMeans(s.table, s.thumbs, job.photo);
  }

  lemma {:induction false} FailuresGrow(start: Scan, jobs: seq<Job>, k: nat, force: bool)
    requires k <= |jobs|
    ensures After(start, jobs, k, force).stats.failed >= start.stats.failed
    ensures After(start, jobs, k, force).err.None? ==> start.err.None?
    ensures forall b :: b in After(start, jobs, k, force).table.rows ==>
              b in start.table.rows || exists i :: 0 <= i < k && jobs[i].photo.keyBase == b
  {
    hide Turn;
    if k > 0 {
      FailuresGrow(start, jobs, k - 1, force);
      var s := After(start, jobs, k - 1, force);
      if s.err.None? {
        TurnUpdates(s, jobs[k - 1], force);
      }
    }
  }

  /** A stretch of the loop without failure leaves every photo up to date. */
  lemma {:induction false} LoopUpdates(start: Scan, jobs: seq<Job>, k: nat, force: bool)
    requires k <= |jobs| && DistinctBases(jobs)
    requires After(start, jobs, k, force).err.None? && After(start, jobs, k, force).stats.failed == start.stats.failed
    ensures var s := After(start, jobs, k, force);
      forall i :: 0 <= i < k ==> UpToDate(s.table, s.thumbs, jobs[i].photo)
  {
    hide Turn, UpToDate;
    if k > 0 {
      var s := After(start, jobs, k - 1, force);
      FailuresGrow(start, jobs, k - 1, force);
      TurnUpdates(s, jobs[k - 1], force);
      LoopUpdates(start, jobs, k - 1, force);
    }
  }

  /** Photos that are up to date and have ETags are all skipped. */
  lemma {:induction false} LoopSkips(start: Scan, jobs: seq<Job>, k: nat)
    requires k <= |jobs| && start.err.None?
    requires forall i :: 0 <= i < k ==>
               jobs[i].checkErr.None? && UpToDate(start.table, start.thumbs, jobs[i].photo) && jobs[i].photo.jpeg.etag != ""
    ensures After(start, jobs, k, false) == start.(stats := start.stats.(skipped := start.stats.skipped + k))
  {
    hide UpToDate, ShouldSkip;
    if k > 0 {
      LoopSkips(start, jobs, k - 1);
      SkipMeans(start.table, start.thumbs, jobs[k - 1].photo);
    }
  }

  /** Decisions of the user do not touch what a scan looks at. */
  lemma {:induction false} DecisionsKeepPhotos(w: World, actions: seq<UserAction>)
    ensures var t := ActAll(w, actions);
      && t.table.rows.Keys == w.table.rows.Keys && t.thumbs == w.thumbs && t.bucket == w.bucket
      && forall k :: k in w.table.rows ==> t.table.rows[k].photo == w.table.rows[k].photo
  {
    if actions != [] {
      DecisionsKeepPhotos(w, actions[..|actions| - 1]);
    }
  }

  /** The world after the scan loop has worked on it. */
  function Scanned(w: World, s: Scan): World {
    w.(table := s.table, thumbs := s.thumbs)
  }

  ghost predicate FromListing(jobs: seq<Job>, present: set<string>) {
    forall i :: 0 <= i < |jobs| ==> jobs[i].photo.keyBase in present
  }

  /** No row added by a scan is missing from the listing it came from, and
      reconciliation has removed the others. */
  lemma NothingMissing(w: World, present: set<string>, prefix: string, stuck: set<string>, s: Scan, actions: seq<UserAction>)
    requires var w0 := Reconciled(w, present, prefix, stuck);
      forall b :: b in s.table.rows && b !in present ==> b in w0.table.rows && s.table.rows[b] == w0.table.rows[b]
    ensures Missing(ActAll(Scanned(Reconciled(w, present, prefix, stuck), s), actions), present, prefix) == {}
  {
    hide LocalEtag;
    var w1 := Scanned(Reconciled(w, present, prefix, stuck), s);
    DecisionsKeepPhotos(w1, actions);
  }

  lemma {:induction false} RowsAfter(start: Scan, jobs: seq<Job>, k: nat, force: bool, present: set<string>)
    requires k <= |jobs| && FromListing(jobs, present)
    ensures forall b :: b in After(start, jobs, k, force).table.rows && b !in present ==>
              b in start.table.rows && After(start, jobs, k, force).table.rows[b] == start.table.rows[b]
  {
    if k > 0 {
      RowsAfter(start, jobs, k - 1, force, present);
    }
  }

  /** The scan of the command line: reconciliation, then the loop. */
  ghost function FullScan(w: World, present: set<string>, prefix: string, stuck: set<string>, jobs: seq<Job>, force: bool): Scan {
    var w0 := Reconciled(w, present, prefix, stuck);
    After(Begin(w0.table, w0.thumbs, |jobs|), jobs, |jobs|, force)
  }

  /** After a scan without failure, and whatever the user decides in between, a
      second scan of the same listing removes no row and skips every photo: the
      catalog stays as it is. The one exception is a photo without an ETag. */
  lemma ScanIsIdempotent(w: World, present: set<string>, prefix: string, stuck: set<string>, jobs: seq<Job>, force: bool,
                         actions: seq<UserAction>, again: seq<Job>)
    requires DistinctBases(jobs) && FromListing(jobs, present)
    requires FullScan(w, present, prefix, stuck, jobs, force).err.None? && FullScan(w, present, prefix, stuck, jobs, force).stats.failed == 0
    requires |again| == |jobs|
      && forall i :: 0 <= i < |jobs| ==> again[i].photo == jobs[i].photo && again[i].checkErr.None?
    ensures var w2 := ActAll(Scanned(Reconciled(w, present, prefix, stuck), FullScan(w, present, prefix, stuck, jobs, force)), actions);
      && Missing(w2, present, prefix) == {} && Reconciled(w2, present, prefix, stuck) == w2
      && (forall i :: 0 <= i < |again| ==> (ShouldSkip(w2.table, w2.thumbs, again[i].photo, false) <==> again[i].photo.jpeg.etag != ""))
      && ((forall i :: 0 <= i < |again| ==> again[i].photo.jpeg.etag != "") ==>
            FullScan(w2, present, prefix, stuck, again, false) == Scan(w2.table, w2.thumbs, Stats(|again|, 0, |again|, 0), None))
  {
    hide UpToDate, ShouldSkip, Turn, Missing;
    var w0 := Reconciled(w, present, prefix, stuck);
    var start := Begin(w0.table, w0.thumbs, |jobs|);
    var s := FullScan(w, present, prefix, stuck, jobs, force);
    var w2 := ActAll(Scanned(w0, s), actions);
    LoopUpdates(start, jobs, |jobs|, force);
    RowsAfter(start, jobs, |jobs|, force, present);
    NothingMissing(w, present, prefix, stuck, s, actions);
    ReconcileNothing(w2, present, prefix, stuck);
    DecisionsKeepPhotos(Scanned(w0, s), actions);
    forall i | 0 <= i < |again|
      ensures UpToDate(w2.table, w2.thumbs, again[i].photo)
    {
      StaysUpToDate(Scanned(w0, s), w2, jobs[i].photo);
      SkipMeans(w2.table, w2.thumbs, again[i].photo);
    }
    if forall i :: 0 <= i < |again| ==> again[i].photo.jpeg.etag != "" {
      LoopSkips(Begin(w2.table, w2.thumbs, |again|), again, |again|);
    }
    forall i | 0 <= i < |again|
      ensures ShouldSkip(w2.table, w2.thumbs, again[i].photo, false) <==> again[i].photo.jpeg.etag != ""
    {
      SkipMeans(w2.table, w2.thumbs, again[i].photo);
    }
  }

  lemma StaysUpToDate(w: World, t: World, p: Photo)
    requires UpToDate(w.table, w.thumbs, p)
    requires t.table.rows.Keys == w.table.rows.Keys && t.thumbs == w.thumbs
    requires forall k :: k in w.table.rows ==> t.table.rows[k].photo == w.table.rows[k].photo
    ensures UpToDate(t.table, t.thumbs, p)
  {
  }

  lemma ReconcileNothing(w: World, present: set<string>, prefix: string, stuck: set<string>)
    requires Missing(w, present, prefix) == {}
    ensures Reconciled(w, present, prefix, stuck) == w
  {
    KeepsAll(w, present, prefix, stuck);
  }

  // ---- The same through the pool ----

  /** The photos of two runs are the same, and no skip check fails. */
  ghost predicate SamePhotos(c: Pool.Config, d: Pool.Config) {
    && |c.jobs| == |d.jobs| && !d.force
    && forall i :: 0 <= i < |c.jobs| ==>
         c.jobs[i].photo == d.jobs[i].photo && c.jobs[i].checkErr.None? && d.jobs[i].checkErr.None?
         && c.jobs[i].photo.jpeg.etag != ""
  }

  /** The second run starts from what the first one left, decisions apart. */
  ghost predicate StartsFrom(d: Pool.Config, t: Table, thumbs: set<string>) {
    && d.thumbs == thumbs && d.table.rows.Keys == t.rows.Keys
    && forall k :: k in t.rows ==> d.table.rows[k].photo == t.rows[k].photo
  }

  /** Whatever the two interleavings and pool sizes: after a run that ended
      "done" without failure, the next one over the same photos skips them all
      and leaves every row and thumbnail as it was. */
  lemma PoolScanIsIdempotent(c: Pool.Config, states: seq<Pool.State>, actions: seq<Pool.Action>, s: Pool.State, snap: Status.Snapshot,
                             d: Pool.Config, states2: seq<Pool.State>, actions2: seq<Pool.Action>, s2: Pool.State, snap2: Status.Snapshot)
    requires Pool.Valid(c) && PoolTheorems.Finished(c, states, actions, s, snap) && snap.phase == "done" && snap.failed == 0
    requires Pool.Valid(d) && PoolTheorems.Finished(d, states2, actions2, s2, snap2) && snap2.phase == "done"
    requires SamePhotos(c, d) && StartsFrom(d, s.table, s.thumbs)
    ensures snap2.skipped == |d.jobs| && snap2.processed == 0 && snap2.failed == 0
    ensures s2.table.rows == d.table.rows && s2.thumbs == d.thumbs
  {
    hide PoolTheorems.Finished, Turn, UpToDate;
    PoolTheorems.PoolRefinesLoop(c, states, actions, s, snap);
    PoolTheorems.PoolRefinesLoop(d, states2, actions2, s2, snap2);
    var start := Begin(c.table, c.thumbs, |c.jobs|);
    var loop := After(start, c.jobs, |c.jobs|, c.force);
    LoopUpdates(start, c.jobs, |c.jobs|, c.force);
    forall i | 0 <= i < |d.jobs|
      ensures UpToDate(d.table, d.thumbs, d.jobs[i].photo)
    {
      CarriedOver(c, loop, s, d, c.jobs[i].photo);
    }
    LoopSkips(Begin(d.table, d.thumbs, |d.jobs|), d.jobs, |d.jobs|);
    SameRows(d, s2.table);
  }

  lemma CarriedOver(c: Pool.Config, loop: Scan, s: Pool.State, d: Pool.Config, p: Photo)
    requires UpToDate(loop.table, loop.thumbs, p) && StartsFrom(d, s.table, s.thumbs)
    requires PoolTheorems.SameUpToIds(c, s.table, loop.table) && s.thumbs == loop.thumbs
    ensures UpToDate(d.table, d.thumbs, p)
  {
    assert s.table.rows[p.keyBase].(id := 0) == loop.table.rows[p.keyBase].(id := 0);
  }

  lemma SameRows(d: Pool.Config, t: Table)
    requires PoolTheorems.SameUpToIds(d, t, d.table)
    ensures t.rows == d.table.rows
  {
    forall k | k in t.rows
      ensures t.rows[k] == d.table.rows[k]
    {
      assert t.rows[k].(id := 0) == d.table.rows[k].(id := 0) && t.rows[k].id == d.table.rows[k].id;
      assert t.rows[k] == t.rows[k].(id := 0).(id := t.rows[k].id);
    }
  }
}
