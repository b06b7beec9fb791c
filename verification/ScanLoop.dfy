/** The sequential scan loop of the command line (`run`, `processOne` and
    `ProcessNoStore` of catalog/catalog.go), which is also the specification the
    worker pool is measured against. */
module ScanLoop {
  import opened Wrappers
  import opened CatalogStore

  /** One listed photo with what its work will come to: the metadata its JPEG
      carries and the errors of the skip check, of fetch-and-render and of the
      row write, if any. */
  datatype Job = Job(photo: Photo, meta: Metadata, checkErr: Option<string>, procErr: Option<string>, storeErr: Option<string>)

  datatype Stats = Stats(total: nat, processed: nat, skipped: nat, failed: nat)

  datatype Scan = Scan(table: Table, thumbs: set<string>, stats: Stats, err: Option<string>)

  /** One turn of the loop. The thumbnail is written before the row. */
  function Turn(s: Scan, job: Job, force: bool): Scan
    requires s.err.None?
  {
    var base := job.photo.keyBase;
    if job.checkErr.Some? && !force then s.(err := job.checkErr)
    else if ShouldSkip(s.table, s.thumbs, job.photo, force) then
      s.(stats := s.stats.(skipped := s.stats.skipped + 1))
    else if job.procErr.Some? then
      s.(stats := s.stats.(failed := s.stats.failed + 1))
    else if job.storeErr.Some? then
      s.(thumbs := s.thumbs + {ThumbPath(base)}, stats := s.stats.(failed := s.stats.failed + 1))
    else
      Scan(Upsert(s.table, job.photo, job.meta), s.thumbs + {ThumbPath(base)},
           s.stats.(processed := s.stats.processed + 1), None)
  }

  /** The state after the first k jobs; an error stops everything after it. */
  function After(start: Scan, jobs: seq<Job>, k: nat, force: bool): Scan
    requires k <= |jobs|
  {
    if k == 0 then start
    else
      var s := After(start, jobs, k - 1, force);
      if s.err.Some? then s else Turn(s, jobs[k - 1], force)
  }

  function Truncate(jobs: seq<Job>, limit: int): seq<Job> {
    if limit > 0 && |jobs| > limit then jobs[..limit] else jobs
  }

  function Begin(table: Table, thumbs: set<string>, total: nat): Scan {
    Scan(table, thumbs, Stats(total, 0, 0, 0), None)
  }

  class Cataloger {
    var table: Table
    var thumbs: set<string>

    constructor (table: Table, thumbs: set<string>)
      ensures this.table == table && this.thumbs == thumbs
    {
      this.table, this.thumbs := table, thumbs;
    }

    /** `interrupted` is the index before which the context is found done, if it
        ever is. */
    method Run(listed: seq<Job>, limit: int, force: bool, interrupted: Option<nat>) returns (stats: Stats, err: Option<string>)
      modifies this
      ensures var jobs := Truncate(listed, limit);
        var k := if interrupted.Some? && interrupted.value < |jobs| then interrupted.value else |jobs|;
        var end := After(Begin(old(table), old(thumbs), |jobs|), jobs, k, force);
        && table == end.table && thumbs == end.thumbs && stats == end.stats
        && err == (if end.err.Some? then end.err else if k < |jobs| then Some("context canceled") else None)
      ensures stats.total == (if 0 < limit < |listed| then limit else |listed|)
      ensures stats.processed + stats.skipped + stats.failed <= stats.total
      ensures err.None? ==> stats.processed + stats.skipped + stats.failed == stats.total
      ensures force ==> stats.skipped == 0
    {
      var jobs := Truncate(listed, limit);
      stats := Stats(|jobs|, 0, 0, 0);
      ghost var start := Begin(table, thumbs, |jobs|);
      ghost var stop := if interrupted.Some? && interrupted.value < |jobs| then interrupted.value else |jobs|;
      AfterCounts(start, jobs, stop, force);
      var i := 0;
      while i < |jobs|
        invariant 0 <= i <= stop
        invariant After(start, jobs, i, force) == Scan(table, thumbs, stats, None)
      {
        if interrupted == Some(i) {
          return stats, Some("context canceled");
        }
        var job := jobs[i];
        if job.checkErr.Some? && !force {
          assert After(start, jobs, i + 1, force).err == job.checkErr;
          Stopped(start, jobs, i + 1, stop, force);
          return stats, job.checkErr;
        }
        if ShouldSkip(table, thumbs, job.photo, force) {
          stats := stats.(skipped := stats.skipped + 1);
        } else if job.procErr.Some? {
          stats := stats.(failed := stats.failed + 1);
        } else {
          thumbs := thumbs + {ThumbPath(job.photo.keyBase)};
          if job.storeErr.Some? {
            stats := stats.(failed := stats.failed + 1);
          } else {
            table := Upsert(table, job.photo, job.meta);
            stats := stats.(processed := stats.processed + 1);
          }
        }
        i := i + 1;
      }
      err := None;
    }
  }

  /** A limit above 0 takes the first photos of the list. */
  lemma TruncateMeans(jobs: seq<Job>, limit: int)
    ensures Truncate(jobs, limit) <= jobs
    ensures |Truncate(jobs, limit)| == if 0 < limit < |jobs| then limit else |jobs|
  {
  }

  /** Each turn counts its photo once, and under force none as skipped. */
  lemma {:induction false} AfterCounts(start: Scan, jobs: seq<Job>, k: nat, force: bool)
    requires k <= |jobs| && start.err.None? && start.stats.processed == start.stats.skipped == start.stats.failed == 0
    ensures var s := After(start, jobs, k, force).stats;
      && s.total == start.stats.total
      && s.processed + s.skipped + s.failed <= k
      && (After(start, jobs, k, force).err.None? ==> s.processed + s.skipped + s.failed == k)
      && (force ==> s.skipped == 0 && After(start, jobs, k, force).err.None?)
  {
    hide Upsert, ThumbPath;
    if k > 0 {
      AfterCounts(start, jobs, k - 1, force);
    }
  }

  /** Once stopped by an error, the loop changes nothing. */
  lemma {:induction false} Stopped(start: Scan, jobs: seq<Job>, i: nat, k: nat, force: bool)
    requires i <= k <= |jobs|
    requires After(start, jobs, i, force).err.Some?
    ensures After(start, jobs, k, force) == After(start, jobs, i, force)
  {
    if i < k {
      Stopped(start, jobs, i, k - 1, force);
    }
  }
}
